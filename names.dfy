/**
 * `norm_name` (and its copy `OrderService._norm_name`): the join key for
 * customer names. The text is folded to ASCII, stripped, lower-cased, cut
 * down to `[a-z0-9 ]`, its whitespace runs collapsed to one space, and
 * stripped again.
 */
module Names {
  import opened Wrappers

  // ---------------------------------------------------------------------
  // Character classes
  // ---------------------------------------------------------------------

  predicate IsAscii(c: char)
  {
    c as int < 128
  }

  /** What `str.strip` and the regex class `\s` treat as whitespace among ASCII characters. */
  predicate IsPySpace(c: char)
  {
    c == ' ' || 9 <= c as int <= 13 || 28 <= c as int <= 31
  }

  predicate IsUpper(c: char)
  {
    'A' <= c <= 'Z'
  }

  /** Letters and digits that survive normalisation. */
  predicate IsAlnum(c: char)
  {
    'a' <= c <= 'z' || '0' <= c <= '9'
  }

  /** The class `[a-z0-9 ]` the normalised name is cut down to. */
  predicate IsAllowed(c: char)
  {
    IsAlnum(c) || c == ' '
  }

  // ---------------------------------------------------------------------
  // The steps
  // ---------------------------------------------------------------------

  /** `.encode("ascii", "ignore").decode("ascii")`: drop every non-ASCII character. */
  function AsciiFold(s: string): (r: string)
    ensures forall i :: 0 <= i < |r| ==> IsAscii(r[i])
  {
    if s == [] then []
    else (if IsAscii(s[0]) then [s[0]] else []) + AsciiFold(s[1..])
  }

  /** Drop the leading whitespace. */
  function TrimLeft(s: string): (r: string)
    ensures |r| <= |s| && r == s[|s| - |r|..]
    ensures r == [] || !IsPySpace(r[0])
    ensures forall i :: 0 <= i < |s| - |r| ==> IsPySpace(s[i])
  {
    if s != [] && IsPySpace(s[0]) then TrimLeft(s[1..]) else s
  }

  /** Drop the trailing whitespace. */
  function TrimRight(s: string): (r: string)
    ensures |r| <= |s| && r == s[..|r|]
    ensures r == [] || !IsPySpace(r[|r| - 1])
    ensures forall i :: |r| <= i < |s| ==> IsPySpace(s[i])
  {
    if s != [] && IsPySpace(s[|s| - 1]) then TrimRight(s[..|s| - 1]) else s
  }

  /** `str.strip()` */
  function Strip(s: string): (r: string)
  {
    TrimRight(TrimLeft(s))
  }

  function LowerChar(c: char): char
  {
    if IsUpper(c) then (c as int + 32) as char else c
  }

  /** `str.lower()` on ASCII text. */
  function Lower(s: string): (r: string)
    ensures |r| == |s|
    ensures forall i :: 0 <= i < |s| ==> !IsUpper(r[i])
  {
    seq(|s|, i requires 0 <= i < |s| => LowerChar(s[i]))
  }

  /** `re.sub(r"[^a-z0-9 ]", "", s)` */
  function KeepAllowed(s: string): (r: string)
    ensures forall i :: 0 <= i < |r| ==> IsAllowed(r[i])
  {
    if s == [] then []
    else (if IsAllowed(s[0]) then [s[0]] else []) + KeepAllowed(s[1..])
  }

  /** `re.sub(r"\s+", " ", s)`: each maximal run of whitespace becomes one space. */
  function Collapse(s: string): (r: string)
    decreases |s|
  {
    if s == [] then []
    else if IsPySpace(s[0]) then " " + Collapse(TrimLeft(s))
    else [s[0]] + Collapse(s[1..])
  }

  /** `norm_name`: `None` gives the empty key; anything else is normalised through its text form. */
  function NormName(s: Option<string>): (r: string)
    ensures s.None? ==> r == ""
  {
    match s
    case None => ""
    case Some(t) => Strip(Collapse(KeepAllowed(Lower(Strip(AsciiFold(t))))))
  }

  // ---------------------------------------------------------------------
  // The shape of a normalised name
  // ---------------------------------------------------------------------

  /** No character is whitespace next to whitespace. */
  predicate NoDoubleSpace(s: string)
  {
    forall i :: 0 <= i < |s| - 1 ==> !(IsPySpace(s[i]) && IsPySpace(s[i + 1]))
  }

  /** Only `[a-z0-9 ]`, no space at either end and never two spaces in a row. */
  predicate IsNormalName(s: string)
  {
    && (forall i :: 0 <= i < |s| ==> IsAllowed(s[i]))
    && (s == [] || (s[0] != ' ' && s[|s| - 1] != ' '))
    && NoDoubleSpace(s)
  }

  /** A collapsed string starts with the first character of its input when that is not whitespace. */
  lemma CollapseHead(s: string)
    requires s != [] && !IsPySpace(s[0])
    ensures Collapse(s) != [] && Collapse(s)[0] == s[0]
  {
  }

  /**
   * Collapsing keeps the allowed alphabet and leaves no whitespace next to
   * whitespace.
   */
  lemma {:induction false} CollapseShape(s: string)
    requires forall i :: 0 <= i < |s| ==> IsAllowed(s[i])
    ensures forall i :: 0 <= i < |Collapse(s)| ==> IsAllowed(Collapse(s)[i])
    ensures NoDoubleSpace(Collapse(s))
    decreases |s|
  {
    if s == [] {
    } else if IsPySpace(s[0]) {
      var t := TrimLeft(s);
      CollapseShape(t);
      if t != [] {
        CollapseHead(t);
      }
      assert Collapse(s) == [' '] + Collapse(t);
      ConsShape(' ', Collapse(t));
    } else {
      CollapseShape(s[1..]);
      assert Collapse(s) == [s[0]] + Collapse(s[1..]);
      ConsShape(s[0], Collapse(s[1..]));
    }
  }

  /** Putting an allowed character in front keeps single spacing unless it makes a double space. */
  lemma ConsShape(c: char, x: string)
    requires IsAllowed(c) && forall i :: 0 <= i < |x| ==> IsAllowed(x[i])
    requires NoDoubleSpace(x)
    requires IsPySpace(c) ==> x == [] || !IsPySpace(x[0])
    ensures forall i :: 0 <= i < |x| + 1 ==> IsAllowed(([c] + x)[i])
    ensures NoDoubleSpace([c] + x)
  {
    assert forall i :: 1 <= i < |x| + 1 ==> ([c] + x)[i] == x[i - 1];
  }

  /** A slice of a string inherits its alphabet and its single spacing. */
  lemma SliceShape(s: string, lo: nat, hi: nat)
    requires lo <= hi <= |s|
    requires forall i :: 0 <= i < |s| ==> IsAllowed(s[i])
    requires NoDoubleSpace(s)
    ensures forall i :: 0 <= i < hi - lo ==> IsAllowed(s[lo..hi][i])
    ensures NoDoubleSpace(s[lo..hi])
  {
    assert forall i :: 0 <= i < hi - lo ==> s[lo..hi][i] == s[lo + i];
  }

  /** Where the stripped text starts in its input. */
  function StripStart(s: string): nat
  {
    |s| - |TrimLeft(s)|
  }

  /** Where the stripped text ends in its input. */
  function StripEnd(s: string): nat
  {
    StripStart(s) + |Strip(s)|
  }

  /** `Strip` returns a slice of its input and cuts off only whitespace. */
  lemma StripSlice(s: string)
    ensures StripStart(s) <= StripEnd(s) <= |s| && Strip(s) == s[StripStart(s)..StripEnd(s)]
    ensures forall i :: 0 <= i < StripStart(s) ==> IsPySpace(s[i])
    ensures forall i :: StripEnd(s) <= i < |s| ==> IsPySpace(s[i])
  {
    StripIsSlice(s);
    StripCutsSpace(s);
  }

  lemma StripIsSlice(s: string)
    ensures StripStart(s) <= StripEnd(s) <= |s| && Strip(s) == s[StripStart(s)..StripEnd(s)]
  {
    var t := TrimLeft(s);
    TakeOfDrop(s, |s| - |t|, TrimRight(t));
  }

  lemma StripCutsSpace(s: string)
    ensures StripEnd(s) <= |s|
    ensures forall i :: StripEnd(s) <= i < |s| ==> IsPySpace(s[i])
  {
    var t := TrimLeft(s);
    SpacesOfDrop(s, |s| - |t|, |TrimRight(t)|);
  }

  /** A prefix of a suffix is a slice. */
  lemma TakeOfDrop(s: string, lo: nat, r: string)
    requires lo <= |s| && |r| <= |s| - lo && r == s[lo..][..|r|]
    ensures r == s[lo..lo + |r|]
  {
  }

  /** Whitespace at the end of a suffix is whitespace at the end of the whole. */
  lemma SpacesOfDrop(s: string, lo: nat, n: nat)
    requires lo + n <= |s|
    requires forall i :: n <= i < |s| - lo ==> IsPySpace(s[lo..][i])
    ensures forall i :: lo + n <= i < |s| ==> IsPySpace(s[i])
  {
    forall i | lo + n <= i < |s| ensures IsPySpace(s[i]) {
      assert s[i] == s[lo..][i - lo];
    }
  }

  /** The stripped text has no whitespace at either end. */
  lemma StripEnds(s: string)
    ensures Strip(s) == [] || (!IsPySpace(Strip(s)[0]) && !IsPySpace(Strip(s)[|Strip(s)| - 1]))
  {
    var t := TrimLeft(s);
    var r := TrimRight(t);
    if r != [] {
      assert r[0] == t[0];
    }
  }

  /** Every normalised name has the shape of a normalised name. */
  lemma NormNameShape(s: Option<string>)
    ensures IsNormalName(NormName(s))
  {
    if s.Some? {
      var k := KeepAllowed(Lower(Strip(AsciiFold(s.value))));
      var c := Collapse(k);
      CollapseShape(k);
      StripSlice(c);
      StripEnds(c);
      SliceShape(c, StripStart(c), StripEnd(c));
    }
  }

  // ---------------------------------------------------------------------
  // Idempotence
  // ---------------------------------------------------------------------

  lemma {:induction false} AsciiFoldKeepsAscii(s: string)
    requires forall i :: 0 <= i < |s| ==> IsAscii(s[i])
    ensures AsciiFold(s) == s
  {
    if s != [] {
      AsciiFoldKeepsAscii(s[1..]);
    }
  }

  lemma {:induction false} KeepAllowedKeepsAllowed(s: string)
    requires forall i :: 0 <= i < |s| ==> IsAllowed(s[i])
    ensures KeepAllowed(s) == s
  {
    if s != [] {
      KeepAllowedKeepsAllowed(s[1..]);
    }
  }

  lemma {:induction false} CollapseKeepsSingleSpaced(s: string)
    requires forall i :: 0 <= i < |s| ==> IsAllowed(s[i])
    requires NoDoubleSpace(s)
    ensures Collapse(s) == s
    decreases |s|
  {
    if s != [] {
      assert NoDoubleSpace(s[1..]) by {
        assert forall i :: 0 <= i < |s| - 1 ==> s[1..][i] == s[i + 1];
      }
      CollapseKeepsSingleSpaced(s[1..]);
      if IsPySpace(s[0]) {
        assert s[1..] == [] || !IsPySpace(s[1]);
        assert TrimLeft(s) == s[1..];
        assert s[0] == ' ';
      }
    }
  }

  /** A name that already has the normalised shape comes out of `NormName` unchanged. */
  lemma NormNameFixesNormal(t: string)
    requires IsNormalName(t)
    ensures NormName(Some(t)) == t
  {
    AsciiFoldKeepsAscii(t);
    StripFixesNormal(t);
    LowerFixesAllowed(t);
    KeepAllowedKeepsAllowed(t);
    CollapseKeepsSingleSpaced(t);
  }

  /** A normalised name has no whitespace to strip. */
  lemma StripFixesNormal(t: string)
    requires IsNormalName(t)
    ensures Strip(t) == t
  {
    assert TrimLeft(t) == t;
    assert TrimRight(t) == t;
  }

  /** Text in `[a-z0-9 ]` is already lower-case. */
  lemma LowerFixesAllowed(t: string)
    requires forall i :: 0 <= i < |t| ==> IsAllowed(t[i])
    ensures Lower(t) == t
  {
  }

  /** `norm_name(norm_name(s)) == norm_name(s)` */
  lemma NormNameIdempotent(s: Option<string>)
    ensures NormName(Some(NormName(s))) == NormName(s)
  {
    NormNameShape(s);
    NormNameFixesNormal(NormName(s));
  }

  // ---------------------------------------------------------------------
  // What survives: the letters and digits, lower-cased, in order
  // ---------------------------------------------------------------------

  /** The text without its whitespace. */
  function RemoveSpaces(s: string): (r: string)
    ensures forall i :: 0 <= i < |r| ==> !IsPySpace(r[i])
  {
    if s == [] then []
    else (if IsPySpace(s[0]) then [] else [s[0]]) + RemoveSpaces(s[1..])
  }

  /** The letters `a-z` and digits of the text. */
  function KeepAlnum(s: string): (r: string)
    ensures forall i :: 0 <= i < |r| ==> IsAlnum(r[i])
  {
    if s == [] then []
    else (if IsAlnum(s[0]) then [s[0]] else []) + KeepAlnum(s[1..])
  }

  lemma {:induction false} RemoveSpacesAppend(a: string, b: string)
    ensures RemoveSpaces(a + b) == RemoveSpaces(a) + RemoveSpaces(b)
  {
    if a == [] {
      assert a + b == b;
    } else {
      assert (a + b)[0] == a[0];
      assert (a + b)[1..] == a[1..] + b;
      RemoveSpacesAppend(a[1..], b);
    }
  }

  lemma {:induction false} KeepAlnumAppend(a: string, b: string)
    ensures KeepAlnum(a + b) == KeepAlnum(a) + KeepAlnum(b)
  {
    if a == [] {
      assert a + b == b;
    } else {
      assert (a + b)[0] == a[0];
      assert (a + b)[1..] == a[1..] + b;
      KeepAlnumAppend(a[1..], b);
    }
  }

  lemma {:induction false} RemoveSpacesOfSpaces(s: string)
    requires forall i :: 0 <= i < |s| ==> IsPySpace(s[i])
    ensures RemoveSpaces(s) == []
  {
    if s != [] {
      RemoveSpacesOfSpaces(s[1..]);
    }
  }

  lemma {:induction false} KeepAlnumOfNone(s: string)
    requires forall i :: 0 <= i < |s| ==> !IsAlnum(s[i])
    ensures KeepAlnum(s) == []
  {
    if s != [] {
      KeepAlnumOfNone(s[1..]);
    }
  }

  /** A string is its head, its middle and its tail. */
  lemma SplitThree(s: string, lo: nat, hi: nat)
    requires lo <= hi <= |s|
    ensures s == s[..lo] + s[lo..hi] + s[hi..]
  {
  }

  /** Cutting whitespace off the ends removes nothing else. */
  lemma RemoveSpacesStrip(s: string)
    ensures RemoveSpaces(Strip(s)) == RemoveSpaces(s)
  {
    StripSlice(s);
    var lo, hi := StripStart(s), StripEnd(s);
    SplitThree(s, lo, hi);
    RemoveSpacesAround(s[..lo], s[lo..hi], s[hi..]);
  }

  /** Whitespace around a string disappears with the spaces. */
  lemma RemoveSpacesAround(a: string, b: string, c: string)
    requires forall i :: 0 <= i < |a| ==> IsPySpace(a[i])
    requires forall i :: 0 <= i < |c| ==> IsPySpace(c[i])
    ensures RemoveSpaces(a + b + c) == RemoveSpaces(b)
  {
    RemoveSpacesAppend(a + b, c);
    RemoveSpacesAppend(a, b);
    RemoveSpacesOfSpaces(a);
    RemoveSpacesOfSpaces(c);
  }

  /** Collapsing whitespace runs changes only whitespace. */
  lemma {:induction false} RemoveSpacesCollapse(s: string)
    ensures RemoveSpaces(Collapse(s)) == RemoveSpaces(s)
    decreases |s|
  {
    if s == [] {
    } else if IsPySpace(s[0]) {
      var t := TrimLeft(s);
      RemoveSpacesCollapse(t);
      assert Collapse(s) == " " + Collapse(t);
      RemoveSpacesLeading(" ", Collapse(t));
      LeadingSpaces(s, |s| - |t|);
    } else {
      RemoveSpacesCollapse(s[1..]);
      assert Collapse(s) == [s[0]] + Collapse(s[1..]);
      RemoveSpacesAppend([s[0]], Collapse(s[1..]));
      assert s == [s[0]] + s[1..];
      RemoveSpacesAppend([s[0]], s[1..]);
    }
  }

  /** Leading whitespace disappears with the spaces. */
  lemma RemoveSpacesLeading(a: string, b: string)
    requires forall i :: 0 <= i < |a| ==> IsPySpace(a[i])
    ensures RemoveSpaces(a + b) == RemoveSpaces(b)
  {
    RemoveSpacesAppend(a, b);
    RemoveSpacesOfSpaces(a);
  }

  /** Removing the spaces ignores a prefix of whitespace. */
  lemma LeadingSpaces(s: string, k: nat)
    requires k <= |s| && forall i :: 0 <= i < k ==> IsPySpace(s[i])
    ensures RemoveSpaces(s) == RemoveSpaces(s[k..])
  {
    assert s == s[..k] + s[k..];
    RemoveSpacesLeading(s[..k], s[k..]);
  }

  /** Of the allowed characters, the non-whitespace ones are the letters and digits. */
  lemma {:induction false} RemoveSpacesKeepAllowed(s: string)
    ensures RemoveSpaces(KeepAllowed(s)) == KeepAlnum(s)
  {
    if s != [] {
      RemoveSpacesKeepAllowed(s[1..]);
      RemoveSpacesAppend(if IsAllowed(s[0]) then [s[0]] else [], KeepAllowed(s[1..]));
    }
  }

  /** Lower-casing the stripped text loses no letter or digit. */
  lemma KeepAlnumLowerStrip(s: string)
    ensures KeepAlnum(Lower(Strip(s))) == KeepAlnum(Lower(s))
  {
    StripSlice(s);
    var lo, hi := StripStart(s), StripEnd(s);
    SplitThree(s, lo, hi);
    KeepAlnumLowerAround(s[..lo], s[lo..hi], s[hi..]);
  }

  /** Whitespace around a string holds no letter or digit. */
  lemma KeepAlnumLowerAround(a: string, b: string, c: string)
    requires forall i :: 0 <= i < |a| ==> IsPySpace(a[i])
    requires forall i :: 0 <= i < |c| ==> IsPySpace(c[i])
    ensures KeepAlnum(Lower(a + b + c)) == KeepAlnum(Lower(b))
  {
    LowerAppend(a + b, c);
    LowerAppend(a, b);
    KeepAlnumAppend(Lower(a) + Lower(b), Lower(c));
    KeepAlnumAppend(Lower(a), Lower(b));
    KeepAlnumLowerOfSpaces(a);
    KeepAlnumLowerOfSpaces(c);
  }

  /** Lower-casing works character by character. */
  lemma LowerAppend(a: string, b: string)
    ensures Lower(a + b) == Lower(a) + Lower(b)
  {
  }

  /** Whitespace holds no letter or digit, before or after lower-casing. */
  lemma KeepAlnumLowerOfSpaces(a: string)
    requires forall i :: 0 <= i < |a| ==> IsPySpace(a[i])
    ensures KeepAlnum(Lower(a)) == []
  {
    KeepAlnumOfNone(Lower(a));
  }

  /** Dropping the non-ASCII characters loses no letter or digit. */
  lemma {:induction false} KeepAlnumLowerFold(s: string)
    ensures KeepAlnum(Lower(AsciiFold(s))) == KeepAlnum(Lower(s))
  {
    if s != [] {
      var head, tail := if IsAscii(s[0]) then [s[0]] else [], s[1..];
      KeepAlnumLowerFold(tail);
      assert AsciiFold(s) == head + AsciiFold(tail);
      assert s == [s[0]] + tail;
      KeepAlnumLowerAppend(head, AsciiFold(tail));
      KeepAlnumLowerAppend([s[0]], tail);
      FoldedHead(s[0]);
    }
  }

  /** Lower-casing and keeping letters and digits both work character by character. */
  lemma KeepAlnumLowerAppend(a: string, b: string)
    ensures KeepAlnum(Lower(a + b)) == KeepAlnum(Lower(a)) + KeepAlnum(Lower(b))
  {
    LowerAppend(a, b);
    KeepAlnumAppend(Lower(a), Lower(b));
  }

  /** A character dropped by the ASCII fold is not a letter or digit after lower-casing. */
  lemma FoldedHead(c: char)
    ensures KeepAlnum(Lower(if IsAscii(c) then [c] else [])) == KeepAlnum(Lower([c]))
  {
    if !IsAscii(c) {
      assert Lower([c]) == [c];
      assert KeepAlnum([c]) == [] + KeepAlnum([]);
    }
  }

  /**
   * Apart from its single spaces, a normalised name is exactly the ASCII
   * letters and digits of the input, lower-cased, in their original order.
   * This holds for `AsciiFold`, which drops every non-ASCII character; the
   * program first decomposes with NFKD, so an accented letter keeps its
   * base letter there ("José" gives "jose"), while here it is dropped.
   */
  lemma NormNameLetters(t: string)
    ensures RemoveSpaces(NormName(Some(t))) == KeepAlnum(Lower(t))
  {
    var a := AsciiFold(t);
    var k := KeepAllowed(Lower(Strip(a)));
    RemoveSpacesStrip(Collapse(k));
    RemoveSpacesCollapse(k);
    RemoveSpacesKeepAllowed(Lower(Strip(a)));
    KeepAlnumLowerStrip(a);
    KeepAlnumLowerFold(t);
  }
}
