/**
 * `_find` and the lower-cased column dictionary it (and `load_orders`)
 * builds: `{c.lower().strip(): c for c in columns}`.
 *
 * The dictionary facts hold for any key function; they are stated for a
 * parameter `key` and used with `KeyOf`.
 */
module Columns {
  import opened Wrappers
  import opened Names

  /** The key a column is looked up by: `c.lower().strip()`. */
  function KeyOf(c: string): string
  {
    Strip(Lower(c))
  }

  /** Some column has the key `k`. */
  ghost predicate HasKey(cols: seq<string>, key: string -> string, k: string)
  {
    exists i :: 0 <= i < |cols| && key(cols[i]) == k
  }

  /** Column `i` is the last one with the key `k`. */
  ghost predicate LastWithKey(cols: seq<string>, key: string -> string, k: string, i: int)
  {
    0 <= i < |cols| && key(cols[i]) == k && forall j :: i < j < |cols| ==> key(cols[j]) != k
  }

  /** A dictionary comprehension `{key(c): c for c in cols}`: a later column overwrites an earlier one. */
  function IndexBy(cols: seq<string>, key: string -> string): map<string, string>
  {
    if cols == [] then map[]
    else IndexBy(cols[..|cols| - 1], key)[key(cols[|cols| - 1]) := cols[|cols| - 1]]
  }

  /** The dictionary `_find` and `load_orders` build. */
  function LowMap(cols: seq<string>): map<string, string>
  {
    IndexBy(cols, KeyOf)
  }

  /** The keys of the dictionary are exactly the keys of the columns. */
  lemma {:induction false} IndexByKeys(cols: seq<string>, key: string -> string)
    ensures forall k :: k in IndexBy(cols, key) <==> HasKey(cols, key, k)
  {
    if cols != [] {
      var init := cols[..|cols| - 1];
      IndexByKeys(init, key);
      assert forall i :: 0 <= i < |init| ==> init[i] == cols[i];
      forall k | HasKey(cols, key, k) ensures k in IndexBy(cols, key) {
        var i :| 0 <= i < |cols| && key(cols[i]) == k;
        if i < |init| {
          assert HasKey(init, key, k);
        }
      }
    }
  }

  /**
   * The keys of the dictionary are exactly the keys of the columns, and
   * each key maps to the last column that has it.
   */
  lemma {:induction false} IndexByLastWins(cols: seq<string>, key: string -> string)
    ensures forall k :: k in IndexBy(cols, key) <==> HasKey(cols, key, k)
    ensures forall k :: k in IndexBy(cols, key) ==>
      exists i :: LastWithKey(cols, key, k, i) && IndexBy(cols, key)[k] == cols[i]
  {
    IndexByKeys(cols, key);
    if cols != [] {
      var init, last := cols[..|cols| - 1], cols[|cols| - 1];
      IndexByLastWins(init, key);
      forall k | k in IndexBy(cols, key)
        ensures exists i :: LastWithKey(cols, key, k, i) && IndexBy(cols, key)[k] == cols[i]
      {
        if k == key(last) {
          assert LastWithKey(cols, key, k, |cols| - 1);
        } else {
          assert k in IndexBy(init, key);
          var i :| LastWithKey(init, key, k, i) && IndexBy(init, key)[k] == init[i];
          assert init[i] == cols[i];
          assert LastWithKey(cols, key, k, i);
        }
      }
    }
  }

  /** The loop of `_find`: the first candidate present in the dictionary decides. */
  function FindIn(low: map<string, string>, candidates: seq<string>): Option<string>
  {
    if candidates == [] then None
    else if candidates[0] in low then Some(low[candidates[0]])
    else FindIn(low, candidates[1..])
  }

  /** `_find(master_cols, candidates)` */
  function Find(cols: seq<string>, candidates: seq<string>): Option<string>
  {
    FindIn(LowMap(cols), candidates)
  }

  /** Candidate `p` is present and no earlier candidate is. */
  ghost predicate FirstPresent(cols: seq<string>, key: string -> string, candidates: seq<string>, p: int)
  {
    0 <= p < |candidates| && HasKey(cols, key, candidates[p]) &&
    forall q :: 0 <= q < p ==> !HasKey(cols, key, candidates[q])
  }

  lemma {:induction false} FindInFirst(low: map<string, string>, candidates: seq<string>)
    ensures FindIn(low, candidates).None? <==> forall p :: 0 <= p < |candidates| ==> candidates[p] !in low
    ensures FindIn(low, candidates).Some? ==> exists p ::
      0 <= p < |candidates| && candidates[p] in low && FindIn(low, candidates).value == low[candidates[p]] &&
      forall q :: 0 <= q < p ==> candidates[q] !in low
  {
    if candidates != [] && candidates[0] !in low {
      var rest := candidates[1..];
      FindInFirst(low, rest);
      assert forall p :: 1 <= p < |candidates| ==> candidates[p] == rest[p - 1];
      if FindIn(low, rest).Some? {
        var p :| 0 <= p < |rest| && rest[p] in low && FindIn(low, rest).value == low[rest[p]] &&
          forall q :: 0 <= q < p ==> rest[q] !in low;
        assert candidates[p + 1] == rest[p];
      }
    }
  }

  /**
   * Looking candidates up in `IndexBy(cols, key)` gives `None` exactly when
   * no candidate is the key of any column, and otherwise the last column
   * whose key is the first candidate (in candidate order) that some column has.
   */
  lemma FindInIndexSpec(cols: seq<string>, key: string -> string, candidates: seq<string>)
    ensures FindIn(IndexBy(cols, key), candidates).None? <==>
      forall p :: 0 <= p < |candidates| ==> !HasKey(cols, key, candidates[p])
    ensures FindIn(IndexBy(cols, key), candidates).Some? ==> exists p, i ::
      FirstPresent(cols, key, candidates, p) && LastWithKey(cols, key, candidates[p], i) &&
      FindIn(IndexBy(cols, key), candidates).value == cols[i]
  {
    var low := IndexBy(cols, key);
    IndexByLastWins(cols, key);
    FindInFirst(low, candidates);
    if FindIn(low, candidates).Some? {
      var p :| 0 <= p < |candidates| && candidates[p] in low && FindIn(low, candidates).value == low[candidates[p]] &&
        forall q :: 0 <= q < p ==> candidates[q] !in low;
      var i :| LastWithKey(cols, key, candidates[p], i) && low[candidates[p]] == cols[i];
      assert FirstPresent(cols, key, candidates, p);
    }
  }

  /**
   * `_find` returns `None` exactly when no candidate is the lower-cased,
   * stripped name of any column; otherwise it returns the last column whose
   * key is the first candidate (in candidate order) that some column has.
   */
  lemma FindSpec(cols: seq<string>, candidates: seq<string>)
    ensures Find(cols, candidates).None? <==> forall p :: 0 <= p < |candidates| ==> !HasKey(cols, KeyOf, candidates[p])
    ensures Find(cols, candidates).Some? ==> exists p, i ::
      FirstPresent(cols, KeyOf, candidates, p) && LastWithKey(cols, KeyOf, candidates[p], i) &&
      Find(cols, candidates).value == cols[i]
  {
    FindInIndexSpec(cols, KeyOf, candidates);
  }
}
