/**
 * The angular sweep partitioner, `VRPService._split_sweep`.
 *
 * Stops are addressed by position `0..n-1`; the caller resets the stop table's
 * index to exactly these positions before routing, which is what makes the
 * source's label-by-index writes land on the right stop. The bearing angle of
 * each stop around the depot is floating-point trigonometry and is an input
 * here (`angles[i]` is the angle of stop `i`).
 */
module Sweep {
  import opened Seqs

  // ------------------------------------------------------------------
  // Sorting the stops by angle (the `sort_values(by="angle")` call)
  // ------------------------------------------------------------------

  /** `order` visits stops by non-decreasing angle. */
  predicate AnglesAscending(angles: seq<real>, order: seq<nat>)
    requires AllBelow(order, |angles|)
  {
    forall i, j :: 0 <= i < j < |order| ==> angles[order[i]] <= angles[order[j]]
  }

  /** Inserts stop `x` in front of the first stop whose angle is not smaller. */
  function InsertByAngle(angles: seq<real>, x: nat, sorted: seq<nat>): (r: seq<nat>)
    requires x < |angles| && AllBelow(sorted, |angles|)
    ensures |r| == |sorted| + 1 && AllBelow(r, |angles|)
  {
    if sorted == [] || angles[x] <= angles[sorted[0]] then
      [x] + sorted
    else
      [sorted[0]] + InsertByAngle(angles, x, sorted[1..])
  }

  /** Insertion sort of stop indices by angle; equal angles keep index order. */
  function SortByAngle(angles: seq<real>, idx: seq<nat>): (r: seq<nat>)
    requires AllBelow(idx, |angles|)
    ensures |r| == |idx| && AllBelow(r, |angles|)
  {
    if idx == [] then []
    else InsertByAngle(angles, idx[0], SortByAngle(angles, idx[1..]))
  }

  /** Insertion adds exactly one occurrence of `x` and loses nothing. */
  lemma {:induction false} InsertByAngleAddsX(angles: seq<real>, x: nat, sorted: seq<nat>)
    requires x < |angles| && AllBelow(sorted, |angles|)
    ensures multiset(InsertByAngle(angles, x, sorted)) == multiset(sorted) + multiset{x}
  {
    var r := InsertByAngle(angles, x, sorted);
    if sorted != [] && angles[x] > angles[sorted[0]] {
      var s0, tail := sorted[0], sorted[1..];
      assert sorted == [s0] + tail;
      InsertByAngleAddsX(angles, x, tail);
      assert r == [s0] + InsertByAngle(angles, x, tail);
    } else {
      assert r == [x] + sorted;
    }
  }

  /** The inserted list starts with `x` or with the old first stop (a step of `InsertByAngleAscending`). */
  lemma InsertByAngleHead(angles: seq<real>, x: nat, sorted: seq<nat>)
    requires x < |angles| && AllBelow(sorted, |angles|)
    ensures var r := InsertByAngle(angles, x, sorted); r[0] == x || r[0] == sorted[0]
  {
  }

  /** Inserting into an ascending list keeps it ascending. */
  lemma {:induction false} InsertByAngleAscending(angles: seq<real>, x: nat, sorted: seq<nat>)
    requires x < |angles| && AllBelow(sorted, |angles|)
    requires AnglesAscending(angles, sorted)
    ensures AnglesAscending(angles, InsertByAngle(angles, x, sorted))
  {
    if sorted != [] && angles[x] > angles[sorted[0]] {
      var tail := sorted[1..];
      InsertByAngleAscending(angles, x, tail);
      InsertByAngleHead(angles, x, tail);
      var rest := InsertByAngle(angles, x, tail);
      assert InsertByAngle(angles, x, sorted) == [sorted[0]] + rest;
      assert angles[sorted[0]] <= angles[rest[0]] by {
        if rest[0] != x {
          assert rest[0] == sorted[1];
        }
      }
      ConsAscending(angles, sorted[0], rest);
    } else {
      assert InsertByAngle(angles, x, sorted) == [x] + sorted;
      ConsAscending(angles, x, sorted);
    }
  }

  /** A stop no later in angle than the head of an ascending list can go in front of it. */
  lemma ConsAscending(angles: seq<real>, c: nat, rest: seq<nat>)
    requires c < |angles| && AllBelow(rest, |angles|)
    requires AnglesAscending(angles, rest)
    requires rest == [] || angles[c] <= angles[rest[0]]
    ensures AllBelow([c] + rest, |angles|) && AnglesAscending(angles, [c] + rest)
  {
    var r := [c] + rest;
    forall i, j | 0 <= i < j < |r| ensures angles[r[i]] <= angles[r[j]] {
      assert r[j] == rest[j - 1];
      if i > 0 {
        assert r[i] == rest[i - 1];
      } else if j > 1 {
        assert angles[rest[0]] <= angles[rest[j - 1]];
      }
    }
  }

  /** The insertion sort yields a permutation of its input. */
  lemma {:induction false} SortByAnglePermutes(angles: seq<real>, idx: seq<nat>)
    requires AllBelow(idx, |angles|)
    ensures multiset(SortByAngle(angles, idx)) == multiset(idx)
  {
    if idx != [] {
      var tail := idx[1..];
      var sorted := SortByAngle(angles, tail);
      assert SortByAngle(angles, idx) == InsertByAngle(angles, idx[0], sorted);
      SortByAnglePermutes(angles, tail);
      InsertByAngleAddsX(angles, idx[0], sorted);
      assert idx == [idx[0]] + tail;
      assert multiset(idx) == multiset(tail) + multiset{idx[0]};
    }
  }

  /** The insertion sort yields stops in ascending angle. */
  lemma {:induction false} SortByAngleAscending(angles: seq<real>, idx: seq<nat>)
    requires AllBelow(idx, |angles|)
    ensures AnglesAscending(angles, SortByAngle(angles, idx))
  {
    if idx != [] {
      SortByAngleAscending(angles, idx[1..]);
      InsertByAngleAscending(angles, idx[0], SortByAngle(angles, idx[1..]));
    }
  }

  /** The stops `0..n-1` in ascending-angle order (`df_sorted.index`). */
  function AngleOrder(angles: seq<real>): (order: seq<nat>)
    ensures |order| == |angles|
    ensures IsPermutation(order)
    ensures AllBelow(order, |angles|)
    ensures AnglesAscending(angles, order)
  {
    SortByAnglePermutes(angles, Range(|angles|));
    SortByAngleAscending(angles, Range(|angles|));
    SortByAngle(angles, Range(|angles|))
  }

  // ------------------------------------------------------------------
  // Labels and per-vehicle counts (`np.bincount(labels, minlength=k)`)
  // ------------------------------------------------------------------

  /** Every label names a vehicle `0..k-1`. */
  predicate InRange(labels: seq<int>, k: nat)
  {
    forall i :: 0 <= i < |labels| ==> 0 <= labels[i] < k
  }

  /** Number of stops labelled `v`. */
  function Count(labels: seq<int>, v: int): nat
  {
    multiset(labels)[v]
  }

  /** The per-vehicle stop counts. */
  function Counts(labels: seq<int>, k: nat): (c: seq<nat>)
    ensures |c| == k
    ensures forall v :: 0 <= v < k ==> c[v] == Count(labels, v)
  {
    seq(k, v => Count(labels, v))
  }

  /** No two vehicles' counts differ by more than one. */
  predicate Balanced(c: seq<nat>)
  {
    forall i, j :: 0 <= i < |c| && 0 <= j < |c| ==> c[i] <= c[j] + 1
  }

  /** `np.argmax`: the first position of a largest element. */
  function ArgMax(c: seq<nat>): (i: nat)
    requires c != []
    ensures i < |c|
    ensures forall j :: 0 <= j < |c| ==> c[j] <= c[i]
    ensures forall j :: 0 <= j < i ==> c[j] < c[i]
  {
    if |c| == 1 then 0
    else
      var m := ArgMax(c[..|c| - 1]);
      if c[|c| - 1] > c[m] then |c| - 1 else m
  }

  /** `np.argmin`: the first position of a smallest element. */
  function ArgMin(c: seq<nat>): (i: nat)
    requires c != []
    ensures i < |c|
    ensures forall j :: 0 <= j < |c| ==> c[i] <= c[j]
    ensures forall j :: 0 <= j < i ==> c[i] < c[j]
  {
    if |c| == 1 then 0
    else
      var m := ArgMin(c[..|c| - 1]);
      if c[|c| - 1] < c[m] then |c| - 1 else m
  }

  /** `np.where(labels == v)[0]`: the stops labelled `v`, in ascending index order. */
  function Positions(labels: seq<int>, v: int): (r: seq<nat>)
    ensures AllBelow(r, |labels|)
    ensures forall a, b :: 0 <= a < b < |r| ==> r[a] < r[b]
    ensures forall i :: 0 <= i < |labels| ==> (labels[i] == v <==> i in r)
    ensures |r| == Count(labels, v)
  {
    if labels == [] then []
    else
      var init := labels[..|labels| - 1];
      assert labels == init + [labels[|labels| - 1]];
      Positions(init, v) + if labels[|labels| - 1] == v then [|labels| - 1] else []
  }

  // ------------------------------------------------------------------
  // Round-robin dealing
  // ------------------------------------------------------------------

  /** The label the stop of angular rank `i` receives: `i % k`. */
  function RoundRobin(n: nat, k: nat): (r: seq<int>)
    requires k > 0
    ensures |r| == n
    ensures forall i :: 0 <= i < n ==> r[i] == i % k
  {
    seq(n, i => i % k)
  }

  lemma {:induction false} MulBounds(d: int, k: int)
    requires k >= 0
    ensures d >= 1 ==> d * k >= k
    ensures d <= -1 ==> d * k <= -k
    decreases if d < 0 then -d else d
  {
    if d > 1 {
      MulBounds(d - 1, k);
      assert d * k == (d - 1) * k + k;
    } else if d < -1 {
      MulBounds(d + 1, k);
      assert d * k == (d + 1) * k - k;
    }
  }

  lemma DivModUnique(a: nat, k: nat, q: int, r: int)
    requires k > 0 && 0 <= r < k && a == q * k + r
    ensures a / k == q && a % k == r
  {
    var q', r' := a / k, a % k;
    assert a == q' * k + r';
    assert (q - q') * k == r' - r;
    MulBounds(q - q', k);
  }

  lemma DivModStep(m: nat, k: nat)
    requires k > 0
    ensures m % k == k - 1 ==> (m + 1) / k == m / k + 1 && (m + 1) % k == 0
    ensures m % k < k - 1 ==> (m + 1) / k == m / k && (m + 1) % k == m % k + 1
  {
    var q, r := m / k, m % k;
    if r == k - 1 {
      DivModUnique(m + 1, k, q + 1, 0);
    } else {
      DivModUnique(m + 1, k, q, r + 1);
    }
  }

  /** Dealing `n` stops round-robin gives vehicle `v` either `floor(n/k)` or `ceil(n/k)` stops. */
  lemma {:induction false} RoundRobinCount(n: nat, k: nat, v: int)
    requires k > 0 && 0 <= v < k
    ensures Count(RoundRobin(n, k), v) == n / k + (if v < n % k then 1 else 0)
  {
    if n > 0 {
      RoundRobinCount(n - 1, k, v);
      assert RoundRobin(n, k) == RoundRobin(n - 1, k) + [(n - 1) % k];
      DivModStep(n - 1, k);
    }
  }

  lemma RoundRobinBalanced(n: nat, k: nat)
    requires k > 0
    ensures Balanced(Counts(RoundRobin(n, k), k))
  {
    forall v | 0 <= v < k ensures Count(RoundRobin(n, k), v) == n / k + (if v < n % k then 1 else 0) {
      RoundRobinCount(n, k, v);
    }
  }

  // ------------------------------------------------------------------
  // One rebalance step
  // ------------------------------------------------------------------

  /** `abs(a - b)`. */
  function Gap(a: real, b: real): real
  {
    if a < b then b - a else a - b
  }

  function Sum(xs: seq<real>): real
  {
    if xs == [] then 0.0 else Sum(xs[..|xs| - 1]) + xs[|xs| - 1]
  }

  /** `np.mean`. */
  function Mean(xs: seq<real>): real
    requires xs != []
  {
    Sum(xs) / (|xs| as real)
  }

  /**
   * The angle the candidate is measured against: the mean angle of the stops
   * labelled `lo`, or the mean of all angles when `lo` has none.
   */
  function LoTarget(labels: seq<int>, angles: seq<real>, lo: int): real
    requires |labels| == |angles| && angles != []
  {
    if Count(labels, lo) > 0 then Mean(Gather(angles, Positions(labels, lo))) else Mean(angles)
  }

  lemma IncreasingRank(idxs: seq<nat>, t: nat, i: nat)
    requires forall a, b :: 0 <= a < b < |idxs| ==> idxs[a] < idxs[b]
    requires t < |idxs| && i < |idxs| && idxs[t] < idxs[i]
    ensures t < i
  {
  }

  /** Python's `min(idxs, key=...)`: the first position whose angle is closest to `target`. */
  function FirstClosest(idxs: seq<nat>, angles: seq<real>, target: real): (i: nat)
    requires idxs != [] && AllBelow(idxs, |angles|)
    ensures i < |idxs|
    ensures forall j :: 0 <= j < |idxs| ==> Gap(angles[idxs[i]], target) <= Gap(angles[idxs[j]], target)
    ensures forall j :: 0 <= j < i ==> Gap(angles[idxs[j]], target) > Gap(angles[idxs[i]], target)
  {
    if |idxs| == 1 then 0
    else
      var m := FirstClosest(idxs[1..], angles, target) + 1;
      if Gap(angles[idxs[0]], target) <= Gap(angles[idxs[m]], target) then 0 else m
  }

  /**
   * The stop moved from `hi` to `lo`: among the stops labelled `hi`, the one
   * whose angle is closest to `LoTarget`, the lowest index on ties.
   */
  function Candidate(labels: seq<int>, angles: seq<real>, hi: int, lo: int): (cand: nat)
    requires |labels| == |angles| && hi in labels
    ensures cand < |labels| && labels[cand] == hi
    ensures forall j :: 0 <= j < |labels| && labels[j] == hi ==>
      Gap(angles[cand], LoTarget(labels, angles, lo)) <= Gap(angles[j], LoTarget(labels, angles, lo))
    ensures forall j :: 0 <= j < cand && labels[j] == hi ==>
      Gap(angles[j], LoTarget(labels, angles, lo)) > Gap(angles[cand], LoTarget(labels, angles, lo))
  {
    var idxs := Positions(labels, hi);
    var target := LoTarget(labels, angles, lo);
    var i := FirstClosest(idxs, angles, target);
    forall j | 0 <= j < idxs[i] && labels[j] == hi
      ensures Gap(angles[j], target) > Gap(angles[idxs[i]], target)
    {
      var t :| 0 <= t < |idxs| && idxs[t] == j;
      IncreasingRank(idxs, t, i);
    }
    idxs[i]
  }

  /** Moving stop `cand` from `hi` to `lo` moves one unit between their counts and nothing else. */
  lemma MoveOne(labels: seq<int>, k: nat, counts: seq<nat>, cand: nat, hi: int, lo: int)
    requires cand < |labels| && labels[cand] == hi && InRange(labels, k)
    requires 0 <= hi < k && 0 <= lo < k && hi != lo
    requires counts == Counts(labels, k)
    ensures InRange(labels[cand := lo], k)
    ensures counts[hi] > 0
    ensures Counts(labels[cand := lo], k) == counts[hi := counts[hi] - 1][lo := counts[lo] + 1]
  {
    var moved := labels[cand := lo];
    assert multiset(moved) == multiset(labels) - multiset{hi} + multiset{lo};
    var c' := Counts(moved, k);
    forall v | 0 <= v < k
      ensures c'[v] == counts[hi := counts[hi] - 1][lo := counts[lo] + 1][v]
    {
    }
  }

  /** Sum of squared counts: the variant of the rebalance loop. */
  function SumSq(c: seq<nat>): nat
  {
    if c == [] then 0 else SumSq(c[..|c| - 1]) + c[|c| - 1] * c[|c| - 1]
  }

  lemma {:induction false} SumSqUpdate(c: seq<nat>, i: nat, x: nat)
    requires i < |c|
    ensures SumSq(c[i := x]) == SumSq(c) - c[i] * c[i] + x * x
  {
    var n := |c|;
    if i < n - 1 {
      assert c[i := x][..n - 1] == c[..n - 1][i := x];
      SumSqUpdate(c[..n - 1], i, x);
    } else {
      assert c[i := x][..n - 1] == c[..n - 1];
    }
  }

  lemma SquareStep(a: nat)
    ensures (a + 1) * (a + 1) == a * a + 2 * a + 1
  {
  }

  /** Moving one stop from a vehicle with at least two more stops strictly lowers the sum of squares. */
  lemma TransferDecreases(c: seq<nat>, hi: nat, lo: nat)
    requires hi < |c| && lo < |c| && c[hi] >= c[lo] + 2
    ensures SumSq(c[hi := c[hi] - 1][lo := c[lo] + 1]) < SumSq(c)
  {
    var a, b := c[hi] - 1, c[lo];
    var c1 := c[hi := a];
    SumSqUpdate(c, hi, a);
    SquareStep(a);
    assert c1[lo] == b;
    SumSqUpdate(c1, lo, b + 1);
    SquareStep(b);
  }

  // ------------------------------------------------------------------
  // The rebalance loop and the whole partitioner
  // ------------------------------------------------------------------

  /** The loop guard `counts.max() - counts.min() > 1`, read through argmax and argmin. */
  lemma SpreadIsBalance(c: seq<nat>)
    requires c != []
    ensures c[ArgMax(c)] - c[ArgMin(c)] <= 1 <==> Balanced(c)
  {
  }

  /**
   * One round of the rebalance: recount the labels, then move one stop at a
   * time from the first most-loaded to the first least-loaded vehicle until
   * the counts differ by at most one. Terminates because every move strictly
   * lowers the sum of squared counts.
   */
  method RebalanceRound(labels: array<int>, angles: seq<real>, k: nat)
    requires k > 0 && labels.Length == |angles|
    requires InRange(labels[..], k)
    modifies labels
    ensures InRange(labels[..], k)
    ensures Balanced(Counts(labels[..], k))
    ensures Balanced(Counts(old(labels[..]), k)) ==> labels[..] == old(labels[..])
  {
    var counts := Counts(labels[..], k);
    SpreadIsBalance(counts);
    while counts[ArgMax(counts)] - counts[ArgMin(counts)] > 1
      invariant InRange(labels[..], k)
      invariant counts == Counts(labels[..], k)
      invariant Balanced(Counts(old(labels[..]), k)) ==> labels[..] == old(labels[..])
      decreases SumSq(counts)
    {
      SpreadIsBalance(counts);
      assert !Balanced(Counts(old(labels[..]), k)) by {
        if labels[..] == old(labels[..]) {
          assert Counts(labels[..], k) == Counts(old(labels[..]), k);
        }
      }
      counts := MoveCandidate(labels, angles, k, counts);
    }
    SpreadIsBalance(counts);
  }

  /**
   * One pass of the inner loop body: move the candidate of the first
   * most-loaded vehicle to the first least-loaded one and update the counts.
   */
  method MoveCandidate(labels: array<int>, angles: seq<real>, k: nat, counts: seq<nat>) returns (next: seq<nat>)
    requires k > 0 && labels.Length == |angles|
    requires InRange(labels[..], k) && counts == Counts(labels[..], k)
    requires counts[ArgMax(counts)] - counts[ArgMin(counts)] > 1
    modifies labels
    ensures labels[..] == old(labels[..])[Candidate(old(labels[..]), angles, ArgMax(counts), ArgMin(counts)) := ArgMin(counts)]
    ensures InRange(labels[..], k) && next == Counts(labels[..], k)
    ensures SumSq(next) < SumSq(counts)
  {
    var hi, lo := ArgMax(counts), ArgMin(counts);
    var before := labels[..];
    assert Count(before, hi) > 0;
    var cand := Candidate(before, angles, hi, lo);
    MoveOne(before, k, counts, cand, hi, lo);
    TransferDecreases(counts, hi, lo);
    labels[cand] := lo;
    assert labels[..] == before[cand := lo];
    next := counts[hi := counts[hi] - 1][lo := counts[lo] + 1];
  }

  /** The "quick rebalance" loop: `len(labels) * k` rounds. */
  method Rebalance(labels: array<int>, angles: seq<real>, k: nat)
    requires k > 0 && labels.Length == |angles|
    requires InRange(labels[..], k)
    modifies labels
    ensures InRange(labels[..], k)
    ensures Balanced(Counts(labels[..], k))
    ensures Balanced(Counts(old(labels[..]), k)) ==> labels[..] == old(labels[..])
  {
    var n := labels.Length;
    if n == 0 {
      assert forall v :: 0 <= v < k ==> Counts(labels[..], k)[v] == 0;
    }
    for round := 0 to n * k
      invariant InRange(labels[..], k)
      invariant n == 0 || round > 0 ==> Balanced(Counts(labels[..], k))
      invariant Balanced(Counts(old(labels[..]), k)) ==> labels[..] == old(labels[..])
    {
      RebalanceRound(labels, angles, k);
    }
  }

  /** The stop of angular rank `i` carries label `i % k`. */
  predicate IsSweepLabelling(angles: seq<real>, k: nat, labels: seq<int>)
    requires k > 0
  {
    var order := AngleOrder(angles);
    |labels| == |angles| && forall i :: 0 <= i < |order| ==> labels[order[i]] == i % k
  }

  /**
   * `_split_sweep`: sort by angle, deal labels round-robin, then rebalance.
   * The rebalance finds the dealt labels already balanced and changes nothing.
   */
  method SplitSweep(angles: seq<real>, k: nat) returns (labels: seq<int>)
    requires k > 0
    ensures IsSweepLabelling(angles, k, labels)
    ensures InRange(labels, k)
    ensures forall v :: 0 <= v < k ==>
      Count(labels, v) == |angles| / k + (if v < |angles| % k then 1 else 0)
    ensures Balanced(Counts(labels, k))
  {
    var n := |angles|;
    var order := AngleOrder(angles);
    PermutationFacts(order);
    var a := new int[n];
    for i := 0 to n
      invariant forall t :: 0 <= t < i ==> a[order[t]] == t % k
    {
      a[order[i]] := i % k;
    }
    assert IsSweepLabelling(angles, k, a[..]);
    SweepLabellingCounts(angles, k, a[..]);
    ghost var dealt := a[..];
    Rebalance(a, angles, k);
    labels := a[..];
    assert labels == dealt;
  }

  /**
   * Dealing labels round-robin along the angular order gives every vehicle
   * `n / k` stops, and one more to the first `n % k` vehicles.
   */
  lemma SweepLabellingCounts(angles: seq<real>, k: nat, labels: seq<int>)
    requires k > 0 && IsSweepLabelling(angles, k, labels)
    ensures InRange(labels, k)
    ensures forall v :: 0 <= v < k ==>
      Count(labels, v) == |angles| / k + (if v < |angles| % k then 1 else 0)
    ensures Balanced(Counts(labels, k))
  {
    var n := |angles|;
    SweepLabellingDeals(angles, k, labels);
    forall j | 0 <= j < n ensures 0 <= labels[j] < k {
      assert labels[j] in multiset(RoundRobin(n, k));
    }
    assert Counts(labels, k) == Counts(RoundRobin(n, k), k);
    RoundRobinBalanced(n, k);
    forall v | 0 <= v < k ensures Count(labels, v) == n / k + (if v < n % k then 1 else 0) {
      RoundRobinCount(n, k, v);
    }
  }

  /** A sweep labelling holds the labels of the round-robin deal, in another order. */
  lemma SweepLabellingDeals(angles: seq<real>, k: nat, labels: seq<int>)
    requires k > 0 && IsSweepLabelling(angles, k, labels)
    ensures multiset(labels) == multiset(RoundRobin(|angles|, k))
  {
    var order := AngleOrder(angles);
    PermutationFacts(order);
    assert Gather(labels, order) == RoundRobin(|angles|, k);
    GatherByPermutation(labels, order);
  }
}
