/**
 * The pieces of the OR-Tools path that are the service's own code: the
 * distance matrix with the depot as node 0, the capacity and demand that
 * spread stops over the vehicles, and the decoding of a solution into
 * stop labels and per-vehicle routes.
 *
 * The constraint solver itself is not modelled: its answer is an input,
 * one walk of node indices per vehicle, from the vehicle's start node up
 * to (not including) its end node.
 */
module Solver {
  import opened Seqs
  import Sweep
  import opened Greedy

  // ---------------------------------------------------------------------
  // Distance matrix
  // ---------------------------------------------------------------------

  /** Node `i` of the routing model: the depot is node 0, stop `s` is node `s + 1`. */
  function NodePoint(coords: seq<Coord>, depot: Coord, i: nat): Coord
    requires i <= |coords|
  {
    if i == 0 then depot else coords[i - 1]
  }

  /** `build_distance_matrix`: all pairwise distances over the depot followed by the stops. */
  function DistanceMatrix(coords: seq<Coord>, depot: Coord, dist: (Coord, Coord) -> real): (m: seq<seq<real>>)
    ensures |m| == |coords| + 1
    ensures forall i :: 0 <= i < |m| ==> |m[i]| == |coords| + 1
    ensures forall i, j :: 0 <= i < |m| && 0 <= j < |m[i]| ==>
      m[i][j] == dist(NodePoint(coords, depot, i), NodePoint(coords, depot, j))
  {
    seq(|coords| + 1, i requires 0 <= i <= |coords| =>
      seq(|coords| + 1, j requires 0 <= j <= |coords| =>
        dist(NodePoint(coords, depot, i), NodePoint(coords, depot, j))))
  }

  /**
   * Row 0 and column 0 are the depot's distances, the rest is the
   * stop-to-stop distance shifted by one; a symmetric distance gives a
   * symmetric matrix and one that is zero on equal points a zero diagonal.
   */
  lemma DistanceMatrixLayout(coords: seq<Coord>, depot: Coord, dist: (Coord, Coord) -> real)
    ensures var m := DistanceMatrix(coords, depot, dist);
      && m[0][0] == dist(depot, depot)
      && (forall s :: 0 <= s < |coords| ==>
            m[0][s + 1] == dist(depot, coords[s]) && m[s + 1][0] == dist(coords[s], depot))
      && (forall s, t :: 0 <= s < |coords| && 0 <= t < |coords| ==> m[s + 1][t + 1] == dist(coords[s], coords[t]))
    ensures (forall a, b :: dist(a, b) == dist(b, a)) ==>
      var m := DistanceMatrix(coords, depot, dist);
      forall i, j :: 0 <= i < |m| && 0 <= j < |m| ==> m[i][j] == m[j][i]
    ensures (forall a :: dist(a, a) == 0.0) ==>
      var m := DistanceMatrix(coords, depot, dist);
      forall i :: 0 <= i < |m| ==> m[i][i] == 0.0
  {
    var m := DistanceMatrix(coords, depot, dist);
    forall s | 0 <= s < |coords|
      ensures m[0][s + 1] == dist(depot, coords[s]) && m[s + 1][0] == dist(coords[s], depot)
    {
      assert NodePoint(coords, depot, s + 1) == coords[s];
    }
    forall s, t | 0 <= s < |coords| && 0 <= t < |coords|
      ensures m[s + 1][t + 1] == dist(coords[s], coords[t])
    {
      assert NodePoint(coords, depot, s + 1) == coords[s];
      assert NodePoint(coords, depot, t + 1) == coords[t];
    }
  }

  /**
   * The arc cost handed to the solver: the distance in kilometres times
   * 1000, truncated toward zero as Python's `int` does.
   */
  function ArcCostMeters(km: real): (r: int)
    ensures km >= 0.0 ==> 0 <= r && r as real <= km * 1000.0 < r as real + 1.0
    ensures km < 0.0 ==> r <= 0 && r as real - 1.0 < km * 1000.0 <= r as real
  {
    if km >= 0.0 then (km * 1000.0).Floor else -((-km * 1000.0).Floor)
  }

  /**
   * `distance_callback`: the cost of the arc between two nodes is their
   * matrix entry in whole metres, at most one metre short of the exact
   * distance when the distance is not negative.
   */
  function DistanceCallback(coords: seq<Coord>, depot: Coord, dist: (Coord, Coord) -> real, from: nat, to: nat): (r: int)
    requires from <= |coords| && to <= |coords|
    ensures var km := dist(NodePoint(coords, depot, from), NodePoint(coords, depot, to));
      km >= 0.0 ==> 0 <= r && r as real <= km * 1000.0 < r as real + 1.0
  {
    ArcCostMeters(DistanceMatrix(coords, depot, dist)[from][to])
  }

  // ---------------------------------------------------------------------
  // Capacity and demand
  // ---------------------------------------------------------------------

  /**
   * `estimate_vehicle_capacity`, `ceil(num_stops / num_vehicles)`: the
   * least per-vehicle capacity with which `k` vehicles can carry `n` stops.
   */
  function EstimateVehicleCapacity(n: nat, k: nat): (c: nat)
    requires k > 0
    ensures c * k >= n
    ensures (c - 1) * k < n || c == 0
    ensures n > 0 ==> c > 0
  {
    (n + k - 1) / k
  }

  /** `demand_callback`: the depot weighs nothing, every stop one unit. */
  function Demand(n: nat, node: nat): (d: nat)
    requires node <= n
    ensures d <= 1
    ensures d == 0 <==> node == 0
  {
    var demands := seq(n, _ => 1);
    if node == 0 then 0 else demands[node - 1]
  }

  /** The load a walk puts on its vehicle's capacity dimension. */
  function Load(n: nat, walk: seq<nat>): nat
    requires forall j :: 0 <= j < |walk| ==> walk[j] <= n
  {
    if walk == [] then 0 else Load(n, walk[..|walk| - 1]) + Demand(n, walk[|walk| - 1])
  }

  // ---------------------------------------------------------------------
  // Decoding a solution
  // ---------------------------------------------------------------------

  /** Every node of every walk is the depot or one of the `n` stops. */
  predicate NodesInRange(walks: seq<seq<nat>>, n: nat)
  {
    forall v, j :: 0 <= v < |walks| && 0 <= j < |walks[v]| ==> walks[v][j] <= n
  }

  /** Whether a walk passes through the node of stop `s`. */
  predicate Visits(walk: seq<nat>, s: nat)
  {
    s + 1 in walk
  }

  /** The stop indices a walk visits, in order: its nodes other than the depot, minus one. */
  function StopsOf(walk: seq<nat>): (r: seq<nat>)
    ensures |r| <= |walk|
  {
    if walk == [] then []
    else
      var init, last := walk[..|walk| - 1], walk[|walk| - 1];
      StopsOf(init) + (if last == 0 then [] else [last - 1])
  }

  /** A walk's stops are exactly the stops whose nodes it passes through. */
  lemma {:induction false} StopsOfMembers(walk: seq<nat>)
    ensures forall s: nat :: s in StopsOf(walk) <==> Visits(walk, s)
  {
    if walk != [] {
      var init, last := walk[..|walk| - 1], walk[|walk| - 1];
      assert walk == init + [last];
      StopsOfMembers(init);
      assert forall s: nat :: Visits(walk, s) <==> Visits(init, s) || s + 1 == last;
    }
  }

  /** Extending a walk by one node extends what it visits by that node's stop. */
  lemma StopsOfSnoc(walk: seq<nat>, node: nat)
    ensures StopsOf(walk + [node]) == StopsOf(walk) + (if node == 0 then [] else [node - 1])
    ensures forall s: nat :: Visits(walk + [node], s) <==> Visits(walk, s) || s + 1 == node
  {
    assert (walk + [node])[..|walk|] == walk;
  }

  /** The load of a walk is the number of stops it visits. */
  lemma {:induction false} LoadCountsStops(n: nat, walk: seq<nat>)
    requires forall j :: 0 <= j < |walk| ==> walk[j] <= n
    ensures Load(n, walk) == |StopsOf(walk)|
  {
    if walk != [] {
      LoadCountsStops(n, walk[..|walk| - 1]);
    }
  }

  /**
   * The label stop `s` ends up with: the last vehicle whose walk visits it,
   * since later vehicles overwrite earlier ones, or -1 when no walk does.
   */
  function Owner(walks: seq<seq<nat>>, s: nat): (o: int)
    ensures -1 <= o < |walks|
    ensures o == -1 <==> forall v :: 0 <= v < |walks| ==> !Visits(walks[v], s)
    ensures o >= 0 ==> Visits(walks[o], s) && forall v :: o < v < |walks| ==> !Visits(walks[v], s)
  {
    if walks == [] then -1
    else if Visits(walks[|walks| - 1], s) then |walks| - 1
    else
      var o := Owner(walks[..|walks| - 1], s);
      assert forall v :: 0 <= v < |walks| - 1 ==> walks[..|walks| - 1][v] == walks[v];
      o
  }

  /** Taking one more vehicle into account: it becomes the owner of every stop it visits. */
  lemma OwnerStep(walks: seq<seq<nat>>, v: nat, s: nat)
    requires v < |walks|
    ensures Owner(walks[..v + 1], s) == if Visits(walks[v], s) then v else Owner(walks[..v], s)
  {
    assert walks[..v + 1][..v] == walks[..v];
  }

  /**
   * The inner loop of the decoding: follow one vehicle's walk, append every
   * non-depot node's stop to the route and label that stop with the vehicle.
   */
  method FollowWalk(labels: array<int>, walk: seq<nat>, v: nat) returns (route: seq<nat>)
    requires forall j :: 0 <= j < |walk| ==> walk[j] <= labels.Length
    modifies labels
    ensures route == StopsOf(walk)
    ensures forall s :: 0 <= s < labels.Length ==> labels[s] == if Visits(walk, s) then v else old(labels[s])
  {
    route := [];
    for j := 0 to |walk|
      invariant route == StopsOf(walk[..j])
      invariant forall s :: 0 <= s < labels.Length && Visits(walk[..j], s) ==> labels[s] == v
      invariant forall s :: 0 <= s < labels.Length && !Visits(walk[..j], s) ==> labels[s] == old(labels[s])
    {
      var node := walk[j];
      assert walk[..j + 1] == walk[..j] + [node];
      StopsOfSnoc(walk[..j], node);
      if node != 0 {
        var stop := node - 1;
        route := route + [stop];
        labels[stop] := v;
      }
    }
    assert walk[..|walk|] == walk;
  }

  /**
   * The decoding loop of `solve_vrp_or_tools`: `labels` starts at -1 for
   * every stop, then each vehicle's walk is followed in turn.
   */
  method DecodeSolution(walks: seq<seq<nat>>, n: nat) returns (labels: seq<int>, routes: map<nat, seq<nat>>)
    requires NodesInRange(walks, n)
    ensures |labels| == n
    ensures forall s :: 0 <= s < n ==> labels[s] == Owner(walks, s)
    ensures forall v: nat :: v in routes <==> v < |walks|
    ensures forall v :: 0 <= v < |walks| ==> routes[v] == StopsOf(walks[v])
  {
    var a := new int[n](_ => -1);
    routes := map[];
    for v := 0 to |walks|
      invariant forall s :: 0 <= s < n ==> a[s] == Owner(walks[..v], s)
      invariant forall u: nat :: u in routes <==> u < v
      invariant forall u :: 0 <= u < v ==> routes[u] == StopsOf(walks[u])
    {
      var route := FollowWalk(a, walks[v], v);
      forall s | 0 <= s < n ensures a[s] == Owner(walks[..v + 1], s) {
        OwnerStep(walks, v, s);
      }
      routes := routes[v := route];
    }
    assert walks[..|walks|] == walks;
    labels := a[..];
  }

  /**
   * A solution in which every stop is visited by exactly one vehicle
   * decodes to a total assignment that agrees with the routes: every stop
   * is labelled with a vehicle in `0..k-1`, lies on that vehicle's route and
   * on no other.
   */
  /** Some vehicle's walk visits stop `s`. */
  ghost predicate Covered(walks: seq<seq<nat>>, s: nat)
  {
    exists v :: 0 <= v < |walks| && Visits(walks[v], s)
  }

  lemma DecodedPlanConsistent(walks: seq<seq<nat>>, n: nat)
    requires forall s: nat :: s < n ==> Covered(walks, s)
    requires forall v, w, s: nat :: 0 <= v < w < |walks| && Visits(walks[v], s) ==> !Visits(walks[w], s)
    ensures forall s: nat :: s < n ==> 0 <= Owner(walks, s) < |walks| && s in StopsOf(walks[Owner(walks, s)])
    ensures forall s: nat, v :: 0 <= v < |walks| && s in StopsOf(walks[v]) ==> Owner(walks, s) == v
  {
    forall s: nat | s < n
      ensures 0 <= Owner(walks, s) < |walks| && s in StopsOf(walks[Owner(walks, s)])
    {
      assert Covered(walks, s);
      var v :| 0 <= v < |walks| && Visits(walks[v], s);
      StopsOfMembers(walks[Owner(walks, s)]);
    }
    forall s: nat, v | 0 <= v < |walks| && s in StopsOf(walks[v])
      ensures Owner(walks, s) == v
    {
      StopsOfMembers(walks[v]);
      var o := Owner(walks, s);
      if o > v {
        assert Visits(walks[o], s);
      }
    }
  }

  /**
   * The sweep split never exceeds the capacity the solver is given: every
   * vehicle of a sweep labelling carries at most `ceil(n / k)` stops.
   */
  lemma SweepWithinCapacity(n: nat, k: nat, v: nat)
    requires k > 0 && v < k
    ensures n / k + (if v < n % k then 1 else 0) <= EstimateVehicleCapacity(n, k)
  {
    var c := EstimateVehicleCapacity(n, k);
    Sweep.MulBounds(c - n / k, k);
  }
}
