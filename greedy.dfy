/**
 * The greedy sequencer: `build_vehicle_routes_from_labels` and its inner
 * `greedy_route` (nearest-neighbour chaining from the depot).
 *
 * The great-circle distance is floating-point trigonometry; it is a parameter
 * `dist` here, and nothing is assumed about it.
 */
module Greedy {
  import opened Seqs
  import Sweep

  /** A latitude/longitude pair in degrees. */
  datatype Coord = Coord(lat: real, lon: real)

  /** Where the vehicle stands before visiting `route[t]`: the start, then the previous stop. */
  function From(route: seq<nat>, coords: seq<Coord>, start: Coord, t: nat): Coord
    requires t <= |route| && AllBelow(route, |coords|)
  {
    if t == 0 then start else coords[route[t - 1]]
  }

  /** The length of the leg from the position before `route[t]` to the stop `x`. */
  function Leg(route: seq<nat>, coords: seq<Coord>, start: Coord, dist: (Coord, Coord) -> real, t: nat, x: nat): real
    requires t <= |route| && AllBelow(route, |coords|) && x < |coords|
  {
    dist(From(route, coords, start, t), coords[x])
  }

  /**
   * Each stop of `route` is at least as close to the position the vehicle
   * has just reached as every stop visited after it.
   */
  ghost predicate NearestNeighbourChain(route: seq<nat>, coords: seq<Coord>, start: Coord,
                                        dist: (Coord, Coord) -> real)
    requires AllBelow(route, |coords|)
  {
    forall t, u :: 0 <= t <= u < |route| ==>
      Leg(route, coords, start, dist, t, route[t]) <= Leg(route, coords, start, dist, t, route[u])
  }

  /** `route` is a nearest-neighbour tour of exactly the stops in `stops`. */
  ghost predicate IsGreedyRoute(route: seq<nat>, stops: seq<nat>, coords: seq<Coord>, start: Coord,
                                dist: (Coord, Coord) -> real)
  {
    && AllBelow(route, |coords|)
    && NoDup(route)
    && (forall x :: x in route <==> x in stops)
    && NearestNeighbourChain(route, coords, start, dist)
  }

  /** A finite non-empty set of stops has one nearest to `from`. */
  lemma NearestExists(pool: set<nat>, coords: seq<Coord>, from: Coord, dist: (Coord, Coord) -> real)
    requires pool != {} && forall x :: x in pool ==> x < |coords|
    ensures exists m :: m in pool && forall j :: j in pool ==> dist(from, coords[m]) <= dist(from, coords[j])
  {
    var x :| x in pool;
    if pool != {x} {
      var rest := pool - {x};
      NearestExists(rest, coords, from, dist);
      var m :| m in rest && forall j :: j in rest ==> dist(from, coords[m]) <= dist(from, coords[j]);
      if dist(from, coords[x]) <= dist(from, coords[m]) {
        assert forall j :: j in pool ==> dist(from, coords[x]) <= dist(from, coords[j]);
      } else {
        assert forall j :: j in pool ==> dist(from, coords[m]) <= dist(from, coords[j]);
      }
    } else {
      assert forall j :: j in pool ==> dist(from, coords[x]) <= dist(from, coords[j]);
    }
  }

  /** Every stop of `route` is nearer its starting position than any stop of `pool`. */
  ghost predicate NearerThanPool(route: seq<nat>, pool: set<nat>, coords: seq<Coord>, start: Coord,
                                 dist: (Coord, Coord) -> real)
    requires AllBelow(route, |coords|) && forall x :: x in pool ==> x < |coords|
  {
    forall t, x :: 0 <= t < |route| && x in pool ==>
      Leg(route, coords, start, dist, t, route[t]) <= Leg(route, coords, start, dist, t, x)
  }

  /** Appending a stop leaves the legs of the earlier positions unchanged (a step of `ExtendChain` and `ExtendPool`). */
  lemma AppendKeepsLegs(route: seq<nat>, nearest: nat, coords: seq<Coord>, start: Coord,
                        dist: (Coord, Coord) -> real, t: nat, x: nat)
    requires AllBelow(route, |coords|) && nearest < |coords| && t <= |route| && x < |coords|
    ensures AllBelow(route + [nearest], |coords|)
    ensures Leg(route + [nearest], coords, start, dist, t, x) == Leg(route, coords, start, dist, t, x)
  {
    var r := route + [nearest];
    assert forall i :: 0 <= i < |route| ==> r[i] == route[i];
  }

  /** Appending a stop nearest to the current position keeps the nearest-neighbour chain. */
  lemma ExtendChain(route: seq<nat>, pool: set<nat>, nearest: nat, coords: seq<Coord>,
                    start: Coord, dist: (Coord, Coord) -> real)
    requires AllBelow(route, |coords|) && forall x :: x in pool ==> x < |coords|
    requires nearest in pool
    requires NearestNeighbourChain(route, coords, start, dist)
    requires NearerThanPool(route, pool, coords, start, dist)
    ensures AllBelow(route + [nearest], |coords|)
    ensures NearestNeighbourChain(route + [nearest], coords, start, dist)
  {
    var r := route + [nearest];
    AppendKeepsLegs(route, nearest, coords, start, dist, 0, nearest);
    forall t, u | 0 <= t <= u < |r|
      ensures Leg(r, coords, start, dist, t, r[t]) <= Leg(r, coords, start, dist, t, r[u])
    {
      if u < |route| {
        assert r[t] == route[t] && r[u] == route[u];
        AppendKeepsLegs(route, nearest, coords, start, dist, t, route[t]);
        AppendKeepsLegs(route, nearest, coords, start, dist, t, route[u]);
      } else if t < |route| {
        assert r[t] == route[t] && r[u] == nearest;
        AppendKeepsLegs(route, nearest, coords, start, dist, t, route[t]);
        AppendKeepsLegs(route, nearest, coords, start, dist, t, nearest);
      }
    }
  }

  /** After appending a nearest stop, the chain is still nearer than what remains unvisited. */
  lemma ExtendPool(route: seq<nat>, pool: set<nat>, nearest: nat, coords: seq<Coord>,
                   start: Coord, dist: (Coord, Coord) -> real)
    requires AllBelow(route, |coords|) && forall x :: x in pool ==> x < |coords|
    requires nearest in pool
    requires NearerThanPool(route, pool, coords, start, dist)
    requires forall j :: j in pool ==>
      Leg(route, coords, start, dist, |route|, nearest) <= Leg(route, coords, start, dist, |route|, j)
    ensures AllBelow(route + [nearest], |coords|)
    ensures NearerThanPool(route + [nearest], pool - {nearest}, coords, start, dist)
  {
    var r := route + [nearest];
    AppendKeepsLegs(route, nearest, coords, start, dist, 0, nearest);
    forall t, x | 0 <= t < |r| && x in pool - {nearest}
      ensures Leg(r, coords, start, dist, t, r[t]) <= Leg(r, coords, start, dist, t, x)
    {
      AppendKeepsLegs(route, nearest, coords, start, dist, t, r[t]);
      AppendKeepsLegs(route, nearest, coords, start, dist, t, x);
      if t < |route| {
        assert r[t] == route[t];
      }
    }
  }

  /**
   * `greedy_route`: starting at `start`, repeatedly visit the nearest
   * unvisited stop. Python's `min` over a set breaks ties by the set's
   * iteration order, which is not specified; here any nearest stop may be taken.
   */
  method GreedyRoute(stops: seq<nat>, coords: seq<Coord>, start: Coord, dist: (Coord, Coord) -> real)
    returns (route: seq<nat>)
    requires AllBelow(stops, |coords|)
    ensures IsGreedyRoute(route, stops, coords, start, dist)
    ensures stops == [] ==> route == []
  {
    if stops == [] {
      return [];
    }
    var unvisited := set i | 0 <= i < |stops| :: stops[i];
    route := [];
    var current := start;
    while unvisited != {}
      invariant forall x :: x in unvisited ==> x < |coords|
      invariant AllBelow(route, |coords|) && NoDup(route)
      invariant forall x :: x in route ==> x !in unvisited
      invariant forall x :: x in stops <==> x in route || x in unvisited
      invariant current == From(route, coords, start, |route|)
      invariant NearestNeighbourChain(route, coords, start, dist)
      invariant NearerThanPool(route, unvisited, coords, start, dist)
      decreases unvisited
    {
      NearestExists(unvisited, coords, current, dist);
      var nearest :| nearest in unvisited &&
        forall j :: j in unvisited ==> dist(current, coords[nearest]) <= dist(current, coords[j]);
      ExtendChain(route, unvisited, nearest, coords, start, dist);
      ExtendPool(route, unvisited, nearest, coords, start, dist);
      route := route + [nearest];
      unvisited := unvisited - {nearest};
      current := coords[nearest];
    }
  }

  /** `[i for i, label in enumerate(labels) if label == v]`: the stops assigned to vehicle `v`. */
  function AssignedStops(labels: seq<int>, v: int): (r: seq<nat>)
    ensures AllBelow(r, |labels|) && NoDup(r)
    ensures forall i :: 0 <= i < |labels| ==> (labels[i] == v <==> i in r)
  {
    Sweep.Positions(labels, v)
  }

  /** The routes map has one greedy route per vehicle `0..k-1`, over that vehicle's stops. */
  ghost predicate IsGreedyPlan(labels: seq<int>, coords: seq<Coord>, k: nat, depot: Coord,
                               dist: (Coord, Coord) -> real, routes: map<nat, seq<nat>>)
  {
    && (forall v: nat :: v in routes <==> v < k)
    && forall v :: v in routes ==> IsGreedyRoute(routes[v], AssignedStops(labels, v), coords, depot, dist)
  }

  /** `build_vehicle_routes_from_labels`. */
  method BuildVehicleRoutes(labels: seq<int>, coords: seq<Coord>, k: nat, depot: Coord,
                            dist: (Coord, Coord) -> real)
    returns (routes: map<nat, seq<nat>>)
    requires |labels| == |coords|
    ensures IsGreedyPlan(labels, coords, k, depot, dist, routes)
  {
    routes := map[];
    for v := 0 to k
      invariant forall u: nat :: u in routes <==> u < v
      invariant forall u :: u in routes ==> IsGreedyRoute(routes[u], AssignedStops(labels, u), coords, depot, dist)
    {
      var own := AssignedStops(labels, v);
      var route := GreedyRoute(own, coords, depot, dist);
      routes := routes[v := route];
    }
  }

  /**
   * With every label in `0..k-1`, the plan visits every stop exactly once:
   * each route is a reordering of its vehicle's stops, and a stop lies on
   * the route of its own label and on no other.
   */
  lemma PlanVisitsEachStopOnce(labels: seq<int>, coords: seq<Coord>, k: nat, depot: Coord,
                               dist: (Coord, Coord) -> real, routes: map<nat, seq<nat>>)
    requires IsGreedyPlan(labels, coords, k, depot, dist, routes)
    requires Sweep.InRange(labels, k)
    ensures forall v :: v in routes ==>
      multiset(routes[v]) == multiset(AssignedStops(labels, v)) && |routes[v]| == Sweep.Count(labels, v)
    ensures forall i :: 0 <= i < |labels| ==> labels[i] in routes && i in routes[labels[i] as nat]
    ensures forall v, i :: v in routes && i in routes[v] ==> i < |labels| && labels[i] == v
  {
    forall v | v in routes
      ensures multiset(routes[v]) == multiset(AssignedStops(labels, v))
      ensures |routes[v]| == Sweep.Count(labels, v)
    {
      SameElementsPermutation(routes[v], AssignedStops(labels, v));
      assert |multiset(routes[v])| == |multiset(AssignedStops(labels, v))|;
    }
    forall i | 0 <= i < |labels|
      ensures labels[i] in routes && i in routes[labels[i] as nat]
    {
      var v: nat := labels[i];
      assert i in AssignedStops(labels, v);
    }
  }
}
