/**
 * `VRPService.solve_vrp` and `solve_vrp_or_tools`: choose between the
 * constraint solver and the sweep split followed by greedy sequencing.
 *
 * The bearing of a stop seen from the depot (`atan2` on the equirectangular
 * projection) is the parameter `angle`, the great-circle distance the
 * parameter `dist`. The solver's answer is the parameter `solution`: `None`
 * when no solution was found within the time limit, otherwise one walk of
 * nodes per vehicle.
 */
module Vrp {
  import opened Wrappers
  import Sweep
  import opened Greedy
  import Solver

  /** The pair `solve_vrp` returns: stop labels and the route of each vehicle. */
  datatype Plan = Plan(labels: seq<int>, routes: map<nat, seq<nat>>)

  /** The message of the `RuntimeError` raised for an unknown split mode. */
  const UnknownModeError: string := "Error on Solver type must be (OR-Tools or Sweep)"

  /** The bearing of every stop, indexed as the stops are. */
  function Bearings(coords: seq<Coord>, depot: Coord, angle: (Coord, Coord) -> real): (angles: seq<real>)
    ensures |angles| == |coords|
    ensures forall i :: 0 <= i < |coords| ==> angles[i] == angle(depot, coords[i])
  {
    seq(|coords|, i requires 0 <= i < |coords| => angle(depot, coords[i]))
  }

  /**
   * What sweep + greedy produces: the sweep labelling of the stops' bearings
   * (balanced, round-robin in bearing order) and a greedy route per vehicle
   * over the stops it was given.
   */
  ghost predicate IsSweepPlan(coords: seq<Coord>, k: nat, depot: Coord, dist: (Coord, Coord) -> real,
                              angle: (Coord, Coord) -> real, plan: Plan)
    requires k > 0
  {
    var angles := Bearings(coords, depot, angle);
    && Sweep.IsSweepLabelling(angles, k, plan.labels)
    && Sweep.InRange(plan.labels, k)
    && Sweep.Balanced(Sweep.Counts(plan.labels, k))
    && IsGreedyPlan(plan.labels, coords, k, depot, dist, plan.routes)
  }

  /** What decoding a solver answer produces. */
  ghost predicate IsDecodedPlan(walks: seq<seq<nat>>, n: nat, plan: Plan)
  {
    && |plan.labels| == n
    && (forall s :: 0 <= s < n ==> plan.labels[s] == Solver.Owner(walks, s))
    && (forall v: nat :: v in plan.routes <==> v < |walks|)
    && (forall v :: 0 <= v < |walks| ==> plan.routes[v] == Solver.StopsOf(walks[v]))
  }

  /**
   * The capacity dimension read through the decoding: every decoded route
   * has as many stops as its walk's load, so walks that keep within the
   * capacity `ceil(n / k)` decode to routes of at most that many stops.
   */
  lemma DecodedRoutesWithinCapacity(walks: seq<seq<nat>>, n: nat, k: nat, plan: Plan)
    requires k > 0 && Solver.NodesInRange(walks, n) && IsDecodedPlan(walks, n, plan)
    ensures forall v :: 0 <= v < |walks| ==> |plan.routes[v]| == Solver.Load(n, walks[v])
    ensures (forall v :: 0 <= v < |walks| ==> Solver.Load(n, walks[v]) <= Solver.EstimateVehicleCapacity(n, k)) ==>
      forall v :: 0 <= v < |walks| ==> |plan.routes[v]| <= Solver.EstimateVehicleCapacity(n, k)
  {
    forall v | 0 <= v < |walks|
      ensures |plan.routes[v]| == Solver.Load(n, walks[v])
    {
      Solver.LoadCountsStops(n, walks[v]);
    }
  }

  /** The solver's answer fits the model it was given: `k` walks over nodes `0..n`. */
  predicate SolutionFits(solution: Option<seq<seq<nat>>>, n: nat, k: nat)
  {
    solution.Some? ==> |solution.value| == k && Solver.NodesInRange(solution.value, n)
  }

  /** The fallback and the `"Sweep"` mode: `_split_sweep`, then `build_vehicle_routes_from_labels`. */
  method SweepAndGreedy(coords: seq<Coord>, k: nat, depot: Coord, dist: (Coord, Coord) -> real,
                        angle: (Coord, Coord) -> real) returns (plan: Plan)
    requires k > 0
    ensures IsSweepPlan(coords, k, depot, dist, angle, plan)
  {
    var labels := Sweep.SplitSweep(Bearings(coords, depot, angle), k);
    var routes := BuildVehicleRoutes(labels, coords, k, depot, dist);
    plan := Plan(labels, routes);
  }

  /**
   * `solve_vrp_or_tools`: decode the solver's answer when there is one,
   * otherwise fall back to sweep + greedy.
   */
  method SolveVrpOrTools(coords: seq<Coord>, k: nat, depot: Coord, dist: (Coord, Coord) -> real,
                         angle: (Coord, Coord) -> real, solution: Option<seq<seq<nat>>>)
    returns (plan: Plan)
    requires k > 0
    requires SolutionFits(solution, |coords|, k)
    ensures solution.Some? ==> IsDecodedPlan(solution.value, |coords|, plan)
    ensures solution.None? ==> IsSweepPlan(coords, k, depot, dist, angle, plan)
  {
    match solution {
      case Some(walks) =>
        var labels, routes := Solver.DecodeSolution(walks, |coords|);
        plan := Plan(labels, routes);
      case None =>
        plan := SweepAndGreedy(coords, k, depot, dist, angle);
    }
  }

  /**
   * `solve_vrp`: `"OR-Tool"` goes to the solver, `"Sweep"` to sweep +
   * greedy, and every other mode is an error.
   */
  method SolveVrp(mode: string, coords: seq<Coord>, k: nat, depot: Coord, dist: (Coord, Coord) -> real,
                  angle: (Coord, Coord) -> real, solution: Option<seq<seq<nat>>>)
    returns (r: Result<Plan, string>)
    requires mode == "OR-Tool" || mode == "Sweep" ==> k > 0
    requires SolutionFits(solution, |coords|, k)
    ensures r.Failure? <==> mode != "OR-Tool" && mode != "Sweep"
    ensures r.Failure? ==> r.error == UnknownModeError
    ensures mode == "OR-Tool" && solution.Some? ==> r.Success? && IsDecodedPlan(solution.value, |coords|, r.value)
    ensures mode == "OR-Tool" && solution.None? ==> r.Success? && IsSweepPlan(coords, k, depot, dist, angle, r.value)
    ensures mode == "Sweep" ==> r.Success? && IsSweepPlan(coords, k, depot, dist, angle, r.value)
  {
    if mode == "OR-Tool" {
      var plan := SolveVrpOrTools(coords, k, depot, dist, angle, solution);
      r := Success(plan);
    } else if mode == "Sweep" {
      var plan := SweepAndGreedy(coords, k, depot, dist, angle);
      r := Success(plan);
    } else {
      r := Failure(UnknownModeError);
    }
  }

  /** The modes the web form offers, `"kmeans"` and `"sweep"`, are both rejected. */
  method FormModesRejected(coords: seq<Coord>, k: nat, depot: Coord, dist: (Coord, Coord) -> real,
                           angle: (Coord, Coord) -> real)
    returns (kmeans: Result<Plan, string>, sweep: Result<Plan, string>)
    ensures kmeans == Failure(UnknownModeError) && sweep == Failure(UnknownModeError)
  {
    kmeans := SolveVrp("kmeans", coords, k, depot, dist, angle, None);
    sweep := SolveVrp("sweep", coords, k, depot, dist, angle, None);
  }

  /**
   * Whichever path produced it, a plan from sweep + greedy visits every stop
   * exactly once, on the route of the vehicle it is labelled with.
   */
  lemma SweepPlanCoversStops(coords: seq<Coord>, k: nat, depot: Coord, dist: (Coord, Coord) -> real,
                             angle: (Coord, Coord) -> real, plan: Plan)
    requires k > 0
    requires IsSweepPlan(coords, k, depot, dist, angle, plan)
    ensures |plan.labels| == |coords|
    ensures forall s :: 0 <= s < |coords| ==> 0 <= plan.labels[s] < k && s in plan.routes[plan.labels[s] as nat]
    ensures forall v, s :: v in plan.routes && s in plan.routes[v] ==> s < |coords| && plan.labels[s] == v
  {
    PlanVisitsEachStopOnce(plan.labels, coords, k, depot, dist, plan.routes);
  }
}
