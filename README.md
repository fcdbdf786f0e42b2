# Vehicle-routing core of the Wulfs routing service, in Dafny

This project models the parts of the routing service that compute things:

- **Planner** (`VRPService`):
  - the angular sweep partitioner (`_split_sweep`);
  - nearest-neighbour sequencing of each vehicle's stops (`build_vehicle_routes_from_labels` / `greedy_route`);
  - the small pieces of solver plumbing: the distance matrix with the depot at node 0, the `ceil(n/k)` capacity, the unit demand callback, and decoding a solver solution into labels and routes;
  - the `solve_vrp` dispatch, including the fallback to sweep + greedy when the solver finds nothing.
- **Customer-name normalisation** (`norm_name`, `OrderService._norm_name`).
- **Column handling** of `load_master` and `load_orders`:
  - the case-insensitive column lookup `_find`;
  - the required-column check and its error message;
  - the renames, the default columns and the `name_key` column.
- **The matched/missing split** at the end of `OrderService.customer_details_for_orders`.

Modules, one per concern:

| module | file | models |
|---|---|---|
| `Wrappers` | wrappers.dfy | `Option` and `Result` |
| `Seqs` | seqs.dfy | permutations of stop positions (helpers) |
| `Sweep` | sweep.dfy | `_split_sweep` |
| `Greedy` | greedy.dfy | `greedy_route`, `build_vehicle_routes_from_labels` |
| `Solver` | solver.dfy | distance matrix, capacity, demand, solution decoding |
| `Vrp` | vrp.dfy | `solve_vrp`, `solve_vrp_or_tools` |
| `Names` | names.dfy | `norm_name` / `_norm_name` |
| `Columns` | columns.dfy | `_find` and the `{c.lower().strip(): c}` dictionaries |
| `Loader` | loader.dfy | `load_master`, `load_orders` (both copies) |
| `Orders` | orders.dfy | the split in `customer_details_for_orders` |

Modelling choices:
- **Stops.** Stops are the positions `0..n-1` of the stop table. The caller builds that table with `reset_index(drop=True)` (order_services.py:59). That is what makes `labels[original_idx] = …` in `_split_sweep` land on the right stop. `Orders.Matched` states this renumbering.
- **Floating point.** The great-circle distance and the bearing angle are floating-point trigonometry, so they are parameters: `dist: (Coord, Coord) -> real` and `angle`. Every property is proved for every such function.
- **Imperative parts.** These keep their imperative form:
  - the sweep's label array and its rebalance loop;
  - the greedy loop over the shrinking set of unvisited stops;
  - the decoding loop that writes into the label array;
  - the pandas frame whose column labels and columns `load_master` and `load_orders` change in place (`Loader.Frame`).
- **Pure parts.** These are functions: the name normalisation, the column lookup, the dispatch and the final split.
- **Solver result.** OR-Tools is a foreign library. Its result is an input to `Vrp.SolveVrpOrTools`: `None` when no solution was found, or one walk per vehicle. A walk lists the nodes from the vehicle's start up to, but not including, its end.
- **Rebalance termination.** The rebalance's inner `while` (vrp_service.py:44) has no bound of its own. Its termination is proved with the variant "sum of squared counts", which every move strictly lowers.
- **`norm_name` steps.** Each step is its own function; `NormName` composes them in the source's order:
  1. ASCII folding;
  2. `strip`;
  3. `lower`;
  4. removal of everything outside `[a-z0-9 ]`;
  5. whitespace collapsing;
  6. `strip`.
- **Duplicated code.** `norm_name`/`load_orders` in superbase_migration/src/wulfs_routing/loader.py and `_norm_name`/`load_orders` in order_services.py are textually the same. Both are modelled by `Names.NormName` and `Loader.LoadOrders`.

Points where the code behaves differently from what a reader might expect:
- **Rebalance budget.** The `len(df) * k` budget bounds only the outer rounds (vrp_service.py:42). Each round balances completely (`Sweep.RebalanceRound`). After the round-robin deal the whole rebalance changes nothing (`Sweep.SplitSweep`).
- **Greedy ties.** `min` over a Python `set` (vrp_service.py:98) leaves ties to the set's iteration order, which is not part of the language. `Greedy.GreedyRoute` therefore picks *some* nearest stop and proves its properties for every choice.
- **Frontend strategy strings.** The frontend offers the strategies `"kmeans"` and `"sweep"` (frontend/src/wulfs_routing_web/components/route_form.py:14). `solve_vrp` accepts only `"OR-Tool"` and `"Sweep"`, so both of the frontend's strings end in the error (`Vrp.FormModesRejected`).

## Model

| member | source | states |
|---|---|---|
| Sweep.SortByAnglePermutes | backend/src/wulfs_routing_api/services/vrp_service.py:26 | sorting stops by angle gives back the same multiset of stops |
| Sweep.SortByAngleAscending | backend/src/wulfs_routing_api/services/vrp_service.py:26 | the sorted stops are in non-decreasing angle |
| Sweep.InsertByAngleAddsX | backend/src/wulfs_routing_api/services/vrp_service.py:26 | inserting one stop adds exactly that stop to the multiset of stops and loses none |
| Sweep.InsertByAngleAscending | backend/src/wulfs_routing_api/services/vrp_service.py:26 | inserting one stop into an angle-sorted list keeps it sorted by angle |
| Sweep.AngleOrder | backend/src/wulfs_routing_api/services/vrp_service.py:22-26 | the sorted order is a permutation of `0..n-1` whose angles do not decrease |
| Sweep.Counts | backend/src/wulfs_routing_api/services/vrp_service.py:43 | `np.bincount(labels, minlength=k)`: `k` entries, entry `v` the number of labels equal to `v` |
| Sweep.ArgMax | backend/src/wulfs_routing_api/services/vrp_service.py:45 | `np.argmax`: a maximum count, and the first index holding one |
| Sweep.ArgMin | backend/src/wulfs_routing_api/services/vrp_service.py:45 | `np.argmin`: a minimum count, and the first index holding one |
| Sweep.Positions | backend/src/wulfs_routing_api/services/vrp_service.py:46 | `np.where(labels == v)[0]`: ascending, exactly the stops labelled `v`, as many as the count of `v` |
| Sweep.RoundRobin | backend/src/wulfs_routing_api/services/vrp_service.py:32-35 | the deal gives rank `i` the label `i % k` |
| Sweep.RoundRobinCount | backend/src/wulfs_routing_api/services/vrp_service.py:32-35 | after the deal vehicle `v` has `n / k` stops, plus one when `v < n % k` |
| Sweep.RoundRobinBalanced | backend/src/wulfs_routing_api/services/vrp_service.py:32-35 | after the deal the counts differ by at most one |
| Sweep.FirstClosest | backend/src/wulfs_routing_api/services/vrp_service.py:48 | `min(…, key=abs(angle - target))`: an element with the smallest gap, and the first such |
| Sweep.Candidate | backend/src/wulfs_routing_api/services/vrp_service.py:46-48 | the moved stop is labelled `hi` and its angle is closest to `lo`'s mean angle (or to the global mean when `lo` is empty), lowest index on ties |
| Sweep.MoveOne | backend/src/wulfs_routing_api/services/vrp_service.py:49 | relabelling the candidate from `hi` to `lo` keeps labels in range and moves exactly one unit from `counts[hi]` to `counts[lo]` |
| Sweep.TransferDecreases | backend/src/wulfs_routing_api/services/vrp_service.py:44-49 | a move while `max - min > 1` strictly lowers the sum of squared counts, so the inner loop ends |
| Sweep.SpreadIsBalance | backend/src/wulfs_routing_api/services/vrp_service.py:44 | the loop guard `counts.max() - counts.min() > 1` is false exactly when every two counts differ by at most one |
| Sweep.RebalanceRound | backend/src/wulfs_routing_api/services/vrp_service.py:43-49 | one round ends balanced with labels still in `[0,k)`, and changes nothing when the labels were already balanced |
| Sweep.MoveCandidate | backend/src/wulfs_routing_api/services/vrp_service.py:45-49 | one move relabels exactly the candidate stop to `lo`, keeps labels in range, and lowers the sum of squared counts |
| Sweep.Rebalance | backend/src/wulfs_routing_api/services/vrp_service.py:42-49 | all `n*k` rounds: the same, for the whole loop |
| Sweep.SplitSweep | backend/src/wulfs_routing_api/services/vrp_service.py:16-51 | the labels give angular rank `i` the label `i % k`; all lie in `[0,k)`; vehicle `v` gets `n / k` stops, plus one when `v < n % k`; the counts are balanced |
| Sweep.SweepLabellingCounts | backend/src/wulfs_routing_api/services/vrp_service.py:22-35 | any labelling that deals labels round-robin along the angular order is in range and gives vehicle `v` `n / k` stops, plus one when `v < n % k` |
| Greedy.NearestExists | backend/src/wulfs_routing_api/services/vrp_service.py:98 | every non-empty set of unvisited stops has a stop at minimum distance from the current point |
| Greedy.ExtendChain | backend/src/wulfs_routing_api/services/vrp_service.py:98-101 | appending a nearest unvisited stop keeps "each stop was nearest to the previous point among the stops not yet visited" |
| Greedy.ExtendPool | backend/src/wulfs_routing_api/services/vrp_service.py:98-101 | after the append, every earlier choice is still no farther than every stop left unvisited |
| Greedy.GreedyRoute | backend/src/wulfs_routing_api/services/vrp_service.py:90-102 | the route visits exactly the assigned stops, each once, each a nearest remaining stop to the point before it (the depot first); no stops give `[]` |
| Greedy.AssignedStops | backend/src/wulfs_routing_api/services/vrp_service.py:107 | the stops labelled `v`, without duplicates: `i` is included exactly when `labels[i] == v` |
| Greedy.BuildVehicleRoutes | backend/src/wulfs_routing_api/services/vrp_service.py:104-110 | keys are exactly `0..k-1`, and each vehicle's route is a greedy route over its assigned stops from the depot |
| Greedy.PlanVisitsEachStopOnce | backend/src/wulfs_routing_api/services/vrp_service.py:105-110 | each route is a permutation of the vehicle's stops; every stop lies on its own vehicle's route and on no other |
| Solver.DistanceMatrix | backend/src/wulfs_routing_api/services/vrp_service.py:128-132 | an `(n+1)×(n+1)` matrix whose entry `[i][j]` is the distance between node points `i` and `j` |
| Solver.DistanceMatrixLayout | backend/src/wulfs_routing_api/services/vrp_service.py:130-132 | node 0 is the depot and node `s+1` is stop `s`; the matrix is symmetric when `dist` is, with a zero diagonal when `dist(a,a) = 0` |
| Solver.ArcCostMeters | backend/src/wulfs_routing_api/services/vrp_service.py:204 | `int(km * 1000)` truncates toward zero |
| Solver.DistanceCallback | backend/src/wulfs_routing_api/services/vrp_service.py:200-204 | the arc cost between two nodes is their distance in whole metres, at most one metre short when the distance is not negative |
| Solver.EstimateVehicleCapacity | backend/src/wulfs_routing_api/services/vrp_service.py:150-152 | `c*k >= n` and `(c-1)*k < n` (or `c = 0`): `c` is exactly `ceil(n/k)`, and positive when there are stops |
| Solver.Demand | backend/src/wulfs_routing_api/services/vrp_service.py:176-183 | the demand is 0 exactly at the depot node and 1 at every stop node |
| Solver.LoadCountsStops | backend/src/wulfs_routing_api/services/vrp_service.py:176-183 | the demand summed along a walk is the number of stops the walk visits |
| Solver.StopsOfMembers | backend/src/wulfs_routing_api/services/vrp_service.py:268-271 | the decoded route holds stop `s` exactly when the walk visits node `s+1` |
| Solver.StopsOfSnoc | backend/src/wulfs_routing_api/services/vrp_service.py:267-273 | each further node adds stop `node-1` to the route, and the depot node adds nothing |
| Solver.Owner | backend/src/wulfs_routing_api/services/vrp_service.py:261-274 | a stop's label is the last vehicle whose walk visits it, or -1 when no walk does |
| Solver.OwnerStep | backend/src/wulfs_routing_api/services/vrp_service.py:264-274 | decoding vehicle `v` overwrites the label of exactly the stops its walk visits |
| Solver.FollowWalk | backend/src/wulfs_routing_api/services/vrp_service.py:265-274 | following one walk yields its stops in visiting order and sets the labels of exactly those stops to the vehicle |
| Solver.DecodeSolution | backend/src/wulfs_routing_api/services/vrp_service.py:260-275 | labels start at -1 and end as `Owner`; routes have the keys `0..k-1`, each the stops of its walk |
| Solver.DecodedPlanConsistent | backend/src/wulfs_routing_api/services/vrp_service.py:261-275 | when every stop is on exactly one walk, every label is a vehicle whose route contains the stop, and only that vehicle's route does |
| Solver.SweepWithinCapacity | backend/src/wulfs_routing_api/services/vrp_service.py:150-152 | every sweep count, `n / k` or one more, is within the capacity `ceil(n/k)` |
| Vrp.Bearings | backend/src/wulfs_routing_api/services/vrp_service.py:18-23 | one bearing per stop, taken from the depot |
| Vrp.SweepAndGreedy | backend/src/wulfs_routing_api/services/vrp_service.py:215-218 | sweep labels plus greedy routes over them |
| Vrp.SolveVrpOrTools | backend/src/wulfs_routing_api/services/vrp_service.py:260-281 | a solution is decoded; without one, the result is the sweep + greedy plan |
| Vrp.SolveVrp | backend/src/wulfs_routing_api/services/vrp_service.py:211-220 | `"OR-Tool"` goes to the solver path and `"Sweep"` to sweep + greedy; every other string fails with the `RuntimeError` message |
| Vrp.FormModesRejected | frontend/src/wulfs_routing_web/components/route_form.py:14 | the frontend's `"kmeans"` and `"sweep"` both fail with that message |
| Vrp.DecodedRoutesWithinCapacity | backend/src/wulfs_routing_api/services/vrp_service.py:176-192 | every decoded route has as many stops as its walk's load, so walks within the capacity `ceil(n/k)` give routes of at most that many stops |
| Vrp.SweepPlanCoversStops | backend/src/wulfs_routing_api/services/vrp_service.py:215-218 | a sweep plan labels every stop with a vehicle in `[0,k)`, puts it on that vehicle's route, and puts no stop on another vehicle's route |
| Names.AsciiFold | superbase_migration/src/wulfs_routing/loader.py:15 | `.encode("ascii", "ignore")` leaves only ASCII characters |
| Names.TrimLeft | superbase_migration/src/wulfs_routing/loader.py:16 | strips exactly the leading run of Python whitespace |
| Names.TrimRight | superbase_migration/src/wulfs_routing/loader.py:18 | strips exactly the trailing run of Python whitespace |
| Names.StripSlice | superbase_migration/src/wulfs_routing/loader.py:16 | `strip()` is the slice between the leading and the trailing whitespace runs |
| Names.StripEnds | superbase_migration/src/wulfs_routing/loader.py:18 | a stripped string neither starts nor ends with whitespace |
| Names.Lower | superbase_migration/src/wulfs_routing/loader.py:16 | `lower()` keeps the length and leaves no upper-case letter |
| Names.KeepAllowed | superbase_migration/src/wulfs_routing/loader.py:17 | what `[^a-z0-9 ]` substitution leaves is all in `[a-z0-9 ]` |
| Names.CollapseShape | superbase_migration/src/wulfs_routing/loader.py:18 | collapsing `\s+` to one space keeps the alphabet and leaves no two adjacent spaces |
| Names.NormName | superbase_migration/src/wulfs_routing/loader.py:11-19 | `norm_name(None)` is `""` |
| Names.NormNameShape | backend/src/wulfs_routing_api/services/order_services.py:17-25 | a normalised name uses only `[a-z0-9 ]`, has no edge spaces and no two adjacent spaces |
| Names.AsciiFoldKeepsAscii | superbase_migration/src/wulfs_routing/loader.py:15 | folding leaves ASCII text unchanged |
| Names.KeepAllowedKeepsAllowed | superbase_migration/src/wulfs_routing/loader.py:17 | the filter leaves text over `[a-z0-9 ]` unchanged |
| Names.CollapseKeepsSingleSpaced | superbase_migration/src/wulfs_routing/loader.py:18 | collapsing leaves single-spaced text unchanged |
| Names.NormNameFixesNormal | superbase_migration/src/wulfs_routing/loader.py:15-19 | every name already in normal form normalises to itself |
| Names.NormNameIdempotent | superbase_migration/src/wulfs_routing/loader.py:11-19 | normalising twice is normalising once |
| Names.RemoveSpacesStrip | superbase_migration/src/wulfs_routing/loader.py:16 | stripping removes nothing but whitespace |
| Names.RemoveSpacesCollapse | superbase_migration/src/wulfs_routing/loader.py:18 | collapsing changes nothing but whitespace |
| Names.RemoveSpacesKeepAllowed | superbase_migration/src/wulfs_routing/loader.py:17 | after the filter, the non-space characters are exactly the letters and digits of the input |
| Names.KeepAlnumLowerStrip | superbase_migration/src/wulfs_routing/loader.py:16 | stripping before lowering loses no letter or digit |
| Names.KeepAlnumLowerFold | superbase_migration/src/wulfs_routing/loader.py:15 | ASCII folding loses no ASCII letter or digit |
| Names.NormNameLetters | superbase_migration/src/wulfs_routing/loader.py:15-18 | a normalised name, spaces removed, is the lower-cased ASCII letters and digits of the input in order |
| Columns.IndexByKeys | superbase_migration/src/wulfs_routing/loader.py:22 | the `{c.lower().strip(): c}` dictionary has exactly the keys of the columns |
| Columns.IndexByLastWins | superbase_migration/src/wulfs_routing/loader.py:22 | each key maps to the last column with that key |
| Columns.FindInFirst | superbase_migration/src/wulfs_routing/loader.py:23-26 | the lookup is `None` exactly when no candidate is a key, else the entry of the first candidate that is one |
| Columns.FindInIndexSpec | superbase_migration/src/wulfs_routing/loader.py:21-26 | for any key function: `None` exactly when no candidate is present, else the last column whose key is the first present candidate |
| Columns.FindSpec | superbase_migration/src/wulfs_routing/loader.py:21-26 | `_find`: `None` exactly when no candidate is present, else the last column whose lowercased, stripped name is the first present candidate |
| Loader.Renamed | superbase_migration/src/wulfs_routing/loader.py:57-65 | `rename(columns=m)` relabels every column whose label is in `m` and keeps the rest |
| Loader.NameKeys | superbase_migration/src/wulfs_routing/loader.py:68 | `apply(norm_name)` gives every cell its name key |
| Loader.Frame.Column | superbase_migration/src/wulfs_routing/loader.py:68 | a column exists exactly when its label does, and has one cell per row |
| Loader.Frame.Rename | superbase_migration/src/wulfs_routing/loader.py:57-65 | only the labels change, as `Renamed` says |
| Loader.Frame.Assign | superbase_migration/src/wulfs_routing/loader.py:86-91 | `df[name] = values` replaces the columns with that label or appends one; every other column reads as before |
| Loader.Resolve | superbase_migration/src/wulfs_routing/loader.py:42-48 | each of the seven roles is looked up with `_find` over its own candidates |
| Loader.MissingIndices | superbase_migration/src/wulfs_routing/loader.py:50-53 | the roles that resolved to nothing, in role order |
| Loader.MissingLabelsSpec | superbase_migration/src/wulfs_routing/loader.py:50-54 | the missing list holds the captions of exactly the unresolved roles, in role order, and is empty exactly when all resolved |
| Loader.ReprList | superbase_migration/src/wulfs_routing/loader.py:55 | the list is rendered bracketed, `[]` when empty |
| Loader.RenameMapTargets | superbase_migration/src/wulfs_routing/loader.py:57-65 | in the rename dictionary a resolved column maps to its role's target, unless a later role resolved to the same column |
| Loader.MasterCandidatesDisjoint | superbase_migration/src/wulfs_routing/loader.py:42-48 | no two roles share a candidate key |
| Loader.RenameGivesTargets | superbase_migration/src/wulfs_routing/loader.py:57-65 | when every role resolves, the renamed table has every target column |
| Loader.AddNameKey | superbase_migration/src/wulfs_routing/loader.py:68 | `name_key` becomes the name keys of `customer_name`; every other label reads the same column as before, the existing labels keep their positions, and the labels grow by `name_key` exactly when it was absent |
| Loader.LoadMaster | superbase_migration/src/wulfs_routing/loader.py:38-69 | fails exactly when some role is unresolved, with the missing captions in order and the table untouched; otherwise the labels become exactly the rename of the resolved columns followed by `name_key` when it was absent, so no other column is added; every column other than `name_key` keeps its data, the seven targets exist and `name_key` keys `customer_name` |
| Loader.LoadRoles | superbase_migration/src/wulfs_routing/loader.py:42-69 | the same as `LoadMaster` for any roles with disjoint candidate keys whose first role yields `customer_name` |
| Loader.RenameRoles | superbase_migration/src/wulfs_routing/loader.py:57-65 | the one `rename` call: the labels become the rename of the resolved columns, the data does not change, and every target exists |
| Loader.ApplyRoles | superbase_migration/src/wulfs_routing/loader.py:57-68 | the rename followed by the `name_key` column: the labels become the renamed ones plus `name_key` when absent, all other data is kept, and `name_key` keys `customer_name` |
| Loader.Blank | superbase_migration/src/wulfs_routing/loader.py:86-89 | a default column is `""` in every row |
| Loader.OrderIdColumnDistinct | superbase_migration/src/wulfs_routing/loader.py:82-83 | the column keyed "order id" is not labelled `customer_name` or `notes` |
| Loader.NotesColumnDistinct | superbase_migration/src/wulfs_routing/loader.py:84-85 | the column keyed "notes" is not labelled `customer_name` or `order_id` |
| Loader.LowMapEntry | superbase_migration/src/wulfs_routing/loader.py:74 | `cols[k]` is a column whose lowercased, stripped label is `k` |
| Loader.NameColumnByPriority | superbase_migration/src/wulfs_routing/loader.py:80 | the `or` chain is the candidate lookup in the priority "customer name", "customer_name", "name" |
| Loader.NameColumnIsFind | superbase_migration/src/wulfs_routing/loader.py:76-80 | a name column exists exactly when `_find` over the three candidates succeeds, and the chosen column is what it finds |
| Loader.LaterRenamesSpareName | superbase_migration/src/wulfs_routing/loader.py:82-85 | neither later rename touches `customer_name` |
| Loader.OrderNamesRenamesName | superbase_migration/src/wulfs_routing/loader.py:80-85 | after the renames the chosen column is labelled `customer_name` |
| Loader.OrderNamesAddNoDefaults | superbase_migration/src/wulfs_routing/loader.py:81-85 | the renames create `order_id` (`notes`) only from a column keyed "order id" ("notes") |
| Loader.RenameOrderColumns | superbase_migration/src/wulfs_routing/loader.py:80-85 | the three conditional renames, in place: the labels become `OrderNames`, the columns do not change |
| Loader.RenameForOrders | superbase_migration/src/wulfs_routing/loader.py:80-85 | after the renames the chosen column is labelled `customer_name`, and `order_id` or `notes` appear only from a column keyed "order id" or "notes" |
| Loader.AddDefaultColumns | superbase_migration/src/wulfs_routing/loader.py:86-89 | afterwards `order_id` and `notes` exist; one that was absent is `""` everywhere; every existing column keeps its label and its data; the labels grow by exactly the absent ones of `order_id`, `notes`, in that order |
| Loader.PrepareOrders | backend/src/wulfs_routing_api/services/order_services.py:35-47 | the labels become exactly `OrderNames` followed by whichever of `order_id`, `notes`, `name_key` were absent, so the chosen column is `customer_name` and no other column is added; every column other than `name_key` keeps its data; `order_id`, `notes` and `name_key` exist, with defaults `""` and `name_key` the keys of `customer_name` |
| Loader.CompleteOrders | superbase_migration/src/wulfs_routing/loader.py:86-91 | `order_id`, `notes` and `name_key` exist afterwards, an absent default is `""` everywhere, and earlier columns keep their labels and, apart from an old `name_key`, their data; the labels grow by exactly the absent ones of `order_id`, `notes`, `name_key` |
| Loader.OrderLabelsAppended | superbase_migration/src/wulfs_routing/loader.py:86-91 | what `load_orders` appends after the renamed labels is at most three new, distinct labels, each `order_id`, `notes` or `name_key` |
| Loader.LoadOrders | superbase_migration/src/wulfs_routing/loader.py:72-92 | fails with the message, table untouched, exactly when no column is keyed "customer name", "customer_name" or "name"; otherwise as `PrepareOrders`: the labels become `OrderNames` plus the absent ones of `order_id`, `notes`, `name_key`, the data of every column but `name_key` is kept, the defaults are `""` and `name_key` keys `customer_name` |
| Orders.Where | backend/src/wulfs_routing_api/services/order_services.py:58-59 | exactly the row labels with (or without) both coordinates, ascending |
| Orders.Matched | backend/src/wulfs_routing_api/services/order_services.py:58-59 | every kept row has both coordinates, and stop `t` is the `t`-th located row; since `Where` is ascending and complete, the stops keep their relative order and are numbered `0..m-1` |
| Orders.Missing | backend/src/wulfs_routing_api/services/order_services.py:58 | each missing row lacks a coordinate and keeps its label in the joined table, labels ascending |
| Orders.CustomerDetails | backend/src/wulfs_routing_api/services/order_services.py:50-60 | the two outputs together have as many rows as the join |
| Orders.WhereCounts | backend/src/wulfs_routing_api/services/order_services.py:58-59 | located plus unlocated labels number all the rows |
| Orders.SplitPartitions | backend/src/wulfs_routing_api/services/order_services.py:58-59 | each joined row is a matched stop exactly when it has both coordinates, and a missing customer exactly when it does not |
| Orders.AllLocated | backend/src/wulfs_routing_api/services/order_services.py:58-59 | when every row has coordinates, nothing is missing and the stops are the joined rows |

## Left out

- Haversine distance (vrp_service.py:115-122) and the bearing `atan2` (vrp_service.py:19): floating-point trigonometry, modelled as the function parameters `dist` and `angle`. Angles and coordinates are `real`, so floating-point rounding is not modelled.
- `estimate_max_route_distance` (vrp_service.py:138-144): not called (line 240 is commented out); floating-point arithmetic.
- OR-Tools: the routing model, its dimensions, span and fixed costs, and its search (vrp_service.py:158-167, 233-257) are a foreign library. The model only takes its outcome, absent or one walk per vehicle, as an input.
  - `Vrp.SolveVrpOrTools` does not promise that the solver uses every vehicle or respects the capacity. The capacity `ceil(n/k)` does not force that by itself (5 stops, 4 vehicles: capacity 2, three vehicles suffice).
- `k > 0` is a precondition of the sweep and the capacity. With `k = 0` the source fails with a Python division or modulo error when there is at least one stop, or in `"OR-Tool"` mode (`ceil(n/0)`, vrp_service.py:152); that failure is not modelled. In `"Sweep"` mode with no stops, `k = 0` reaches no division or modulo, because the loops at vrp_service.py:32, 42 and 106 are all empty. The model does not cover that call either.
- `Greedy.GreedyRoute`: which of several equally near stops is chosen depends on Python's set iteration order. The model allows any of them.
- `Sweep.AngleOrder`: `sort_values` uses an unstable sort, so equal angles may come out in any order. The model fixes one ascending order. The properties of `SplitSweep` (in range, counts, balance) hold for any ascending order, but the exact labels of stops with equal angles are those of the order chosen here.
- `Names.AsciiFold`: Unicode NFKD decomposition is not modelled. Characters outside ASCII are dropped, which is what the `encode("ascii", "ignore")` step does to any character NFKD does not decompose to ASCII.
- `Columns.KeyOf`: `lower()` and `strip()` of column labels are modelled on ASCII letters and Python's ASCII whitespace. Non-ASCII case mappings and Unicode spaces are left out.
- Cell values: cells are `None` or the text of the value. The `str()` of numbers, NaN and timestamps is left out.
- `Loader.Frame.Column`: pandas returns a whole sub-frame for `df[label]` when a label is repeated. The model reads the first column with that label.
- Reading the order and master files (`read_table`, CSV and Excel), database access and the Celery task are I/O.
- The merge itself (order_services.py:51-56) is left out. `Orders` starts from the joined rows, with `None` for a latitude or longitude that is NaN, and the `_order` column suffixes do not appear.
- The call `solve_vrp(split_mode, stops_df, num_vehicles, (hq_lon, hq_lat))` (backend/src/wulfs_routing_api/tasks/celery_tasks.py:61) is outside the core. It passes the depot as (longitude, latitude), while `_split_sweep` and the haversine distance read it as (latitude, longitude). The model takes the depot as given.
