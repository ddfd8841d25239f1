# UAV/HAP placement simulator — verified model

This project models the decision and bookkeeping core of a simulator that
places UAVs (unmanned aerial vehicles) under a high-altitude platform (HAP)
and places virtual network functions (VNFs) on them.

**Entities.** UAVs carry a capacity-guarded set of active VNFs, a position,
a list of connected users and a load. Users send requests that name one to
three VNFs. The link bandwidth falls off linearly with distance up to a
maximum range.

**One simulation step:**
- Pending requests are drained in FIFO order. Each one is pre-assigned to
  the nearest UAV and its collection latency is computed.
- The Grey Wolf Optimiser (GWO) moves the UAVs. Each UAV is then active
  exactly when a HAP is in range of it.
- The Particle Swarm Optimiser (PSO) chooses which VNFs each UAV runs.
  At most `A_max` VNFs may be newly turned on, and the most-demanded ones
  are kept.
- Every request is reassigned greedily to the nearest UAV that passes all
  checks.
- One latency record per drained request is appended to `latency_records`.

**Form of the model.** The model keeps the source's form:
- Pure formulas (distance, bandwidth, latency terms, the fitness of a
  particle, leader selection, Python's stable `sorted`) are functions.
  Lemmas state what they mean.
- Code that changes state step by step is imperative:
  - `Entities.Uav` is a class whose methods update its fields.
  - `Environment.SimulationEnvironment` holds the fleet, the request
    history, the queue and the records.
  - The PSO commit works on `array2<bool>` matrices.
  - Each of these methods is proved against a function on values:
    `Assignment.Reassignment`, `Environment.Drain`, `Environment.Processed`,
    `PsoCommit.Limited`, `PsoSearch.FitnessOf`.
  - The main properties are proved about those functions.

**Inputs.** Random draws and wall-clock times are inputs of the model:
- UAV and request positions;
- the VNF lists of the requests;
- the GWO fitness scores and final wolf positions;
- the PSO particles and best matrix;
- the two optimiser durations.

**Distance.** Dafny has no square root:
- Nearest-UAV, coverage and reachability tests compare squared distances.
  `Geometry.DistanceOrder` shows that this orders pairs of points exactly as
  the Euclidean distance does.
- Where the numeric distance itself is needed, it is a function parameter
  `dist`, and `Geometry.Euclidean(dist)` states that it is the true one.

**Exactly at maximum range.** The range test in `bandwidth` is a strict `>`.
The bandwidth is therefore exactly 0 when a link is exactly at its maximum
range, and every latency term that divides by it raises Python's
ZeroDivisionError there. The model keeps this in the latency terms and the
drain: they return `Result` values, and `process_requests` stops with the
error. The PSO fitness (`PsoSearch.FitnessOf`) fails the same way. The GWO
fitness is not modelled, and the searches' outputs are inputs of
`ProcessRequests`. A fitness failure during `decision_making` is therefore
not one of its outcomes (see "Left out").

## Model

| member | source | states |
|---|---|---|
| Geometry.SqDist | main.py:6-7 | the squared distance is never negative |
| Geometry.SqDistZero | main.py:6-7 | the squared distance is 0 exactly on identical points |
| Geometry.DistanceNonNegative | main.py:6-7 | the Euclidean distance is never negative |
| Geometry.DistanceSymmetric | main.py:6-7 | the distance from q to p equals the distance from p to q |
| Geometry.DistanceZero | main.py:6-7 | the distance is 0 exactly when the two points are the same |
| Geometry.DistanceUnique | main.py:6-7 | two points have one distance, so the root is well defined |
| Geometry.DistanceOrder | environment.py:87-90 | comparing two distances with `<` or `<=` gives the same answer as comparing the squared distances, so the strict nearest-UAV scans pick the same UAV |
| Geometry.CoversIffWithinRange | classes.py:54-59 | the squared-distance coverage test holds exactly when distance <= range |
| Geometry.EuclideanProperties | main.py:6-7 | any Euclidean distance function is non-negative, symmetric and 0 on a point and itself |
| Geometry.SquareMonotone | main.py:6-7 | for non-negative reals, comparing squares compares the numbers, for both `<` and `<=` |
| Link.MaxBandwidth | main.py:21-26 | each known link has a positive maximum bandwidth |
| Link.MaxRange | main.py:21-26 | each known link has a positive maximum range |
| Link.Bandwidth | main.py:9-36 | fails with ValueError exactly on an unknown link type; otherwise it is non-negative and at most BW_max at any non-negative distance |
| Link.LinkConstants | main.py:21-28 | user_uav has 100 Mbps and 150000 m; uav_hap has 1000 Mbps and 400000 m; other names, even near misses, raise ValueError |
| Link.BandwidthAtZero | main.py:34-35 | at distance 0 the full BW_max is available |
| Link.BandwidthBeyondRange | main.py:31-32 | beyond R_max the bandwidth is the 1e-6 floor |
| Link.BandwidthNonIncreasing | main.py:34-35 | on [0, R_max] the bandwidth does not increase with distance |
| Link.BandwidthZeroExactlyAtRange | main.py:31-35 | the bandwidth is 0 exactly at d = R_max (strict `>`), and positive at every other non-negative distance |
| Link.BandwidthNotMonotone | main.py:31-35 | the bandwidth rises from 0 at R_max to the floor just beyond it, so it is not monotone across R_max |
| Sorting.Insert | optimisation.py:343 | inserting adds exactly the new element to the multiset |
| Sorting.SortBy | optimisation.py:343 | sorting keeps the length |
| Sorting.SortByPermutes | optimisation.py:343 | the sorted list is a permutation of the input |
| Sorting.SortBySorted | optimisation.py:343 | the sorted list is ordered under any total preorder |
| Sorting.SortByStable | optimisation.py:343 | elements the order cannot tell apart keep their input order, as in Python's stable `sorted` |
| Sorting.SortByKeeps | optimisation.py:110 | every input element appears in the sorted list |
| Sorting.InsertSorted | optimisation.py:343 | inserting into a sorted list keeps it sorted |
| Sorting.InsertStable | optimisation.py:343 | insertion keeps the relative order of equivalent elements |
| Sorting.SortedSuffixBound | optimisation.py:343-345 | in a sorted list each element comes no later than every element after it |
| Sorting.SortedFirstThree | optimisation.py:110-113 | the first three of a sorted permutation are three different input entries; each is ranked no lower than all entries left after the earlier ones are removed |
| Entities.Activate | classes.py:43-45 | an id is added only while fewer than `max_vnfs` are active; the cap is kept; it is a no-op at capacity and on an already-active id |
| Entities.Uav.constructor | classes.py:30-41 | a new UAV has empty VNFs and users, load 0, is active, capacity BW_max user_uav and max_move S_max * deltaT |
| Entities.Uav.ActivateVnf | classes.py:43-45 | the VNF set becomes `Activate` of the old one, so at most `max_vnfs` VNFs stay active; nothing else changes |
| Entities.Uav.DeactivateVnf | classes.py:47-48 | the id is removed if present and absence is no error; the other VNFs and fields are unchanged |
| Entities.Uav.MoveTo | classes.py:50-52 | the position becomes the target and `last_movement` is the distance from the old position; no other field changes |
| Entities.CanServeUserIffWithinRange | classes.py:54-59 | `can_serve_user` holds exactly when the Euclidean distance is at most the communication range |
| Entities.DefaultDemand | classes.py:22-27 | a request built without a demand has demand 5 and keeps its VNF list |
| Entities.Positions | classes.py:29-41 | the position list follows the UAV list |
| Latency.Divide | environment.py:128 | Python float division: fails with ZeroDivision exactly when the divisor is 0; otherwise the quotient times the divisor gives back the dividend |
| Latency.PerBandwidth | environment.py:125-128 | size / bandwidth fails exactly at d = R_max and is otherwise non-negative for a non-negative size |
| Latency.RequestCollection | environment.py:121-129 | rcl fails exactly when either the user-UAV or the UAV-HAP link is exactly at its maximum range; otherwise it is non-negative |
| Latency.Placement | environment.py:137-143 | pl fails exactly when the UAV-HAP link is at its maximum range; otherwise it is non-negative for a non-negative movement |
| Latency.Preparation | environment.py:145-149 | prep fails exactly at the UAV-HAP maximum range; otherwise it is at least beta2 |
| Latency.Transmission | environment.py:151-155 | tx fails exactly at the user-UAV maximum range; otherwise it is non-negative |
| Latency.DropRecord | environment.py:171-213 | a drop record keeps the request id and the dml it is given (0 for the no-UAV drop at environment.py:174, the decision latency for a UAV inactive after optimisation at environment.py:207); every other term is 0 and both totals are the 1e9 penalty |
| Latency.ServedRecord | environment.py:216-232 | a served record keeps the request id, and the total without placement is the total minus pl |
| Assignment.Nearest | environment.py:64-90 | the scan returns an eligible candidate, or None exactly when no candidate is eligible |
| Assignment.NearestIsNearest | environment.py:87-90 | the chosen candidate is no farther than any eligible one, and strictly nearer than every eligible one before it, so ties go to the earliest |
| Assignment.NearestStep | environment.py:87-90 | one more candidate takes over exactly when it is eligible and strictly nearer than the best so far |
| Assignment.Eligibility | environment.py:70-85 | a UAV is eligible exactly when it passes the four checks: active, in range, VNFs available, capacity left |
| Assignment.Reassignment | environment.py:56-99 | the pass gives one choice per request, each an index of the fleet, and one load per UAV |
| Assignment.ReassignmentStep | environment.py:92-95 | placing one more request appends it to the chosen UAV's users and adds its demand to that load only |
| Assignment.ReassignmentLoads | environment.py:59-95 | after the pass every UAV's load is the sum of the demands of its connected users |
| Assignment.ReassignmentWithinCapacity | environment.py:82-85 | after the pass no UAV's load exceeds its capacity |
| Assignment.ReassignmentPrefix | environment.py:64-95 | a request's choice depends only on the loads the requests before it left |
| Assignment.ReassignmentChoosesNearestFeasible | environment.py:65-97 | a request goes only to a UAV passing every check, at minimum distance among those, the earliest on ties; it goes nowhere only when no UAV passes |
| Assignment.AttachedMembership | environment.py:92-95 | a request is in a UAV's connected users exactly when the pass assigned it there |
| Assignment.AttachedToAtMostOne | environment.py:65-97 | with distinct request ids, a request is attached to at most one UAV, and to none when the pass placed it nowhere |
| Assignment.NoVnfsNoAssignment | environment.py:78-81 | with every VNF set empty, no request (each names a VNF) is placed |
| Gwo.RankedLeTotalPreorder | optimisation.py:110 | Python's tuple order on (score, position) is a total preorder |
| Gwo.Zip | optimisation.py:110 | `zip` pairs scores and wolves up to the shorter length |
| Gwo.SelectLeaders | optimisation.py:110-113 | leader selection fails with IndexError exactly when fewer than three wolves are ranked |
| Gwo.LeadersAreBest | optimisation.py:110-113 | alpha, beta and delta are the wolves ranked first, second and third by ascending fitness; they come from three different entries, and each is ranked no lower than every entry left after the earlier leaders are removed |
| Gwo.ActiveCount | optimisation.py:164-172 | the count of positions that reach a HAP is at most the number of positions |
| Gwo.ActiveCountCountsReachable | optimisation.py:164-172 | the active count is the number of positions from which a HAP is in range |
| Gwo.ActiveCountAllReachable | optimisation.py:164-172 | when every position reaches a HAP, every UAV counts as active |
| Gwo.ActiveCountIgnoresVMax | optimisation.py:174-188 | nothing caps the active UAVs at V_max: one UAV reaching the HAP already exceeds V_max = 0 |
| Gwo.Commit | optimisation.py:143-172 | every UAV ends exactly at its wolf whatever its movement budget; `last_movement` is the distance moved; the UAV is active exactly when some HAP has it in range; VNFs, users and load are unchanged |
| Gwo.Optimise | optimisation.py:99-191 | the leaders are selected from the initial positions' scores; with fewer than three UAVs no position, activity or movement changes; otherwise every UAV ends at its final wolf, `last_movement` is the distance moved, it is active exactly when a HAP is in range, and the number of active UAVs is `ActiveCount` of the wolves; VNFs, users and loads never change |
| PsoSearch.RowSet | optimisation.py:224-226 | the set holds exactly the columns whose bit is on |
| PsoSearch.PairRcl | optimisation.py:235-239 | the fitness's latency fails exactly when the user is at distance R_v or the HAP at distance R_h |
| PsoSearch.BestRclMeaning | optimisation.py:221-242 | over the UAVs the best latency fails exactly when an eligible UAV's latency divides by zero, is None exactly when none is eligible, and otherwise is an eligible UAV's latency that no eligible UAV undercuts |
| PsoSearch.RequestCostUnserved | optimisation.py:244-247 | a request no UAV can serve under the particle adds exactly 1e9 |
| PsoSearch.RequestCostServed | optimisation.py:241-247 | a request some UAV can serve adds the latency of a serving UAV, and no serving UAV has a lower latency |
| PsoSearch.CostValues | optimisation.py:214-249 | when no request's cost fails, the cost of each of the first m requests, in order |
| PsoSearch.FitnessFailsIffSomeCostFails | optimisation.py:214-249 | the fitness fails exactly when some request's cost fails; otherwise every cost succeeds and the fitness is the sum of the request costs (1e9 for an unserved request, by `RequestCostUnserved`) |
| PsoSearch.BestRclFailsFrom | optimisation.py:221-242 | a division by zero over some UAVs persists over more UAVs |
| PsoSearch.FitnessFailsFrom | optimisation.py:214-249 | a failure over some requests persists over more requests |
| PsoSearch.BestLatency | optimisation.py:221-242 | the inner loop computes the best latency the specification gives over all UAVs |
| PsoSearch.Fitness | optimisation.py:214-249 | the fitness loop computes the total cost over all requests, or the first failure |
| PsoSearch.ArgMin | optimisation.py:271 | `np.argmin` gives the first index holding the least value |
| PsoSearch.InitialBests | optimisation.py:266-273 | the initial personal bests are the particles and their scores, and the global best is their least |
| PsoSearch.Step | optimisation.py:291-298 | a particle replaces its personal best only when strictly better; no score goes up; the global best stays the least personal best |
| PsoSearch.Round | optimisation.py:280-298 | after a round every personal best is no higher than before and than its new particle, and is either kept or taken from it |
| PsoSearch.TrackBest | optimisation.py:266-298 | each personal best is the least score among the particles it saw and was attained by one of them; the global best is the least personal best |
| PsoCommit.NoRepeatsCard | optimisation.py:340 | a list without repeats has as many distinct elements as its length |
| PsoCommit.OldMatrix | optimisation.py:258-262 | the old activation matrix has one row of ten cells per UAV |
| PsoCommit.OldActivations | optimisation.py:258-262 | the array holds a 1 at (i, v) exactly when v is active on UAV i |
| PsoCommit.Needed | optimisation.py:319-322 | a VNF is needed exactly when some connected user requests it |
| PsoCommit.NeededVnfs | optimisation.py:319-322 | the loop collects exactly the needed VNFs |
| PsoCommit.Count | optimisation.py:311-313 | the count of v in a list is its multiplicity |
| PsoCommit.DemandCountsRequests | optimisation.py:309-313 | when no request names a VNF twice, a VNF's demand is the number of requests asking for it |
| PsoCommit.Demands | optimisation.py:309-313 | the demand vector has one entry per catalogue VNF: the number of times it is requested |
| PsoCommit.DemandVector | optimisation.py:309-313 | the loop computes the demand vector |
| PsoCommit.SelectActivations | optimisation.py:307-331 | every row is a valid choice: empty for an inactive UAV; for an active one, only VNFs on in the best row and needed by its users, all of them when they fit, exactly `max_vnfs` of them otherwise |
| PsoCommit.SelectRow | optimisation.py:315-331 | one UAV's row is a valid choice, and the other rows are unchanged |
| PsoCommit.ChosenRow | optimisation.py:324-331 | a row holding exactly a subset of the valid VNFs of the right size is a valid choice |
| PsoCommit.SubsetOfSize | optimisation.py:327-328 | a set has subsets of every smaller size, so `random.sample` always has a choice |
| PsoCommit.SetRow | optimisation.py:330-331 | the cells named in the row are set and every other cell is unchanged |
| PsoCommit.NewCellsMembership | optimisation.py:334-340 | the listed cells are exactly those the selection has on and the old matrix off |
| PsoCommit.NewCellsNoRepeats | optimisation.py:340 | `argwhere` lists each new cell once |
| PsoCommit.NewCellsFacts | optimisation.py:334-340 | the new cells are exactly the 0->1 cells, each listed once |
| PsoCommit.MoreDemandTotalPreorder | optimisation.py:343 | the descending-demand order is a total preorder, so the stable sort applies |
| PsoCommit.Overlay | optimisation.py:346-351 | adding `delta` and clipping keeps the matrix shape |
| PsoCommit.OverlayTurnsOn | optimisation.py:346-351 | overlaying cells that were off turns on exactly those cells |
| PsoCommit.AllowedFacts | optimisation.py:340-345 | when over budget, the allowed cells are exactly `A_max` different new cells |
| PsoCommit.SortedByDemand | optimisation.py:343 | in the sorted list an earlier cell has no less demand than a later one |
| PsoCommit.AllowedHaveMostDemand | optimisation.py:343-345 | an allowed cell has no less demand than any new cell left out |
| PsoCommit.LimitedProperties | optimisation.py:333-351 | within the budget the selection stands; over it no active cell is turned off, exactly `A_max` cells are turned on, all chosen by the selection and none with less demand than a dropped one |
| PsoCommit.NoNewActivationsWhenAMaxZero | optimisation.py:333-351 | with A_max = 0, as configured, the commit never turns a VNF on |
| PsoCommit.LimitActivations | optimisation.py:333-351 | the array computed is the limited final matrix of the old matrix, the selection and the demands |
| PsoCommit.AllowedInRange | optimisation.py:346-348 | every allowed cell lies inside the matrix |
| PsoCommit.MarkCells | optimisation.py:346-348 | `delta` is 1 exactly at the allowed cells |
| PsoCommit.IndicesMembership | optimisation.py:358 | `np.where` lists exactly the columns holding a 1 |
| PsoCommit.IndicesAscending | optimisation.py:358 | those columns come in ascending order |
| PsoCommit.ActivateAllKeepsFirst | classes.py:43-45 | activating distinct ids one by one from nothing keeps the first `max_vnfs` of them |
| PsoCommit.AppliedRowKeepsLowest | optimisation.py:353-364 | applying a final row leaves the lowest-numbered min(max_vnfs, row count) VNFs of it active, so the capacity holds |
| PsoCommit.ActivateRow | optimisation.py:361-364 | clearing the set and activating the ids in turn gives the capped activation of the row |
| PsoCommit.ApplyRow | optimisation.py:353-364 | an inactive UAV keeps its set; an active one gets its final row through `activate_vnf` |
| PsoCommit.ApplyActivations | optimisation.py:353-364 | every active UAV gets its final row through `activate_vnf`; inactive UAVs keep their sets; no other field changes |
| PsoCommit.FinalMatrix | optimisation.py:258-262 | the selection is valid and the final matrix is the limited one, computed without touching the UAVs |
| PsoCommit.Commit | optimisation.py:307-364 | the selection is valid, and every active UAV ends with what its limited final row activates through the capacity guard |
| Environment.Numbered | environment.py:41-44 | generated requests are numbered consecutively from the history's length and keep their draws |
| Environment.RecordOf | environment.py:196-232 | an inactive pre-pass UAV gives a drop record carrying dml; an active one gives a record with that rcl and dml, total = rcl + dml + pl + prep + tx and total without placement = total - pl; it fails exactly at a link's maximum range |
| Environment.Drain | environment.py:163-189 | a completed drain yields one drop record or one collected request per queued request, each on a UAV of the fleet |
| Environment.DrainStep | environment.py:164-189 | one turn adds one entry for the request |
| Environment.PrePassOfExtend | environment.py:165-167 | one more request of the queue joins the list of its nearest UAV only, and that UAV's demand sum grows by its demand |
| Environment.PrePassStep | environment.py:165-167 | one UAV's users and load stay its starting ones plus its pre-pass share when one more request is handled |
| Environment.PrePassHoldsStep | environment.py:165-167 | every UAV's users and load stay its starting ones plus its pre-pass share when one more request is handled |
| Environment.PrePassNeeded | environment.py:165-167 | after the pre-pass the VNFs the UAVs' users need are those of the starting users plus their pre-pass shares |
| Environment.DrainExtend | environment.py:163-189 | the drain of one more request continues the drain of those before it |
| Environment.DrainWithoutUavs | environment.py:167-181 | with no UAV every request gets a drop record with all terms 0 and the penalty totals, in queue order |
| Environment.DrainWithUavs | environment.py:163-189 | with UAVs the drain fails exactly when some request's collection latency does; otherwise every request is collected in queue order with its nearest UAV and its latency |
| Environment.DrainFailurePersists | environment.py:163-189 | once the drain has failed on a prefix of the queue, it fails with that error on the whole queue |
| Environment.DrainKeepsOrder | environment.py:163-189 | with UAVs a completed drain drops nothing and collects the requests in FIFO order |
| Environment.GatherAll | environment.py:196-234 | gathering succeeds exactly when every record does, and then keeps all records in order |
| Environment.GatherFailurePersists | environment.py:196-234 | a failure on a prefix is the failure of the whole record loop |
| Environment.Outcomes | environment.py:196-232 | each collected request's outcome is its record on its pre-pass UAV's state after optimisation |
| Environment.RecordsOnePerRequest | environment.py:196-234 | the record loop fails exactly when some record fails; otherwise it gives one record per collected request, in order |
| Environment.RecordsKeepIds | environment.py:196-234 | a completed record loop keeps each collected request's id, in order |
| Environment.ProcessedOnePerRequest | environment.py:158-235 | a completed `process_requests` yields one record per drained request, with its id, in FIFO order |
| Environment.AppliedRowInCatalogue | optimisation.py:353-364 | applying a row leaves only catalogue VNF ids active |
| Environment.SimulationEnvironment.constructor | environment.py:13-32 | one HAP at (0, 0, 20000) with range R_h; one UAV per drawn position with C VNF slots and range R_v, empty and active; empty history, queue and records |
| Environment.SimulationEnvironment.GenerateUserRequests | environment.py:34-44 | each drawn request gets the next id (the history's length) and joins both the history and the queue; records are unchanged |
| Environment.SimulationEnvironment.NearestUavIndex | environment.py:105-111 | the loop finds the first UAV strictly nearer than every earlier one |
| Environment.SimulationEnvironment.AssignUserToUav | environment.py:101-118 | the nearest UAV takes the request and its demand with no other check; the result is None exactly when there is no UAV; nothing else changes |
| Environment.SimulationEnvironment.Attach | environment.py:92-95 | only the chosen UAV gets the request and its demand |
| Environment.SimulationEnvironment.ResetConnections | environment.py:59-61 | every UAV's users are emptied and its load is 0 |
| Environment.SimulationEnvironment.Consider | environment.py:70-90 | the checks on one UAV, in source order, then the strict comparison, advance the nearest-feasible scan by one UAV |
| Environment.SimulationEnvironment.ChooseFeasible | environment.py:64-90 | the scan chooses the nearest UAV passing every check |
| Environment.SimulationEnvironment.PlaceRequest | environment.py:64-97 | placing one request extends the UAVs' users and loads as the reassignment specification does |
| Environment.SimulationEnvironment.ReassignUsersAfterOptimization | environment.py:56-99 | every UAV's users and load end as the reassignment of all requests says, so loads are the sums of demands and within capacity |
| Environment.SimulationEnvironment.ReassignAgain | environment.py:56-99 | reassignment is idempotent: on UAVs that already reflect a reassignment of the current requests, another pass leaves every UAV's users and load as they were, and nothing else changes |
| Environment.SimulationEnvironment.CollectOne | environment.py:164-189 | one turn of the drain: a drop record with no UAV, else the request with its nearest UAV and rcl |
| Environment.SimulationEnvironment.DrainTurn | environment.py:163-189 | one turn pops the head of the queue and continues the drain by it; a failing turn is where the drain stops; its nearest UAV gains the request and its demand |
| Environment.SimulationEnvironment.DrainQueue | environment.py:163-189 | the loop pops the first `taken` requests: all of them when the drain completes, up to and including the failing one otherwise; the result is the drain of those requests; the UAVs gain exactly their pre-pass share of them, and nothing else changes |
| Environment.SimulationEnvironment.CollectRequests | environment.py:163-189 | the result is the drain of the whole queue in FIFO order; the queue is empty after a completed drain and keeps the requests after the failing one otherwise; each UAV gains exactly the requests taken whose nearest UAV it is, with their demands; positions, activity, VNFs and movements are unchanged |
| Environment.SimulationEnvironment.BuildRecords | environment.py:196-232 | the record loop computes the records on the current UAV states, or the first failure |
| Environment.SimulationEnvironment.RecordAll | environment.py:196-234 | the records are appended to `latency_records` after the drop records only when the loop completes |
| Environment.SimulationEnvironment.ReassignAndRecord | environment.py:193-234 | the result is `Processed` of the completed drain on the decided fleet: the records on the fleet the reassignment leaves, one per drained request with its id, appended to `latency_records` only on success; the UAVs reflect the reassignment of all requests, and positions, activity, VNFs and movements are unchanged |
| Environment.SimulationEnvironment.CommitVnfs | optimisation.py:307-364 | the PSO commit with A_max from the configuration: a valid selection, every active UAV's VNFs from its limited final row, and no other field changes |
| Environment.SimulationEnvironment.MakeDecisions | environment.py:131-135 | GWO fails exactly with fewer than three UAVs, and then nothing changes; otherwise the fleet is `Decided`: each UAV is at its final wolf, `last_movement` is the distance moved, it is active exactly when a HAP is in range, and an active UAV runs the VNFs of its row of a valid PSO selection after the A_max limit; users and loads are untouched |
| Environment.SimulationEnvironment.MoveFleet | optimisation.py:143-172 | GWO fails exactly with fewer than three UAVs, and then nothing changes; otherwise each UAV is at its final wolf, having moved the distance from its old position, active exactly when a HAP is in range, with its VNFs untouched |
| Environment.SimulationEnvironment.CommitFleet | optimisation.py:307-364 | the PSO commit on the fleet: a valid selection for the activity flags, needed VNFs and slot counts, every active UAV holding its limited row and every inactive one its old VNFs; positions, movements, users and loads are unchanged |
| Environment.DecidedOf | environment.py:131-135 | the GWO step followed by the PSO commit makes a decision as `Decided` states it |
| Environment.SimulationEnvironment.DecideAndRecord | environment.py:191-234 | after a completed drain the result is `Processed`: one record per drained request, with its id, in FIFO order, appended to `latency_records`; with fewer than three UAVs the fleet keeps its pre-pass state; otherwise it is `Decided` with the VNFs the pre-pass users need, and reflects the reassignment |
| Environment.SimulationEnvironment.ProcessRequests | environment.py:158-235 | the outcome is `Processed` of the drain of the queue: the drain's failure, the GWO IndexError, a record failure, or one record per drained request in FIFO order appended to `latency_records`; the queue loses the requests taken; when the drain or GWO fails the UAVs keep only the pre-pass of the requests taken; otherwise they are `Decided` with the VNFs the pre-pass users need, and reflect the reassignment |

## Left out

- Random draws and clock times are inputs:
  - UAV positions (environment.py:31);
  - the Poisson request count and request positions (environment.py:35-38);
  - `random.randint` and `random.sample` of VNF lists (environment.py:40), constrained by `Environment.PossibleDraw`;
  - `time.time()` durations (optimisation.py:101, 190-191, 256, 304, 366-367).
- `print` output is not modelled (console only).
- Floating point is modelled as exact `real` arithmetic. The square root of `distance` is a parameter `dist`, because Dafny has no square root.
- The GWO fitness (optimisation.py:14-61) is an input, the scores GWO ranks wolves by. It is a penalty-laden float accumulation with no decision logic to verify.
- The GWO search loop and `update_position` (optimisation.py:63-97, 115-141) are random. The final wolves are an input, and so is the HAP clamp inside `update_position`, which needs square-root scaling.
- The PSO swarm initialisation, velocity update, sigmoid, random thresholds and inertia schedule (optimisation.py:203-212, 251-252, 275-289, 299-302) are random. The particles of every round and the swarm-best matrix are inputs.
- The movement-budget rescale (optimisation.py:150-161) is computed and discarded by the source. `Gwo.Commit` therefore moves each UAV exactly to its wolf.
- The V_max deactivation (optimisation.py:174-188) is commented out in the source and is not modelled. `Gwo.ActiveCountIgnoresVMax` records that nothing caps the active UAVs.
- `optimise_network`, `optimise_vnfs` and `run_simulation` (environment.py:46-54, 237-241) only call other operations in sequence. `MakeDecisions` and `ProcessRequests` compose the modelled operations instead.
- `placement` calls `uav.move()`, which classes.py does not define. The movement term is the UAV's `last_movement`.
- PARAMS lacks the keys S, B, R and U:
  - the message sizes S and B are the parameter `Latency.MessageSizes`;
  - the arrival rate R and the fleet size U are implicit in the draws.
- The HAP and UAV constructors are called without their range and capacity arguments (environment.py:27, 32). The model uses R_h, R_v and C from PARAMS.
- main.py `main()`, sims.py and the Results/ scripts are experiment drivers and data analysis, not part of this model.
- Environment.SimulationEnvironment.ProcessRequests: the GWO and PSO searches of `decision_making` are inputs, so the ZeroDivisionError their fitness functions raise on a link exactly at its maximum range (optimisation.py:39-45 for GWO, 238-239 for PSO) does not abort the model's run. `PsoSearch.FitnessOf` models the PSO one on its own.
- Environment.SimulationEnvironment.MakeDecisions: does not restate which leaders GWO picks beyond `Gwo.Optimise` returning `Gwo.SelectLeaders` (proved about in `Gwo.LeadersAreBest`); it yields them as its result.
- Latency.DecisionLatency has no contract of its own. It is the plain sum of the two optimiser durations (environment.py:131-135).
- Aliasing between UAV objects in the fleet list is excluded by `Entities.Distinct`; the source builds each UAV once.
