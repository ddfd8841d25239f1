/**
  `SimulationEnvironment` of environment.py: the UAV fleet and the HAP, the
  request queue, the greedy assignment passes and the per-request latency
  records.

  Random draws (UAV positions, request positions and VNF lists), the
  optimisers' random searches and their wall-clock durations are inputs.
  `dist` stands for main.py's `distance`, whose square root is outside the
  model; nearest-UAV comparisons use the squared distance, which orders
  UAVs the same way (`Geometry.DistanceOrder`).
*/
module Environment {
  import opened Wrappers
  import opened Geometry
  import opened Link
  import opened Entities
  import opened Latency
  import opened Assignment
  import Gwo
  import PsoSearch
  import PsoCommit

  /** One request drawn by `generate_user_requests` (environment.py:38-40). */
  datatype Draw = Draw(position: Point, requestedVnfs: seq<nat>)

  /** `random.sample(range(10), random.randint(1, 3))`: one to three different VNF ids. */
  predicate PossibleDraw(d: Draw) {
    && 1 <= |d.requestedVnfs| <= 3
    && (forall k :: 0 <= k < |d.requestedVnfs| ==> d.requestedVnfs[k] < NUM_VNFS)
    && (forall a, b :: 0 <= a < b < |d.requestedVnfs| ==> d.requestedVnfs[a] != d.requestedVnfs[b])
  }

  /** The requests made from `draws`, numbered from `start` on. */
  function Numbered(start: nat, draws: seq<Draw>): (rs: seq<UserRequest>)
    ensures |rs| == |draws|
    ensures forall k :: 0 <= k < |draws| ==>
      rs[k] == UserRequest(start + k, draws[k].position, draws[k].requestedVnfs)
  {
    seq(|draws|, k requires 0 <= k < |draws| => UserRequest(start + k, draws[k].position, draws[k].requestedVnfs))
  }

  /** What the assignment passes read of a UAV. */
  function StationOf(u: Uav): Station
    reads u
  {
    Station(u.position, u.communicationRange, u.isActive, u.activeVnfs, u.maxCapacity)
  }

  function Stations(uavs: seq<Uav>): (st: seq<Station>)
    reads uavs
    ensures |st| == |uavs| && forall i :: 0 <= i < |uavs| ==> st[i] == StationOf(uavs[i])
  {
    seq(|uavs|, i requires 0 <= i < |uavs| reads uavs => StationOf(uavs[i]))
  }

  function AllTrue(n: nat): (e: seq<bool>)
    ensures |e| == n && forall j :: 0 <= j < n ==> e[j]
  {
    seq(n, _ => true)
  }

  /** The pre-pass choice for a request: the nearest UAV, unconditionally. */
  function NearestUav(positions: seq<Point>, r: UserRequest): Option<nat> {
    Nearest(positions, AllTrue(|positions|), r.userPosition, |positions|)
  }

  /** The pre-pass choices of a batch of requests made while the positions stay put. */
  function PrePass(positions: seq<Point>, pend: seq<UserRequest>): (a: seq<Option<nat>>)
    ensures |a| == |pend| && forall k :: 0 <= k < |pend| ==> a[k] == NearestUav(positions, pend[k])
  {
    seq(|pend|, k requires 0 <= k < |pend| => NearestUav(positions, pend[k]))
  }

  /** The requests of `pend` the pre-pass gives to UAV `i`, in queue order. */
  function PrePassOf(positions: seq<Point>, pend: seq<UserRequest>, i: nat): seq<UserRequest> {
    Attached(pend, PrePass(positions, pend), i)
  }

  /** One more request of the queue joins the list, and the load, of its nearest UAV only. */
  lemma PrePassOfExtend(positions: seq<Point>, pend: seq<UserRequest>, k: nat, i: nat)
    requires k < |pend|
    ensures var tail := if NearestUav(positions, pend[k]) == Some(i) then [pend[k]] else [];
      && PrePassOf(positions, pend[..k + 1], i) == PrePassOf(positions, pend[..k], i) + tail
      && SumDemands(PrePassOf(positions, pend[..k + 1], i)) == SumDemands(PrePassOf(positions, pend[..k], i) + tail)
  {
    assert pend[..k + 1][..k] == pend[..k];
    assert PrePass(positions, pend[..k + 1])[..k] == PrePass(positions, pend[..k]);
  }

  /** The pre-pass invariant of one UAV, carried over one more request of the queue. */
  lemma PrePassStep(positions: seq<Point>, pend: seq<UserRequest>, k: nat, i: nat,
                    users: seq<UserRequest>, before: seq<UserRequest>, after: seq<UserRequest>,
                    load: int, beforeLoad: int, afterLoad: int)
    requires k < |pend|
    requires before == users + PrePassOf(positions, pend[..k], i)
    requires beforeLoad == load + SumDemands(PrePassOf(positions, pend[..k], i))
    requires after == before + (if NearestUav(positions, pend[k]) == Some(i) then [pend[k]] else [])
    requires afterLoad == beforeLoad + (if NearestUav(positions, pend[k]) == Some(i) then pend[k].demand else 0)
    ensures after == users + PrePassOf(positions, pend[..k + 1], i)
    ensures afterLoad == load + SumDemands(PrePassOf(positions, pend[..k + 1], i))
  {
    PrePassOfExtend(positions, pend, k, i);
    var tail := if NearestUav(positions, pend[k]) == Some(i) then [pend[k]] else [];
    SumDemandsAppend(PrePassOf(positions, pend[..k], i), tail);
    assert users + PrePassOf(positions, pend[..k], i) + tail == users + (PrePassOf(positions, pend[..k], i) + tail);
  }

  /** The connected users of each UAV, in fleet order. */
  function UsersOf(uavs: seq<Uav>): (us: seq<seq<UserRequest>>)
    reads uavs
    ensures |us| == |uavs| && forall i :: 0 <= i < |uavs| ==> us[i] == uavs[i].connectedUsers
  {
    seq(|uavs|, i requires 0 <= i < |uavs| reads uavs => uavs[i].connectedUsers)
  }

  /** The load of each UAV, in fleet order. */
  function LoadsOf(uavs: seq<Uav>): (ls: seq<int>)
    reads uavs
    ensures |ls| == |uavs| && forall i :: 0 <= i < |uavs| ==> ls[i] == uavs[i].currentLoad
  {
    seq(|uavs|, i requires 0 <= i < |uavs| reads uavs => uavs[i].currentLoad)
  }

  /**
    Each UAV's users `now` are its earlier users `users` followed by the
    requests the pre-pass of `pend` gave it, and its load `nowLoads` is
    `loads` raised by their demands.
  */
  ghost predicate PrePassHolds(now: seq<seq<UserRequest>>, nowLoads: seq<int>, users: seq<seq<UserRequest>>,
                               loads: seq<int>, positions: seq<Point>, pend: seq<UserRequest>)
  {
    && |now| == |nowLoads| == |users| == |loads|
    && forall i :: 0 <= i < |now| ==> PrePassHoldsAt(now, nowLoads, users, loads, positions, pend, i)
  }

  /** `PrePassHolds` for UAV `i`. */
  ghost predicate PrePassHoldsAt(now: seq<seq<UserRequest>>, nowLoads: seq<int>, users: seq<seq<UserRequest>>,
                                 loads: seq<int>, positions: seq<Point>, pend: seq<UserRequest>, i: int)
  {
    && 0 <= i < |now| && i < |nowLoads| && i < |users| && i < |loads|
    && now[i] == users[i] + PrePassOf(positions, pend, i)
    && nowLoads[i] == loads[i] + SumDemands(PrePassOf(positions, pend, i))
  }

  /** `PrePassHolds` for the users and loads of the fleet `uavs`. */
  ghost predicate PrePassApplied(uavs: seq<Uav>, users: seq<seq<UserRequest>>, loads: seq<int>,
                                 positions: seq<Point>, pend: seq<UserRequest>)
    reads uavs
  {
    PrePassHolds(UsersOf(uavs), LoadsOf(uavs), users, loads, positions, pend)
  }

  /**
    The fleet during the drain: nothing but users and loads has changed
    since `stations`, `movements` and `positions`, and the pre-pass of
    `taken` has been applied over `users` and `loads`.
  */
  ghost predicate DrainProgress(uavs: seq<Uav>, stations: seq<Station>, movements: seq<real>, positions: seq<Point>,
                                users: seq<seq<UserRequest>>, loads: seq<int>, taken: seq<UserRequest>)
    reads uavs
  {
    && Frozen(uavs, stations, movements)
    && Entities.Positions(uavs) == positions
    && PrePassApplied(uavs, users, loads, positions, taken)
  }

  /** Every UAV's share of one more request of the queue keeps `PrePassHolds`. */
  lemma PrePassHoldsStep(before: seq<seq<UserRequest>>, beforeLoads: seq<int>,
                         after: seq<seq<UserRequest>>, afterLoads: seq<int>,
                         users: seq<seq<UserRequest>>, loads: seq<int>,
                         positions: seq<Point>, pend: seq<UserRequest>, k: nat)
    requires k < |pend| && PrePassHolds(before, beforeLoads, users, loads, positions, pend[..k])
    requires |after| == |afterLoads| == |before|
    requires forall i :: 0 <= i < |after| ==>
      && after[i] == before[i] + (if NearestUav(positions, pend[k]) == Some(i) then [pend[k]] else [])
      && afterLoads[i] == beforeLoads[i] + (if NearestUav(positions, pend[k]) == Some(i) then pend[k].demand else 0)
    ensures PrePassHolds(after, afterLoads, users, loads, positions, pend[..k + 1])
  {
    var longer := pend[..k + 1];
    forall i | 0 <= i < |after|
      ensures PrePassHoldsAt(after, afterLoads, users, loads, positions, longer, i)
    {
      PrePassHoldsAtStep(before, beforeLoads, after, afterLoads, users, loads, positions, pend, k, i);
    }
  }

  /** `PrePassHoldsStep` for UAV `i`. */
  lemma PrePassHoldsAtStep(before: seq<seq<UserRequest>>, beforeLoads: seq<int>,
                           after: seq<seq<UserRequest>>, afterLoads: seq<int>,
                           users: seq<seq<UserRequest>>, loads: seq<int>,
                           positions: seq<Point>, pend: seq<UserRequest>, k: nat, i: nat)
    requires k < |pend| && PrePassHoldsAt(before, beforeLoads, users, loads, positions, pend[..k], i)
    requires i < |after| && i < |afterLoads|
    requires after[i] == before[i] + (if NearestUav(positions, pend[k]) == Some(i) then [pend[k]] else [])
    requires afterLoads[i] == beforeLoads[i] + (if NearestUav(positions, pend[k]) == Some(i) then pend[k].demand else 0)
    ensures PrePassHoldsAt(after, afterLoads, users, loads, positions, pend[..k + 1], i)
  {
    PrePassStep(positions, pend, k, i, users[i], before[i], after[i], loads[i], beforeLoads[i], afterLoads[i]);
  }

  /** `request_collection` for a request and the UAV at `uavPos` (environment.py:121-129). */
  function Collection(uavPos: Point, hapPos: Point, r: UserRequest, sizes: MessageSizes, dist: (Point, Point) -> real): Result<real, LinkError> {
    RequestCollection(dist(uavPos, r.userPosition), dist(uavPos, hapPos), sizes)
  }

  /** A request collected by the drain with its pre-pass UAV and collection latency. */
  datatype Collected = Collected(request: UserRequest, assignedUav: nat, rcl: real)

  /**
    The record of a collected request (environment.py:196-232): a drop
    record carrying `dml` when its pre-pass UAV is inactive, otherwise the
    five latency terms measured on that UAV.
  */
  function RecordOf(e: Collected, dml: real, st: Station, lastMovement: real, hapPos: Point,
                    sizes: MessageSizes, dist: (Point, Point) -> real): (rec: Result<LatencyRecord, LinkError>)
    ensures rec.Success? ==> rec.value.requestId == e.request.requestId
    ensures !st.isActive ==> rec == Success(DropRecord(e.request.requestId, dml))
    ensures st.isActive && rec.Success? ==>
      && rec.value.rcl == e.rcl && rec.value.dml == dml
      && rec.value.total == rec.value.rcl + rec.value.dml + rec.value.pl + rec.value.prep + rec.value.tx
      && rec.value.totalNoPlacement == rec.value.total - rec.value.pl
    ensures st.isActive ==> (rec.Success? <==>
      dist(st.position, hapPos) != MaxRange(UAV_HAP) && dist(st.position, e.request.userPosition) != MaxRange(USER_UAV))
  {
    if !st.isActive then Success(DropRecord(e.request.requestId, dml))
    else
      var dUavHap := dist(st.position, hapPos);
      var pl := Placement(lastMovement, dUavHap, sizes);
      var prep := Preparation(dUavHap, sizes);
      var tx := Transmission(dist(st.position, e.request.userPosition), sizes);
      // placement and preparation fail together, on the UAV-HAP link
      if pl.Failure? then Failure(pl.error)
      else if tx.Failure? then Failure(tx.error)
      else Success(ServedRecord(e.request.requestId, e.rcl, dml, pl.value, prep.value, tx.value))
  }


  /** What the drain of the queue has produced: the drop records and the collected requests. */
  datatype Drained = Drained(dropped: seq<LatencyRecord>, collected: seq<Collected>)

  /**
    The drain loop of `process_requests` (environment.py:163-189) over the
    queue `pend`, with the UAV positions it reads (the pre-pass moves no
    UAV): a request with no UAV gets a drop record with `dml` 0, any other
    is collected with its nearest UAV and its collection latency; the first
    ZeroDivisionError stops the drain.
  */
  function Drain(positions: seq<Point>, hapPos: Point, pend: seq<UserRequest>,
                 sizes: MessageSizes, dist: (Point, Point) -> real): (d: Result<Drained, LinkError>)
    ensures d.Success? ==> |d.value.dropped| + |d.value.collected| == |pend|
    ensures d.Success? ==> OnFleet(d.value.collected, |positions|)
  {
    if pend == [] then Success(Drained([], []))
    else
      var prev := Drain(positions, hapPos, pend[..|pend| - 1], sizes, dist);
      if prev.Failure? then prev
      else DrainStep(positions, hapPos, prev.value, pend[|pend| - 1], sizes, dist)
  }

  /** One turn of the drain after `acc`. */
  function DrainStep(positions: seq<Point>, hapPos: Point, acc: Drained, r: UserRequest,
                     sizes: MessageSizes, dist: (Point, Point) -> real): (d: Result<Drained, LinkError>)
    ensures d.Success? ==> |d.value.dropped| + |d.value.collected| == |acc.dropped| + |acc.collected| + 1
    ensures d.Success? && OnFleet(acc.collected, |positions|) ==> OnFleet(d.value.collected, |positions|)
  {
    match NearestUav(positions, r)
    case None => Success(Drained(acc.dropped + [DropRecord(r.requestId, 0.0)], acc.collected))
    case Some(a) =>
      var c := Collection(positions[a], hapPos, r, sizes, dist);
      if c.Failure? then Failure(c.error)
      else Success(Drained(acc.dropped, acc.collected + [Collected(r, a, c.value)]))
  }

  /** The drain of one more request continues the drain of the ones before it. */
  lemma DrainExtend(positions: seq<Point>, hapPos: Point, pend: seq<UserRequest>, k: nat,
                    sizes: MessageSizes, dist: (Point, Point) -> real)
    requires k < |pend|
    ensures var prev := Drain(positions, hapPos, pend[..k], sizes, dist);
      Drain(positions, hapPos, pend[..k + 1], sizes, dist)
        == if prev.Failure? then prev else DrainStep(positions, hapPos, prev.value, pend[k], sizes, dist)
  {
    assert pend[..k + 1][..k] == pend[..k];
  }

  /**
    The drain of `pend` stops with `d` at its `taken`-th request: the
    requests before it drain, and with it the drain gives `d`.
  */
  ghost predicate DrainStopsAt(positions: seq<Point>, hapPos: Point, pend: seq<UserRequest>, taken: int,
                               sizes: MessageSizes, dist: (Point, Point) -> real, d: Result<Drained, LinkError>)
  {
    && 0 < taken <= |pend|
    && Drain(positions, hapPos, pend[..taken - 1], sizes, dist).Success?
    && Drain(positions, hapPos, pend[..taken], sizes, dist) == d
  }

  /** With no UAV every drained request gets a drop record with all terms 0, in queue order. */
  lemma {:induction false} DrainWithoutUavs(hapPos: Point, pend: seq<UserRequest>, sizes: MessageSizes, dist: (Point, Point) -> real)
    ensures var d := Drain([], hapPos, pend, sizes, dist);
      && d.Success? && d.value.collected == [] && |d.value.dropped| == |pend|
      && forall k :: 0 <= k < |pend| ==> d.value.dropped[k] == DropRecord(pend[k].requestId, 0.0)
  {
    if pend != [] {
      var n := |pend| - 1;
      DrainWithoutUavs(hapPos, pend[..n], sizes, dist);
    }
  }

  /** The collection latency of a request on its pre-pass UAV. */
  function PrePassCollection(positions: seq<Point>, hapPos: Point, r: UserRequest,
                             sizes: MessageSizes, dist: (Point, Point) -> real): Result<real, LinkError>
    requires |positions| > 0
  {
    Collection(positions[NearestUav(positions, r).value], hapPos, r, sizes, dist)
  }

  /**
    With UAVs, the drain fails exactly when some request's collection
    latency does; otherwise nothing is dropped and every request is
    collected, in queue order, with its nearest UAV and its latency.
  */
  lemma {:induction false} DrainWithUavs(positions: seq<Point>, hapPos: Point, pend: seq<UserRequest>,
                                         sizes: MessageSizes, dist: (Point, Point) -> real)
    requires |positions| > 0
    ensures var d := Drain(positions, hapPos, pend, sizes, dist);
      && (d.Success? <==> forall k :: 0 <= k < |pend| ==> PrePassCollection(positions, hapPos, pend[k], sizes, dist).Success?)
      && (d.Success? ==>
            && d.value.dropped == [] && |d.value.collected| == |pend|
            && forall k :: 0 <= k < |pend| ==>
                 d.value.collected[k] == Collected(pend[k], NearestUav(positions, pend[k]).value,
                                                   PrePassCollection(positions, hapPos, pend[k], sizes, dist).value))
  {
    if pend != [] {
      var n := |pend| - 1;
      DrainWithUavs(positions, hapPos, pend[..n], sizes, dist);
      var prev := Drain(positions, hapPos, pend[..n], sizes, dist);
      if prev.Success? {
        assert AllTrue(|positions|)[0];
        var a := NearestUav(positions, pend[n]).value;
        var c := PrePassCollection(positions, hapPos, pend[n], sizes, dist);
        assert Drain(positions, hapPos, pend, sizes, dist)
            == if c.Failure? then Failure(c.error)
               else Success(Drained([], prev.value.collected + [Collected(pend[n], a, c.value)]));
        if c.Success? {
          var col := prev.value.collected + [Collected(pend[n], a, c.value)];
          forall k | 0 <= k < |pend|
            ensures col[k] == Collected(pend[k], NearestUav(positions, pend[k]).value,
                                        PrePassCollection(positions, hapPos, pend[k], sizes, dist).value)
          {
            if k < n {
              assert col[k] == prev.value.collected[k] && pend[..n][k] == pend[k];
            }
          }
        }
      }
    }
  }

  function Movements(uavs: seq<Uav>): (ms: seq<real>)
    reads uavs
    ensures |ms| == |uavs| && forall i :: 0 <= i < |uavs| ==> ms[i] == uavs[i].lastMovement
  {
    seq(|uavs|, i requires 0 <= i < |uavs| reads uavs => uavs[i].lastMovement)
  }

  predicate OnFleet(collected: seq<Collected>, n: nat) {
    forall k :: 0 <= k < |collected| ==> collected[k].assignedUav < n
  }

  /** The first failure among `outcomes`, or all their records in order. */
  function Gather(outcomes: seq<Result<LatencyRecord, LinkError>>): Result<seq<LatencyRecord>, LinkError> {
    if outcomes == [] then Success([])
    else
      var prev := Gather(outcomes[..|outcomes| - 1]);
      var last := outcomes[|outcomes| - 1];
      if prev.Failure? then prev
      else if last.Failure? then Failure(last.error)
      else Success(prev.value + [last.value])
  }

  /** Gathering succeeds exactly when every outcome does, and then keeps them all, in order. */
  lemma {:induction false} GatherAll(outcomes: seq<Result<LatencyRecord, LinkError>>)
    ensures var g := Gather(outcomes);
      && (g.Success? <==> forall k :: 0 <= k < |outcomes| ==> outcomes[k].Success?)
      && (g.Success? ==> |g.value| == |outcomes| && forall k :: 0 <= k < |outcomes| ==> g.value[k] == outcomes[k].value)
  {
    if outcomes != [] {
      var n := |outcomes| - 1;
      GatherAll(outcomes[..n]);
      assert forall k :: 0 <= k < n ==> outcomes[..n][k] == outcomes[k];
    }
  }

  /** Once gathering has failed on a prefix, it fails with that error on the whole list. */
  lemma {:induction false} GatherFailurePersists(outcomes: seq<Result<LatencyRecord, LinkError>>, n: nat)
    requires n <= |outcomes| && Gather(outcomes[..n]).Failure?
    ensures Gather(outcomes) == Gather(outcomes[..n])
    decreases |outcomes| - n
  {
    if n < |outcomes| {
      var m := |outcomes| - 1;
      assert outcomes[..m][..n] == outcomes[..n];
      GatherFailurePersists(outcomes[..m], n);
    } else {
      assert outcomes[..n] == outcomes;
    }
  }

  /** The record (or the failure) of each collected request, on the given UAV states. */
  function Outcomes(collected: seq<Collected>, dml: real, stations: seq<Station>, movements: seq<real>,
                    hapPos: Point, sizes: MessageSizes, dist: (Point, Point) -> real): (os: seq<Result<LatencyRecord, LinkError>>)
    requires |movements| == |stations| && OnFleet(collected, |stations|)
    ensures |os| == |collected| && forall k :: 0 <= k < |collected| ==>
      os[k] == RecordOf(collected[k], dml, stations[collected[k].assignedUav], movements[collected[k].assignedUav], hapPos, sizes, dist)
  {
    seq(|collected|, k requires 0 <= k < |collected| =>
      RecordOf(collected[k], dml, stations[collected[k].assignedUav], movements[collected[k].assignedUav], hapPos, sizes, dist))
  }

  /**
    The record loop of `process_requests` (environment.py:196-232) over the
    collected requests, on the UAV states after optimisation; the first
    ZeroDivisionError stops it.
  */
  function Records(collected: seq<Collected>, dml: real, stations: seq<Station>, movements: seq<real>,
                   hapPos: Point, sizes: MessageSizes, dist: (Point, Point) -> real): Result<seq<LatencyRecord>, LinkError>
    requires |movements| == |stations| && OnFleet(collected, |stations|)
  {
    Gather(Outcomes(collected, dml, stations, movements, hapPos, sizes, dist))
  }

  /** One record per collected request, in order, unless some record's latency fails. */
  lemma RecordsOnePerRequest(collected: seq<Collected>, dml: real, stations: seq<Station>, movements: seq<real>,
                             hapPos: Point, sizes: MessageSizes, dist: (Point, Point) -> real)
    requires |movements| == |stations| && OnFleet(collected, |stations|)
    ensures var rs := Records(collected, dml, stations, movements, hapPos, sizes, dist);
      && (rs.Success? <==> forall k :: 0 <= k < |collected| ==>
            RecordOf(collected[k], dml, stations[collected[k].assignedUav], movements[collected[k].assignedUav], hapPos, sizes, dist).Success?)
      && (rs.Success? ==> |rs.value| == |collected| && forall k :: 0 <= k < |collected| ==>
            rs.value[k] == RecordOf(collected[k], dml, stations[collected[k].assignedUav], movements[collected[k].assignedUav], hapPos, sizes, dist).value)
  {
    GatherAll(Outcomes(collected, dml, stations, movements, hapPos, sizes, dist));
  }

  /** Once the drain has failed on a prefix of the queue, it fails with that error on the whole queue. */
  lemma {:induction false} DrainFailurePersists(positions: seq<Point>, hapPos: Point, pend: seq<UserRequest>, n: nat,
                                                sizes: MessageSizes, dist: (Point, Point) -> real)
    requires n <= |pend| && Drain(positions, hapPos, pend[..n], sizes, dist).Failure?
    ensures Drain(positions, hapPos, pend, sizes, dist) == Drain(positions, hapPos, pend[..n], sizes, dist)
    decreases |pend| - n
  {
    if n < |pend| {
      var m := |pend| - 1;
      assert pend[..m][..n] == pend[..n];
      DrainFailurePersists(positions, hapPos, pend[..m], n, sizes, dist);
    } else {
      assert pend[..n] == pend;
    }
  }

  /** With UAVs a completed drain drops nothing and collects every request, in queue order. */
  lemma {:induction false} DrainKeepsOrder(positions: seq<Point>, hapPos: Point, pend: seq<UserRequest>,
                                           sizes: MessageSizes, dist: (Point, Point) -> real)
    requires |positions| > 0 && Drain(positions, hapPos, pend, sizes, dist).Success?
    ensures var d := Drain(positions, hapPos, pend, sizes, dist).value;
      && d.dropped == [] && |d.collected| == |pend|
      && forall k :: 0 <= k < |pend| ==> d.collected[k].request == pend[k]
  {
    if pend != [] {
      var n := |pend| - 1;
      DrainKeepsOrder(positions, hapPos, pend[..n], sizes, dist);
      assert AllTrue(|positions|)[0];
    }
  }

  /** A completed record loop gives one record per collected request, with its id, in order. */
  lemma RecordsKeepIds(collected: seq<Collected>, dml: real, stations: seq<Station>, movements: seq<real>,
                       hapPos: Point, sizes: MessageSizes, dist: (Point, Point) -> real)
    requires |movements| == |stations| && OnFleet(collected, |stations|)
    requires Records(collected, dml, stations, movements, hapPos, sizes, dist).Success?
    ensures var rs := Records(collected, dml, stations, movements, hapPos, sizes, dist).value;
      |rs| == |collected| && forall k :: 0 <= k < |collected| ==> rs[k].requestId == collected[k].request.requestId
  {
    var os := Outcomes(collected, dml, stations, movements, hapPos, sizes, dist);
    GatherAll(os);
    forall k | 0 <= k < |collected|
      ensures os[k].Success? && os[k].value.requestId == collected[k].request.requestId
    {
    }
  }

  /**
    The outcome of `process_requests` from the outcome of its drain, the
    fleet size and the UAV states after optimisation: the drain's error, the
    GWO IndexError with fewer than three UAVs, the record loop's error, or
    the drop records followed by one record per collected request.
  */
  function Processed(d: Result<Drained, LinkError>, fleet: nat, dml: real, stations: seq<Station>, movements: seq<real>,
                     hapPos: Point, sizes: MessageSizes, dist: (Point, Point) -> real): Result<seq<LatencyRecord>, ProcessError>
    requires |movements| == |stations| == fleet
    requires d.Success? ==> OnFleet(d.value.collected, fleet)
  {
    if d.Failure? then Failure(LinkFailure(d.error))
    else if fleet < 3 then Failure(TooFewUavs)
    else
      var rs := Records(d.value.collected, dml, stations, movements, hapPos, sizes, dist);
      if rs.Failure? then Failure(LinkFailure(rs.error)) else Success(d.value.dropped + rs.value)
  }

  /**
    A completed `process_requests` yields one record per drained request,
    carrying that request's id, in queue order.
  */
  lemma ProcessedOnePerRequest(positions: seq<Point>, hapPos: Point, pend: seq<UserRequest>, dml: real,
                               stations: seq<Station>, movements: seq<real>, sizes: MessageSizes, dist: (Point, Point) -> real)
    requires |movements| == |stations| == |positions|
    requires Processed(Drain(positions, hapPos, pend, sizes, dist), |positions|, dml, stations, movements, hapPos, sizes, dist).Success?
    ensures var out := Processed(Drain(positions, hapPos, pend, sizes, dist), |positions|, dml, stations, movements, hapPos, sizes, dist).value;
      |out| == |pend| && forall k :: 0 <= k < |pend| ==> out[k].requestId == pend[k].requestId
  {
    var d := Drain(positions, hapPos, pend, sizes, dist).value;
    DrainKeepsOrder(positions, hapPos, pend, sizes, dist);
    RecordsKeepIds(d.collected, dml, stations, movements, hapPos, sizes, dist);
    assert d.dropped + Records(d.collected, dml, stations, movements, hapPos, sizes, dist).value
        == Records(d.collected, dml, stations, movements, hapPos, sizes, dist).value;
  }

  lemma PrefixGrows<T>(s: seq<T>, k: nat)
    requires k < |s|
    ensures s[..k] + [s[k]] == s[..k + 1]
  {
  }

  /** The UAVs show the stations and movements given. */
  ghost predicate Frozen(uavs: seq<Uav>, stations: seq<Station>, movements: seq<real>)
    reads uavs
  {
    && |stations| == |uavs| == |movements|
    && forall j :: 0 <= j < |uavs| ==> StationOf(uavs[j]) == stations[j] && uavs[j].lastMovement == movements[j]
  }

  /** The UAVs' connections and loads are those of a reassignment pass over `requests`. */
  ghost predicate Reflects(uavs: seq<Uav>, stations: seq<Station>, requests: seq<UserRequest>)
    reads uavs
  {
    && |stations| == |uavs|
    && var p := Reassignment(stations, requests);
       forall j :: 0 <= j < |uavs| ==>
         uavs[j].connectedUsers == Attached(requests, p.assignment, j) && uavs[j].currentLoad == p.loads[j]
  }

  /** With nothing but users and loads changed, the station and movement snapshots are the fleet's. */
  lemma FrozenSnapshots(uavs: seq<Uav>, stations: seq<Station>, movements: seq<real>)
    requires Frozen(uavs, stations, movements)
    ensures Stations(uavs) == stations && Movements(uavs) == movements
  {
  }

  /** For each final wolf position, whether a UAV there reaches a HAP. */
  function ReachableFlags(finalWolves: seq<Point>, haps: seq<Hap>): (flags: seq<bool>)
    ensures |flags| == |finalWolves|
    ensures forall i :: 0 <= i < |finalWolves| ==> flags[i] == Gwo.HapReachable(finalWolves[i], haps)
  {
    seq(|finalWolves|, i requires 0 <= i < |finalWolves| => Gwo.HapReachable(finalWolves[i], haps))
  }

  /** The active VNF sets of a fleet snapshot. */
  function VnfSetsOf(stations: seq<Station>): (sets: seq<set<nat>>)
    ensures |sets| == |stations| && forall i :: 0 <= i < |stations| ==> sets[i] == stations[i].activeVnfs
  {
    seq(|stations|, i requires 0 <= i < |stations| => stations[i].activeVnfs)
  }

  /** The VNFs each UAV's users ask for. */
  function NeededOf(users: seq<seq<UserRequest>>): (needs: seq<set<nat>>)
    ensures |needs| == |users| && forall i :: 0 <= i < |users| ==> needs[i] == PsoCommit.Needed(users[i])
  {
    seq(|users|, i requires 0 <= i < |users| => PsoCommit.Needed(users[i]))
  }

  /** Each UAV's users after the pre-pass of `pend`. */
  function PrePassUsers(users: seq<seq<UserRequest>>, positions: seq<Point>, pend: seq<UserRequest>): (now: seq<seq<UserRequest>>)
    ensures |now| == |users| && forall i :: 0 <= i < |users| ==> now[i] == users[i] + PrePassOf(positions, pend, i)
  {
    seq(|users|, i requires 0 <= i < |users| => users[i] + PrePassOf(positions, pend, i))
  }

  /** After the pre-pass, the VNFs the UAVs' users ask for are those of `PrePassUsers`. */
  lemma PrePassNeeded(uavs: seq<Uav>, users: seq<seq<UserRequest>>, loads: seq<int>, positions: seq<Point>, pend: seq<UserRequest>)
    requires PrePassApplied(uavs, users, loads, positions, pend)
    ensures PsoCommit.NeededSets(uavs) == NeededOf(PrePassUsers(users, positions, pend))
  {
    forall i | 0 <= i < |uavs|
      ensures uavs[i].connectedUsers == PrePassUsers(users, positions, pend)[i]
    {
      assert PrePassHoldsAt(UsersOf(uavs), LoadsOf(uavs), users, loads, positions, pend, i);
    }
  }

  /**
    `decision_making` as it leaves the fleet, from the snapshot `before` to
    `after` (and the movements `moves`): each UAV stands on its final wolf,
    having moved the distance from its old position, is active exactly when
    a HAP is in reach, and an active UAV holds the VNFs of its row of the
    PSO selection `selection` once the activation limit is applied; the
    selection is a valid PSO choice for the reachable flags, the needed
    VNFs `needs` and the slot counts `caps`. An inactive UAV keeps its VNFs.
  */
  ghost predicate Decided(after: seq<Station>, moves: seq<real>, before: seq<Station>, needs: seq<set<nat>>,
                          caps: seq<nat>, haps: seq<Hap>, finalWolves: seq<Point>, gbest: PsoSearch.Matrix,
                          requests: seq<UserRequest>, dist: (Point, Point) -> real, selection: PsoSearch.Matrix)
  {
    && |after| == |moves| == |before| == |needs| == |caps| == |finalWolves|
    && PsoCommit.ValidSelection(ReachableFlags(finalWolves, haps), needs, caps, gbest, selection)
    && var fin := PsoCommit.Limited(PsoCommit.OldMatrix(VnfSetsOf(before)), selection, PsoCommit.Demands(requests), A_MAX);
       && PsoSearch.IsMatrix(fin, |after|)
       && forall i :: 0 <= i < |after| ==> DecidedAt(after[i], moves[i], before[i], caps[i], finalWolves[i], fin[i], haps, dist)
  }

  /**
    `Decided` for one UAV: its state `after` and movement `moved` from its
    state `before`, its slot count `cap`, its final wolf and its row `row`
    of the limited selection.
  */
  ghost predicate DecidedAt(after: Station, moved: real, before: Station, cap: nat, wolf: Point, row: seq<bool>,
                            haps: seq<Hap>, dist: (Point, Point) -> real)
  {
    && after.position == wolf
    && moved == dist(before.position, wolf)
    && after.isActive == Gwo.HapReachable(wolf, haps)
    && after.activeVnfs == (if after.isActive then PsoCommit.ActivateAll({}, cap, PsoCommit.Indices(row)) else before.activeVnfs)
  }

  /** The activity flags of a fleet snapshot. */
  function FlagsOf(stations: seq<Station>): (flags: seq<bool>)
    ensures |flags| == |stations| && forall i :: 0 <= i < |stations| ==> flags[i] == stations[i].isActive
  {
    seq(|stations|, i requires 0 <= i < |stations| => stations[i].isActive)
  }

  /**
    The GWO half of a decision (optimisation.py:143-172): every UAV of
    `before` is at its final wolf in `mid`, `moves` holds the distances
    covered, a UAV is active exactly when a HAP is in reach, and the VNFs
    are untouched.
  */
  ghost predicate Moved(mid: seq<Station>, moves: seq<real>, before: seq<Station>, haps: seq<Hap>,
                        finalWolves: seq<Point>, dist: (Point, Point) -> real)
  {
    && |mid| == |moves| == |before| == |finalWolves|
    && forall i :: 0 <= i < |mid| ==> MovedAt(mid[i], moves[i], before[i], finalWolves[i], haps, dist)
  }

  ghost predicate MovedAt(mid: Station, moved: real, before: Station, wolf: Point, haps: seq<Hap>, dist: (Point, Point) -> real) {
    && mid.position == wolf
    && moved == dist(before.position, wolf)
    && mid.isActive == Gwo.HapReachable(wolf, haps)
    && mid.activeVnfs == before.activeVnfs
  }

  /**
    The PSO half of a decision (optimisation.py:307-364): `selection` is a
    valid PSO choice for the activity flags of `mid`, and every active UAV
    of `after` holds the VNFs of its row of the limited selection; nothing
    else of `mid` changes.
  */
  ghost predicate Committed(after: seq<Station>, mid: seq<Station>, needs: seq<set<nat>>, caps: seq<nat>,
                            gbest: PsoSearch.Matrix, requests: seq<UserRequest>, selection: PsoSearch.Matrix)
  {
    && |after| == |mid| == |needs| == |caps|
    && PsoCommit.ValidSelection(FlagsOf(mid), needs, caps, gbest, selection)
    && var fin := PsoCommit.Limited(PsoCommit.OldMatrix(VnfSetsOf(mid)), selection, PsoCommit.Demands(requests), A_MAX);
       && PsoSearch.IsMatrix(fin, |after|)
       && forall i :: 0 <= i < |after| ==> CommittedAt(after[i], mid[i], caps[i], fin[i])
  }

  ghost predicate CommittedAt(after: Station, mid: Station, cap: nat, row: seq<bool>) {
    && after.position == mid.position
    && after.isActive == mid.isActive
    && after.activeVnfs == (if mid.isActive then PsoCommit.ActivateAll({}, cap, PsoCommit.Indices(row)) else mid.activeVnfs)
  }

  /** The two halves run one after the other make a decision. */
  lemma DecidedOf(after: seq<Station>, mid: seq<Station>, moves: seq<real>, before: seq<Station>, needs: seq<set<nat>>,
                  caps: seq<nat>, haps: seq<Hap>, finalWolves: seq<Point>, gbest: PsoSearch.Matrix,
                  requests: seq<UserRequest>, dist: (Point, Point) -> real, selection: PsoSearch.Matrix)
    requires Moved(mid, moves, before, haps, finalWolves, dist)
    requires Committed(after, mid, needs, caps, gbest, requests, selection)
    ensures Decided(after, moves, before, needs, caps, haps, finalWolves, gbest, requests, dist, selection)
  {
    assert FlagsOf(mid) == ReachableFlags(finalWolves, haps);
    assert VnfSetsOf(mid) == VnfSetsOf(before);
  }

  /** A row the PSO commit applies holds only catalogue ids. */
  lemma AppliedRowInCatalogue(row: seq<bool>, cap: nat)
    requires |row| == NUM_VNFS
    ensures VnfIds(PsoCommit.ActivateAll({}, cap, PsoCommit.Indices(row)))
  {
    PsoCommit.AppliedRowKeepsLowest(row, cap);
  }

  /** Why `process_requests` stops with an exception. */
  datatype ProcessError =
    | LinkFailure(error: LinkError)      // ZeroDivisionError in a latency formula
    | TooFewUavs                         // IndexError in GWO leader selection

  class SimulationEnvironment {
    const uavs: seq<Uav>
    const haps: seq<Hap>
    var userRequests: seq<UserRequest>
    var pendingRequests: seq<UserRequest>
    var latencyRecords: seq<LatencyRecord>

    /**
      Each UAV is listed once, there is a HAP, request ids are their
      positions in `user_requests`, every requested VNF is in the catalogue,
      and the queue holds only generated requests.
    */
    ghost predicate Valid()
      reads this`userRequests, this`pendingRequests
    {
      && Distinct(uavs)
      && |haps| > 0
      && (forall k :: 0 <= k < |userRequests| ==> userRequests[k].requestId == k && InCatalogue(userRequests[k]))
      && (forall r :: r in pendingRequests ==> r in userRequests)
      && (forall i :: 0 <= i < |uavs| ==> uavs[i].maxCapacity == BW_MAX_USER_UAV)
    }

    /** Every active VNF of every UAV is in the catalogue (a column of the PSO matrices). */
    ghost predicate FleetInCatalogue()
      reads uavs
    {
      forall i :: 0 <= i < |uavs| ==> VnfIds(uavs[i].activeVnfs)
    }

    /**
      `__init__` and `initialize_network` (environment.py:13-32): one HAP at
      (0, 0, 20000) with range R_h, and a UAV at each drawn position with
      C VNF slots and range R_v (the HAP and UAV constructors are called
      without these arguments in the source; the PARAMS values are used).
    */
    constructor (uavPositions: seq<Point>)
      requires forall k :: 0 <= k < |uavPositions| ==>
        && -25000.0 <= uavPositions[k].x <= 25000.0
        && -50000.0 <= uavPositions[k].y <= 50000.0
        && uavPositions[k].z == 9000.0
      ensures Valid() && FleetInCatalogue()
      ensures haps == [Hap(0, Point(0.0, 0.0, 20000.0), R_H)]
      ensures |uavs| == |uavPositions|
      ensures forall i :: 0 <= i < |uavs| ==>
        && fresh(uavs[i])
        && uavs[i].uavId == i && uavs[i].position == uavPositions[i]
        && uavs[i].maxVnfs == C && uavs[i].communicationRange == R_V
        && uavs[i].activeVnfs == {} && uavs[i].connectedUsers == [] && uavs[i].currentLoad == 0
        && uavs[i].isActive
      ensures userRequests == [] && pendingRequests == [] && latencyRecords == []
    {
      var fleet: seq<Uav> := [];
      for i := 0 to |uavPositions|
        invariant |fleet| == i
        invariant Distinct(fleet)
        invariant forall j :: 0 <= j < i ==>
          && fresh(fleet[j])
          && fleet[j].uavId == j && fleet[j].position == uavPositions[j]
          && fleet[j].maxVnfs == C && fleet[j].communicationRange == R_V
          && fleet[j].activeVnfs == {} && fleet[j].connectedUsers == [] && fleet[j].currentLoad == 0
          && fleet[j].isActive && fleet[j].maxCapacity == BW_MAX_USER_UAV
      {
        var uav := new Uav(i, uavPositions[i], C, R_V);
        fleet := fleet + [uav];
      }
      uavs := fleet;
      haps := [Hap(0, Point(0.0, 0.0, 20000.0), R_H)];
      userRequests := [];
      pendingRequests := [];
      latencyRecords := [];
    }

    /**
      environment.py:34-44: each drawn request gets the next id (the current
      length of `user_requests`) and joins both the history and the queue.
    */
    method GenerateUserRequests(draws: seq<Draw>)
      requires Valid()
      requires forall k :: 0 <= k < |draws| ==> PossibleDraw(draws[k])
      modifies this
      ensures Valid()
      ensures userRequests == old(userRequests) + Numbered(|old(userRequests)|, draws)
      ensures pendingRequests == old(pendingRequests) + Numbered(|old(userRequests)|, draws)
      ensures latencyRecords == old(latencyRecords)
    {
      ghost var start := |userRequests|;
      for i := 0 to |draws|
        invariant Valid()
        invariant userRequests == old(userRequests) + Numbered(start, draws[..i])
        invariant pendingRequests == old(pendingRequests) + Numbered(start, draws[..i])
        invariant latencyRecords == old(latencyRecords)
      {
        var request := UserRequest(|userRequests|, draws[i].position, draws[i].requestedVnfs);
        assert Numbered(start, draws[..i + 1]) == Numbered(start, draws[..i]) + [request];
        userRequests := userRequests + [request];
        pendingRequests := pendingRequests + [request];
      }
      assert draws[..|draws|] == draws;
    }

    /** environment.py:106-111: the first UAV strictly nearer than every earlier one. */
    method NearestUavIndex(request: UserRequest) returns (best: Option<nat>)
      ensures best == NearestUav(Entities.Positions(uavs), request)
    {
      best := None;
      ghost var positions := Entities.Positions(uavs);
      ghost var all := AllTrue(|uavs|);
      for j := 0 to |uavs|
        invariant best == Nearest(positions, all, request.userPosition, j)
      {
        NearestStep(positions, all, request.userPosition, j);
        if best.None? || SqDist(uavs[j].position, request.userPosition) < SqDist(uavs[best.value].position, request.userPosition) {
          best := Some(j);
        }
      }
    }

    /**
      environment.py:101-118: the nearest UAV, with no activity, range, VNF
      or capacity check, takes the request and its demand; None only when
      there is no UAV.
    */
    method AssignUserToUav(request: UserRequest) returns (best: Option<nat>)
      requires Distinct(uavs)
      modifies uavs
      ensures best == NearestUav(old(Entities.Positions(uavs)), request)
      ensures best.None? <==> |uavs| == 0
      ensures forall i :: 0 <= i < |uavs| ==>
        && uavs[i].connectedUsers == old(uavs[i].connectedUsers) + (if best == Some(i) then [request] else [])
        && uavs[i].currentLoad == old(uavs[i].currentLoad) + (if best == Some(i) then request.demand else 0)
      ensures Frozen(uavs, old(Stations(uavs)), old(Movements(uavs)))
    {
      best := NearestUavIndex(request);
      if |uavs| > 0 {
        assert AllTrue(|uavs|)[0];
      }
      Attach(best, request);
    }

    /** The chosen UAV, if any, appends the request to its users and adds its demand to its load. */
    method Attach(best: Option<nat>, request: UserRequest)
      requires Distinct(uavs) && (best.Some? ==> best.value < |uavs|)
      modifies uavs
      ensures forall i :: 0 <= i < |uavs| ==>
        && uavs[i].connectedUsers == old(uavs[i].connectedUsers) + (if best == Some(i) then [request] else [])
        && uavs[i].currentLoad == old(uavs[i].currentLoad) + (if best == Some(i) then request.demand else 0)
      ensures forall i :: 0 <= i < |uavs| ==> StationOf(uavs[i]) == old(StationOf(uavs[i])) && uavs[i].lastMovement == old(uavs[i].lastMovement)
    {
      if best.Some? {
        var uav := uavs[best.value];
        uav.connectedUsers := uav.connectedUsers + [request];
        uav.currentLoad := uav.currentLoad + request.demand;
      }
    }

    /** environment.py:59-63: every UAV drops its users and its load. */
    method ResetConnections(ghost stations: seq<Station>, ghost movements: seq<real>)
      requires Distinct(uavs) && Frozen(uavs, stations, movements)
      modifies uavs
      ensures Frozen(uavs, stations, movements) && Reflects(uavs, stations, [])
    {
      for i := 0 to |uavs|
        invariant Frozen(uavs, stations, movements)
        invariant forall j :: 0 <= j < i ==> uavs[j].connectedUsers == [] && uavs[j].currentLoad == 0
      {
        uavs[i].connectedUsers := [];
        uavs[i].currentLoad := 0;
      }
    }

    /** environment.py:66-90: the scan of the UAVs for one request, in the order of its checks. */
    method ChooseFeasible(request: UserRequest, ghost stations: seq<Station>, ghost loads: seq<int>) returns (best: Option<nat>)
      requires |stations| == |loads| == |uavs|
      requires forall j :: 0 <= j < |uavs| ==> StationOf(uavs[j]) == stations[j] && uavs[j].currentLoad == loads[j]
      ensures best == BestFeasible(stations, loads, request)
    {
      best := None;
      ghost var positions := Assignment.Positions(stations);
      ghost var eligible := Eligibility(stations, loads, request);
      for j := 0 to |uavs|
        invariant best == Nearest(positions, eligible, request.userPosition, j)
      {
        best := Consider(request, j, best, stations, loads, positions, eligible);
      }
    }

    /** environment.py:70-89: the checks on UAV `j`, in their order, then the comparison with the best so far. */
    method Consider(request: UserRequest, j: nat, best: Option<nat>, ghost stations: seq<Station>, ghost loads: seq<int>,
                    ghost positions: seq<Point>, ghost eligible: seq<bool>)
      returns (next: Option<nat>)
      requires j < |uavs| == |stations| == |loads| && (best.Some? ==> best.value < |uavs|)
      requires positions == Assignment.Positions(stations) && eligible == Eligibility(stations, loads, request)
      requires StationOf(uavs[j]) == stations[j] && uavs[j].currentLoad == loads[j]
      requires best == Nearest(positions, eligible, request.userPosition, j)
      requires best.Some? ==> uavs[best.value].position == stations[best.value].position
      ensures next == Nearest(positions, eligible, request.userPosition, j + 1)
    {
      NearestStep(positions, eligible, request.userPosition, j);
      next := best;
      var uav := uavs[j];
      if !uav.isActive {
        return;
      }
      if !uav.CanServeUser(request.userPosition) {
        return;
      }
      if !(RequestedSet(request) <= uav.activeVnfs) {
        return;
      }
      if uav.currentLoad + request.demand > uav.maxCapacity {
        return;
      }
      if best.None? || SqDist(uav.position, request.userPosition) < SqDist(uavs[best.value].position, request.userPosition) {
        next := Some(j);
      }
    }

    /** environment.py:64-97 for one request: it goes to the chosen UAV, if any. */
    method PlaceRequest(ghost stations: seq<Station>, ghost movements: seq<real>, ghost done: seq<UserRequest>, request: UserRequest)
      requires Distinct(uavs) && Frozen(uavs, stations, movements) && Reflects(uavs, stations, done)
      modifies uavs
      ensures Frozen(uavs, stations, movements) && Reflects(uavs, stations, done + [request])
    {
      ghost var prev := Reassignment(stations, done);
      var best := ChooseFeasible(request, stations, prev.loads);
      Attach(best, request);
      ReassignmentStep(stations, done, request);
      ghost var next := Reassignment(stations, done + [request]);
      forall j | 0 <= j < |uavs|
        ensures uavs[j].connectedUsers == Attached(done + [request], next.assignment, j)
        ensures uavs[j].currentLoad == next.loads[j]
      {
        assert old(uavs[j].connectedUsers) == Attached(done, prev.assignment, j);
      }
    }

    /**
      environment.py:56-99: every UAV is emptied and its load zeroed, then
      the requests are placed in order on the nearest UAV passing every
      check. The UAVs end as `Assignment.Reassignment` of their unchanged
      states says, so each load is the sum of its requests' demands and
      within capacity (`Assignment.ReassignmentLoads`,
      `Assignment.ReassignmentWithinCapacity`).
    */
    method ReassignUsersAfterOptimization()
      requires Distinct(uavs)
      modifies uavs
      ensures Reflects(uavs, old(Stations(uavs)), userRequests)
      ensures Frozen(uavs, old(Stations(uavs)), old(Movements(uavs)))
    {
      ghost var stations := Stations(uavs);
      ghost var movements := Movements(uavs);
      ResetConnections(stations, movements);
      var requests := userRequests;
      assert requests[..0] == [];
      for k := 0 to |requests|
        invariant Frozen(uavs, stations, movements) && Reflects(uavs, stations, requests[..k])
      {
        PlaceRequest(stations, movements, requests[..k], requests[k]);
        PrefixGrows(requests, k);
      }
      assert requests[..|requests|] == requests;
    }

    /**
      Reassignment is idempotent: on UAVs that already reflect a
      reassignment of the current requests, a further pass leaves every
      UAV's users and load as they were.
    */
    method ReassignAgain()
      requires Distinct(uavs) && Reflects(uavs, Stations(uavs), userRequests)
      modifies uavs
      ensures UsersOf(uavs) == old(UsersOf(uavs)) && LoadsOf(uavs) == old(LoadsOf(uavs))
      ensures Frozen(uavs, old(Stations(uavs)), old(Movements(uavs)))
    {
      ghost var stations := Stations(uavs);
      ghost var users := UsersOf(uavs);
      ghost var loads := LoadsOf(uavs);
      ReassignUsersAfterOptimization();
      assert UsersOf(uavs) == users;
      assert LoadsOf(uavs) == loads;
    }

    /**
      The drain of environment.py:163-189: requests leave the queue in FIFO
      order; each is pre-assigned to its nearest UAV (which takes it and its
      demand) and collected with its collection latency, or gets a drop
      record when there is no UAV. A ZeroDivisionError stops the drain with
      the failing request already taken off the queue.
    */
    method CollectRequests(sizes: MessageSizes, dist: (Point, Point) -> real) returns (d: Result<Drained, LinkError>)
      requires Valid() && FleetInCatalogue()
      modifies this, uavs
      ensures Valid() && FleetInCatalogue()
      ensures d == Drain(old(Entities.Positions(uavs)), haps[0].position, old(pendingRequests), sizes, dist)
      ensures |pendingRequests| <= |old(pendingRequests)|
      ensures pendingRequests == old(pendingRequests)[|old(pendingRequests)| - |pendingRequests|..]
      ensures d.Success? ==> pendingRequests == []
      ensures d.Failure? ==> DrainStopsAt(old(Entities.Positions(uavs)), haps[0].position, old(pendingRequests),
                                          |old(pendingRequests)| - |pendingRequests|, sizes, dist, d)
      ensures Frozen(uavs, old(Stations(uavs)), old(Movements(uavs)))
      ensures PrePassApplied(uavs, old(UsersOf(uavs)), old(LoadsOf(uavs)), old(Entities.Positions(uavs)),
                             old(pendingRequests)[..|old(pendingRequests)| - |pendingRequests|])
      ensures userRequests == old(userRequests) && latencyRecords == old(latencyRecords)
    {
      ghost var pend := pendingRequests;
      ghost var positions := Entities.Positions(uavs);
      ghost var stations := Stations(uavs);
      ghost var movements := Movements(uavs);
      ghost var users := UsersOf(uavs);
      ghost var loads := LoadsOf(uavs);
      forall i | 0 <= i < |uavs|
        ensures PrePassHoldsAt(users, loads, users, loads, positions, [], i)
      {
        assert users[i] + [] == users[i];
      }
      ghost var taken;
      d, taken := DrainQueue(sizes, dist, pend, positions, stations, movements, users, loads);
      assert |pend| - |pendingRequests| == taken;
      if d.Success? {
        assert pend[..|pend|] == pend;
      } else {
        DrainFailurePersists(positions, haps[0].position, pend, taken, sizes, dist);
      }
      assert forall r :: r in pendingRequests ==> r in old(pendingRequests);
    }

    /**
      The drain loop: the head of the queue is popped and handled until
      the queue is empty or a turn fails, the failing request already popped.
      Stated against the queue `pend` and the fleet's state before the drain.
    */
    method DrainQueue(sizes: MessageSizes, dist: (Point, Point) -> real, ghost pend: seq<UserRequest>,
                      ghost positions: seq<Point>, ghost stations: seq<Station>, ghost movements: seq<real>,
                      ghost users: seq<seq<UserRequest>>, ghost loads: seq<int>)
      returns (d: Result<Drained, LinkError>, ghost taken: nat)
      requires Distinct(uavs) && |haps| > 0 && pendingRequests == pend
      requires DrainProgress(uavs, stations, movements, positions, users, loads, [])
      modifies this, uavs
      ensures taken <= |pend| && pendingRequests == pend[taken..]
      ensures d == Drain(positions, haps[0].position, pend[..taken], sizes, dist)
      ensures d.Success? ==> taken == |pend|
      ensures d.Failure? ==> DrainStopsAt(positions, haps[0].position, pend, taken, sizes, dist, d)
      ensures DrainProgress(uavs, stations, movements, positions, users, loads, pend[..taken])
      ensures userRequests == old(userRequests) && latencyRecords == old(latencyRecords)
    {
      taken := 0;
      assert pend[..0] == [] && pend[0..] == pend;
      d := Success(Drained([], []));
      while pendingRequests != [] && d.Success?
        invariant taken <= |pend| && pendingRequests == pend[taken..]
        invariant userRequests == old(userRequests) && latencyRecords == old(latencyRecords)
        invariant DrainProgress(uavs, stations, movements, positions, users, loads, pend[..taken])
        invariant d == Drain(positions, haps[0].position, pend[..taken], sizes, dist)
        invariant d.Failure? ==> DrainStopsAt(positions, haps[0].position, pend, taken, sizes, dist, d)
        decreases |pendingRequests|
      {
        d := DrainTurn(pend, taken, d.value, sizes, dist, positions, stations, movements, users, loads);
        taken := taken + 1;
      }
    }

    /** Turn `k` of the drain, stated against the drain of the whole queue. */
    method DrainTurn(ghost pend: seq<UserRequest>, ghost k: nat, acc: Drained, sizes: MessageSizes, dist: (Point, Point) -> real,
                     ghost positions: seq<Point>, ghost stations: seq<Station>, ghost movements: seq<real>,
                     ghost users: seq<seq<UserRequest>>, ghost loads: seq<int>)
      returns (next: Result<Drained, LinkError>)
      requires Distinct(uavs) && |haps| > 0 && k < |pend| && pendingRequests == pend[k..]
      requires Drain(positions, haps[0].position, pend[..k], sizes, dist) == Success(acc)
      requires DrainProgress(uavs, stations, movements, positions, users, loads, pend[..k])
      modifies this, uavs
      ensures pendingRequests == pend[k + 1..]
      ensures userRequests == old(userRequests) && latencyRecords == old(latencyRecords)
      ensures Drain(positions, haps[0].position, pend[..k + 1], sizes, dist) == next
      ensures next.Failure? ==> DrainStopsAt(positions, haps[0].position, pend, k + 1, sizes, dist, next)
      ensures DrainProgress(uavs, stations, movements, positions, users, loads, pend[..k + 1])
    {
      ghost var before := UsersOf(uavs);
      ghost var beforeLoads := LoadsOf(uavs);
      assert PrePassHolds(before, beforeLoads, users, loads, positions, pend[..k]);
      var request := pendingRequests[0];
      pendingRequests := pendingRequests[1..];
      DrainExtend(positions, haps[0].position, pend, k, sizes, dist);
      next := CollectOne(request, acc, sizes, dist, positions, stations, movements);
      PrePassHoldsStep(before, beforeLoads, UsersOf(uavs), LoadsOf(uavs), users, loads, positions, pend, k);
    }

    /**
      One turn of the drain (environment.py:164-189): None when there is no
      UAV, else the request with its nearest UAV and collection latency.
    */
    method CollectOne(request: UserRequest, acc: Drained, sizes: MessageSizes, dist: (Point, Point) -> real,
                      ghost positions: seq<Point>, ghost stations: seq<Station>, ghost movements: seq<real>)
      returns (next: Result<Drained, LinkError>)
      requires Distinct(uavs) && |haps| > 0
      requires Frozen(uavs, stations, movements) && Entities.Positions(uavs) == positions
      modifies uavs
      ensures Frozen(uavs, stations, movements) && Entities.Positions(uavs) == positions
      ensures next == DrainStep(positions, haps[0].position, acc, request, sizes, dist)
      ensures forall i :: 0 <= i < |uavs| ==>
        && uavs[i].connectedUsers == old(uavs[i].connectedUsers) + (if NearestUav(positions, request) == Some(i) then [request] else [])
        && uavs[i].currentLoad == old(uavs[i].currentLoad) + (if NearestUav(positions, request) == Some(i) then request.demand else 0)
    {
      var best := AssignUserToUav(request);
      assert Entities.Positions(uavs) == positions;
      if best.None? {
        return Success(Drained(acc.dropped + [DropRecord(request.requestId, 0.0)], acc.collected));
      }
      var uav := uavs[best.value];
      var hapPos := haps[0].position;
      var rcl := RequestCollection(dist(uav.position, request.userPosition), dist(uav.position, hapPos), sizes);
      if rcl.Failure? {
        return Failure(rcl.error);
      }
      return Success(Drained(acc.dropped, acc.collected + [Collected(request, best.value, rcl.value)]));
    }

    /** The record loop of environment.py:196-232 on the current UAV states; it changes nothing. */
    method BuildRecords(collected: seq<Collected>, dml: real, sizes: MessageSizes, dist: (Point, Point) -> real)
      returns (rs: Result<seq<LatencyRecord>, LinkError>)
      requires |haps| > 0 && OnFleet(collected, |uavs|)
      ensures rs == Records(collected, dml, Stations(uavs), Movements(uavs), haps[0].position, sizes, dist)
    {
      ghost var stations := Stations(uavs);
      ghost var movements := Movements(uavs);
      var hapPos := haps[0].position;
      ghost var outcomes := Outcomes(collected, dml, stations, movements, hapPos, sizes, dist);
      var records: seq<LatencyRecord> := [];
      for k := 0 to |collected|
        invariant Gather(outcomes[..k]) == Success(records)
      {
        var e := collected[k];
        var uav := uavs[e.assignedUav];
        assert outcomes[..k + 1][..k] == outcomes[..k];
        var rec: Result<LatencyRecord, LinkError>;
        if !uav.isActive {
          // the UAV became inactive after optimisation
          rec := Success(DropRecord(e.request.requestId, dml));
        } else {
          var pl := Placement(uav.lastMovement, dist(uav.position, hapPos), sizes);
          var prep := Preparation(dist(uav.position, hapPos), sizes);
          var tx := Transmission(dist(uav.position, e.request.userPosition), sizes);
          if pl.Failure? {
            rec := Failure(pl.error);
          } else if tx.Failure? {
            rec := Failure(tx.error);
          } else {
            rec := Success(ServedRecord(e.request.requestId, e.rcl, dml, pl.value, prep.value, tx.value));
          }
        }
        assert rec == outcomes[k];
        if rec.Failure? {
          GatherFailurePersists(outcomes, k + 1);
          return Failure(rec.error);
        }
        records := records + [rec.value];
      }
      assert outcomes[..|collected|] == outcomes;
      rs := Success(records);
    }

    /**
      `decision_making` (environment.py:131-135): GWO over the fleet, then the
      PSO commit over all generated requests. `gwoScores` are the fitness
      values GWO ranks the current positions by and `finalWolves` the
      positions its search ends with; `gbest` is the swarm-best activation
      matrix of the PSO search. Leader selection fails (IndexError) with
      fewer than three UAVs, before anything is committed.
    */
    method MakeDecisions(gwoScores: seq<real>, finalWolves: seq<Point>, gbest: PsoSearch.Matrix, dist: (Point, Point) -> real)
      returns (leaders: Result<Gwo.Leaders, Gwo.GwoError>, ghost selection: PsoSearch.Matrix)
      requires Valid() && FleetInCatalogue()
      requires |gwoScores| == |uavs| == |finalWolves| && PsoSearch.IsMatrix(gbest, |uavs|)
      modifies uavs
      ensures Valid() && FleetInCatalogue()
      ensures leaders.Failure? <==> |uavs| < 3
      ensures leaders.Success? ==>
        Decided(Stations(uavs), Movements(uavs), old(Stations(uavs)), old(PsoCommit.NeededSets(uavs)), PsoCommit.Caps(uavs),
                haps, finalWolves, gbest, userRequests, dist, selection)
      ensures leaders.Failure? ==> Frozen(uavs, old(Stations(uavs)), old(Movements(uavs)))
      ensures UsersOf(uavs) == old(UsersOf(uavs)) && LoadsOf(uavs) == old(LoadsOf(uavs))
    {
      ghost var before := Stations(uavs);
      ghost var needs := PsoCommit.NeededSets(uavs);
      leaders := MoveFleet(gwoScores, finalWolves, dist);
      if leaders.Success? {
        ghost var mid, moves := Stations(uavs), Movements(uavs);
        assert PsoCommit.NeededSets(uavs) == needs;
        selection := CommitFleet(gbest);
        DecidedOf(Stations(uavs), mid, moves, before, needs, PsoCommit.Caps(uavs), haps, finalWolves, gbest, userRequests, dist, selection);
      } else {
        selection := [];
      }
    }

    /**
      The GWO step of `decision_making` (environment.py:132, the commit at
      optimisation.py:143-172), as `Gwo.Optimise` states it, on the fleet.
    */
    method MoveFleet(gwoScores: seq<real>, finalWolves: seq<Point>, dist: (Point, Point) -> real)
      returns (leaders: Result<Gwo.Leaders, Gwo.GwoError>)
      requires Valid() && FleetInCatalogue() && |gwoScores| == |uavs| == |finalWolves|
      modifies uavs
      ensures FleetInCatalogue()
      ensures leaders.Failure? <==> |uavs| < 3
      ensures leaders.Success? ==> Moved(Stations(uavs), Movements(uavs), old(Stations(uavs)), haps, finalWolves, dist)
      ensures leaders.Failure? ==> Frozen(uavs, old(Stations(uavs)), old(Movements(uavs)))
      ensures UsersOf(uavs) == old(UsersOf(uavs)) && LoadsOf(uavs) == old(LoadsOf(uavs))
    {
      ghost var before := Stations(uavs);
      leaders := Gwo.Optimise(uavs, haps, gwoScores, finalWolves, dist);
      if leaders.Success? {
        ghost var mid, moves := Stations(uavs), Movements(uavs);
        forall i | 0 <= i < |uavs|
          ensures MovedAt(mid[i], moves[i], before[i], finalWolves[i], haps, dist)
        {
        }
      }
    }

    /** `CommitVnfs` stated on the fleet's stations before and after. */
    method CommitFleet(gbest: PsoSearch.Matrix) returns (ghost selection: PsoSearch.Matrix)
      requires Valid() && FleetInCatalogue() && PsoSearch.IsMatrix(gbest, |uavs|)
      modifies uavs
      ensures FleetInCatalogue()
      ensures Committed(Stations(uavs), old(Stations(uavs)), old(PsoCommit.NeededSets(uavs)), PsoCommit.Caps(uavs),
                        gbest, userRequests, selection)
      ensures Movements(uavs) == old(Movements(uavs))
      ensures UsersOf(uavs) == old(UsersOf(uavs)) && LoadsOf(uavs) == old(LoadsOf(uavs))
    {
      ghost var before := Stations(uavs);
      ghost var sets := PsoCommit.ActiveSets(uavs);
      assert sets == VnfSetsOf(before);
      assert PsoCommit.ActiveFlags(uavs) == FlagsOf(before);
      selection := CommitVnfs(gbest);
      ghost var fin := PsoCommit.Limited(PsoCommit.OldMatrix(sets), selection, PsoCommit.Demands(userRequests), A_MAX);
      ghost var after, caps := Stations(uavs), PsoCommit.Caps(uavs);
      forall i | 0 <= i < |uavs|
        ensures CommittedAt(after[i], before[i], caps[i], fin[i])
      {
      }
    }

    /**
      The PSO commit (optimisation.py:307-364) on the fleet, as
      `PsoCommit.Commit` states it, with the churn limit A_max of PARAMS.
    */
    method CommitVnfs(gbest: PsoSearch.Matrix) returns (ghost selection: PsoSearch.Matrix)
      requires Valid() && FleetInCatalogue() && PsoSearch.IsMatrix(gbest, |uavs|)
      modifies uavs
      ensures FleetInCatalogue()
      ensures PsoCommit.ValidSelection(old(PsoCommit.ActiveFlags(uavs)), old(PsoCommit.NeededSets(uavs)), PsoCommit.Caps(uavs), gbest, selection)
      ensures var fin := PsoCommit.Limited(PsoCommit.OldMatrix(old(PsoCommit.ActiveSets(uavs))), selection, PsoCommit.Demands(userRequests), A_MAX);
        && PsoSearch.IsMatrix(fin, |uavs|)
        && forall i :: 0 <= i < |uavs| ==>
             uavs[i].activeVnfs == (if uavs[i].isActive then PsoCommit.ActivateAll({}, uavs[i].maxVnfs, PsoCommit.Indices(fin[i]))
                                    else old(uavs[i].activeVnfs))
      ensures forall i :: 0 <= i < |uavs| ==>
        && uavs[i].isActive == old(uavs[i].isActive)
        && uavs[i].position == old(uavs[i].position)
        && uavs[i].lastMovement == old(uavs[i].lastMovement)
        && uavs[i].connectedUsers == old(uavs[i].connectedUsers)
        && uavs[i].currentLoad == old(uavs[i].currentLoad)
    {
      ghost var before := PsoCommit.ActiveSets(uavs);
      selection := PsoCommit.Commit(uavs, userRequests, gbest, A_MAX);
      ghost var fin := PsoCommit.Limited(PsoCommit.OldMatrix(before), selection, PsoCommit.Demands(userRequests), A_MAX);
      forall i | 0 <= i < |uavs| && uavs[i].isActive
        ensures VnfIds(uavs[i].activeVnfs)
      {
        AppliedRowInCatalogue(fin[i], uavs[i].maxVnfs);
      }
    }

    /**
      `process_requests` (environment.py:158-235): drain the queue, decide
      once (`dml` is the sum of the two optimisers' durations), reassign,
      then build one record per collected request on the UAV states after
      optimisation, and append all records to `latency_records`. Records of
      requests dropped in the drain come first; they only arise with no UAV,
      when the GWO step then fails, so a completed call yields one record per
      drained request in queue order.
    */
    method ProcessRequests(sizes: MessageSizes, dist: (Point, Point) -> real,
                           gwoScores: seq<real>, finalWolves: seq<Point>, gbest: PsoSearch.Matrix,
                           gwoTime: real, psoTime: real)
      returns (r: Result<seq<LatencyRecord>, ProcessError>, ghost drained: Result<Drained, LinkError>,
               ghost taken: nat, ghost selection: PsoSearch.Matrix)
      requires Valid() && FleetInCatalogue()
      requires |gwoScores| == |uavs| == |finalWolves| && PsoSearch.IsMatrix(gbest, |uavs|)
      modifies this, uavs
      ensures Valid() && FleetInCatalogue() && userRequests == old(userRequests)
      ensures drained == Drain(old(Entities.Positions(uavs)), haps[0].position, old(pendingRequests), sizes, dist)
      ensures r == Processed(drained, |uavs|, DecisionLatency(gwoTime, psoTime), Stations(uavs), Movements(uavs), haps[0].position, sizes, dist)
      ensures r.Success? ==> latencyRecords == old(latencyRecords) + r.value
      ensures r.Failure? ==> latencyRecords == old(latencyRecords)
      ensures r.Success? ==>
        && |r.value| == |old(pendingRequests)|
        && forall k :: 0 <= k < |r.value| ==> r.value[k].requestId == old(pendingRequests)[k].requestId
      // the queue: the drain took its first `taken` requests
      ensures taken <= |old(pendingRequests)| && pendingRequests == old(pendingRequests)[taken..]
      ensures drained.Success? ==> taken == |old(pendingRequests)|
      ensures drained.Failure? ==>
        DrainStopsAt(old(Entities.Positions(uavs)), haps[0].position, old(pendingRequests), taken, sizes, dist, drained)
      // the fleet: untouched past the pre-pass when the drain or GWO fails, else decided and reassigned
      ensures drained.Failure? || |uavs| < 3 ==>
        && Frozen(uavs, old(Stations(uavs)), old(Movements(uavs)))
        && PrePassApplied(uavs, old(UsersOf(uavs)), old(LoadsOf(uavs)), old(Entities.Positions(uavs)), old(pendingRequests)[..taken])
      ensures drained.Success? && |uavs| >= 3 ==>
        && Decided(Stations(uavs), Movements(uavs), old(Stations(uavs)),
                   NeededOf(PrePassUsers(old(UsersOf(uavs)), old(Entities.Positions(uavs)), old(pendingRequests))),
                   PsoCommit.Caps(uavs), haps, finalWolves, gbest, userRequests, dist, selection)
        && Reflects(uavs, Stations(uavs), userRequests)
    {
      ghost var positions := Entities.Positions(uavs);
      ghost var stations := Stations(uavs);
      ghost var movements := Movements(uavs);
      ghost var users := UsersOf(uavs);
      ghost var loads := LoadsOf(uavs);
      ghost var pend := pendingRequests;
      var d := CollectRequests(sizes, dist);
      drained, taken := d, |pend| - |pendingRequests|;
      if d.Failure? {
        r, selection := Failure(LinkFailure(d.error)), [];
      } else {
        assert pend[..|pend|] == pend;
        r, selection := DecideAndRecord(d, DecisionLatency(gwoTime, psoTime), sizes, dist, gwoScores, finalWolves, gbest,
                                        positions, pend, stations, movements, users, loads);
      }
    }

    /**
      environment.py:191-234 after the drain: decide, reassign, build one
      record per collected request on the UAV states after optimisation,
      and append the drop records and these to `latency_records`. With
      fewer than three UAVs the decision fails before anything changes.
    */
    method DecideAndRecord(drained: Result<Drained, LinkError>, dml: real, sizes: MessageSizes, dist: (Point, Point) -> real,
                           gwoScores: seq<real>, finalWolves: seq<Point>, gbest: PsoSearch.Matrix,
                           ghost positions: seq<Point>, ghost pend: seq<UserRequest>,
                           ghost stations: seq<Station>, ghost movements: seq<real>,
                           ghost users: seq<seq<UserRequest>>, ghost loads: seq<int>)
      returns (r: Result<seq<LatencyRecord>, ProcessError>, ghost selection: PsoSearch.Matrix)
      requires Valid() && FleetInCatalogue()
      requires |gwoScores| == |uavs| == |finalWolves| && PsoSearch.IsMatrix(gbest, |uavs|)
      requires |positions| == |uavs| && Drain(positions, haps[0].position, pend, sizes, dist) == drained && drained.Success?
      requires Frozen(uavs, stations, movements) && PrePassApplied(uavs, users, loads, positions, pend)
      modifies this`latencyRecords, uavs
      ensures Valid() && FleetInCatalogue()
      ensures userRequests == old(userRequests) && pendingRequests == old(pendingRequests)
      ensures r == Processed(drained, |uavs|, dml, Stations(uavs), Movements(uavs), haps[0].position, sizes, dist)
      ensures r.Success? ==>
        && |r.value| == |pend|
        && forall k :: 0 <= k < |r.value| ==> r.value[k].requestId == pend[k].requestId
      ensures r.Success? ==> latencyRecords == old(latencyRecords) + r.value
      ensures r.Failure? ==> latencyRecords == old(latencyRecords)
      ensures |uavs| < 3 ==> Frozen(uavs, stations, movements) && PrePassApplied(uavs, users, loads, positions, pend)
      ensures |uavs| >= 3 ==>
        && Decided(Stations(uavs), Movements(uavs), stations, NeededOf(PrePassUsers(users, positions, pend)),
                   PsoCommit.Caps(uavs), haps, finalWolves, gbest, userRequests, dist, selection)
        && Reflects(uavs, Stations(uavs), userRequests)
    {
      FrozenSnapshots(uavs, stations, movements);
      PrePassNeeded(uavs, users, loads, positions, pend);
      var leaders;
      leaders, selection := MakeDecisions(gwoScores, finalWolves, gbest, dist);
      if leaders.Failure? {
        return Failure(TooFewUavs), selection;
      }
      ghost var decided := Stations(uavs);
      ghost var moved := Movements(uavs);
      r := ReassignAndRecord(drained, dml, sizes, dist, positions, pend);
      FrozenSnapshots(uavs, decided, moved);
    }

    /**
      environment.py:191-234 after the decisions: the reassignment pass, then
      the records of the collected requests on the fleet it leaves, with the
      drop records of the drain `d` of `pend` in front.
    */
    method ReassignAndRecord(drained: Result<Drained, LinkError>, dml: real, sizes: MessageSizes, dist: (Point, Point) -> real,
                             ghost positions: seq<Point>, ghost pend: seq<UserRequest>)
      returns (r: Result<seq<LatencyRecord>, ProcessError>)
      requires Valid() && |uavs| >= 3
      requires |positions| == |uavs| && Drain(positions, haps[0].position, pend, sizes, dist) == drained && drained.Success?
      modifies this`latencyRecords, uavs
      ensures Valid()
      ensures Frozen(uavs, old(Stations(uavs)), old(Movements(uavs)))
      ensures r == Processed(drained, |uavs|, dml, Stations(uavs), Movements(uavs), haps[0].position, sizes, dist)
      ensures r.Success? ==>
        && |r.value| == |pend|
        && forall k :: 0 <= k < |r.value| ==> r.value[k].requestId == pend[k].requestId
      ensures r.Success? ==> latencyRecords == old(latencyRecords) + r.value
      ensures r.Failure? ==> latencyRecords == old(latencyRecords)
      ensures Reflects(uavs, Stations(uavs), userRequests)
    {
      var d := drained.value;
      ghost var stations := Stations(uavs);
      ReassignUsersAfterOptimization();
      assert Stations(uavs) == stations;
      var rs := RecordAll(d, dml, sizes, dist);
      assert Stations(uavs) == stations;
      if rs.Failure? {
        r := Failure(LinkFailure(rs.error));
      } else {
        r := Success(d.dropped + rs.value);
        ProcessedOnePerRequest(positions, haps[0].position, pend, dml, Stations(uavs), Movements(uavs), sizes, dist);
      }
    }

    /** environment.py:196-234: the record loop, then the extension of `latency_records`. */
    method RecordAll(d: Drained, dml: real, sizes: MessageSizes, dist: (Point, Point) -> real)
      returns (rs: Result<seq<LatencyRecord>, LinkError>)
      requires |haps| > 0 && OnFleet(d.collected, |uavs|)
      modifies this`latencyRecords
      ensures rs == Records(d.collected, dml, Stations(uavs), Movements(uavs), haps[0].position, sizes, dist)
      ensures rs.Success? ==> latencyRecords == old(latencyRecords) + (d.dropped + rs.value)
      ensures rs.Failure? ==> latencyRecords == old(latencyRecords)
    {
      rs := BuildRecords(d.collected, dml, sizes, dist);
      if rs.Success? {
        latencyRecords := latencyRecords + (d.dropped + rs.value);
      }
    }
  }
}
