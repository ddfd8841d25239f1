/**
  The greedy request-to-UAV matcher of environment.py, stated on values.

  A `Station` is what an assignment pass reads of a UAV and never changes.
  `Nearest` is the scan both passes make over the UAV list: keep a
  candidate while it is strictly nearer than the best so far, so among
  equally near candidates the earliest wins. `Reassignment` is the whole
  post-optimisation pass of `reassign_users_after_optimization` from empty
  loads: which UAV each request goes to (if any) and the resulting loads;
  `Attached` gives each UAV's `connected_users`.
*/
module Assignment {
  import opened Wrappers
  import opened Geometry
  import opened Entities

  datatype Station = Station(
    position: Point, communicationRange: real, isActive: bool,
    activeVnfs: set<nat>, maxCapacity: int)

  /** The checks of environment.py:70-85, in their order. */
  predicate Feasible(st: Station, load: int, r: UserRequest) {
    && st.isActive
    && Covers(st.position, st.communicationRange, r.userPosition)
    && RequestedSet(r) <= st.activeVnfs
    && load + r.demand <= st.maxCapacity
  }

  /**
    The scan over the first `n` candidates: the eligible one nearest to
    `target`, the earliest among equally near ones, or None when none is
    eligible.
  */
  function Nearest(positions: seq<Point>, eligible: seq<bool>, target: Point, n: nat): (b: Option<nat>)
    requires n <= |positions| == |eligible|
    ensures b.Some? ==> b.value < n && eligible[b.value]
    ensures b.None? <==> forall j :: 0 <= j < n ==> !eligible[j]
  {
    if n == 0 then None
    else
      var b := Nearest(positions, eligible, target, n - 1);
      if eligible[n - 1] && (b.None? || SqDist(positions[n - 1], target) < SqDist(positions[b.value], target))
      then Some(n - 1)
      else b
  }

  /**
    The candidate the scan keeps is no farther from `target` than any
    eligible one, and strictly nearer than every eligible one before it.
  */
  lemma {:induction false} NearestIsNearest(positions: seq<Point>, eligible: seq<bool>, target: Point, n: nat)
    requires n <= |positions| == |eligible|
    ensures var b := Nearest(positions, eligible, target, n);
      b.Some? ==>
        && (forall j :: 0 <= j < n && eligible[j] ==> SqDist(positions[b.value], target) <= SqDist(positions[j], target))
        && (forall j :: 0 <= j < b.value && eligible[j] ==> SqDist(positions[b.value], target) < SqDist(positions[j], target))
  {
    if n > 0 {
      NearestIsNearest(positions, eligible, target, n - 1);
    }
  }

  /** One more candidate: it takes over when eligible and strictly nearer than the best so far. */
  lemma NearestStep(positions: seq<Point>, eligible: seq<bool>, target: Point, n: nat)
    requires n < |positions| == |eligible|
    ensures var b := Nearest(positions, eligible, target, n);
      Nearest(positions, eligible, target, n + 1)
        == if eligible[n] && (b.None? || SqDist(positions[n], target) < SqDist(positions[b.value], target)) then Some(n) else b
  {
  }

  function Positions(stations: seq<Station>): (ps: seq<Point>)
    ensures |ps| == |stations| && forall j :: 0 <= j < |stations| ==> ps[j] == stations[j].position
  {
    seq(|stations|, j requires 0 <= j < |stations| => stations[j].position)
  }

  function Eligibility(stations: seq<Station>, loads: seq<int>, r: UserRequest): (e: seq<bool>)
    requires |loads| == |stations|
    ensures |e| == |stations| && forall j :: 0 <= j < |stations| ==> e[j] == Feasible(stations[j], loads[j], r)
  {
    seq(|stations|, j requires 0 <= j < |stations| => Feasible(stations[j], loads[j], r))
  }

  /** The UAV the reassignment pass chooses for `r` given the current loads. */
  function BestFeasible(stations: seq<Station>, loads: seq<int>, r: UserRequest): Option<nat>
    requires |loads| == |stations|
  {
    Nearest(Positions(stations), Eligibility(stations, loads, r), r.userPosition, |stations|)
  }

  /** What a pass has produced: a UAV index or None per request, and each UAV's load. */
  datatype Pass = Pass(assignment: seq<Option<nat>>, loads: seq<int>)

  function Zeros(n: nat): (z: seq<int>)
    ensures |z| == n && forall j :: 0 <= j < n ==> z[j] == 0
  {
    seq(n, _ => 0)
  }

  /** environment.py:59-95: reset every load to 0, then place the requests in order. */
  function Reassignment(stations: seq<Station>, requests: seq<UserRequest>): (p: Pass)
    ensures |p.assignment| == |requests| && |p.loads| == |stations|
    ensures forall k :: 0 <= k < |requests| && p.assignment[k].Some? ==> p.assignment[k].value < |stations|
  {
    if requests == [] then Pass([], Zeros(|stations|))
    else
      var prev := Reassignment(stations, requests[..|requests| - 1]);
      var r := requests[|requests| - 1];
      var b := BestFeasible(stations, prev.loads, r);
      Pass(prev.assignment + [b],
           if b.Some? then prev.loads[b.value := prev.loads[b.value] + r.demand] else prev.loads)
  }

  /** The requests assigned to UAV `i`, in request order: its `connected_users`. */
  function Attached(requests: seq<UserRequest>, assignment: seq<Option<nat>>, i: nat): seq<UserRequest>
    requires |assignment| == |requests|
  {
    if requests == [] then []
    else
      Attached(requests[..|requests| - 1], assignment[..|assignment| - 1], i)
      + (if assignment[|requests| - 1] == Some(i) then [requests[|requests| - 1]] else [])
  }

  function SumDemands(rs: seq<UserRequest>): int {
    if rs == [] then 0 else SumDemands(rs[..|rs| - 1]) + rs[|rs| - 1].demand
  }

  /** Placing one more request extends only the chosen UAV's list and load. */
  lemma ReassignmentStep(stations: seq<Station>, done: seq<UserRequest>, request: UserRequest)
    ensures var prev := Reassignment(stations, done);
      var next := Reassignment(stations, done + [request]);
      var b := BestFeasible(stations, prev.loads, request);
      forall j :: 0 <= j < |stations| ==>
        && Attached(done + [request], next.assignment, j)
           == Attached(done, prev.assignment, j) + (if b == Some(j) then [request] else [])
        && next.loads[j] == prev.loads[j] + (if b == Some(j) then request.demand else 0)
  {
    var all := done + [request];
    assert all[..|done|] == done;
    var next := Reassignment(stations, all);
    var prev := Reassignment(stations, done);
    assert next.assignment[..|done|] == prev.assignment;
  }

  lemma SumDemandsAppend(rs: seq<UserRequest>, tail: seq<UserRequest>)
    requires |tail| <= 1
    ensures SumDemands(rs + tail) == SumDemands(rs) + (if tail == [] then 0 else tail[0].demand)
  {
    if tail == [] {
      assert rs + tail == rs;
    } else {
      assert (rs + tail)[..|rs|] == rs;
    }
  }

  /** Each UAV's load is the sum of the demands of the requests attached to it. */
  lemma {:induction false} ReassignmentLoads(stations: seq<Station>, requests: seq<UserRequest>, i: nat)
    requires i < |stations|
    ensures var p := Reassignment(stations, requests);
      p.loads[i] == SumDemands(Attached(requests, p.assignment, i))
  {
    if requests != [] {
      var n := |requests| - 1;
      var done := requests[..n];
      var r := requests[n];
      ReassignmentLoads(stations, done, i);
      assert requests == done + [r];
      ReassignmentStep(stations, done, r);
      var prev := Reassignment(stations, done);
      var b := BestFeasible(stations, prev.loads, r);
      SumDemandsAppend(Attached(done, prev.assignment, i), if b == Some(i) then [r] else []);
    }
  }

  /** A UAV only takes a request it has room for, so no load exceeds its capacity. */
  lemma {:induction false} ReassignmentWithinCapacity(stations: seq<Station>, requests: seq<UserRequest>, i: nat)
    requires i < |stations| && stations[i].maxCapacity >= 0
    ensures Reassignment(stations, requests).loads[i] <= stations[i].maxCapacity
  {
    if requests != [] {
      ReassignmentWithinCapacity(stations, requests[..|requests| - 1], i);
    }
  }

  /** The pass decides request `k` from the loads left by the requests before it. */
  lemma {:induction false} ReassignmentPrefix(stations: seq<Station>, requests: seq<UserRequest>, k: nat)
    requires k < |requests|
    ensures Reassignment(stations, requests).assignment[k]
         == BestFeasible(stations, Reassignment(stations, requests[..k]).loads, requests[k])
  {
    var n := |requests| - 1;
    if k < n {
      ReassignmentPrefix(stations, requests[..n], k);
      assert requests[..n][..k] == requests[..k];
    } else {
      assert requests[..k] == requests[..n];
    }
  }

  /**
    A request goes only to a UAV passing every check, at the smallest
    distance among those that do, the earliest of equally near ones; it
    goes nowhere only when no UAV passes the checks.
  */
  lemma ReassignmentChoosesNearestFeasible(stations: seq<Station>, requests: seq<UserRequest>, k: nat)
    requires k < |requests|
    ensures var loads := Reassignment(stations, requests[..k]).loads;
      var b := Reassignment(stations, requests).assignment[k];
      var r := requests[k];
      && (b.None? <==> forall j :: 0 <= j < |stations| ==> !Feasible(stations[j], loads[j], r))
      && (b.Some? ==>
            && b.value < |stations|
            && Feasible(stations[b.value], loads[b.value], r)
            && (forall j :: 0 <= j < |stations| && Feasible(stations[j], loads[j], r) ==>
                  SqDist(stations[b.value].position, r.userPosition) <= SqDist(stations[j].position, r.userPosition))
            && (forall j :: 0 <= j < b.value && Feasible(stations[j], loads[j], r) ==>
                  SqDist(stations[b.value].position, r.userPosition) < SqDist(stations[j].position, r.userPosition)))
  {
    ReassignmentPrefix(stations, requests, k);
    var loads := Reassignment(stations, requests[..k]).loads;
    NearestIsNearest(Positions(stations), Eligibility(stations, loads, requests[k]), requests[k].userPosition, |stations|);
  }

  /** A request is in UAV `i`'s list exactly when the pass assigned it to `i`. */
  lemma {:induction false} AttachedMembership(requests: seq<UserRequest>, assignment: seq<Option<nat>>, i: nat, r: UserRequest)
    requires |assignment| == |requests|
    ensures r in Attached(requests, assignment, i) <==>
      exists k :: 0 <= k < |requests| && requests[k] == r && assignment[k] == Some(i)
  {
    if requests != [] {
      var n := |requests| - 1;
      AttachedMembership(requests[..n], assignment[..n], i, r);
      if r in Attached(requests, assignment, i) && r !in Attached(requests[..n], assignment[..n], i) {
        assert requests[n] == r && assignment[n] == Some(i);
      }
      if exists k :: 0 <= k < |requests| && requests[k] == r && assignment[k] == Some(i) {
        var k :| 0 <= k < |requests| && requests[k] == r && assignment[k] == Some(i);
        if k < n {
          assert requests[..n][k] == r && assignment[..n][k] == Some(i);
        }
      }
    }
  }

  /**
    With distinct requests (their ids are distinct), a request is attached to
    at most one UAV, and a request the pass could not place to none.
  */
  lemma AttachedToAtMostOne(stations: seq<Station>, requests: seq<UserRequest>, k: nat, i: nat, j: nat)
    requires k < |requests|
    requires forall a, b :: 0 <= a < b < |requests| ==> requests[a].requestId != requests[b].requestId
    ensures var p := Reassignment(stations, requests);
      && (requests[k] in Attached(requests, p.assignment, i) && requests[k] in Attached(requests, p.assignment, j) ==> i == j)
      && (p.assignment[k].None? ==> requests[k] !in Attached(requests, p.assignment, i))
  {
    var p := Reassignment(stations, requests);
    AttachedMembership(requests, p.assignment, i, requests[k]);
    AttachedMembership(requests, p.assignment, j, requests[k]);
  }

  /**
    A UAV with no active VNF can serve no request (every generated request
    names at least one VNF): with every VNF set empty the pass places nothing.
  */
  lemma {:induction false} NoVnfsNoAssignment(stations: seq<Station>, requests: seq<UserRequest>, k: nat)
    requires k < |requests|
    requires forall j :: 0 <= j < |stations| ==> stations[j].activeVnfs == {}
    requires requests[k].requestedVnfs != []
    ensures Reassignment(stations, requests).assignment[k].None?
  {
    ReassignmentPrefix(stations, requests, k);
    assert requests[k].requestedVnfs[0] in RequestedSet(requests[k]);
  }
}
