/**
  The deterministic parts of optimisation.py's GWO optimiser: choosing the
  alpha, beta and delta wolves, and the commit phase that moves every UAV
  to its wolf and recomputes whether it can reach a HAP.

  The random position updates between the two are not modelled: the commit
  takes the final wolf positions as its input, and the leader selection
  takes the fitness scores as its input.
*/
module Gwo {
  import opened Wrappers
  import opened Geometry
  import opened Entities
  import opened Sorting

  const MAX_ITER: nat := 100

  /** `sorted_wolves[1]` or `[2]` on fewer than three wolves: Python's IndexError. */
  datatype GwoError = TooFewWolves

  datatype Leaders = Leaders(alpha: Point, beta: Point, delta: Point)

  /** A wolf with its fitness score, as `zip(fitness_scores, wolves)` pairs them. */
  type Ranked = (real, Point)

  /** Python's tuple order on (score, (x, y, z)): lexicographic. */
  predicate RankedLe(a: Ranked, b: Ranked) {
    if a.0 != b.0 then a.0 < b.0
    else if a.1.x != b.1.x then a.1.x < b.1.x
    else if a.1.y != b.1.y then a.1.y < b.1.y
    else a.1.z <= b.1.z
  }

  lemma RankedLeTotalPreorder()
    ensures TotalPreorder(RankedLe)
  {
    forall a: Ranked, b: Ranked, c: Ranked | RankedLe(a, b) && RankedLe(b, c)
      ensures RankedLe(a, c)
    {
    }
  }

  /** `zip(fitness_scores, wolves)`: pairs up to the shorter length. */
  function Zip(scores: seq<real>, wolves: seq<Point>): (z: seq<Ranked>)
    ensures |z| == if |scores| < |wolves| then |scores| else |wolves|
    ensures forall k :: 0 <= k < |z| ==> z[k] == (scores[k], wolves[k])
  {
    var n := if |scores| < |wolves| then |scores| else |wolves|;
    seq(n, k requires 0 <= k < n => (scores[k], wolves[k]))
  }

  /** optimisation.py:110-113 (and 136-139): the three lowest-ranked wolves. */
  function SelectLeaders(scores: seq<real>, wolves: seq<Point>): (r: Result<Leaders, GwoError>)
    ensures r.Failure? <==> |Zip(scores, wolves)| < 3
  {
    var sorted := SortBy(Zip(scores, wolves), RankedLe);
    if |sorted| < 3 then Failure(TooFewWolves)
    else Success(Leaders(sorted[0].1, sorted[1].1, sorted[2].1))
  }

  /**
    Alpha, beta and delta are the wolves ranked first, second and third by
    ascending fitness (ties by position): they come from three different
    entries of the population, alpha is ranked no lower than any entry, beta
    than any entry but alpha's, and delta than any entry but those two.
  */
  lemma LeadersAreBest(scores: seq<real>, wolves: seq<Point>)
    requires |scores| == |wolves| >= 3
    ensures var z := Zip(scores, wolves);
      var sorted := SortBy(z, RankedLe);
      && SelectLeaders(scores, wolves) == Success(Leaders(sorted[0].1, sorted[1].1, sorted[2].1))
      && multiset{sorted[0], sorted[1], sorted[2]} <= multiset(z)
      && sorted[0].0 <= sorted[1].0 <= sorted[2].0
      && (forall w :: w in multiset(z) ==> RankedLe(sorted[0], w))
      && (forall w :: w in multiset(z) - multiset{sorted[0]} ==> RankedLe(sorted[1], w))
      && (forall w :: w in multiset(z) - multiset{sorted[0], sorted[1]} ==> RankedLe(sorted[2], w))
  {
    var z := Zip(scores, wolves);
    RankedLeTotalPreorder();
    SortByPermutes(z, RankedLe);
    SortBySorted(z, RankedLe);
    SortedFirstThree(SortBy(z, RankedLe), z, RankedLe);
  }

  /** Some HAP has `p` within its communication range (optimisation.py:166-172). */
  predicate HapReachable(p: Point, haps: seq<Hap>) {
    exists h :: h in haps && Covers(h.position, h.communicationRange, p)
  }

  /** How many of the positions can reach a HAP: the active UAVs after a commit. */
  function ActiveCount(positions: seq<Point>, haps: seq<Hap>): (n: nat)
    ensures n <= |positions|
  {
    if positions == [] then 0
    else ActiveCount(positions[..|positions| - 1], haps)
         + (if HapReachable(positions[|positions| - 1], haps) then 1 else 0)
  }

  /** The indices of the positions that can reach a HAP. */
  ghost function ReachableIndices(positions: seq<Point>, haps: seq<Hap>): set<nat> {
    set i: nat | i < |positions| && HapReachable(positions[i], haps)
  }

  /** `ActiveCount` is the number of positions that can reach a HAP. */
  lemma {:induction false} ActiveCountCountsReachable(positions: seq<Point>, haps: seq<Hap>)
    ensures ActiveCount(positions, haps) == |ReachableIndices(positions, haps)|
  {
    if positions != [] {
      var n := |positions| - 1;
      var front := positions[..n];
      ActiveCountCountsReachable(front, haps);
      var a := ReachableIndices(front, haps);
      var b := ReachableIndices(positions, haps);
      if HapReachable(positions[n], haps) {
        assert b == a + {n};
      } else {
        assert b == a;
      }
    }
  }

  /** With every position in reach of a HAP, all of them count: no ceiling applies. */
  lemma {:induction false} ActiveCountAllReachable(positions: seq<Point>, haps: seq<Hap>)
    requires forall i :: 0 <= i < |positions| ==> HapReachable(positions[i], haps)
    ensures ActiveCount(positions, haps) == |positions|
  {
    if positions != [] {
      ActiveCountAllReachable(positions[..|positions| - 1], haps);
    }
  }

  /** The indices of the active UAVs. */
  ghost function ActiveIndices(uavs: seq<Uav>): set<nat>
    reads uavs
  {
    set i: nat | i < |uavs| && uavs[i].isActive
  }

  /**
    The V_max ceiling is not enforced (its code is commented out): one UAV in
    reach of the HAP of `initialize_network` is already more than V_MAX = 0
    active UAVs.
  */
  lemma ActiveCountIgnoresVMax()
    ensures ActiveCount([Point(0.0, 0.0, 9000.0)], [Hap(0, Point(0.0, 0.0, 20000.0), R_H)]) > V_MAX
  {
    var hap := Hap(0, Point(0.0, 0.0, 20000.0), R_H);
    var p := Point(0.0, 0.0, 9000.0);
    assert SqDist(hap.position, p) == 121000000.0;
    assert Covers(hap.position, hap.communicationRange, p);
    assert HapReachable(p, [hap]);
    assert [p][..0] == [];
  }

  /**
    optimisation.py:143-172: every UAV moves exactly to its wolf, whatever
    its movement budget (the budget rescale of lines 150-161 is computed and
    discarded), and becomes active exactly when some HAP is in range of its
    new position. Nothing caps the number of active UAVs.
  */
  method Commit(uavs: seq<Uav>, haps: seq<Hap>, wolves: seq<Point>, dist: (Point, Point) -> real)
    requires Distinct(uavs) && |wolves| == |uavs|
    modifies uavs
    ensures forall i :: 0 <= i < |uavs| ==>
      && uavs[i].position == wolves[i]
      && uavs[i].lastMovement == dist(old(uavs[i].position), wolves[i])
      && uavs[i].isActive == HapReachable(wolves[i], haps)
      && uavs[i].activeVnfs == old(uavs[i].activeVnfs)
      && uavs[i].connectedUsers == old(uavs[i].connectedUsers)
      && uavs[i].currentLoad == old(uavs[i].currentLoad)
  {
    var i := 0;
    while i < |uavs|
      invariant 0 <= i <= |uavs|
      invariant forall j :: 0 <= j < i ==>
        && uavs[j].position == wolves[j]
        && uavs[j].lastMovement == dist(old(uavs[j].position), wolves[j])
        && uavs[j].isActive == HapReachable(wolves[j], haps)
      invariant forall j :: i <= j < |uavs| ==>
        && uavs[j].position == old(uavs[j].position)
        && uavs[j].lastMovement == old(uavs[j].lastMovement)
        && uavs[j].isActive == old(uavs[j].isActive)
      invariant forall j :: 0 <= j < |uavs| ==>
        && uavs[j].activeVnfs == old(uavs[j].activeVnfs)
        && uavs[j].connectedUsers == old(uavs[j].connectedUsers)
        && uavs[j].currentLoad == old(uavs[j].currentLoad)
    {
      var uav := uavs[i];
      uav.MoveTo(wolves[i], dist);
      var reachable := false;
      var h := 0;
      while h < |haps|
        invariant 0 <= h <= |haps|
        invariant reachable <==> exists g :: 0 <= g < h && Covers(haps[g].position, haps[g].communicationRange, uav.position)
      {
        if Covers(haps[h].position, haps[h].communicationRange, uav.position) {
          reachable := true;
          break;
        }
        h := h + 1;
      }
      uav.isActive := reachable;
      i := i + 1;
    }
  }

  /**
    `GWO.optimise` without its random search: the initial wolves are the
    UAV positions, the leaders are selected from `scores` (failing with fewer
    than three UAVs), and the search result `finalWolves` is committed.
  */
  method Optimise(uavs: seq<Uav>, haps: seq<Hap>, scores: seq<real>, finalWolves: seq<Point>, dist: (Point, Point) -> real)
    returns (r: Result<Leaders, GwoError>)
    requires Distinct(uavs) && |finalWolves| == |uavs|
    modifies uavs
    ensures r == SelectLeaders(scores, old(Positions(uavs)))
    ensures r.Failure? ==> forall i :: 0 <= i < |uavs| ==>
      && uavs[i].position == old(uavs[i].position)
      && uavs[i].isActive == old(uavs[i].isActive)
      && uavs[i].lastMovement == old(uavs[i].lastMovement)
    ensures r.Success? ==> forall i :: 0 <= i < |uavs| ==>
      && uavs[i].position == finalWolves[i]
      && uavs[i].lastMovement == dist(old(uavs[i].position), finalWolves[i])
      && uavs[i].isActive == HapReachable(finalWolves[i], haps)
    ensures r.Success? ==> |ActiveIndices(uavs)| == ActiveCount(finalWolves, haps)
    ensures forall i :: 0 <= i < |uavs| ==>
      && uavs[i].activeVnfs == old(uavs[i].activeVnfs)
      && uavs[i].connectedUsers == old(uavs[i].connectedUsers)
      && uavs[i].currentLoad == old(uavs[i].currentLoad)
  {
    var wolves := Positions(uavs);
    r := SelectLeaders(scores, wolves);
    if r.Success? {
      Commit(uavs, haps, finalWolves, dist);
      assert ActiveIndices(uavs) == ReachableIndices(finalWolves, haps);
      ActiveCountCountsReachable(finalWolves, haps);
    }
  }
}
