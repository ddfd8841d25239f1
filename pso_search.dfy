/**
  The deterministic parts of the PSO search loop of optimisation.py: the
  fitness of a particle (a UAV x VNF activation matrix) and the tracking of
  personal and global bests. The particle updates themselves (velocities,
  sigmoid, random thresholds) are random and are inputs here.
*/
module PsoSearch {
  import opened Wrappers
  import opened Geometry
  import opened Link
  import opened Entities
  import opened Latency

  const SWARM_SIZE: nat := 30
  const MAX_ITER: nat := 100

  /** A particle: one row of NUM_VNFS activation bits per UAV. */
  type Matrix = seq<seq<bool>>

  predicate IsMatrix(m: Matrix, rows: nat) {
    |m| == rows && forall i :: 0 <= i < rows ==> |m[i]| == NUM_VNFS
  }

  /** `set(np.where(row == 1)[0])`. */
  function RowSet(row: seq<bool>): (s: set<nat>)
    ensures forall v: nat :: v in s <==> v < |row| && row[v]
  {
    set v: nat | v < |row| && row[v]
  }

  /**
    optimisation.py:224-233: the UAV's row holds every VNF the request asks
    for, the user is within R_v of the UAV and the UAV within R_h of the HAP.
  */
  predicate Eligible(row: seq<bool>, uavPos: Point, r: UserRequest, hapPos: Point, dist: (Point, Point) -> real) {
    && RequestedSet(r) <= RowSet(row)
    && !(dist(uavPos, r.userPosition) > R_V || dist(uavPos, hapPos) > R_H)
  }

  /**
    optimisation.py:235-239: the fitness's collection latency, which divides
    the two distances (not the message size) by the link bandwidths.
  */
  function PairRcl(uavPos: Point, r: UserRequest, hapPos: Point, dist: (Point, Point) -> real): (l: Result<real, LinkError>)
    ensures l.Failure? <==> dist(uavPos, r.userPosition) == R_V || dist(uavPos, hapPos) == R_H
  {
    var dUserUav := dist(uavPos, r.userPosition);
    var dUavHap := dist(uavPos, hapPos);
    var up := PerBandwidth(dUserUav, dUserUav, USER_UAV);
    var relay := PerBandwidth(dUavHap, dUavHap, UAV_HAP);
    if up.Failure? then up
    else if relay.Failure? then relay
    else Success(ALPHA1 * up.value + ALPHA2 * relay.value)
  }

  /**
    The best collection latency for `r` over the first `n` UAVs
    (optimisation.py:221-242), as the loop keeps it: None until an eligible
    UAV is met, then the least latency so far; a division by zero ends it.
    `BestRclMeaning` states what it is.
  */
  function BestRcl(particle: Matrix, positions: seq<Point>, r: UserRequest, hapPos: Point,
                   dist: (Point, Point) -> real, n: nat): (b: Result<Option<real>, LinkError>)
    requires IsMatrix(particle, |positions|) && n <= |positions|
  {
    if n == 0 then Success(None)
    else
      var prev := BestRcl(particle, positions, r, hapPos, dist, n - 1);
      if prev.Failure? then prev
      else if !Eligible(particle[n - 1], positions[n - 1], r, hapPos, dist) then prev
      else
        var l := PairRcl(positions[n - 1], r, hapPos, dist);
        if l.Failure? then Failure(l.error)
        else if prev.value.None? || l.value < prev.value.value then Success(Some(l.value))
        else prev
  }

  /** UAV `k` passes the filter of optimisation.py:224-233 for `r`. */
  predicate Serves(particle: Matrix, positions: seq<Point>, k: int, r: UserRequest, hapPos: Point, dist: (Point, Point) -> real)
    requires IsMatrix(particle, |positions|)
  {
    0 <= k < |positions| && Eligible(particle[k], positions[k], r, hapPos, dist)
  }

  /**
    Over the first `n` UAVs the best latency fails exactly when some eligible
    UAV's latency divides by zero, is None exactly when no UAV is eligible,
    and is otherwise the latency of an eligible UAV that no eligible UAV's
    latency undercuts.
  */
  lemma {:induction false} BestRclMeaning(particle: Matrix, positions: seq<Point>, r: UserRequest, hapPos: Point,
                                          dist: (Point, Point) -> real, n: nat)
    requires IsMatrix(particle, |positions|) && n <= |positions|
    ensures var b := BestRcl(particle, positions, r, hapPos, dist, n);
      && (b.Failure? <==> exists k :: 0 <= k < n && Serves(particle, positions, k, r, hapPos, dist)
                                      && PairRcl(positions[k], r, hapPos, dist).Failure?)
      && (b == Success(None) <==> forall k :: 0 <= k < n ==> !Serves(particle, positions, k, r, hapPos, dist))
      && (b.Success? && b.value.Some? ==>
          && (exists k :: 0 <= k < n && Serves(particle, positions, k, r, hapPos, dist)
                          && PairRcl(positions[k], r, hapPos, dist) == Success(b.value.value))
          && (forall k :: 0 <= k < n && Serves(particle, positions, k, r, hapPos, dist) ==>
                          b.value.value <= PairRcl(positions[k], r, hapPos, dist).value))
  {
    if n > 0 {
      BestRclMeaning(particle, positions, r, hapPos, dist, n - 1);
      var prev := BestRcl(particle, positions, r, hapPos, dist, n - 1);
      var b := BestRcl(particle, positions, r, hapPos, dist, n);
      if prev.Success? && Serves(particle, positions, n - 1, r, hapPos, dist) {
        var l := PairRcl(positions[n - 1], r, hapPos, dist);
        if l.Success? && prev.value.Some? && l.value >= prev.value.value {
          assert b == prev;
        }
      }
    }
  }

  /** What one request adds to the fitness: its best latency, or 1e9 (optimisation.py:244-247). */
  function RequestCost(particle: Matrix, positions: seq<Point>, r: UserRequest, hapPos: Point,
                       dist: (Point, Point) -> real): Result<real, LinkError>
    requires IsMatrix(particle, |positions|)
  {
    match BestRcl(particle, positions, r, hapPos, dist, |positions|)
    case Failure(e) => Failure(e)
    case Success(None) => Success(DROP_PENALTY)
    case Success(Some(b)) => Success(b)
  }

  /** The fitness of a particle over the first `m` requests. */
  function FitnessOf(particle: Matrix, positions: seq<Point>, requests: seq<UserRequest>, hapPos: Point,
                     dist: (Point, Point) -> real, m: nat): Result<real, LinkError>
    requires IsMatrix(particle, |positions|) && m <= |requests|
  {
    if m == 0 then Success(0.0)
    else
      var prev := FitnessOf(particle, positions, requests, hapPos, dist, m - 1);
      var c := RequestCost(particle, positions, requests[m - 1], hapPos, dist);
      if prev.Failure? then prev
      else if c.Failure? then Failure(c.error)
      else Success(prev.value + c.value)
  }

  /** The sum of `xs`, added up from the front as the fitness loop does. */
  function Total(xs: seq<real>): real {
    if xs == [] then 0.0 else Total(xs[..|xs| - 1]) + xs[|xs| - 1]
  }

  /** The costs of the first `m` requests, when none of them fails. */
  function CostValues(particle: Matrix, positions: seq<Point>, requests: seq<UserRequest>, hapPos: Point,
                      dist: (Point, Point) -> real, m: nat): (cs: seq<real>)
    requires IsMatrix(particle, |positions|) && m <= |requests|
    requires forall j :: 0 <= j < m ==> RequestCost(particle, positions, requests[j], hapPos, dist).Success?
    ensures |cs| == m && forall j :: 0 <= j < m ==> cs[j] == RequestCost(particle, positions, requests[j], hapPos, dist).value
  {
    seq(m, j requires 0 <= j < m => RequestCost(particle, positions, requests[j], hapPos, dist).value)
  }

  /**
    The fitness fails exactly when some request's cost does, and is
    otherwise the sum of the request costs (`RequestCostUnserved` and
    `RequestCostServed` say what each cost is).
  */
  lemma {:induction false} FitnessFailsIffSomeCostFails(particle: Matrix, positions: seq<Point>, requests: seq<UserRequest>,
                                                        hapPos: Point, dist: (Point, Point) -> real, m: nat)
    requires IsMatrix(particle, |positions|) && m <= |requests|
    ensures FitnessOf(particle, positions, requests, hapPos, dist, m).Failure?
            <==> exists j :: 0 <= j < m && RequestCost(particle, positions, requests[j], hapPos, dist).Failure?
    ensures FitnessOf(particle, positions, requests, hapPos, dist, m).Success? ==>
      && (forall j :: 0 <= j < m ==> RequestCost(particle, positions, requests[j], hapPos, dist).Success?)
      && FitnessOf(particle, positions, requests, hapPos, dist, m).value
         == Total(CostValues(particle, positions, requests, hapPos, dist, m))
  {
    if m > 0 {
      FitnessFailsIffSomeCostFails(particle, positions, requests, hapPos, dist, m - 1);
      if FitnessOf(particle, positions, requests, hapPos, dist, m).Success? {
        var cs := CostValues(particle, positions, requests, hapPos, dist, m);
        assert cs[..m - 1] == CostValues(particle, positions, requests, hapPos, dist, m - 1);
      }
    }
  }

  /**
    A request no UAV can serve under the particle adds exactly 1e9; one that
    some UAV can serve adds the least latency over the UAVs that can.
  */
  lemma RequestCostUnserved(particle: Matrix, positions: seq<Point>, r: UserRequest, hapPos: Point,
                            dist: (Point, Point) -> real)
    requires IsMatrix(particle, |positions|)
    requires forall k :: !Serves(particle, positions, k, r, hapPos, dist)
    ensures RequestCost(particle, positions, r, hapPos, dist) == Success(DROP_PENALTY)
  {
    BestRclMeaning(particle, positions, r, hapPos, dist, |positions|);
  }

  /**
    A request some UAV can serve adds the latency of one such UAV, and no
    UAV that can serve it has a lower latency.
  */
  lemma RequestCostServed(particle: Matrix, positions: seq<Point>, r: UserRequest, hapPos: Point,
                          dist: (Point, Point) -> real, k0: nat)
    requires IsMatrix(particle, |positions|)
    requires Serves(particle, positions, k0, r, hapPos, dist)
    requires RequestCost(particle, positions, r, hapPos, dist).Success?
    ensures var c := RequestCost(particle, positions, r, hapPos, dist).value;
      && (exists k :: Serves(particle, positions, k, r, hapPos, dist) && PairRcl(positions[k], r, hapPos, dist) == Success(c))
      && (forall k :: Serves(particle, positions, k, r, hapPos, dist) ==>
                      PairRcl(positions[k], r, hapPos, dist).Success? && c <= PairRcl(positions[k], r, hapPos, dist).value)
  {
    BestRclMeaning(particle, positions, r, hapPos, dist, |positions|);
  }

  /**
    The inner loop of `PSO.fitness` (optimisation.py:221-242) for one
    request: it stops at the first eligible UAV whose latency divides by zero.
  */
  method BestLatency(particle: Matrix, positions: seq<Point>, request: UserRequest, hapPos: Point,
                     dist: (Point, Point) -> real) returns (b: Result<Option<real>, LinkError>)
    requires IsMatrix(particle, |positions|)
    ensures b == BestRcl(particle, positions, request, hapPos, dist, |positions|)
  {
    var best: Option<real> := None;
    var k := 0;
    while k < |positions|
      invariant 0 <= k <= |positions|
      invariant BestRcl(particle, positions, request, hapPos, dist, k) == Success(best)
    {
      if Eligible(particle[k], positions[k], request, hapPos, dist) {
        var rcl := PairRcl(positions[k], request, hapPos, dist);
        if rcl.Failure? {
          BestRclFailsFrom(particle, positions, request, hapPos, dist, k + 1, |positions|);
          return Failure(rcl.error);
        }
        if best.None? || rcl.value < best.value {
          best := Some(rcl.value);
        }
      }
      k := k + 1;
    }
    return Success(best);
  }

  /**
    `PSO.fitness` (optimisation.py:214-249): the loop accumulating the total
    latency computes `FitnessOf` over all requests. `haps[0]` is `hapPos`.
  */
  method Fitness(particle: Matrix, positions: seq<Point>, requests: seq<UserRequest>, hapPos: Point,
                 dist: (Point, Point) -> real) returns (f: Result<real, LinkError>)
    requires IsMatrix(particle, |positions|)
    ensures f == FitnessOf(particle, positions, requests, hapPos, dist, |requests|)
  {
    var total := 0.0;
    var j := 0;
    while j < |requests|
      invariant 0 <= j <= |requests|
      invariant FitnessOf(particle, positions, requests, hapPos, dist, j) == Success(total)
    {
      var best := BestLatency(particle, positions, requests[j], hapPos, dist);
      if best.Failure? {
        FitnessFailsFrom(particle, positions, requests, hapPos, dist, j + 1, |requests|);
        return Failure(best.error);
      }
      var cost := if best.value.None? then DROP_PENALTY else best.value.value;
      total := total + cost;
      j := j + 1;
    }
    return Success(total);
  }

  /** A failure over the first `m` UAVs persists over more of them. */
  lemma {:induction false} BestRclFailsFrom(particle: Matrix, positions: seq<Point>, r: UserRequest, hapPos: Point,
                                            dist: (Point, Point) -> real, m: nat, n: nat)
    requires IsMatrix(particle, |positions|) && m <= n <= |positions|
    requires BestRcl(particle, positions, r, hapPos, dist, m).Failure?
    ensures BestRcl(particle, positions, r, hapPos, dist, n) == BestRcl(particle, positions, r, hapPos, dist, m)
    decreases n - m
  {
    if m < n {
      BestRclFailsFrom(particle, positions, r, hapPos, dist, m, n - 1);
    }
  }

  /** A failure over the first `m` requests persists over more of them. */
  lemma {:induction false} FitnessFailsFrom(particle: Matrix, positions: seq<Point>, requests: seq<UserRequest>, hapPos: Point,
                                            dist: (Point, Point) -> real, m: nat, n: nat)
    requires IsMatrix(particle, |positions|) && m <= n <= |requests|
    requires FitnessOf(particle, positions, requests, hapPos, dist, m).Failure?
    ensures FitnessOf(particle, positions, requests, hapPos, dist, n) == FitnessOf(particle, positions, requests, hapPos, dist, m)
    decreases n - m
  {
    if m < n {
      FitnessFailsFrom(particle, positions, requests, hapPos, dist, m, n - 1);
    }
  }

  /** `np.argmin`: the first index holding the least value. */
  function ArgMin(xs: seq<real>): (k: nat)
    requires |xs| > 0
    ensures k < |xs|
    ensures forall j :: 0 <= j < |xs| ==> xs[k] <= xs[j]
    ensures forall j :: 0 <= j < k ==> xs[k] < xs[j]
  {
    if |xs| == 1 then 0
    else
      var k := ArgMin(xs[..|xs| - 1]);
      if xs[|xs| - 1] < xs[k] then |xs| - 1 else k
  }

  /** The personal bests of a swarm and its global best. */
  datatype Bests<P> = Bests(pbest: seq<P>, pbestScores: seq<real>, gbest: P, gbestScore: real)

  /** The global best is the least personal best, and is one of them. */
  ghost predicate Consistent<P>(b: Bests<P>) {
    && |b.pbest| == |b.pbestScores| > 0
    && (forall i :: 0 <= i < |b.pbestScores| ==> b.gbestScore <= b.pbestScores[i])
    && (exists k :: 0 <= k < |b.pbest| && b.pbest[k] == b.gbest && b.pbestScores[k] == b.gbestScore)
  }

  /** optimisation.py:267-273: the initial particles are the personal bests. */
  function InitialBests<P>(particles: seq<P>, score: P -> real): (b: Bests<P>)
    requires |particles| > 0
    ensures Consistent(b)
    ensures b.pbest == particles
    ensures forall i :: 0 <= i < |particles| ==> b.pbestScores[i] == score(particles[i])
  {
    var scores := seq(|particles|, i requires 0 <= i < |particles| => score(particles[i]));
    var k := ArgMin(scores);
    Bests(particles, scores, particles[k], scores[k])
  }

  /**
    optimisation.py:291-298: particle `i` with fitness `s` replaces its
    personal best only when strictly better, and the global best likewise.
    No score ever goes up.
  */
  function Step<P>(b: Bests<P>, i: nat, particle: P, s: real): (b': Bests<P>)
    requires Consistent(b) && i < |b.pbest|
    ensures Consistent(b')
    ensures |b'.pbest| == |b.pbest|
    ensures b'.pbestScores[i] <= b.pbestScores[i] && b'.pbestScores[i] <= s
    ensures b'.pbestScores[i] == b.pbestScores[i] || (b'.pbestScores[i] == s && b'.pbest[i] == particle)
    ensures forall j :: 0 <= j < |b.pbest| && j != i ==> b'.pbest[j] == b.pbest[j] && b'.pbestScores[j] == b.pbestScores[j]
    ensures b'.gbestScore <= b.gbestScore
  {
    if s < b.pbestScores[i] then
      var b1 := b.(pbest := b.pbest[i := particle], pbestScores := b.pbestScores[i := s]);
      if s < b.gbestScore then b1.(gbest := particle, gbestScore := s)
      else
        assert Consistent(b1) by {
          var k :| 0 <= k < |b.pbest| && b.pbest[k] == b.gbest && b.pbestScores[k] == b.gbestScore;
          assert k != i;
          assert b1.pbest[k] == b1.gbest && b1.pbestScores[k] == b1.gbestScore;
        }
        b1
    else b
  }

  /**
    One iteration of the main loop (optimisation.py:281-298) with the new
    particles given: every personal best score ends no higher than it was and
    than its new particle's score, and is either kept or taken from the new
    particle.
  */
  method Round<P>(b0: Bests<P>, particles: seq<P>, score: P -> real) returns (b: Bests<P>)
    requires Consistent(b0) && |particles| == |b0.pbest|
    ensures Consistent(b) && |b.pbest| == |b0.pbest|
    ensures b.gbestScore <= b0.gbestScore
    ensures forall i :: 0 <= i < |particles| ==>
      && b.pbestScores[i] <= b0.pbestScores[i]
      && b.pbestScores[i] <= score(particles[i])
      && ((b.pbest[i] == b0.pbest[i] && b.pbestScores[i] == b0.pbestScores[i])
          || (b.pbest[i] == particles[i] && b.pbestScores[i] == score(particles[i])))
  {
    b := b0;
    var i := 0;
    while i < |particles|
      invariant 0 <= i <= |particles|
      invariant Consistent(b) && |b.pbest| == |b0.pbest|
      invariant b.gbestScore <= b0.gbestScore
      invariant forall j :: 0 <= j < |particles| ==> b.pbestScores[j] <= b0.pbestScores[j]
      invariant forall j :: 0 <= j < i ==> b.pbestScores[j] <= score(particles[j])
      invariant forall j :: 0 <= j < |particles| ==>
        || (b.pbest[j] == b0.pbest[j] && b.pbestScores[j] == b0.pbestScores[j])
        || (j < i && b.pbest[j] == particles[j] && b.pbestScores[j] == score(particles[j]))
    {
      b := Step(b, i, particles[i], score(particles[i]));
      i := i + 1;
    }
  }

  /** Personal best `i` is the score of one of the particles it has seen. */
  ghost predicate Attained<P>(b: Bests<P>, i: nat, initial: seq<P>, rounds: seq<seq<P>>, t: nat, score: P -> real)
    requires i < |b.pbest| == |b.pbestScores| && i < |initial| && t <= |rounds|
    requires forall u :: 0 <= u < |rounds| ==> |rounds[u]| == |initial|
  {
    || (b.pbest[i] == initial[i] && b.pbestScores[i] == score(initial[i]))
    || (exists u :: 0 <= u < t && b.pbest[i] == rounds[u][i] && b.pbestScores[i] == score(rounds[u][i]))
  }

  /** Personal best `i` is no higher than the score of any particle it has seen. */
  ghost predicate Bounded<P>(b: Bests<P>, i: nat, initial: seq<P>, rounds: seq<seq<P>>, t: nat, score: P -> real)
    requires i < |b.pbestScores| && i < |initial| && t <= |rounds|
    requires forall u :: 0 <= u < |rounds| ==> |rounds[u]| == |initial|
  {
    && b.pbestScores[i] <= score(initial[i])
    && (forall u :: 0 <= u < t ==> b.pbestScores[i] <= score(rounds[u][i]))
  }

  /**
    optimisation.py:266-298 with the fitness an arbitrary function and the
    particles of every round given: each personal best score ends no higher
    than the score of any particle it saw, and is the score of one of them;
    the global best is the least personal best.
  */
  method TrackBest<P>(initial: seq<P>, rounds: seq<seq<P>>, score: P -> real) returns (b: Bests<P>)
    requires |initial| > 0
    requires forall t :: 0 <= t < |rounds| ==> |rounds[t]| == |initial|
    ensures Consistent(b) && |b.pbest| == |initial|
    ensures forall i :: 0 <= i < |initial| ==> b.pbestScores[i] <= score(initial[i])
    ensures forall t, i :: 0 <= t < |rounds| && 0 <= i < |initial| ==> b.pbestScores[i] <= score(rounds[t][i])
    ensures forall i: nat :: i < |initial| ==> Attained(b, i, initial, rounds, |rounds|, score)
  {
    b := InitialBests(initial, score);
    var t := 0;
    while t < |rounds|
      invariant 0 <= t <= |rounds|
      invariant Consistent(b) && |b.pbest| == |initial|
      invariant forall i: nat :: i < |initial| ==> Bounded(b, i, initial, rounds, t, score)
      invariant forall i: nat :: i < |initial| ==> Attained(b, i, initial, rounds, t, score)
    {
      var b1 := Round(b, rounds[t], score);
      var t1 := t + 1;
      forall i: nat | i < |initial|
        ensures Bounded(b1, i, initial, rounds, t1, score)
        ensures Attained(b1, i, initial, rounds, t1, score)
      {
        assert Bounded(b, i, initial, rounds, t, score);
        assert Attained(b, i, initial, rounds, t, score);
      }
      b := b1;
      t := t1;
    }
    forall i: nat | i < |initial|
      ensures b.pbestScores[i] <= score(initial[i])
      ensures forall t :: 0 <= t < |rounds| ==> b.pbestScores[i] <= score(rounds[t][i])
    {
      assert Bounded(b, i, initial, rounds, |rounds|, score);
    }
  }
}
