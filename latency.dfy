/**
  The per-request latency terms of environment.py (121-155) and the
  records of `process_requests`. Each term divides a message size by a link
  bandwidth; the bandwidth is 0 when a link is exactly at its maximum range,
  where Python raises ZeroDivisionError, so every term is a `Result`.
  The message sizes S and B are read from PARAMS keys that classes.py does
  not define; they are parameters here.
*/
module Latency {
  import opened Wrappers
  import opened Link
  import opened Entities

  datatype MessageSizes = MessageSizes(s: real, b: real)

  /** Penalty latency of a dropped request (environment.py:178-179, 211-212). */
  const DROP_PENALTY: real := 1000000000.0

  /** Python's float division. */
  function Divide(num: real, den: real): (r: Result<real, LinkError>)
    ensures r.Success? <==> den != 0.0
    ensures r.Failure? ==> r.error == ZeroDivision
    ensures r.Success? ==> r.value * den == num
  {
    if den == 0.0 then Failure(ZeroDivision) else Success(num / den)
  }

  /** `size / bandwidth(d, linkType)` for a known link type. */
  function PerBandwidth(size: real, d: real, linkType: string): (r: Result<real, LinkError>)
    requires KnownLink(linkType)
    ensures r.Success? <==> d != MaxRange(linkType)
    ensures r.Success? && size >= 0.0 ==> r.value >= 0.0
  {
    BandwidthZeroExactlyAtRange(d, linkType);
    var bw := Bandwidth(d, linkType).value;
    var q := Divide(size, bw);
    if q.Success? && size >= 0.0 then
      QuotientNonNegative(size, bw);
      q
    else q
  }

  lemma QuotientNonNegative(num: real, den: real)
    requires num >= 0.0 && den > 0.0
    ensures num / den >= 0.0
  {
  }

  /** rcl = alpha1 * S / bw_user_uav + alpha2 * S / bw_uav_hap (environment.py:121-129). */
  function RequestCollection(dUserUav: real, dUavHap: real, sizes: MessageSizes): (r: Result<real, LinkError>)
    ensures r.Success? <==> dUserUav != MaxRange(USER_UAV) && dUavHap != MaxRange(UAV_HAP)
    ensures r.Success? && sizes.s >= 0.0 ==> r.value >= 0.0
  {
    var up := PerBandwidth(sizes.s, dUserUav, USER_UAV);
    var relay := PerBandwidth(sizes.s, dUavHap, UAV_HAP);
    if up.Failure? then up
    else if relay.Failure? then relay
    else Success(ALPHA1 * up.value + ALPHA2 * relay.value)
  }

  /**
    pl = gamma1 * movement + gamma2 * B / bw_uav_hap (environment.py:137-143).
    The source calls an undefined `uav.move()`; the movement term here is
    the UAV's `last_movement`.
  */
  function Placement(movement: real, dUavHap: real, sizes: MessageSizes): (r: Result<real, LinkError>)
    ensures r.Success? <==> dUavHap != MaxRange(UAV_HAP)
    ensures r.Success? && movement >= 0.0 && sizes.b >= 0.0 ==> r.value >= 0.0
  {
    var relay := PerBandwidth(sizes.b, dUavHap, UAV_HAP);
    if relay.Failure? then relay
    else Success(GAMMA1 * movement + GAMMA2 * relay.value)
  }

  /** prep = beta1 * S / bw_uav_hap + beta2 (environment.py:145-149). */
  function Preparation(dUavHap: real, sizes: MessageSizes): (r: Result<real, LinkError>)
    ensures r.Success? <==> dUavHap != MaxRange(UAV_HAP)
    ensures r.Success? && sizes.s >= 0.0 ==> r.value >= BETA2
  {
    var relay := PerBandwidth(sizes.s, dUavHap, UAV_HAP);
    if relay.Failure? then relay
    else Success(BETA1 * relay.value + BETA2)
  }

  /** tx = delta1 * S / bw_user_uav (environment.py:151-155). */
  function Transmission(dUserUav: real, sizes: MessageSizes): (r: Result<real, LinkError>)
    ensures r.Success? <==> dUserUav != MaxRange(USER_UAV)
    ensures r.Success? && sizes.s >= 0.0 ==> r.value >= 0.0
  {
    var up := PerBandwidth(sizes.s, dUserUav, USER_UAV);
    if up.Failure? then up
    else Success(DELTA1 * up.value)
  }

  /** `decision_making` (environment.py:131-135): the deployment time plus the placement time. */
  function DecisionLatency(deployment: real, placement: real): real {
    deployment + placement
  }

  /** One row of `latency_records`. */
  datatype LatencyRecord = LatencyRecord(
    requestId: nat, rcl: real, dml: real, pl: real, prep: real, tx: real,
    total: real, totalNoPlacement: real)

  /** A dropped request: all terms 0 except `dml`, both totals at the penalty. */
  function DropRecord(requestId: nat, dml: real): (r: LatencyRecord)
    ensures r.requestId == requestId && Dropped(r)
    ensures r.total == r.totalNoPlacement == DROP_PENALTY
    ensures r.rcl == r.pl == r.prep == r.tx == 0.0 && r.dml == dml
  {
    LatencyRecord(requestId, 0.0, dml, 0.0, 0.0, 0.0, DROP_PENALTY, DROP_PENALTY)
  }

  /** A served request (environment.py:220-232). */
  function ServedRecord(requestId: nat, rcl: real, dml: real, pl: real, prep: real, tx: real): (r: LatencyRecord)
    ensures r.requestId == requestId
    ensures r.rcl == rcl && r.dml == dml && r.pl == pl && r.prep == prep && r.tx == tx
    ensures r.total == rcl + dml + pl + prep + tx
    ensures r.totalNoPlacement == r.total - r.pl
    ensures r.pl >= 0.0 ==> r.totalNoPlacement <= r.total
  {
    var total := rcl + dml + pl + prep + tx;
    LatencyRecord(requestId, rcl, dml, pl, prep, tx, total, rcl + dml + prep + tx)
  }

  /** How sims.py counts a dropped request. */
  predicate Dropped(r: LatencyRecord) {
    r.total >= DROP_PENALTY
  }
}
