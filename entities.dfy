/**
  The entities of classes.py: the PARAMS configuration, `UserRequest`,
  `HAP` and `UAV`. Requests and HAPs are never changed after creation and
  are values; a UAV's position, VNF set, connections, load and activity are
  updated in place, so `Uav` is a class.
*/
module Entities {
  import opened Geometry

  // PARAMS (classes.py:3-20). Keys the code reads but PARAMS lacks
  // ("S", "B", "R", "U") are parameters of the operations that use them.
  const C: nat := 4                      // max VNFs per UAV
  const V_MAX: nat := 0                  // max active UAVs (read only by code that is commented out)
  const A_MAX: nat := 0                  // max VNF activations per interval
  const S_MAX: real := 0.0               // max UAV movement speed
  const R_V: real := 150000.0            // UAV range, metres
  const R_H: real := 400000.0            // HAP range, metres
  const DELTA_T: real := 1.0
  const BW_MAX_USER_UAV: int := 100      // Mbps
  const BW_MAX_UAV_HAP: int := 1000      // Mbps
  const ALPHA1: real := 0.2
  const ALPHA2: real := 0.4
  const BETA1: real := 0.3
  const BETA2: real := 0.1
  const GAMMA1: real := 1.2
  const GAMMA2: real := 0.6
  const DELTA1: real := 0.3

  /** Number of VNF identifiers: requests draw from range(10) and the PSO matrices have 10 columns. */
  const NUM_VNFS: nat := 10

  /** A user request; `demand` defaults to 5 bandwidth units (classes.py:22-27). */
  datatype UserRequest = UserRequest(requestId: nat, userPosition: Point, requestedVnfs: seq<nat>, demand: int := 5)

  datatype Hap = Hap(hapId: nat, position: Point, communicationRange: real)

  /** `set(request.requested_vnfs)` */
  function RequestedSet(r: UserRequest): set<nat> {
    set v | v in r.requestedVnfs
  }

  /** Every VNF the request names is in the catalogue 0..NUM_VNFS-1. */
  predicate InCatalogue(r: UserRequest) {
    forall v :: v in r.requestedVnfs ==> v < NUM_VNFS
  }

  /** Every id in the set is in the catalogue (a column of the PSO matrices). */
  predicate VnfIds(s: set<nat>) {
    forall v :: v in s ==> v < NUM_VNFS
  }

  /**
    The VNF set after `activate_vnf(vnfId)` on a UAV with capacity `cap`:
    the id is added only while fewer than `cap` VNFs are active.
  */
  function Activate(active: set<nat>, cap: nat, vnfId: nat): (r: set<nat>)
    ensures |active| <= cap ==> |r| <= cap
    ensures active <= r <= active + {vnfId}
    ensures vnfId in active ==> r == active
    ensures |active| >= cap ==> r == active
    ensures |active| < cap ==> vnfId in r
  {
    if |active| < cap then active + {vnfId} else active
  }

  class Uav {
    const uavId: nat
    var position: Point
    var lastMovement: real
    const maxVnfs: nat
    const communicationRange: real
    var activeVnfs: set<nat>
    var connectedUsers: seq<UserRequest>
    var currentLoad: int
    const maxCapacity: int
    var isActive: bool
    const maxMove: real

    /** classes.py:30-41 */
    constructor (uavId: nat, position: Point, maxVnfs: nat, communicationRange: real)
      ensures this.uavId == uavId && this.position == position && lastMovement == 0.0
      ensures this.maxVnfs == maxVnfs && this.communicationRange == communicationRange
      ensures activeVnfs == {} && connectedUsers == [] && currentLoad == 0
      ensures maxCapacity == BW_MAX_USER_UAV && isActive && maxMove == S_MAX * DELTA_T
    {
      this.uavId := uavId;
      this.position := position;
      lastMovement := 0.0;
      this.maxVnfs := maxVnfs;
      this.communicationRange := communicationRange;
      activeVnfs := {};
      connectedUsers := [];
      currentLoad := 0;
      maxCapacity := BW_MAX_USER_UAV;
      isActive := true;
      maxMove := S_MAX * DELTA_T;
    }

    /** classes.py:43-45: a no-op at capacity, idempotent on an active id. */
    method ActivateVnf(vnfId: nat)
      modifies this`activeVnfs
      ensures activeVnfs == Activate(old(activeVnfs), maxVnfs, vnfId)
      ensures |old(activeVnfs)| <= maxVnfs ==> |activeVnfs| <= maxVnfs
    {
      if |activeVnfs| < maxVnfs {
        activeVnfs := activeVnfs + {vnfId};
      }
    }

    /** classes.py:47-48: `discard` removes the id if present and never fails. */
    method DeactivateVnf(vnfId: nat)
      modifies this`activeVnfs
      ensures activeVnfs == old(activeVnfs) - {vnfId}
    {
      activeVnfs := activeVnfs - {vnfId};
    }

    /**
      classes.py:50-52. `dist` is the distance function of main.py (its
      square root is outside the model); `last_movement` is the distance
      from the old position.
    */
    method MoveTo(newPosition: Point, dist: (Point, Point) -> real)
      modifies this`position, this`lastMovement
      ensures position == newPosition
      ensures lastMovement == dist(old(position), newPosition)
    {
      lastMovement := dist(position, newPosition);
      position := newPosition;
    }

    /** classes.py:54-59, decided on the squared distance (see `CanServeUserIffWithinRange`). */
    predicate CanServeUser(userPosition: Point)
      reads this
    {
      Covers(position, communicationRange, userPosition)
    }
  }

  /** The UAV list holds each UAV object once. */
  predicate Distinct(uavs: seq<Uav>) {
    forall i, j :: 0 <= i < j < |uavs| ==> uavs[i] != uavs[j]
  }

  /** The UAVs' positions, in list order. */
  function Positions(uavs: seq<Uav>): (ps: seq<Point>)
    reads uavs
    ensures |ps| == |uavs| && forall i :: 0 <= i < |uavs| ==> ps[i] == uavs[i].position
  {
    seq(|uavs|, i requires 0 <= i < |uavs| reads uavs => uavs[i].position)
  }

  /** `can_serve_user` holds exactly when the Euclidean distance is at most the UAV's range. */
  lemma CanServeUserIffWithinRange(u: Uav, userPosition: Point, d: real)
    requires IsDistance(u.position, userPosition, d)
    ensures u.CanServeUser(userPosition) <==> d <= u.communicationRange
  {
    CoversIffWithinRange(u.position, u.communicationRange, userPosition, d);
  }

  /** A request built without a demand gets demand 5 and keeps the given fields. */
  lemma DefaultDemand(id: nat, p: Point, vnfs: seq<nat>)
    ensures UserRequest(id, p, vnfs).demand == 5
    ensures UserRequest(id, p, vnfs).requestedVnfs == vnfs
  {
  }
}
