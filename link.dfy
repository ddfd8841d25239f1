/**
  The distance-dependent link bandwidth of main.py `bandwidth`: a linear
  fall-off from the link's maximum bandwidth at distance 0 to nothing at its
  maximum range, and a small positive floor beyond that range. The range
  test is a strict `>`, so the bandwidth at exactly the maximum range is 0,
  not the floor.
*/
module Link {
  import opened Wrappers

  const USER_UAV: string := "user_uav"
  const UAV_HAP: string := "uav_hap"

  /** The value returned beyond the maximum range (main.py:32). */
  const FLOOR: real := 0.000001

  /** `UnknownLinkType` is main.py's ValueError; `ZeroDivision` is Python's ZeroDivisionError. */
  datatype LinkError = UnknownLinkType(linkType: string) | ZeroDivision

  predicate KnownLink(linkType: string) {
    linkType == USER_UAV || linkType == UAV_HAP
  }

  /** BW_max of a known link type, in Mbps (main.py:22, 25). */
  function MaxBandwidth(linkType: string): (bw: real)
    requires KnownLink(linkType)
    ensures bw > 0.0
  {
    if linkType == USER_UAV then 100.0 else 1000.0
  }

  /** R_max of a known link type, in metres (main.py:23, 26). */
  function MaxRange(linkType: string): (r: real)
    requires KnownLink(linkType)
    ensures r > 0.0
  {
    if linkType == USER_UAV then 150000.0 else 400000.0
  }

  /** main.py `bandwidth(distance, link_type)`. */
  function Bandwidth(d: real, linkType: string): (r: Result<real, LinkError>)
    ensures r.Failure? <==> !KnownLink(linkType)
    ensures r.Failure? ==> r.error == UnknownLinkType(linkType)
    ensures r.Success? ==> r.value >= 0.0
    ensures r.Success? && d >= 0.0 ==> r.value <= MaxBandwidth(linkType)
  {
    if !KnownLink(linkType) then
      Failure(UnknownLinkType(linkType))
    else if d > MaxRange(linkType) then
      Success(FLOOR)
    else
      Success(MaxBandwidth(linkType) * (1.0 - d / MaxRange(linkType)))
  }

  /** The two link types use the constants of main.py:21-26. */
  lemma LinkConstants()
    ensures MaxBandwidth(USER_UAV) == 100.0 && MaxRange(USER_UAV) == 150000.0
    ensures MaxBandwidth(UAV_HAP) == 1000.0 && MaxRange(UAV_HAP) == 400000.0
    ensures !KnownLink("user-uav") && Bandwidth(0.0, "hap_hap").Failure?
  {
  }

  /** At distance 0 the full bandwidth is available. */
  lemma BandwidthAtZero(linkType: string)
    requires KnownLink(linkType)
    ensures Bandwidth(0.0, linkType) == Success(MaxBandwidth(linkType))
  {
  }

  /** Beyond the maximum range the bandwidth is the positive floor. */
  lemma BandwidthBeyondRange(d: real, linkType: string)
    requires KnownLink(linkType) && d > MaxRange(linkType)
    ensures Bandwidth(d, linkType) == Success(FLOOR)
  {
  }

  /** Within range, the bandwidth does not increase with distance. */
  lemma BandwidthNonIncreasing(d1: real, d2: real, linkType: string)
    requires KnownLink(linkType)
    requires 0.0 <= d1 <= d2 <= MaxRange(linkType)
    ensures Bandwidth(d2, linkType).value <= Bandwidth(d1, linkType).value
  {
  }

  /**
    Because the range test is a strict `>`, the bandwidth is 0 at exactly the
    maximum range, and positive at every other distance.
  */
  lemma BandwidthZeroExactlyAtRange(d: real, linkType: string)
    requires KnownLink(linkType)
    ensures Bandwidth(d, linkType).value == 0.0 <==> d == MaxRange(linkType)
    ensures d != MaxRange(linkType) ==> Bandwidth(d, linkType).value > 0.0
  {
  }

  /** So the bandwidth is not monotone across the maximum range: it rises from 0 to the floor. */
  lemma BandwidthNotMonotone(linkType: string)
    requires KnownLink(linkType)
    ensures var r := MaxRange(linkType);
      Bandwidth(r, linkType).value < Bandwidth(r + 1.0, linkType).value
  {
  }
}
