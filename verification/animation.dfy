/**
 Animation bookkeeping of Player.update: which of the eight clips is current,
 and the state clock that drives frame lookup.
 */
module Animation {

  /** One walking and one idle clip for each of the four facings. */
  datatype Clip =
    | WalkLU | IdleLU
    | WalkRD | IdleRD
    | WalkRU | IdleRU
    | WalkLD | IdleLD

  /** The facing constant a clip shows (0 left-up, 1 right-down, 2 right-up, 3 left-down). */
  function ClipFacing(c: Clip): int
  {
    match c
    case WalkLU | IdleLU => 0
    case WalkRD | IdleRD => 1
    case WalkRU | IdleRU => 2
    case WalkLD | IdleLD => 3
  }

  /** Whether a clip is a walk cycle rather than a standing pose. */
  predicate IsWalk(c: Clip)
  {
    c.WalkLU? || c.WalkRD? || c.WalkRU? || c.WalkLD?
  }

  /** A clip is determined by its facing and whether it walks: the table has exactly eight entries. */
  lemma ClipDeterminedByFacingAndWalk(c1: Clip, c2: Clip)
    requires ClipFacing(c1) == ClipFacing(c2) && IsWalk(c1) == IsWalk(c2)
    ensures c1 == c2
  {
  }

  /**
   The clip switch: a facing in 0..3 picks the walk or idle clip of that facing;
   any other facing falls through the default case and keeps the current clip.
   */
  function SelectClip(direction: int, moving: bool, current: Clip): (r: Clip)
    ensures 0 <= direction <= 3 ==> ClipFacing(r) == direction && IsWalk(r) == moving
    ensures !(0 <= direction <= 3) ==> r == current
  {
    match direction
    case 0 => if moving then WalkLU else IdleLU
    case 1 => if moving then WalkRD else IdleRD
    case 2 => if moving then WalkRU else IdleRU
    case 3 => if moving then WalkLD else IdleLD
    case _ => current
  }

  /** Length of the state clock's cycle, in seconds. */
  const ClockCycle: real := 0.5

  /**
   Advance the state clock by `delta`; once the sum passes the cycle length it
   restarts at zero (the remainder is dropped, not carried over).
   */
  function AdvanceClock(time: real, delta: real): (r: real)
    ensures r == time + delta <==> time + delta <= ClockCycle
    ensures r != time + delta ==> r == 0.0
    ensures r <= ClockCycle
    ensures 0.0 <= time + delta ==> 0.0 <= r
  {
    var t := time + delta;
    if t > ClockCycle then 0.0 else t
  }

  /** With a non-negative tick, a clock that starts in [0, 0.5] stays there. */
  lemma ClockStaysInCycle(time: real, delta: real)
    requires 0.0 <= time <= ClockCycle && 0.0 <= delta
    ensures 0.0 <= AdvanceClock(time, delta) <= ClockCycle
  {
  }
}
