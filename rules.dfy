/** Timing rules of the single-player versions' `update`. */
module Rules {

  /** The first volley waits at least this long, and the cooldown starts here. */
  const InitialCooldown: int := 2000

  /** The difficulty rule never lowers the cooldown below this. */
  const CooldownFloor: int := 1000

  /** The cheat-mode "HIT" indicator stays up for this many milliseconds. */
  const HitIndicatorMillis: int := 500

  /**
   * The difficulty rule, applied once per tick: while the score is a
   * positive multiple of 5 the cooldown drops by 100 ms, but not below
   * 1000 ms; otherwise it is left as it is.
   */
  function Harden(cooldown: int, score: int): (c: int)
    // never raises a cooldown that is at or above the floor, and never passes the floor
    ensures CooldownFloor <= cooldown ==> CooldownFloor <= c <= cooldown
    // it drops exactly when the score is a positive multiple of 5 and the floor is not reached yet
    ensures CooldownFloor <= cooldown ==> (c < cooldown <==> score > 0 && score % 5 == 0 && cooldown > CooldownFloor)
    // a triggering score takes exactly 100 ms off, clamped at the floor; any other score changes nothing
    ensures score > 0 && score % 5 == 0 && cooldown - 100 >= CooldownFloor ==> c == cooldown - 100
    ensures score > 0 && score % 5 == 0 && cooldown - 100 < CooldownFloor ==> c == CooldownFloor
    ensures !(score > 0 && score % 5 == 0) ==> c == cooldown
  {
    if score > 0 && score % 5 == 0 then
      (if cooldown - 100 > CooldownFloor then cooldown - 100 else CooldownFloor)
    else cooldown
  }
}
