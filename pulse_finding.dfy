/**
  The motor pulse of `AppStateMachine` as written stores its end time `millis() + 100` in a
  `uint32_t` and uses 0 to mean "no pulse". A pulse started exactly 100 ms before the clock wraps
  stores 0 and so never ends, and one started later ends at the very next check because the end
  time wrapped below `now` (`StateMachineProps.PulseAtWrapNeverEnds`,
  `StateMachineProps.PulseNearWrapEndsAtOnce`).

  The pulse the code evidently intends keeps the start time and a running flag, and ends once
  the wrapping difference `now - start` reaches 100 ms. The state machine (`StateMachine`) keeps
  the pulse as written so that its other lemmas describe the firmware as it runs.
*/
module PulseFinding {
  import opened Common
  import opened StateMachine

  /** A wrap-safe motor pulse: whether a pulse runs, when it started, and the pin level. */
  datatype SafeMotor = SafeMotor(running: bool, since: uint32, pin: bool)

  /** Starting the pulse: the motor goes high and the start time is kept. */
  function SafeStart(now: uint32): SafeMotor
  {
    SafeMotor(true, now, true)
  }

  /** The end of the pulse: once 100 ms have passed since the start, measured on the wrapping
      clock, the motor goes low and the pulse stops running. */
  function SafeExpiry(m: SafeMotor, now: uint32): SafeMotor
  {
    if m.running && Sub32(now, m.since) >= MotorPulseMs then m.(running := false, pin := false) else m
  }

  /** Whatever `now` is, wrap or no wrap, the corrected pulse keeps the motor high exactly while
      fewer than 100 ms have passed since it started, and stops running when it goes low. */
  lemma CorrectedPulseLasts100(now: uint32, t: uint32)
    ensures SafeExpiry(SafeStart(now), t).pin <==> Sub32(t, now) < MotorPulseMs
    ensures !SafeExpiry(SafeStart(now), t).pin ==> !SafeExpiry(SafeStart(now), t).running
  {
  }

  /** The pulse started 100 ms before the wrap, which never ends as written, ends at the first
      check after the wrap and is high at every check before it. */
  lemma CorrectedPulseEndsAtWrap(t: uint32)
    ensures !SafeExpiry(SafeStart(Modulus32 - MotorPulseMs), 0).pin
    ensures Modulus32 - MotorPulseMs <= t ==> SafeExpiry(SafeStart(Modulus32 - MotorPulseMs), t).pin
  {
  }

  /** Away from the wrap the corrected pulse drives the motor exactly as the code as written. */
  lemma CorrectedAgreesAwayFromWrap(now: uint32, t: uint32)
    requires now + MotorPulseMs < Modulus32 && now <= t
    ensures SafeExpiry(SafeStart(now), t).pin == MotorExpiry(StartPulse(now), t).pin
  {
  }

  /** Once ended, the corrected pulse stays ended at every later check. */
  lemma CorrectedEndIsFinal(m: SafeMotor, later: uint32)
    requires !m.running
    ensures SafeExpiry(m, later) == m
  {
  }
}
