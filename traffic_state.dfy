/** The five-phase traffic-light state machine (`updateTrafficLight`) as a pure step function. */
module TrafficState {
  import opened Clock

  /** The `TrafficState` enum. */
  datatype Phase = RedOn | Yellow1On | GreenOn | GreenBlink | Yellow2On

  // Phase durations in milliseconds; the source keeps them in globals that nothing reassigns.
  const TimeRed: nat := 2000
  const TimeYellow: nat := 500
  const TimeGreen: nat := 2000
  /** One blink interval: `1000 / 7` in integer division, i.e. 142. */
  const TimeBlink: nat := 1000 / 7
  /** Number of blink intervals spent in `GreenBlink` before `Yellow2On`. */
  const BlinkTarget: nat := 7

  /** The cyclic order of the phases. */
  function Next(p: Phase): (q: Phase)
    ensures q != p
  {
    match p
    case RedOn => Yellow1On
    case Yellow1On => GreenOn
    case GreenOn => GreenBlink
    case GreenBlink => Yellow2On
    case Yellow2On => RedOn
  }

  /** How long the machine waits in a phase before it acts: a full phase for the steady
      phases, one blink interval for `GreenBlink`. */
  function Interval(p: Phase): (d: nat)
    ensures d > 0
  {
    match p
    case RedOn => TimeRed
    case Yellow1On => TimeYellow
    case GreenOn => TimeGreen
    case GreenBlink => TimeBlink
    case Yellow2On => TimeYellow
  }

  /** The three mode flags `emergencyMode`, `blinkMode` and `powerMode`. */
  datatype Modes = Modes(emergency: bool, blinkAll: bool, power: bool)

  const DefaultModes: Modes := Modes(false, false, true)

  /** The state machine does nothing while any override is active. */
  predicate Frozen(m: Modes) {
    m.emergency || m.blinkAll || !m.power
  }

  /** The globals `currentState`, `lastStateChange` and `blinkCounter`. */
  datatype Machine = Machine(phase: Phase, lastChange: Millis, blinkCounter: int)

  /** The machine as the globals' initialisers and `setup()` leave it. */
  function Initial(start: Millis): (s: Machine)
    ensures s.phase == RedOn && s.lastChange == start && s.blinkCounter == 0 && MachineInv(s)
  {
    Machine(RedOn, start, 0)
  }

  /** What the counter can be in each phase: it is reset on entering `GreenBlink`, stays below
      the target while blinking, and equals the target once the blink phase has been left. */
  predicate MachineInv(s: Machine) {
    && 0 <= s.blinkCounter <= BlinkTarget
    && (s.phase == GreenBlink ==> s.blinkCounter < BlinkTarget)
    && (s.phase == Yellow2On ==> s.blinkCounter == BlinkTarget)
  }

  /** One call of `updateTrafficLight` at time `now` under the mode flags `m`. */
  function Tick(s: Machine, m: Modes, now: Millis): (r: Machine)
    // gated by the override flags
    ensures Frozen(m) ==> r == s
    // acts exactly when the phase's interval has elapsed (inclusive boundary)
    ensures !Frozen(m) ==> (r != s <==> Elapsed(now, s.lastChange) >= Interval(s.phase))
    ensures r != s ==> r.lastChange == now
    // at most one step along the cycle, and a full step from every steady phase
    ensures r.phase == s.phase || r.phase == Next(s.phase)
    ensures r != s && s.phase != GreenBlink ==> r.phase == Next(s.phase)
    // the blink counter: reset only on entering GreenBlink, +1 per blink interval, else kept
    ensures r.blinkCounter ==
              if s.phase == GreenOn && r.phase == GreenBlink then 0
              else if s.phase == GreenBlink && r != s then s.blinkCounter + 1
              else s.blinkCounter
    // GreenBlink is left exactly when the counter reaches the target
    ensures s.phase == GreenBlink && r != s ==> (r.phase == Yellow2On <==> s.blinkCounter + 1 >= BlinkTarget)
    ensures MachineInv(s) ==> MachineInv(r)
  {
    if Frozen(m) then s
    else
      var elapsed := Elapsed(now, s.lastChange);
      match s.phase
      case RedOn =>
        if elapsed >= TimeRed then s.(lastChange := now, phase := Yellow1On) else s
      case Yellow1On =>
        if elapsed >= TimeYellow then s.(lastChange := now, phase := GreenOn) else s
      case GreenOn =>
        if elapsed >= TimeGreen then Machine(GreenBlink, now, 0) else s
      case GreenBlink =>
        if elapsed >= TimeBlink then
          var counter := s.blinkCounter + 1;
          Machine(if counter >= BlinkTarget then Yellow2On else GreenBlink, now, counter)
        else s
      case Yellow2On =>
        if elapsed >= TimeYellow then s.(lastChange := now, phase := RedOn) else s
  }
}
