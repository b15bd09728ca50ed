/** The controller's globals and the procedures that update them in place: the scheduler's
    `updateTrafficLight`, the three button interrupt handlers, `loop()`'s brightness sample
    and `renderLEDs`. */
module Controller {
  import opened Clock
  import opened TrafficState
  import opened Potentiometer
  import opened Render

  class TrafficController {
    var currentState: Phase
    var lastStateChange: Millis
    var blinkCounter: int
    var emergencyMode: bool
    var blinkMode: bool
    var powerMode: bool
    var ledBrightness: int
    /** The `static prevTime` local of `renderLEDs`. */
    var prevTime: Option<Millis>

    ghost function State(): Machine
      reads this
    {
      Machine(currentState, lastStateChange, blinkCounter)
    }

    ghost function Flags(): Modes
      reads this
    {
      Modes(emergencyMode, blinkMode, powerMode)
    }

    /** The counter fits its phase, the emergency and blink-all overrides are never both on,
        and the brightness is a valid PWM level. */
    ghost predicate Valid()
      reads this
    {
      && MachineInv(State())
      && !(emergencyMode && blinkMode)
      && 0 <= ledBrightness <= 255
    }

    /** The globals' initial values, with `lastStateChange` set from the clock at start-up. */
    constructor (start: Millis)
      ensures Valid()
      ensures State() == Initial(start)
      ensures Flags() == DefaultModes
      ensures ledBrightness == 255 && prevTime == None
    {
      currentState := RedOn;
      lastStateChange := start;
      blinkCounter := 0;
      emergencyMode, blinkMode, powerMode := false, false, true;
      ledBrightness := 255;
      prevTime := None;
    }

    /** `updateTrafficLight` at time `now`. Returns what it writes to the lights itself: on a
        blink step, green on for an even and off for an odd new counter. */
    method Update(now: Millis) returns (writes: seq<Levels>)
      requires Valid()
      modifies this`currentState, this`lastStateChange, this`blinkCounter
      ensures Valid()
      ensures State() == Tick(old(State()), Flags(), now)
      ensures writes == if old(currentState) == GreenBlink && State() != old(State())
                        then [PhaseLevels(GreenBlink, blinkCounter, ledBrightness)]
                        else []
    {
      writes := [];
      if emergencyMode || blinkMode || !powerMode {
        return;
      }
      var elapsed := Elapsed(now, lastStateChange);
      match currentState
      case RedOn =>
        if elapsed >= TimeRed {
          lastStateChange := now;
          currentState := Yellow1On;
        }
      case Yellow1On =>
        if elapsed >= TimeYellow {
          lastStateChange := now;
          currentState := GreenOn;
        }
      case GreenOn =>
        if elapsed >= TimeGreen {
          lastStateChange := now;
          currentState := GreenBlink;
          blinkCounter := 0;
        }
      case GreenBlink =>
        if elapsed >= TimeBlink {
          lastStateChange := now;
          blinkCounter := blinkCounter + 1;
          if blinkCounter % 2 == 0 {
            writes := [Levels(0, 0, ledBrightness)];
          } else {
            writes := [Levels(0, 0, 0)];
          }
          if blinkCounter >= BlinkTarget {
            currentState := Yellow2On;
            lastStateChange := now;
          }
        }
      case Yellow2On =>
        if elapsed >= TimeYellow {
          lastStateChange := now;
          currentState := RedOn;
        }
    }

    /** `handleButton1`: toggles emergency mode, leaves blink-all mode and powers on. */
    method Button1()
      requires Valid()
      modifies this`emergencyMode, this`blinkMode, this`powerMode
      ensures Valid()
      ensures emergencyMode == !old(emergencyMode) && !blinkMode && powerMode
    {
      emergencyMode := !emergencyMode;
      blinkMode := false;
      powerMode := true;
    }

    /** `handleButton2`: toggles blink-all mode, leaves emergency mode and powers on. */
    method Button2()
      requires Valid()
      modifies this`emergencyMode, this`blinkMode, this`powerMode
      ensures Valid()
      ensures blinkMode == !old(blinkMode) && !emergencyMode && powerMode
    {
      blinkMode := !blinkMode;
      emergencyMode := false;
      powerMode := true;
    }

    /** `handleButton3`: toggles power and leaves both other overrides. */
    method Button3()
      requires Valid()
      modifies this`emergencyMode, this`blinkMode, this`powerMode
      ensures Valid()
      ensures powerMode == !old(powerMode) && !emergencyMode && !blinkMode
    {
      powerMode := !powerMode;
      emergencyMode := false;
      blinkMode := false;
    }

    /** `loop()`'s `ledBrightness = map(analogRead(POTENTIOMETER), 0, 1023, 0, 255)`, with the
        reading passed in. */
    method SampleBrightness(raw: AdcSample)
      requires Valid()
      modifies this`ledBrightness
      ensures Valid()
      ensures ledBrightness == Brightness(raw)
    {
      ledBrightness := Brightness(raw);
    }

    /** `renderLEDs` at time `now`: returns the `setLED` writes it makes, in order. */
    method Render(now: Millis) returns (writes: seq<Levels>)
      requires Valid()
      modifies this`prevTime
      ensures Valid()
      ensures Frame(writes, prevTime) ==
                RenderFrame(Flags(), currentState, blinkCounter, ledBrightness, old(prevTime), now)
    {
      if emergencyMode {
        writes := [Levels(ledBrightness, 0, 0)];
      } else if blinkMode {
        if prevTime.None? {
          prevTime := Some(now);
        }
        writes := [];
        if Elapsed(now, prevTime.value) >= BlinkAllPeriod {
          prevTime := Some(now);
          writes := [Levels(ledBrightness, ledBrightness, ledBrightness), Levels(0, 0, 0)];
        }
      } else {
        match currentState
        case RedOn =>
          writes := [Levels(ledBrightness, 0, 0)];
        case Yellow1On =>
          writes := [Levels(0, ledBrightness, 0)];
        case Yellow2On =>
          writes := [Levels(0, ledBrightness, 0)];
        case GreenOn =>
          writes := [Levels(0, 0, ledBrightness)];
        case GreenBlink =>
          writes := [Levels(0, 0, if blinkCounter % 2 == 0 then ledBrightness else 0)];
      }
    }
  }
}
