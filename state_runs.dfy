/** Sequences of scheduler ticks: what repeated calls of `updateTrafficLight` do while the
    mode flags stay as they are. */
module StateRuns {
  import opened Clock
  import opened TrafficState

  /** The machine after one tick at each of `times`, in order, under fixed flags `m`. */
  function Run(s: Machine, m: Modes, times: seq<Millis>): (r: Machine)
    ensures Frozen(m) ==> r == s
    ensures MachineInv(s) ==> MachineInv(r)
    decreases |times|
  {
    if times == [] then s else Run(Tick(s, m, times[0]), m, times[1..])
  }

  /** Running two batches of ticks is running their concatenation. */
  lemma {:induction false} RunAppend(s: Machine, m: Modes, xs: seq<Millis>, ys: seq<Millis>)
    ensures Run(s, m, xs + ys) == Run(Run(s, m, xs), m, ys)
    decreases |xs|
  {
    if xs == [] {
      assert xs + ys == ys;
    } else {
      assert (xs + ys)[1..] == xs[1..] + ys;
      RunAppend(Tick(s, m, xs[0]), m, xs[1..], ys);
    }
  }

  /** `p` advanced `k` steps along the cycle. */
  function NextN(p: Phase, k: nat): Phase
    decreases k
  {
    if k == 0 then p else NextN(Next(p), k - 1)
  }

  /** The cycle has length five. */
  lemma CycleLengthFive(p: Phase)
    ensures NextN(p, 5) == p
    ensures forall k :: 0 < k < 5 ==> NextN(p, k) != p
  {
  }

  /** How many of the ticks in `times` change the phase. */
  function PhaseChanges(s: Machine, m: Modes, times: seq<Millis>): nat
    decreases |times|
  {
    if times == [] then 0
    else
      var s' := Tick(s, m, times[0]);
      (if s'.phase != s.phase then 1 else 0) + PhaseChanges(s', m, times[1..])
  }

  /** Over any run, the phase moves forward along the cycle and never skips a phase: each
      tick that changes the phase moves it exactly one step, so after the run the phase is
      the start phase advanced by the number of phase-changing ticks. */
  lemma {:induction false} RunFollowsCycle(s: Machine, m: Modes, times: seq<Millis>)
    ensures PhaseChanges(s, m, times) <= |times|
    ensures Run(s, m, times).phase == NextN(s.phase, PhaseChanges(s, m, times))
    decreases |times|
  {
    if times != [] {
      RunFollowsCycle(Tick(s, m, times[0]), m, times[1..]);
    }
  }

  /** Tick by tick: the phase after each prefix of a run is the phase after the previous
      prefix or its successor. */
  lemma {:induction false} RunStepsOneAtATime(s: Machine, m: Modes, times: seq<Millis>, i: nat)
    requires i < |times|
    ensures var p := Run(s, m, times[..i]).phase;
            Run(s, m, times[..i + 1]).phase == p || Run(s, m, times[..i + 1]).phase == Next(p)
  {
    RunAppend(s, m, times[..i], [times[i]]);
    assert times[..i] + [times[i]] == times[..i + 1];
    assert [times[i]][1..] == [];
  }

  /** In `GreenBlink`, each tick that comes a full blink interval after the previous one adds
      exactly one to the counter and restarts the interval; the phase is left for
      `Yellow2On` on the tick that brings the counter to the target, and not before. */
  lemma {:induction false} BlinkSteps(s: Machine, m: Modes, times: seq<Millis>)
    requires !Frozen(m)
    requires s.phase == GreenBlink && 0 <= s.blinkCounter < BlinkTarget
    requires s.blinkCounter + |times| <= BlinkTarget
    requires Paced(s.lastChange, times, TimeBlink)
    ensures Run(s, m, times).blinkCounter == s.blinkCounter + |times|
    ensures Run(s, m, times).phase == if s.blinkCounter + |times| == BlinkTarget then Yellow2On else GreenBlink
    ensures times != [] ==> Run(s, m, times).lastChange == times[|times| - 1]
    decreases |times|
  {
    if times != [] {
      var s' := Tick(s, m, times[0]);
      if |times| == 1 {
        assert Run(s, m, times) == Run(s', m, []) == s';
      } else {
        BlinkSteps(s', m, times[1..]);
        assert times[1..][|times[1..]| - 1] == times[|times| - 1];
      }
    }
  }

  /** From the moment `GreenBlink` is entered (counter 0), paced ticks reach `Yellow2On`
      exactly on the seventh. */
  lemma {:induction false} GreenBlinkTakesSevenSteps(s: Machine, m: Modes, times: seq<Millis>)
    requires !Frozen(m)
    requires s.phase == GreenBlink && s.blinkCounter == 0
    requires |times| <= BlinkTarget && Paced(s.lastChange, times, TimeBlink)
    ensures Run(s, m, times).phase == Yellow2On <==> |times| == 7
    ensures Run(s, m, times).phase != Yellow2On ==> Run(s, m, times).phase == GreenBlink
  {
    BlinkSteps(s, m, times);
  }
}
