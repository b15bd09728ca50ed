/** `renderLEDs`: from the mode flags, the phase, the blink counter and the brightness to the
    levels written to the red, yellow and green outputs. */
module Render {
  import opened Clock
  import opened TrafficState

  /** One `setLED(red, yellow, green)` call. */
  datatype Levels = Levels(red: int, yellow: int, green: int)

  datatype Option<T> = None | Some(value: T)

  /** Cadence of the all-lights flash in blink-all mode, in milliseconds. */
  const BlinkAllPeriod: nat := 500

  /** At most one of the three lights is on. */
  predicate AtMostOneLit(l: Levels) {
    && (l.red != 0 ==> l.yellow == 0 && l.green == 0)
    && (l.yellow != 0 ==> l.green == 0)
  }

  /** Each light is either off or at the brightness `b`. */
  predicate OffOrAt(l: Levels, b: int) {
    && (l.red == 0 || l.red == b)
    && (l.yellow == 0 || l.yellow == b)
    && (l.green == 0 || l.green == b)
  }

  /** The normal-mode `switch`: the light of the current phase at brightness `b`; in
      `GreenBlink`, green on for an even counter and off for an odd one. */
  function PhaseLevels(p: Phase, blinkCounter: int, b: int): (l: Levels)
    ensures AtMostOneLit(l) && OffOrAt(l, b)
    ensures b != 0 ==> (l.red != 0 <==> p == RedOn)
    ensures b != 0 ==> (l.yellow != 0 <==> p == Yellow1On || p == Yellow2On)
    ensures b != 0 ==> (l.green != 0 <==> p == GreenOn || (p == GreenBlink && blinkCounter % 2 == 0))
  {
    match p
    case RedOn => Levels(b, 0, 0)
    case Yellow1On => Levels(0, b, 0)
    case Yellow2On => Levels(0, b, 0)
    case GreenOn => Levels(0, 0, b)
    case GreenBlink => Levels(0, 0, if blinkCounter % 2 == 0 then b else 0)
  }

  /** What one call of `renderLEDs` writes, in order, and the value its `static prevTime`
      holds afterwards (`None` until the blink-all branch first runs). */
  datatype Frame = Frame(writes: seq<Levels>, prevTime: Option<Millis>)

  /** The blink-all branch's timer: whether this pass flashes, and the new `prevTime`. The
      static is initialised from the clock the first time the branch runs, so that pass never
      flashes; afterwards it flashes when a full period has passed since the last flash. */
  function BlinkAllTimer(prev: Option<Millis>, now: Millis): (r: (bool, Millis))
    ensures r.0 <==> prev.Some? && Elapsed(now, prev.value) >= BlinkAllPeriod
    ensures r.1 == if r.0 || prev.None? then now else prev.value
  {
    var since := if prev.None? then now else prev.value;
    if Elapsed(now, since) >= BlinkAllPeriod then (true, now) else (false, since)
  }

  /** One call of `renderLEDs` at time `now`. */
  function RenderFrame(m: Modes, p: Phase, blinkCounter: int, b: int, prev: Option<Millis>, now: Millis): (f: Frame)
    // emergency wins over everything, whatever the phase
    ensures m.emergency ==> f == Frame([Levels(b, 0, 0)], prev)
    // normal mode: one write that shows the phase
    ensures !m.emergency && !m.blinkAll ==> f == Frame([PhaseLevels(p, blinkCounter, b)], prev)
    // blink-all: all on then all off when the timer fires, otherwise no write at all
    ensures !m.emergency && m.blinkAll ==>
              f.prevTime == Some(BlinkAllTimer(prev, now).1) &&
              f.writes == if BlinkAllTimer(prev, now).0 then [Levels(b, b, b), Levels(0, 0, 0)] else []
    ensures forall i :: 0 <= i < |f.writes| ==> OffOrAt(f.writes[i], b)
  {
    if m.emergency then
      Frame([Levels(b, 0, 0)], prev)
    else if m.blinkAll then
      var (flash, since) := BlinkAllTimer(prev, now);
      if flash then
        Frame([Levels(b, b, b), Levels(0, 0, 0)], Some(since))
      else
        Frame([], Some(since))
    else
      Frame([PhaseLevels(p, blinkCounter, b)], prev)
  }

  /** The times among `times` at which successive passes through the blink-all branch flash,
      starting with the static at `prev`. Flashes are at least a period apart, and the first
      is at least a period after the flash recorded in `prev`. */
  function FlashTimes(prev: Option<Millis>, times: seq<Millis>): (r: seq<Millis>)
    ensures |r| <= |times|
    ensures prev.None? && times != [] ==> |r| < |times|
    ensures prev.Some? && r != [] ==> Elapsed(r[0], prev.value) >= BlinkAllPeriod
    ensures forall i :: 0 < i < |r| ==> Elapsed(r[i], r[i - 1]) >= BlinkAllPeriod
    decreases |times|
  {
    if times == [] then []
    else
      var (flash, since) := BlinkAllTimer(prev, times[0]);
      (if flash then [times[0]] else []) + FlashTimes(Some(since), times[1..])
  }

  /** The times among `times` at which successive `renderLEDs` calls in blink-all mode write
      the all-on/all-off pair, each call handing its `prevTime` to the next. */
  function RenderFlashes(m: Modes, p: Phase, blinkCounter: int, b: int, prev: Option<Millis>, times: seq<Millis>): seq<Millis>
    decreases |times|
  {
    if times == [] then []
    else
      var f := RenderFrame(m, p, blinkCounter, b, prev, times[0]);
      (if f.writes != [] then [times[0]] else []) + RenderFlashes(m, p, blinkCounter, b, f.prevTime, times[1..])
  }

  /** Successive blink-all renders flash exactly at the times `FlashTimes` gives, so its
      spacing guarantees are guarantees about what `renderLEDs` writes. */
  lemma {:induction false} RenderFlashesAreFlashTimes(m: Modes, p: Phase, blinkCounter: int, b: int, prev: Option<Millis>, times: seq<Millis>)
    requires !m.emergency && m.blinkAll
    ensures RenderFlashes(m, p, blinkCounter, b, prev, times) == FlashTimes(prev, times)
    decreases |times|
  {
    if times != [] {
      var f := RenderFrame(m, p, blinkCounter, b, prev, times[0]);
      RenderFlashesAreFlashTimes(m, p, blinkCounter, b, f.prevTime, times[1..]);
    }
  }

  /** With a running timer, passes that each come a full period after the previous one
      (the first a period after `prev`) all flash: a due flash always happens. */
  lemma {:induction false} PacedPassesAllFlash(prev: Millis, times: seq<Millis>)
    requires Paced(prev, times, BlinkAllPeriod)
    ensures FlashTimes(Some(prev), times) == times
    decreases |times|
  {
    if times != [] {
      PacedPassesAllFlash(times[0], times[1..]);
    }
  }

  /** A fresh timer skips the first pass (it only starts the timer) and then flashes on
      every pass a full period after the previous one. */
  lemma FreshTimerSkipsFirstPass(times: seq<Millis>)
    requires times != [] && Paced(times[0], times[1..], BlinkAllPeriod)
    ensures FlashTimes(None, times) == times[1..]
  {
    PacedPassesAllFlash(times[0], times[1..]);
  }
}
