/** Concrete runs of the controller that pin down its timing. */
module Scenarios {
  import opened Clock
  import opened TrafficState
  import opened StateRuns
  import opened Potentiometer
  import opened Render

  /** The red boundary is inclusive: from red at t = 0, a tick at 1999 keeps red and a tick
      at 2000 turns yellow. */
  lemma RedBoundary()
    ensures Tick(Initial(0), DefaultModes, 1999) == Initial(0)
    ensures Tick(Initial(0), DefaultModes, 2000) == Machine(Yellow1On, 2000, 0)
  {
  }

  /** Elapsed time is measured across the wrap of the millisecond clock. */
  lemma RedBoundaryAcrossWrap()
    ensures Tick(Initial(ULongModulus - 1000), DefaultModes, 999).phase == RedOn
    ensures Tick(Initial(ULongModulus - 1000), DefaultModes, 1000).phase == Yellow1On
  {
  }

  /** Time spent frozen counts towards the next transition: red since t = 0, powered off from
      t = 1000 to t = 5000, the first tick after power returns (t = 5000) already turns yellow. */
  lemma FrozenTimeCounts()
    ensures Run(Initial(0), Modes(false, false, false), [1000, 3000, 4990]) == Initial(0)
    ensures Tick(Initial(0), DefaultModes, 5000).phase == Yellow1On
  {
  }

  /** One full cycle from red at t = 0 with ticks exactly on each boundary: red 2000, yellow 500,
      green 2000, seven blink intervals of 142, yellow 500, back to red at t = 5994. */
  lemma FullCycle()
    ensures Run(Initial(0), DefaultModes, [2000, 2500, 4500] + BlinkTimes() + [5994])
            == Machine(RedOn, 5994, BlinkTarget)
  {
    var m := DefaultModes;
    var s3 := Machine(GreenBlink, 4500, 0);
    assert Run(Initial(0), m, [2000, 2500, 4500]) == s3 by {
      assert Tick(Initial(0), m, 2000) == Machine(Yellow1On, 2000, 0);
      assert Tick(Machine(Yellow1On, 2000, 0), m, 2500) == Machine(GreenOn, 2500, 0);
      assert Tick(Machine(GreenOn, 2500, 0), m, 4500) == s3;
      assert [2000, 2500, 4500][1..] == [2500, 4500];
      assert [2500, 4500][1..] == [4500];
      assert [4500][1..] == [];
    }
    BlinkTimesPaced();
    BlinkSteps(s3, m, BlinkTimes());
    var s10 := Machine(Yellow2On, 5494, BlinkTarget);
    assert Run(s3, m, BlinkTimes()) == s10;
    assert Run(s10, m, [5994]) == Machine(RedOn, 5994, BlinkTarget) by {
      assert [5994][1..] == [];
    }
    RunAppend(Initial(0), m, [2000, 2500, 4500], BlinkTimes());
    RunAppend(Initial(0), m, [2000, 2500, 4500] + BlinkTimes(), [5994]);
  }

  /** The seven blink ticks of the full cycle, one interval apart from the end of green at 4500. */
  function BlinkTimes(): (ts: seq<Millis>)
    ensures |ts| == BlinkTarget && ts[|ts| - 1] == 5494
  {
    [4642, 4784, 4926, 5068, 5210, 5352, 5494]
  }

  lemma BlinkTimesPaced()
    ensures Paced(4500, BlinkTimes(), TimeBlink)
  {
    var ts := BlinkTimes();
    assert Paced(5494, ts[7..], TimeBlink);
    assert Paced(5352, ts[6..], TimeBlink);
    assert Paced(5210, ts[5..], TimeBlink);
    assert Paced(5068, ts[4..], TimeBlink);
    assert Paced(4926, ts[3..], TimeBlink);
    assert Paced(4784, ts[2..], TimeBlink);
    assert Paced(4642, ts[1..], TimeBlink);
  }

  /** Mid-scale potentiometer gives brightness 127, and green shows at that level. */
  lemma MidScaleGreen()
    ensures PhaseLevels(GreenOn, 0, Brightness(512)) == Levels(0, 0, 127)
  {
    BrightnessLandmarks();
  }
}
