/** The arithmetic of the front-panel buttons (src/main.c): stepping the time
    by five minutes and clamping the global brightness. */
module TimeStep {
  import opened Bytes

  /** HOURS (0 stands for twelve) and MINUTES, both unsigned chars. */
  datatype Time = Time(hours: UInt8, minutes: UInt8)

  /** A time on the five-minute grid of a twelve-hour dial. */
  predicate OnGrid(t: Time) {
    t.hours < 12 && t.minutes < 60 && t.minutes % 5 == 0
  }

  /** The five-minute slot of the twelve-hour dial a time falls in, 0..143. */
  function Slot(t: Time): (s: nat)
    requires t.hours < 12 && t.minutes < 60
    ensures s < 144
  {
    t.hours * 12 + t.minutes / 5
  }

  /** MINUTES rounded down to a multiple of five, as both buttons do first. */
  function RoundDown(m: UInt8): (r: UInt8)
    ensures r % 5 == 0 && r <= m && m < r + 5
  {
    m - m % 5
  }

  /** timeIncrease: round down, add five (in an unsigned char), and roll
      over to minute 0 of the next hour past minute 55. */
  function TimeIncrease(t: Time): (r: Time)
    ensures t.hours < 12 ==> r.hours < 12
    ensures t.minutes < 255 ==> r.minutes % 5 == 0 && r.minutes <= 55
    ensures t.minutes == 255 ==> r == Time(t.hours, 4)
  {
    var next := (RoundDown(t.minutes) + 5) % 256;
    assert t.minutes < 255 ==> next == RoundDown(t.minutes) + 5 && next % 5 == 0 by {
      if t.minutes < 255 {
        RoundDownQuotient(t.minutes);
      }
    }
    if next > 55 then Time((t.hours + 1) % 12, 0) else Time(t.hours, next)
  }

  /** timeDecrease: round down, then step back five minutes, or to minute 55
      of the previous hour from minute 0. */
  function TimeDecrease(t: Time): (r: Time)
    ensures t.hours < 12 ==> r.hours < 12
    ensures r.minutes % 5 == 0 && r.minutes <= 250
    ensures t.minutes < 60 ==> r.minutes <= 55
  {
    var rounded := RoundDown(t.minutes);
    if rounded != 0 then Time(t.hours, rounded - 5)
    else Time(if t.hours == 0 then 11 else t.hours - 1, 55)
  }

  /** RoundDown in terms of the quotient by five. */
  lemma RoundDownQuotient(m: UInt8)
    ensures RoundDown(m) == 5 * (m / 5)
    ensures RoundDown(m) / 5 == m / 5
    ensures RoundDown(m) >= 5 ==> (RoundDown(m) - 5) / 5 == m / 5 - 1
    ensures (RoundDown(m) + 5) / 5 == m / 5 + 1
  {
  }

  /** The hour after h on a twelve-hour dial. */
  lemma NextHour(h: nat)
    requires h < 12
    ensures (h + 1) % 12 == if h == 11 then 0 else h + 1
  {
  }

  /** The two outcomes of "up" for every minute whose step of five does not
      wrap the unsigned char (all but 255). */
  lemma IncreaseCases(t: Time)
    requires t.minutes < 255
    ensures RoundDown(t.minutes) < 55 ==> TimeIncrease(t) == Time(t.hours, RoundDown(t.minutes) + 5)
    ensures RoundDown(t.minutes) >= 55 ==> TimeIncrease(t) == Time((t.hours + 1) % 12, 0)
  {
    RoundDownQuotient(t.minutes);
    assert (RoundDown(t.minutes) + 5) % 256 == RoundDown(t.minutes) + 5;
  }

  /** The two outcomes of "down". */
  lemma DecreaseCases(t: Time)
    ensures RoundDown(t.minutes) != 0 ==> TimeDecrease(t) == Time(t.hours, RoundDown(t.minutes) - 5)
    ensures RoundDown(t.minutes) == 0 ==>
      TimeDecrease(t) == Time(if t.hours == 0 then 11 else t.hours - 1, 55)
  {
  }

  /** Below minute 55, "up" moves one slot within the hour. */
  lemma AdvanceWithinHour(t: Time)
    requires t.hours < 12 && t.minutes < 55
    ensures Slot(TimeIncrease(t)) == Slot(t) + 1 < 144
  {
    var q := t.minutes / 5;
    RoundDownQuotient(t.minutes);
    IncreaseCases(t);
    assert TimeIncrease(t) == Time(t.hours, 5 * q + 5);
  }

  /** From minute 55, "up" moves to the top of the next hour. */
  lemma AdvanceAcrossHour(t: Time)
    requires t.hours < 12 && 55 <= t.minutes < 60
    ensures TimeIncrease(t) == Time((t.hours + 1) % 12, 0)
    ensures Slot(t) == t.hours * 12 + 11
  {
    RoundDownQuotient(t.minutes);
    IncreaseCases(t);
  }

  /** "Up" moves to the next five-minute slot of the dial, wrapping at 12:00. */
  lemma IncreaseAdvancesSlot(t: Time)
    requires t.hours < 12 && t.minutes < 60
    ensures Slot(TimeIncrease(t)) == if Slot(t) == 143 then 0 else Slot(t) + 1
  {
    if t.minutes < 55 {
      AdvanceWithinHour(t);
    } else {
      AdvanceAcrossHour(t);
      NextHour(t.hours);
      if t.hours == 11 {
        assert TimeIncrease(t) == Time(0, 0);
      } else {
        assert TimeIncrease(t) == Time(t.hours + 1, 0);
      }
    }
  }

  /** "Down" moves to the previous five-minute slot of the dial, wrapping at 12:00. */
  lemma DecreaseRetreatsSlot(t: Time)
    requires t.hours < 12 && t.minutes < 60
    ensures Slot(TimeDecrease(t)) == if Slot(t) == 0 then 143 else Slot(t) - 1
  {
    var h, q := t.hours, t.minutes / 5;
    RoundDownQuotient(t.minutes);
    DecreaseCases(t);
    assert Slot(t) == h * 12 + q;
    if q > 0 {
      var d := Time(h, RoundDown(t.minutes) - 5);
      assert Slot(d) == h * 12 + q - 1;
    } else {
      var d := Time(if h == 0 then 11 else h - 1, 55);
      if h == 0 {
        assert Slot(d) == 143;
      } else {
        assert Slot(d) == h * 12 - 1;
      }
    }
  }

  /** From the o'clock bucket, "up" sets five past the same hour. */
  lemma IncreaseFromOclock(t: Time)
    requires t.minutes < 5
    ensures TimeIncrease(t) == Time(t.hours, 5)
  {
    assert RoundDown(t.minutes) == 0;
  }

  /** 11:58 steps up to 0:00. */
  lemma ElevenFiftyEight()
    ensures TimeIncrease(Time(11, 58)) == Time(0, 0)
  {
  }

  /** A slot determines a time on the grid. */
  lemma SlotInjective(a: Time, b: Time)
    requires OnGrid(a) && OnGrid(b) && Slot(a) == Slot(b)
    ensures a == b
  {
    assert a.minutes == a.minutes / 5 * 5;
    assert b.minutes == b.minutes / 5 * 5;
  }

  /** Both buttons keep a time on the grid. */
  lemma StepsStayOnGrid(t: Time)
    requires t.hours < 12 && t.minutes < 60
    ensures OnGrid(TimeIncrease(t)) && OnGrid(TimeDecrease(t))
  {
  }

  /** On the grid, rounding down changes nothing. */
  lemma RoundDownOnGrid(m: UInt8)
    requires m % 5 == 0
    ensures RoundDown(m) == m
  {
  }

  /** The grid is closed under a step of five either way, and 55 is its top. */
  lemma GridShift(m: UInt8)
    requires m % 5 == 0 && m < 60
    ensures m < 55 ==> (m + 5) % 5 == 0
    ensures m >= 5 ==> (m - 5) % 5 == 0
    ensures m >= 55 ==> m == 55
  {
  }

  /** "Up" on the grid: five minutes on, or the top of the next hour. */
  lemma IncreaseOnGrid(t: Time)
    requires OnGrid(t)
    ensures t.minutes < 55 ==> TimeIncrease(t) == Time(t.hours, t.minutes + 5)
    ensures t.minutes == 55 ==> TimeIncrease(t) == Time((t.hours + 1) % 12, 0)
  {
    RoundDownOnGrid(t.minutes);
  }

  /** "Down" on the grid: five minutes back, or minute 55 of the previous hour. */
  lemma DecreaseOnGrid(t: Time)
    requires OnGrid(t)
    ensures t.minutes != 0 ==> TimeDecrease(t) == Time(t.hours, t.minutes - 5)
    ensures t.minutes == 0 ==> TimeDecrease(t) == Time(if t.hours == 0 then 11 else t.hours - 1, 55)
  {
    RoundDownOnGrid(t.minutes);
  }

  lemma DecreaseUndoesIncrease(t: Time)
    requires OnGrid(t)
    ensures TimeDecrease(TimeIncrease(t)) == t
  {
    var m, h := t.minutes, t.hours;
    GridShift(m);
    IncreaseOnGrid(t);
    if m < 55 {
      var u := Time(h, m + 5);
      DecreaseOnGrid(u);
    } else {
      NextHour(h);
      var u := Time((h + 1) % 12, 0);
      DecreaseOnGrid(u);
    }
  }

  lemma IncreaseUndoesDecrease(t: Time)
    requires OnGrid(t)
    ensures TimeIncrease(TimeDecrease(t)) == t
  {
    var m, h := t.minutes, t.hours;
    GridShift(m);
    DecreaseOnGrid(t);
    var d := TimeDecrease(t);
    if m != 0 {
      assert d == Time(h, m - 5) && OnGrid(d);
      IncreaseOnGrid(d);
    } else {
      assert d == Time(if h == 0 then 11 else h - 1, 55) && OnGrid(d);
      IncreaseOnGrid(d);
      NextHour(d.hours);
    }
  }

  /** On the grid the two buttons undo each other. */
  lemma IncreaseDecreaseInverse(t: Time)
    requires OnGrid(t)
    ensures TimeDecrease(TimeIncrease(t)) == t
    ensures TimeIncrease(TimeDecrease(t)) == t
  {
    DecreaseUndoesIncrease(t);
    IncreaseUndoesDecrease(t);
  }

  // ---------------------------------------------------------------------------
  // Brightness buttons

  /** UNIVERSAL_BRIGHTNESS at power-on. */
  const BootBrightness: UInt8 := 120
  const MaxBrightness: UInt8 := 127
  const MinBrightness: UInt8 := 2

  predicate BrightnessInRange(u: UInt8) {
    MinBrightness <= u <= MaxBrightness
  }

  /** The "up" button: one step brighter, saturating at 127. */
  function BrightnessUp(u: UInt8): (r: UInt8)
    ensures u <= r <= u + 1
    ensures r == u <==> u >= MaxBrightness
    ensures BrightnessInRange(u) ==> BrightnessInRange(r)
  {
    if u < MaxBrightness then u + 1 else u
  }

  /** The "down" button: one step dimmer, saturating at 2. */
  function BrightnessDown(u: UInt8): (r: UInt8)
    ensures u - 1 <= r <= u
    ensures r == u <==> u <= MinBrightness
    ensures BrightnessInRange(u) ==> BrightnessInRange(r)
  {
    if u > MinBrightness then u - 1 else u
  }

  /** One pass of the main loop over the brightness buttons: "up" is looked
      at first, then "down". */
  function BrightnessButtons(u: UInt8, up: bool, down: bool): (r: UInt8)
    ensures BrightnessInRange(u) ==> BrightnessInRange(r)
    ensures up && down && BrightnessInRange(u) && u < MaxBrightness ==> r == u
  {
    var v := if up then BrightnessUp(u) else u;
    if down then BrightnessDown(v) else v
  }

  /** Away from the limits, up and down undo each other. */
  lemma UpDownInverse(u: UInt8)
    ensures MinBrightness <= u < MaxBrightness ==> BrightnessDown(BrightnessUp(u)) == u
    ensures MinBrightness < u <= MaxBrightness ==> BrightnessUp(BrightnessDown(u)) == u
  {
  }

  /** The brightness after a series of presses, true meaning "up". */
  function AfterPresses(u: UInt8, presses: seq<bool>): UInt8
    decreases |presses|
  {
    if |presses| == 0 then u
    else AfterPresses(if presses[0] then BrightnessUp(u) else BrightnessDown(u), presses[1..])
  }

  /** Starting from 120, no series of presses leaves [2, 127], so the gamma
      index the buttons load into CCP1 is always below 128. */
  lemma {:induction false} PressesStayInRange(u: UInt8, presses: seq<bool>)
    requires BrightnessInRange(u)
    ensures BrightnessInRange(AfterPresses(u, presses))
    ensures AfterPresses(u, presses) < 128
    decreases |presses|
  {
    if |presses| > 0 {
      PressesStayInRange(if presses[0] then BrightnessUp(u) else BrightnessDown(u), presses[1..]);
    }
  }

  lemma BootBrightnessInRange(presses: seq<bool>)
    ensures BrightnessInRange(AfterPresses(BootBrightness, presses))
  {
    PressesStayInRange(BootBrightness, presses);
  }
}
