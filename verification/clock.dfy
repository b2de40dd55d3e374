/** The firmware as one state machine (src/main.c): power-on, the main
    loop's reactions (RTC poll, time buttons, brightness buttons) and the
    three interrupt sources, each an atomic step. */
module Clock {
  import opened Bytes
  import opened LedArray
  import opened Layout
  import opened Phrase
  import opened Fade
  import opened TimeStep
  import opened Rtc

  /** The globals of main.c that the display logic reads and writes. */
  datatype State = State(time: Time, universal: UInt8, engine: Engine)

  /** The inputs the firmware reacts to. The RTC poll carries the two
      register bytes the I2C read returned (registers 0x01 and 0x02). */
  datatype Event =
    | Timer1
    | Compare2
    | Compare1
    | RtcPoll(minutesReg: UInt8, hoursReg: UInt8)
    | TimeUp
    | TimeDown
    | Brightness(up: bool, down: bool)

  /** What a step hands to the outside: frames shifted out to the LEDs and
      bytes written to the RTC. */
  datatype Output = Output(frames: seq<Frame>, rtcWrite: seq<UInt8>)

  /** What the firmware keeps true between steps: the hour indexes
      HOUR_POSITIONS and both brightnesses index the 128-entry gamma tables. */
  predicate Valid(c: State) {
    && c.time.hours < 12
    && BrightnessInRange(c.universal)
    && c.engine.fading < GammaSize
  }

  /** The display state at reset: all outputs off, masks at rest. */
  const ResetEngine: Engine := Engine(Masks(Blank, AllOn, Blank), 0, StandardOp)

  /** Power-on: read the RTC, compose the phrase into INCOMING_LEDS and start
      a fade from the dark display at brightness 120. */
  function Boot(minutesReg: UInt8, hoursReg: UInt8): (c: State)
    ensures Valid(c)
    ensures c.engine.mode == FadingOut
    ensures Run(c.engine, c.universal, 2 * c.universal + 2).masks.outputs ==
      Compose(c.time.hours, c.time.minutes)
  {
    var r := ReadTime(minutesReg, hoursReg);
    var t := Time(r.hours, r.minutes);
    var c := State(t, BootBrightness, BeginFade(ResetEngine, Compose(t.hours, t.minutes), BootBrightness));
    FadeReachesTarget(ResetEngine, Compose(t.hours, t.minutes), BootBrightness);
    c
  }

  /** The RTC poll of the main loop, given what readDS1340 decoded: on a
      new minute, take the time (hours reduced modulo 12 once more), rebuild
      the masks and restart the fade at the global brightness. */
  function OnRtcPoll(c: State, rd: Reading): (r: State)
    requires Valid(c)
    ensures Valid(r)
    ensures rd.minutes == c.time.minutes ==> r == c
    ensures rd.minutes != c.time.minutes ==>
      && r.time == Time(rd.hours % 12, rd.minutes)
      && r.universal == c.universal
      && r.engine.mode == FadingOut && r.engine.fading == c.universal
      && r.engine.masks == Diff(c.engine.masks, Compose(r.time.hours, r.time.minutes))
  {
    if rd.minutes != c.time.minutes then
      var t := Time(rd.hours % 12, rd.minutes);
      c.(time := t, engine := BeginFade(c.engine, Compose(t.hours, t.minutes), c.universal))
    else c
  }

  /** The time after a release of the up or the down button. */
  function Pressed(t: Time, up: bool): (r: Time)
    requires t.hours < 12
    ensures r.hours < 12
    ensures t.minutes < 60 ==> OnGrid(r)
  {
    var r := if up then TimeIncrease(t) else TimeDecrease(t);
    assert t.minutes < 60 ==> OnGrid(r) by {
      if t.minutes < 60 {
        StepsStayOnGrid(t);
      }
    }
    r
  }

  /** The bytes writeDS1340 sends after a time button: the seconds are zero
      (never read, zeroed at power-on), the minutes and hours set. Read back,
      they give the set time. */
  function TimeWrite(t: Time): (w: seq<UInt8>)
    ensures |w| == 5 && w[0] == ADDR
    ensures t.hours < 12 && t.minutes < 60 ==>
      ReadTime(w[3], w[4]) == Reading(t.minutes, t.hours)
  {
    if t.hours < 12 && t.minutes < 60 then
      WriteThenRead(0, t.minutes, t.hours);
      WriteBytes(0, t.minutes, t.hours)
    else WriteBytes(0, t.minutes, t.hours)
  }

  /** A time button released, as the source handles it: step the time and
      quickSwitch the outputs (the RTC write is TimeWrite). The fade masks
      and OP_MODE are left as they are. */
  function TimeButtonAsWritten(c: State, up: bool): (r: State)
    requires Valid(c)
    ensures Valid(r)
    ensures r.time == Pressed(c.time, up) && r.universal == c.universal
    ensures r.engine.masks.outputs == Compose(r.time.hours, r.time.minutes)
    ensures r.engine.mode == c.engine.mode && r.engine.fading == c.engine.fading
    ensures r.engine.masks.marks == c.engine.masks.marks
    ensures r.engine.masks.incoming == c.engine.masks.incoming
  {
    var t := Pressed(c.time, up);
    var masks := c.engine.masks.(outputs := QuickSwitch(c.engine.masks.outputs, t.hours, t.minutes));
    c.(time := t, engine := c.engine.(masks := masks))
  }

  /** The corrected time button: as TimeButtonAsWritten, but the in-flight
      fade is cancelled (the masks return to rest and OP_MODE to
      STANDARD_OP), so no later tick replaces the quickSwitch frame. */
  function TimeButton(c: State, up: bool): (r: State)
    requires Valid(c)
    ensures Valid(r)
    ensures r.time == Pressed(c.time, up) && r.universal == c.universal
    ensures r.engine.mode == StandardOp && Standby(r.engine.masks)
    ensures r.engine.masks.outputs == Compose(r.time.hours, r.time.minutes)
    ensures forall k: nat ::
      Run(r.engine, r.universal, k).masks.outputs == Compose(r.time.hours, r.time.minutes)
  {
    var t := Pressed(c.time, up);
    var masks := Masks(QuickSwitch(c.engine.masks.outputs, t.hours, t.minutes), AllOn, Blank);
    var r := c.(time := t, engine := Engine(masks, c.engine.fading, StandardOp));
    assert forall k: nat :: Run(r.engine, r.universal, k).masks.outputs == masks.outputs by {
      forall k: nat {
        StandardIsQuiet(r.engine, r.universal, k);
      }
    }
    r
  }

  /** One step of the firmware as written. CCP2 raises its interrupt only
      while a fade is running (startFading enables it, doneFading disables
      it). A time button leaves any fade in flight running. */
  function Step(c: State, e: Event): (r: (State, Output))
    requires Valid(c)
    ensures Valid(r.0)
    ensures e.Timer1? ==> r.1.frames == [r.0.engine.masks.outputs]
    ensures e.Compare1? ==> |r.1.frames| == 1 && LitSet(r.1.frames[0]) == {}
    ensures e.Compare2? && c.engine.mode != StandardOp ==>
      r.1.frames == [And(c.engine.masks.outputs, c.engine.masks.marks)]
    ensures e.Compare2? && c.engine.mode == StandardOp ==> r.1.frames == []
    ensures !e.Timer1? ==> r.0.engine.fading == c.engine.fading || e.RtcPoll?
    ensures (e.TimeUp? || e.TimeDown?) ==> |r.1.rtcWrite| == 5
    ensures (e.TimeUp? || e.TimeDown?) && c.time.minutes < 60 ==>
      OnGrid(r.0.time) &&
      ReadTime(r.1.rtcWrite[3], r.1.rtcWrite[4]) == Reading(r.0.time.minutes, r.0.time.hours)
    ensures (e.TimeUp? || e.TimeDown?) ==>
      && r.0.engine.masks.outputs == Compose(r.0.time.hours, r.0.time.minutes)
      && r.0.engine.mode == c.engine.mode
      && r.0.engine.masks.marks == c.engine.masks.marks
      && r.0.engine.masks.incoming == c.engine.masks.incoming
  {
    match e
    case Timer1 =>
      var t := Tick(c.engine, c.universal);
      (c.(engine := t.engine), Output([t.frame], []))
    case Compare2 =>
      if c.engine.mode == StandardOp then (c, Output([], []))
      else (c, Output([FadeFrame(c.engine.masks)], []))
    case Compare1 =>
      (c, Output([OffFrame()], []))
    case RtcPoll(m, h) =>
      (OnRtcPoll(c, ReadTime(m, h)), Output([], []))
    case TimeUp =>
      var c' := TimeButtonAsWritten(c, true);
      (c', Output([], TimeWrite(c'.time)))
    case TimeDown =>
      var c' := TimeButtonAsWritten(c, false);
      (c', Output([], TimeWrite(c'.time)))
    case Brightness(up, down) =>
      (c.(universal := BrightnessButtons(c.universal, up, down)), Output([], []))
  }

  /** One step of the corrected firmware: the time buttons cancel the fade
      in flight; every other event is as in Step. */
  function StepCorrected(c: State, e: Event): (r: (State, Output))
    requires Valid(c)
    ensures Valid(r.0)
    ensures (e.TimeUp? || e.TimeDown?) ==>
      && r.0.time == Pressed(c.time, e.TimeUp?)
      && r.0.engine.mode == StandardOp && Standby(r.0.engine.masks)
      && r.0.engine.masks.outputs == Compose(r.0.time.hours, r.0.time.minutes)
      && |r.1.rtcWrite| == 5
    ensures !(e.TimeUp? || e.TimeDown?) ==> r == Step(c, e)
  {
    if e.TimeUp? || e.TimeDown? then
      var c' := TimeButton(c, e.TimeUp?);
      (c', Output([], TimeWrite(c'.time)))
    else Step(c, e)
  }

  /** The state after a series of events. */
  function Steps(c: State, events: seq<Event>): State
    requires Valid(c)
    decreases |events|
  {
    if |events| == 0 then c else Steps(Step(c, events[0]).0, events[1..])
  }

  /** No series of events breaks the invariant: hours stay in 0..11 and every
      gamma index stays below 128. */
  lemma {:induction false} StepsKeepValid(c: State, events: seq<Event>)
    requires Valid(c)
    ensures Valid(Steps(c, events))
    decreases |events|
  {
    if |events| > 0 {
      StepsKeepValid(Step(c, events[0]).0, events[1..]);
    }
  }

  /** After a corrected time button, no number of ticks changes the frame:
      the set time stays on display. */
  lemma TimeButtonShowsSetTime(c: State, up: bool, k: nat)
    requires Valid(c)
    ensures var r := TimeButton(c, up);
      Run(r.engine, r.universal, k).masks.outputs == Compose(r.time.hours, r.time.minutes)
  {
    var r := TimeButton(c, up);
    StandardIsQuiet(r.engine, r.universal, k);
  }

  /** A time button pressed while a fade is fading in leaves the set time on
      display once the fade completes: doneFading keeps the outputs. */
  lemma PressDuringFadeInAsWritten(c: State, up: bool)
    requires Valid(c) && c.engine.mode == FadingIn && c.engine.fading <= c.universal
    ensures var r := TimeButtonAsWritten(c, up);
      var done := Run(r.engine, r.universal, r.universal - r.engine.fading + 1);
      done.mode == StandardOp && Standby(done.masks)
      && done.masks.outputs == Compose(r.time.hours, r.time.minutes)
  {
    var r := TimeButtonAsWritten(c, up);
    FadeInFinish(r.engine, r.universal);
  }

  /** A new minute read from the RTC while the masks are at rest is shown
      exactly 2u + 2 ticks later. */
  lemma PollFromRestShowsTime(c: State, rd: Reading)
    requires Valid(c) && Standby(c.engine.masks) && rd.minutes != c.time.minutes
    ensures var r := OnRtcPoll(c, rd);
      var done := Run(r.engine, r.universal, 2 * r.universal + 2);
      done.mode == StandardOp && done.masks.outputs == Compose(r.time.hours, r.time.minutes)
  {
    var r := OnRtcPoll(c, rd);
    FadeReachesTarget(c.engine, Compose(r.time.hours, r.time.minutes), c.universal);
  }

  /** A clock part-way through the fade-out of a fade toward a time in the
      o'clock bucket, with "o'clock" in the group fading in. */
  predicate FadingTowardOclock(c: State) {
    && Valid(c)
    && c.time.minutes < 5
    && c.engine.mode == FadingOut && c.engine.fading <= c.universal
    && Lit(c.engine.masks.incoming, MINUTES_OCLOCK)
  }

  /** A fade toward an o'clock phrase from a display without "o'clock" puts
      "o'clock" in the incoming group. */
  lemma OclockComesIn(d: Masks, hours: nat, minutes: nat)
    requires hours < 12 && minutes < 5 && !Lit(d.outputs, MINUTES_OCLOCK)
    ensures Lit(Diff(d, Compose(hours, minutes)).incoming, MINUTES_OCLOCK)
  {
    ComposeConnective(hours, minutes);
  }

  /** Power-on with the masked minutes register at 0x00..0x04 (0:00 among
      them, the time the RTC reads after losing power) is such a fade. */
  lemma BootFadesTowardOclock(minutesReg: UInt8, hoursReg: UInt8)
    requires minutesReg % 128 < 5
    ensures FadingTowardOclock(Boot(minutesReg, hoursReg))
  {
    var rd := ReadTime(minutesReg, hoursReg);
    ReadOclockMinutes(minutesReg, hoursReg);
    BlankLitsNothing();
    OclockComesIn(ResetEngine.masks, rd.hours, rd.minutes);
  }

  /** As written, a time-up press during such a fade sets the next bucket,
      "five past", and leaves the fade running with "o'clock" still in its
      incoming group. */
  lemma PressDuringFadeAsWritten(c: State)
    requires FadingTowardOclock(c)
    ensures var r := TimeButtonAsWritten(c, true);
      && r.time == Time(c.time.hours, 5)
      && r.engine.mode == FadingOut && r.engine.fading <= r.universal
      && Lit(r.engine.masks.incoming, MINUTES_OCLOCK)
      && !Lit(Compose(r.time.hours, r.time.minutes), MINUTES_OCLOCK)
  {
    IncreaseFromOclock(c.time);
    var r := TimeButtonAsWritten(c, true);
    assert r.time == Time(c.time.hours, 5);
    ComposeConnective(c.time.hours, 5);
  }

  /** As written, the fade then runs to its end and rests with "o'clock"
      lit: switchFades ORs the incoming group into the outputs. */
  lemma FadeAfterPressAsWritten(c: State)
    requires FadingTowardOclock(c)
    ensures var r := TimeButtonAsWritten(c, true);
      Lit(Settle(r.engine, r.universal).masks.outputs, MINUTES_OCLOCK)
  {
    var r := TimeButtonAsWritten(c, true);
    var e, u := r.engine, r.universal;
    assert e.mode == FadingOut && e.fading <= u < GammaSize
      && e.masks.incoming == c.engine.masks.incoming;
    IncomingEndsLit(e, u, MINUTES_OCLOCK);
  }

  /** As written, once that fade completes the clock rests on a frame that is
      not the phrase of the time it was set to: "o'clock" returns beside
      "five past". */
  lemma TimeButtonDuringFadeAsWritten(c: State)
    requires FadingTowardOclock(c)
    ensures var r := TimeButtonAsWritten(c, true);
      Settle(r.engine, r.universal).masks.outputs != Compose(r.time.hours, r.time.minutes)
  {
    PressDuringFadeAsWritten(c);
    FadeAfterPressAsWritten(c);
  }

  /** As written, the wrong frame lasts only until the next minute change:
      the fade has left the masks at rest, so the next poll that reads a
      minute other than the five set by the press fades to the right phrase. */
  lemma NextMinuteRepairsAsWritten(c: State, rd: Reading)
    requires FadingTowardOclock(c)
    requires rd.minutes != 5
    ensures var r := TimeButtonAsWritten(c, true);
      var s := OnRtcPoll(r.(engine := Settle(r.engine, r.universal)), rd);
      var done := Run(s.engine, s.universal, 2 * s.universal + 2);
      done.mode == StandardOp && done.masks.outputs == Compose(s.time.hours, s.time.minutes)
  {
    var r := TimeButtonAsWritten(c, true);
    PressDuringFadeAsWritten(c);
    PollFromRestShowsTime(r.(engine := Settle(r.engine, r.universal)), rd);
  }
}
