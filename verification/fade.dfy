/** The cross-fade engine: the diff of rebuildDisplay, startFading,
    switchFades and doneFading (src/clock_lib.c), the Timer1 tick that ramps
    FADING_BRIGHTNESS, and the frames of the two compare events
    (src/main.c). */
module Fade {
  import opened LedArray
  import opened Phrase

  datatype Option<T> = None | Some(value: T)

  /** OP_MODE: STANDARD_OP, FADING_OUT, FADING_IN. */
  datatype Mode = StandardOp | FadingOut | FadingIn

  /** SHIFT_REGISTER_OUTPUTS, FADING_MARKS (0 = fading, 1 = steady) and
      INCOMING_LEDS (1 = to be faded in). */
  datatype Masks = Masks(outputs: Frame, marks: Frame, incoming: Frame)

  /** The masks at rest: nothing marked to fade, nothing incoming. */
  predicate Standby(d: Masks) {
    d.marks == AllOn && d.incoming == Blank
  }

  /** The state the Timer1 handler owns: the arrays, FADING_BRIGHTNESS, OP_MODE. */
  datatype Engine = Engine(masks: Masks, fading: nat, mode: Mode)

  /** The gamma tables hold 128 entries; a brightness indexes them directly. */
  const GammaSize: nat := 128

  // ---------------------------------------------------------------------------
  // rebuildDisplay

  /** The effect of rebuildDisplay's bit loop on the masks, for target frame
      `target`: words that must come on are ORed into INCOMING_LEDS, words that
      must go off are cleared from FADING_MARKS, the outputs are untouched. */
  function Diff(d: Masks, target: Frame): (r: Masks)
    ensures r.outputs == d.outputs
    ensures forall n: Pos :: Lit(r.incoming, n) <==>
      Lit(d.incoming, n) || (Lit(target, n) && !Lit(d.outputs, n))
    ensures forall n: Pos :: Lit(r.marks, n) <==>
      Lit(d.marks, n) && !(Lit(d.outputs, n) && !Lit(target, n))
  {
    Masks(d.outputs,
          And(d.marks, Complement(And(d.outputs, Complement(target)))),
          Or(d.incoming, And(target, Complement(d.outputs))))
  }

  /** The comparisons rebuildDisplay makes between bit j of the composed byte
      and bit j of the output byte. */
  lemma BitCompare(built: Byte, out: Byte, j: nat)
    requires j < 8
    ensures ((built >> j) & 1 > (out >> j) & 1) == (ByteBit(built, j) && !ByteBit(out, j))
    ensures ((built >> j) & 1 < (out >> j) & 1) == (!ByteBit(built, j) && ByteBit(out, j))
  {
  }

  /** The inner loop of rebuildDisplay: bits 0..7 of one byte pair. A word
      off that should be on joins INCOMING_LEDS; a word on that should be off
      is cleared from FADING_MARKS. */
  method DiffByte(built: Byte, out: Byte, incoming: Byte, marks: Byte)
    returns (ib: Byte, mb: Byte)
    ensures forall k: nat :: k < 8 ==>
      ByteBit(ib, k) == (ByteBit(incoming, k) || (ByteBit(built, k) && !ByteBit(out, k)))
    ensures forall k: nat :: k < 8 ==>
      ByteBit(mb, k) == (ByteBit(marks, k) && !(ByteBit(out, k) && !ByteBit(built, k)))
  {
    ib, mb := incoming, marks;
    for j := 0 to 8
      invariant forall k: nat :: k < j ==>
        ByteBit(ib, k) == (ByteBit(incoming, k) || (ByteBit(built, k) && !ByteBit(out, k)))
      invariant forall k: nat :: k < j ==>
        ByteBit(mb, k) == (ByteBit(marks, k) && !(ByteBit(out, k) && !ByteBit(built, k)))
      invariant forall k: nat :: j <= k < 8 ==> ByteBit(ib, k) == ByteBit(incoming, k)
      invariant forall k: nat :: j <= k < 8 ==> ByteBit(mb, k) == ByteBit(marks, k)
    {
      BitCompare(built, out, j);
      if (built >> j) & 1 > (out >> j) & 1 {
        forall k: nat | k < 8 {
          SetBit(ib, j, k);
        }
        ib := ib | (1 << j);
      } else if (built >> j) & 1 < (out >> j) & 1 {
        forall k: nat | k < 8 {
          ClearBit(mb, j, k);
        }
        mb := mb & (0xFF - (1 << j));
      }
    }
  }

  /** rebuildDisplay: compose the target for (hours, minutes) and walk its 32
      bits against the outputs, byte by byte and bit by bit, as the source does. */
  method RebuildDisplay(outputs: Frame, incoming: Frame, marks: Frame, hours: nat, minutes: nat)
    returns (newIncoming: Frame, newMarks: Frame)
    requires hours < 12
    ensures forall n: Pos :: Lit(newIncoming, n) <==>
      Lit(incoming, n) || (Lit(Compose(hours, minutes), n) && !Lit(outputs, n))
    ensures forall n: Pos :: Lit(newMarks, n) <==>
      Lit(marks, n) && !(Lit(outputs, n) && !Lit(Compose(hours, minutes), n))
    ensures Masks(outputs, newMarks, newIncoming) ==
      Diff(Masks(outputs, marks, incoming), Compose(hours, minutes))
  {
    var built := Compose(hours, minutes);
    var inc: Frame := incoming;
    var mk: Frame := marks;
    for i := 0 to 4
      invariant forall n: Pos :: n < 8 * i ==>
        Lit(inc, n) == (Lit(incoming, n) || (Lit(built, n) && !Lit(outputs, n)))
      invariant forall n: Pos :: n < 8 * i ==>
        Lit(mk, n) == (Lit(marks, n) && !(Lit(outputs, n) && !Lit(built, n)))
      invariant forall k :: i <= k < 4 ==> inc[k] == incoming[k] && mk[k] == marks[k]
    {
      var ib, mb := DiffByte(built[i], outputs[i], inc[i], mk[i]);
      inc := inc[i := ib];
      mk := mk[i := mb];
    }
    newIncoming, newMarks := inc, mk;
    var expected := Diff(Masks(outputs, marks, incoming), built);
    FrameExt(newIncoming, expected.incoming);
    FrameExt(newMarks, expected.marks);
  }

  // ---------------------------------------------------------------------------
  // startFading, switchFades, doneFading

  /** startFading: the fade-out begins at the global brightness, whose gamma
      entry is loaded into CCP2. */
  function StartFading(e: Engine, universal: nat): (r: Engine)
    requires universal < GammaSize
    ensures r.mode == FadingOut && r.fading == universal && r.masks == e.masks
    ensures r.fading < GammaSize
  {
    e.(fading := universal, mode := FadingOut)
  }

  /** switchFades: drop the faded-out words, light the incoming ones, and mark
      the incoming ones as the group that now fades in. */
  function SwitchFades(d: Masks): (r: (Masks, Mode))
    ensures r.1 == FadingIn
    ensures r.0.incoming == d.incoming
    ensures forall n: Pos :: Lit(r.0.outputs, n) <==>
      (Lit(d.outputs, n) && Lit(d.marks, n)) || Lit(d.incoming, n)
    ensures forall n: Pos :: Lit(r.0.marks, n) <==> !Lit(d.incoming, n)
  {
    (Masks(Or(And(d.outputs, d.marks), d.incoming), Complement(d.incoming), d.incoming), FadingIn)
  }

  /** doneFading: reset both masks to rest; the outputs stay as they are. */
  function DoneFading(d: Masks): (r: (Masks, Mode))
    ensures r.1 == StandardOp
    ensures Standby(r.0) && r.0.outputs == d.outputs
    ensures forall n: Pos :: !Lit(r.0.incoming, n) && Lit(r.0.marks, n)
  {
    (Masks(d.outputs, AllOn, Blank), StandardOp)
  }

  /** Rebuilding from rest and switching lights exactly the target, and
      doneFading then returns the masks to rest. */
  lemma RebuildThenSwitch(d: Masks, target: Frame)
    requires Standby(d)
    ensures SwitchFades(Diff(d, target)).0.outputs == target
    ensures Standby(DoneFading(SwitchFades(Diff(d, target)).0).0)
  {
    FrameExt(SwitchFades(Diff(d, target)).0.outputs, target);
  }

  /** Rebuilding towards the frame already shown leaves both masks alone. */
  lemma RebuildUnchangedIsNoOp(d: Masks)
    ensures Diff(d, d.outputs) == d
  {
    FrameExt(Diff(d, d.outputs).incoming, d.incoming);
    FrameExt(Diff(d, d.outputs).marks, d.marks);
  }

  // ---------------------------------------------------------------------------
  // Timer1 tick and the compare events

  /** What one Timer1 interrupt does: the new engine state, the gamma index
      loaded into CCP2 (if any) and the frame shifted out. */
  datatype TickOut = TickOut(engine: Engine, gammaIndex: Option<nat>, frame: Frame)

  /** The Timer1 branch of InterruptHandlerHigh, for global brightness
      `universal`. */
  function Tick(e: Engine, universal: nat): (r: TickOut)
    requires e.fading < GammaSize && universal < GammaSize
    ensures r.engine.fading < GammaSize
    ensures r.gammaIndex.Some? ==> r.gammaIndex.value < GammaSize
    ensures r.gammaIndex.Some? ==> r.gammaIndex.value == r.engine.fading
    ensures e.fading <= universal ==> r.engine.fading <= universal
    ensures r.frame == r.engine.masks.outputs
    ensures r.engine.mode == StandardOp ==> Standby(r.engine.masks) || e.mode == StandardOp
  {
    match e.mode
    case StandardOp =>
      TickOut(e, None, e.masks.outputs)
    case FadingOut =>
      if e.fading > 0 then
        TickOut(e.(fading := e.fading - 1), Some(e.fading - 1), e.masks.outputs)
      else
        var (m, mode) := SwitchFades(e.masks);
        TickOut(Engine(m, e.fading, mode), None, m.outputs)
    case FadingIn =>
      if e.fading < universal then
        TickOut(e.(fading := e.fading + 1), Some(e.fading + 1), e.masks.outputs)
      else
        var (m, mode) := DoneFading(e.masks);
        TickOut(Engine(m, e.fading, mode), None, m.outputs)
  }

  /** The CCP2 compare event: the outputs without the words being faded. */
  function FadeFrame(d: Masks): (r: Frame)
    ensures forall n: Pos :: Lit(r, n) <==> Lit(d.outputs, n) && Lit(d.marks, n)
  {
    And(d.outputs, d.marks)
  }

  /** The CCP1 compare event: every word off. */
  function OffFrame(): (r: Frame)
    ensures LitSet(r) == {}
  {
    Blank
  }

  /** k Timer1 ticks at a constant global brightness. */
  function Run(e: Engine, universal: nat, k: nat): (r: Engine)
    requires e.fading < GammaSize && universal < GammaSize
    ensures r.fading < GammaSize
    decreases k
  {
    if k == 0 then e else Run(Tick(e, universal).engine, universal, k - 1)
  }

  lemma {:induction false} RunAdd(e: Engine, universal: nat, a: nat, b: nat)
    requires e.fading < GammaSize && universal < GammaSize
    ensures Run(e, universal, a + b) == Run(Run(e, universal, a), universal, b)
    decreases a
  {
    if a > 0 {
      RunAdd(Tick(e, universal).engine, universal, a - 1, b);
    }
  }

  /** While fading out, each tick lowers FADING_BRIGHTNESS by one. */
  lemma {:induction false} FadeOutRamp(e: Engine, universal: nat, k: nat)
    requires e.mode == FadingOut && k <= e.fading < GammaSize && universal < GammaSize
    ensures Run(e, universal, k) == e.(fading := e.fading - k)
    decreases k
  {
    if k > 0 {
      FadeOutRamp(e.(fading := e.fading - 1), universal, k - 1);
    }
  }

  /** While fading in below the global brightness, each tick raises
      FADING_BRIGHTNESS by one. */
  lemma {:induction false} FadeInRamp(e: Engine, universal: nat, k: nat)
    requires e.mode == FadingIn && e.fading + k <= universal < GammaSize
    ensures Run(e, universal, k) == e.(fading := e.fading + k)
    decreases k
  {
    if k > 0 {
      FadeInRamp(e.(fading := e.fading + 1), universal, k - 1);
    }
  }

  /** At rest the tick changes nothing, however often it runs. */
  lemma {:induction false} StandardIsQuiet(e: Engine, universal: nat, k: nat)
    requires e.mode == StandardOp && e.fading < GammaSize && universal < GammaSize
    ensures Run(e, universal, k) == e
    decreases k
  {
    if k > 0 {
      StandardIsQuiet(e, universal, k - 1);
    }
  }

  /** The engine after the fade-out phase and the switch. */
  function Switched(e: Engine): Engine {
    Engine(SwitchFades(e.masks).0, 0, FadingIn)
  }

  /** The fade-out phase: f ticks down to zero, then the tick that calls
      switchFades. */
  lemma FadeOutPhase(e: Engine, universal: nat)
    requires e.mode == FadingOut && e.fading < GammaSize && universal < GammaSize
    ensures Run(e, universal, e.fading + 1) == Switched(e)
  {
    FadeOutRamp(e, universal, e.fading);
    RunAdd(e, universal, e.fading, 1);
    var z := e.(fading := 0);
    assert Run(z, universal, 1) == Tick(z, universal).engine;
  }

  /** The fade-in phase from zero: u ticks up, then the tick that calls
      doneFading. */
  lemma FadeInPhase(s: Engine, universal: nat)
    requires s.mode == FadingIn && s.fading == 0 && universal < GammaSize
    ensures Run(s, universal, universal + 1) ==
      Engine(DoneFading(s.masks).0, universal, StandardOp)
  {
    FadeInRamp(s, universal, universal);
    RunAdd(s, universal, universal, 1);
    var z := s.(fading := universal);
    assert Run(z, universal, 1) == Tick(z, universal).engine;
  }

  /** A fade-in from any level f at most u: u - f ticks up, then the tick
      that calls doneFading; the outputs are left as they are. */
  lemma FadeInFinish(e: Engine, universal: nat)
    requires e.mode == FadingIn && e.fading <= universal < GammaSize
    ensures Run(e, universal, universal - e.fading + 1) ==
      Engine(DoneFading(e.masks).0, universal, StandardOp)
  {
    var k: nat := universal - e.fading;
    var z := e.(fading := universal);
    FadeInRamp(e, universal, k);
    RunAdd(e, universal, k, 1);
    assert Tick(z, universal).engine == Engine(DoneFading(e.masks).0, universal, StandardOp);
    assert Run(z, universal, 1) == Tick(z, universal).engine;
  }

  /** A fade-out from level f at brightness u: f ticks down, one switch,
      u ticks up, one doneFading, then rest with the switched outputs. */
  lemma FullFade(e: Engine, universal: nat)
    requires e.mode == FadingOut && e.fading <= universal < GammaSize
    ensures Run(e, universal, e.fading + 1) == Switched(e)
    ensures Run(e, universal, e.fading + universal + 2) ==
      Engine(DoneFading(SwitchFades(e.masks).0).0, universal, StandardOp)
  {
    FadeOutPhase(e, universal);
    FadeInPhase(Switched(e), universal);
    RunAdd(e, universal, e.fading + 1, universal + 1);
  }

  /** Whatever the masks, a fade-out run to its end rests showing the
      surviving outputs (lit and still marked) together with the incoming
      group. */
  lemma FadeEndsOn(e: Engine, universal: nat, n: Pos)
    requires e.mode == FadingOut && e.fading <= universal < GammaSize
    ensures Run(e, universal, e.fading + universal + 2).mode == StandardOp
    ensures Lit(Run(e, universal, e.fading + universal + 2).masks.outputs, n) <==>
      (Lit(e.masks.outputs, n) && Lit(e.masks.marks, n)) || Lit(e.masks.incoming, n)
  {
    FullFade(e, universal);
  }

  /** The engine once a fade-out from its current level has run its course:
      f ticks down, the switch, u ticks up and doneFading. */
  function Settle(e: Engine, universal: nat): (r: Engine)
    requires e.mode == FadingOut && e.fading <= universal < GammaSize
    ensures r.mode == StandardOp && Standby(r.masks)
  {
    FullFade(e, universal);
    Run(e, universal, e.fading + universal + 2)
  }

  /** An incoming word is lit once the fade has run to its end. */
  lemma IncomingEndsLit(e: Engine, universal: nat, n: Pos)
    requires e.mode == FadingOut && e.fading <= universal < GammaSize
    requires Lit(e.masks.incoming, n)
    ensures Lit(Settle(e, universal).masks.outputs, n)
  {
    FadeEndsOn(e, universal, n);
  }

  /** Before tick f + u + 2 the engine is never at rest. */
  lemma FadeNotDoneEarly(e: Engine, universal: nat, k: nat)
    requires e.mode == FadingOut && e.fading <= universal < GammaSize
    requires k < e.fading + universal + 2
    ensures Run(e, universal, k).mode != StandardOp
    ensures k <= e.fading ==> Run(e, universal, k).masks == e.masks
    ensures k > e.fading ==> Run(e, universal, k).masks == SwitchFades(e.masks).0
  {
    var f := e.fading;
    if k <= f {
      FadeOutRamp(e, universal, k);
    } else {
      FullFade(e, universal);
      var s := Switched(e);
      FadeInRamp(s, universal, k - f - 1);
      RunAdd(e, universal, f + 1, k - f - 1);
    }
  }

  /** The engine as the main loop leaves it after a minute change:
      rebuildDisplay for `target`, then startFading. */
  function BeginFade(e: Engine, target: Frame, universal: nat): (r: Engine)
    requires universal < GammaSize
    ensures r.mode == FadingOut && r.fading == universal
    ensures r.masks == Diff(e.masks, target)
  {
    StartFading(e.(masks := Diff(e.masks, target)), universal)
  }

  /** A fade begun from rest ends after exactly 2 * u + 2 ticks, at rest,
      showing exactly the target. */
  lemma FadeReachesTarget(e: Engine, target: Frame, universal: nat)
    requires Standby(e.masks) && universal < GammaSize
    ensures var r := Run(BeginFade(e, target, universal), universal, 2 * universal + 2);
      r.mode == StandardOp && r.masks.outputs == target && Standby(r.masks)
    ensures forall k: nat :: k < 2 * universal + 2 ==>
      Run(BeginFade(e, target, universal), universal, k).mode != StandardOp
  {
    var b := BeginFade(e, target, universal);
    FullFade(b, universal);
    RebuildThenSwitch(e.masks, target);
    forall k: nat | k < 2 * universal + 2
      ensures Run(b, universal, k).mode != StandardOp
    {
      FadeNotDoneEarly(b, universal, k);
    }
  }

  /** Throughout a fade begun from rest, the CCP2 frame lights exactly the
      words common to the old and the new phrase: steady words never dim.
      The full frame shows the old phrase until the switch and the new one
      after it. */
  lemma SteadyWordsStayLit(e: Engine, target: Frame, universal: nat, k: nat)
    requires Standby(e.masks) && universal < GammaSize
    requires k < 2 * universal + 2
    ensures FadeFrame(Run(BeginFade(e, target, universal), universal, k).masks) ==
      And(e.masks.outputs, target)
    ensures Run(BeginFade(e, target, universal), universal, k).masks.outputs ==
      if k <= universal then e.masks.outputs else target
  {
    var b := BeginFade(e, target, universal);
    var r := Run(b, universal, k);
    FadeNotDoneEarly(b, universal, k);
    RebuildThenSwitch(e.masks, target);
    FrameExt(FadeFrame(r.masks), And(e.masks.outputs, target));
  }

  /** A fade towards the phrase already shown (a minute change inside one
      five-minute bucket) never changes any frame. */
  lemma UnchangedFadeIsInvisible(e: Engine, universal: nat, k: nat)
    requires Standby(e.masks) && universal < GammaSize
    requires k < 2 * universal + 2
    ensures FadeFrame(Run(BeginFade(e, e.masks.outputs, universal), universal, k).masks) ==
      e.masks.outputs
    ensures Run(BeginFade(e, e.masks.outputs, universal), universal, k).masks.outputs ==
      e.masks.outputs
  {
    SteadyWordsStayLit(e, e.masks.outputs, universal, k);
    FrameExt(And(e.masks.outputs, e.masks.outputs), e.masks.outputs);
  }
}
