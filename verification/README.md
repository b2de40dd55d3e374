# Word clock display logic

A model of the display logic of a PIC18 word clock. The clock tells the time in
words ("it is twenty five of three") by lighting up to 22 words, one per bit of
four shift-register bytes. The model covers:

- **The LED bit array** (`LedArray`, `Layout`). `setArray` and `clearArray`
  set and clear one bit of the four bytes, and the 22 word positions come from
  `clock_lib.h`.
- **The phrase composer** (`Phrase`). The minute chain that `rebuildDisplay`
  and `quickSwitch` share maps HOURS and MINUTES to the words to light. It has
  twelve five-minute buckets, with "past" up to minute 34 and "of" plus the
  next hour from minute 35. A table of buckets written independently of the
  chain serves as its reference definition.
- **The cross-fade** (`Fade`):
  - `rebuildDisplay`'s bit-by-bit diff into INCOMING_LEDS and FADING_MARKS;
  - `startFading`, `switchFades` and `doneFading`;
  - the Timer1 tick that ramps FADING_BRIGHTNESS down to 0, switches, ramps
    it back up to UNIVERSAL_BRIGHTNESS and stops;
  - the frames of the CCP2 and CCP1 compare events.
- **The button arithmetic** (`TimeStep`): `timeIncrease`/`timeDecrease` and the
  saturating brightness buttons.
- **The DS1340 byte encoding** (`Rtc`): `convert2bcd`, `convert2char`, the
  register masks and the `% 12` of `readDS1340`, and the bytes `writeDS1340`
  sends.
- **The firmware as a state machine** (`Clock`). Power-on, the main loop's RTC
  poll and buttons, and the three interrupt sources are each one atomic `Step`
  over the globals of `main.c`, as written: a time button leaves a fade in
  flight running. `StepCorrected` is the same machine with the time buttons
  cancelling the fade, the correction described under "## Findings".

Bytes appear in two forms. Frames are `seq<bv8>` of length 4 where bitwise
operators matter. Bytes are integers 0..255 (`Bytes.UInt8`) where the source
does arithmetic. The register masks `& 0x7F` and `& 0x3F` are written as `% 128` and `% 64`,
which agree with them on bytes. Where an unsigned char could wrap, the
wrap-around is written out: `timeIncrease` adds 5 modulo 256, and
`convert2bcd`'s result is truncated modulo 256.

## Model

| member | source | states |
|---|---|---|
| LedArray.SetArray | src/clock_lib.c:209-213 | the word at position n is lit afterwards; every other word keeps its state; only byte n / 8 changes |
| LedArray.ClearArray | src/clock_lib.c:215-219 | the word at position n is dark afterwards; every other word keeps its state; only byte n / 8 changes |
| LedArray.SetArrayIdempotent | src/clock_lib.c:209-213 | setting a word twice gives the same four bytes as setting it once |
| LedArray.SetClearOverride | src/clock_lib.c:209-219 | clearing after setting equals clearing alone; setting after clearing equals setting alone |
| LedArray.FrameExt | src/clock_lib.c:209-219 | two 4-byte arrays that light the same words at positions 0..31 are equal byte for byte, so the bit addressing n / 8, n % 8 covers all 32 bits |
| LedArray.And | src/main.c:436-439 | the byte-wise AND lights exactly the words lit in both arrays |
| LedArray.Or | src/clock_lib.c:36 | the byte-wise OR lights exactly the words lit in either array |
| LedArray.Complement | src/clock_lib.c:37 | 0xFF minus each byte lights exactly the words the array leaves dark |
| Layout.HourWord | src/clock_lib.c:60-62 | HOUR_POSITIONS maps every hour index 0..11 to one of the twelve hour words, all in positions 11..22 |
| Layout.HourOf | src/clock_lib.h:25-36 | the inverse of HOUR_POSITIONS: a position maps back to its hour index, or to -1 exactly when it is not an hour word |
| Layout.HourWordInjective | src/clock_lib.h:25-36 | distinct hour indexes light distinct hour words |
| Layout.WordsDistinct | src/clock_lib.h:16-37 | the 22 word positions are pairwise distinct, so no two words share a bit |
| Layout.WordsAboveNine | src/clock_lib.h:16-37 | every word position lies in 10..31: inside the four bytes and never on bits 0..9 |
| Phrase.SetAll | src/clock_lib.c:137-191 | a series of setArray calls lights exactly the words already lit plus the words in the series |
| Phrase.Compose | src/clock_lib.c:129-191 | the built display lights exactly the words of the phrase: "it is" followed by the words of the branch that fires |
| Phrase.QuickSwitch | src/clock_lib.c:57-124 | whatever the outputs held, quickSwitch leaves exactly the phrase's words lit, the same frame rebuildDisplay composes |
| Phrase.ChainIsTable | src/clock_lib.c:139-191 | for each minute below 60 exactly one branch of the chain fires, and it is the table's bucket minutes / 5; from minute 60 none fires; the next hour is named exactly from minute 35 |
| Phrase.BucketWordsAreNotHours | src/clock_lib.c:139-191 | no bucket contributes an hour word; "past" belongs to buckets 1..6, "of" to buckets 7..11 and "o'clock" to bucket 0 only |
| Phrase.WordsOfBucket | src/clock_lib.c:137-191 | below minute 60 the phrase is "it is", the bucket's minute words and connective, and the hour word of the shown hour |
| Phrase.ComposeSaysItIs | src/clock_lib.c:137 | every composed phrase lights "it is" |
| Phrase.ComposeOneHourWord | src/clock_lib.c:139-191 | for a valid minute exactly one hour word is lit: HOURS up to minute 34, (HOURS + 1) % 12 from minute 35 |
| Phrase.WordsConnective | src/clock_lib.c:139-191 | the phrase contains "o'clock" exactly for minutes 0..4, "past" exactly for 5..34, "of" exactly for 35..59 |
| Phrase.ComposeConnective | src/clock_lib.c:139-191 | "o'clock" is lit exactly for minutes 0..4, "past" exactly for 5..34, "of" exactly for 35..59 |
| Phrase.WordsAboveLowBits | src/clock_lib.c:137-191 | no phrase, for any minute, contains a position in 0..9 |
| Phrase.ComposeLeavesLowBitsDark | src/clock_lib.h:16-37 | no composed phrase lights any of bits 0..9 |
| Phrase.ComposePastSixty | src/clock_lib.c:139-191 | for MINUTES of 60 or more no branch fires and only "it is" is lit |
| Phrase.ComposeSameBucket | src/clock_lib.c:139-191 | two minutes of the same five-minute bucket compose the same frame |
| Phrase.TwoThirtySeven | src/clock_lib.c:169-173 | 2:37 lights exactly "it is", "five", "twenty", "of" and "three" |
| Fade.Diff | src/clock_lib.c:193-205 | words to come on are added to INCOMING_LEDS; words to go off are cleared from FADING_MARKS; every other mask bit and the outputs are unchanged |
| Fade.DiffByte | src/clock_lib.c:196-204 | the bit loop over one byte pair adds to the incoming byte exactly the bits set in the target but clear in the output, and clears from the marks byte exactly the bits set in the output but clear in the target |
| Fade.RebuildDisplay | src/clock_lib.c:126-207 | the 4 x 8 bit loop produces exactly the masks of the diff against the composed frame; the outputs are not written |
| Fade.RebuildUnchangedIsNoOp | src/clock_lib.h:84-88 | rebuilding towards the frame already shown leaves both masks unchanged |
| Fade.StartFading | src/clock_lib.c:18-26 | the fade starts from the global brightness in FADING_OUT mode, which indexes the gamma tables in range, and the masks are untouched |
| Fade.SwitchFades | src/clock_lib.c:30-40 | the outputs become the surviving (still marked) words plus the incoming ones; the marks become the complement of the incoming words; the status is FADING_IN |
| Fade.DoneFading | src/clock_lib.c:43-55 | both masks return to rest (all marked, none incoming), the outputs stay, the status is STANDARD_OP |
| Fade.RebuildThenSwitch | src/clock_lib.c:30-55 | from masks at rest, a diff followed by switchFades leaves the outputs equal to the target, and doneFading then restores the masks at rest |
| Fade.Tick | src/main.c:389-414 | FADING_BRIGHTNESS stays below 128 and never rises above the global brightness, every gamma index loaded into CCP2 is below 128, the frame shifted out is the outputs, and reaching STANDARD_OP leaves the masks at rest |
| Fade.FadeFrame | src/main.c:429-446 | the CCP2 frame lights exactly the output words still marked |
| Fade.OffFrame | src/main.c:448-457 | the CCP1 frame lights nothing |
| Fade.Run | src/main.c:389-414 | any number of ticks keeps FADING_BRIGHTNESS below 128 |
| Fade.RunAdd | src/main.c:389-414 | a + b ticks are a ticks followed by b ticks |
| Fade.FadeOutRamp | src/main.c:395-403 | while fading out, each tick lowers FADING_BRIGHTNESS by one and changes nothing else |
| Fade.FadeInRamp | src/main.c:405-413 | while fading in below the global brightness, each tick raises FADING_BRIGHTNESS by one and changes nothing else |
| Fade.StandardIsQuiet | src/main.c:392-393 | at rest no number of ticks changes the engine |
| Fade.FadeOutPhase | src/main.c:395-403 | from level f, f + 1 ticks bring the fade to zero and then call switchFades, entering FADING_IN at level 0 |
| Fade.FadeInPhase | src/main.c:405-413 | from level 0 in FADING_IN, u + 1 ticks ramp up to u and then call doneFading, entering STANDARD_OP |
| Fade.FadeInFinish | src/main.c:405-413 | from any level f at most u in FADING_IN, u - f + 1 ticks ramp up to u and then call doneFading, keeping the outputs |
| Fade.FullFade | src/main.c:389-414 | a fade-out from level f at brightness u ends in STANDARD_OP after exactly f + u + 2 ticks, with the switched outputs and the masks at rest |
| Fade.FadeEndsOn | src/main.c:389-414 | for any masks, a fade run to its end rests showing exactly the surviving outputs plus the incoming words |
| Fade.Settle | src/main.c:389-414 | a fade-out from any level at most the global brightness comes to rest in STANDARD_OP with both masks at rest |
| Fade.IncomingEndsLit | src/main.c:389-414 | every word in INCOMING_LEDS when a fade-out starts is lit once the fade comes to rest |
| Fade.FadeNotDoneEarly | src/main.c:389-414 | before tick f + u + 2 the engine is never at rest; it holds the old masks until the switch and the switched masks after it |
| Fade.BeginFade | src/main.c:295-301 | after a minute change the masks are the diff towards the new target, and the fade-out starts at the global brightness |
| Fade.FadeReachesTarget | src/main.c:389-414 | a fade begun from masks at rest reaches STANDARD_OP after exactly 2u + 2 ticks and not before, with the outputs equal to the target and the masks at rest |
| Fade.SteadyWordsStayLit | src/main.c:429-446 | throughout such a fade the CCP2 frame lights exactly the words common to the old and new phrases, and the outputs switch from old to new at tick u + 1 |
| Fade.UnchangedFadeIsInvisible | src/main.c:295-301 | a fade towards the phrase already shown never changes any frame |
| TimeStep.RoundDown | src/main.c:311 | MINUTES is rounded down to the largest multiple of five not above it |
| TimeStep.TimeIncrease | src/main.c:308-318 | hours stay in 0..11; for every minute below 255 the minutes land on a multiple of five in 0..55; at 255 the 8-bit addition wraps and the result is minute 4 of the same hour |
| TimeStep.TimeDecrease | src/main.c:321-335 | hours stay in 0..11 and the minutes land on a multiple of five, in 0..55 for a minute below 60 |
| TimeStep.IncreaseCases | src/main.c:311-317 | for every minute below 255, "up" adds five to the rounded minute below 55, and otherwise rolls over to minute 0 of (HOURS + 1) % 12 |
| TimeStep.DecreaseCases | src/main.c:324-334 | "down" takes five from a nonzero rounded minute, and otherwise goes to minute 55 of the previous hour, with 0 wrapping to 11 |
| TimeStep.IncreaseAdvancesSlot | src/main.c:308-318 | "up" moves a valid time to the next five-minute slot of the twelve-hour dial, wrapping from 11:55 to 0:00 |
| TimeStep.DecreaseRetreatsSlot | src/main.c:321-335 | "down" moves a valid time to the previous five-minute slot of the dial, wrapping from 0:00 to 11:55 |
| TimeStep.IncreaseFromOclock | src/main.c:308-318 | from any minute 0..4, "up" sets five past the same hour |
| TimeStep.ElevenFiftyEight | src/main.c:308-318 | 11:58 steps up to 0:00 |
| TimeStep.SlotInjective | src/main.c:308-335 | two times on the five-minute grid in the same slot are equal |
| TimeStep.StepsStayOnGrid | src/main.c:308-335 | from any valid time, both buttons land on the five-minute grid of a twelve-hour dial |
| TimeStep.IncreaseOnGrid | src/main.c:308-318 | on the grid, "up" adds five minutes, or goes from minute 55 to minute 0 of the next hour |
| TimeStep.DecreaseOnGrid | src/main.c:321-335 | on the grid, "down" takes five minutes, or goes from minute 0 to minute 55 of the previous hour |
| TimeStep.DecreaseUndoesIncrease | src/main.c:308-335 | on the grid, "down" undoes "up" |
| TimeStep.IncreaseUndoesDecrease | src/main.c:308-335 | on the grid, "up" undoes "down" |
| TimeStep.IncreaseDecreaseInverse | src/main.c:308-335 | on the grid the two time buttons are inverse to each other |
| TimeStep.BrightnessUp | src/main.c:241-248 | "up" adds one exactly while below 127, and otherwise leaves the brightness; it keeps it in [2, 127] |
| TimeStep.BrightnessDown | src/main.c:249-256 | "down" subtracts one exactly while above 2, and otherwise leaves the brightness; it keeps it in [2, 127] |
| TimeStep.BrightnessButtons | src/main.c:239-257 | one pass over both buttons keeps the brightness in [2, 127]; pressing both below the top leaves it unchanged |
| TimeStep.UpDownInverse | src/main.c:241-256 | away from the limits, the brightness buttons undo each other |
| TimeStep.PressesStayInRange | src/main.c:239-257 | no series of presses takes the brightness out of [2, 127], so each gamma index it loads into CCP1 is below 128 |
| TimeStep.BootBrightnessInRange | src/main.c:78 | from the power-on value 120, every series of presses stays in [2, 127] |
| Rtc.MaskLow | src/ds_1340.h:19-21 | masking with 0x7F or 0x3F never increases a byte and never exceeds the mask |
| Rtc.ToBcd | src/ds_1340.c:86-89 | for 0..99 the high nibble holds the tens and the low nibble the units, so the result is valid BCD at most 0x99 |
| Rtc.FromBcd | src/ds_1340.c:91-95 | a decoded byte is at most 165; a valid BCD byte decodes to 0..99 whose tens and units are its nibbles |
| Rtc.FromToBcd | src/ds_1340.c:86-95 | decoding the BCD of any number 0..99 gives it back |
| Rtc.ToFromBcd | src/ds_1340.c:86-95 | encoding the decoded value of any valid BCD byte gives it back |
| Rtc.ReadTime | src/ds_1340.c:47-49 | the decoded hours are in 0..11 for every register byte |
| Rtc.ReadMinutesRange | src/ds_1340.c:47 | the decoded minutes never exceed 85, and a valid BCD minute byte 0x00..0x59 decodes to its value 0..59 |
| Rtc.ReadOclockMinutes | src/ds_1340.c:47 | a masked minutes register of 0x00..0x04 decodes to its own value |
| Rtc.WriteBytes | src/ds_1340.c:28-37 | five bytes go on the bus, the bus address first and register address 0x00 second, and the seconds byte has bit 7 clear |
| Rtc.BcdFitsMask | src/ds_1340.c:33-49 | the BCD of a number below 60 is at most 0x59 and survives the minutes mask, and the BCD of an hour below 12 survives the hours mask |
| Rtc.ReadBackMinutes | src/ds_1340.c:34-47 | a minute below 60, written and read back, is unchanged |
| Rtc.ReadBackHours | src/ds_1340.c:35-49 | an hour below 12, written and read back, is unchanged |
| Rtc.WriteThenRead | src/ds_1340.c:28-52 | writing a valid time and reading the registers back gives the same minutes and hours |
| Clock.Boot | src/main.c:205-231 | power-on leaves a valid state in FADING_OUT, and 2u + 2 ticks later the outputs show the phrase of the time read from the RTC |
| Clock.OnRtcPoll | src/main.c:291-303 | an unchanged minute changes nothing; a new minute takes the time with hours modulo 12, diffs the masks towards the new phrase and restarts the fade-out at the global brightness |
| Clock.Pressed | src/main.c:267-289 | a time button keeps the hours in 0..11 and, from a minute below 60, lands on the five-minute grid |
| Clock.TimeWrite | src/main.c:273-275 | after a time button five bytes go to the RTC, starting with its bus address, and for a valid time they read back as that time |
| Clock.TimeButtonAsWritten | src/main.c:267-289 | the time steps and the outputs become the new phrase at once, but OP_MODE, FADING_BRIGHTNESS and both masks are left as they were |
| Clock.TimeButton | src/main.c:267-289 | the corrected definition of the "## Findings" row, not what the source does: the time steps as in the source, the outputs become the new phrase, the fade in flight is cancelled (masks at rest, STANDARD_OP), and no number of ticks changes the frame afterwards |
| Clock.Step | src/main.c:236-459 | every event keeps the state valid; Timer1 shifts out the outputs, CCP2 the outputs AND the marks (only while fading), CCP1 a blank frame; a time button shows the new phrase at once, leaves OP_MODE and both masks as they were, and writes five RTC bytes that read back as the new time on the grid |
| Clock.StepCorrected | src/main.c:267-289 | the corrected machine of the "## Findings" row: a time button cancels the fade (STANDARD_OP, masks at rest) and shows the new phrase; every other event is as in Step |
| Clock.StepsKeepValid | src/main.c:236-459 | for the firmware as written, no series of events takes the hours out of 0..11 or a gamma index to 128 or more |
| Clock.TimeButtonShowsSetTime | src/main.c:267-289 | after the corrected time button, no number of ticks changes the frame: the set time stays on display |
| Clock.OclockComesIn | src/clock_lib.c:193-205 | a fade towards an o'clock phrase from a display without "o'clock" puts "o'clock" in INCOMING_LEDS |
| Clock.BootFadesTowardOclock | src/main.c:223-231 | power-on with the masked minutes register at 0x00..0x04, 0:00 among them, is a fade with "o'clock" incoming |
| Clock.PressDuringFadeAsWritten | src/main.c:267-277 | time-up during that fade sets five past the hour but leaves the fade running with "o'clock" still incoming, although the new phrase has no "o'clock" |
| Clock.FadeAfterPressAsWritten | src/main.c:389-414 | when that fade comes to rest, "o'clock" is lit |
| Clock.TimeButtonDuringFadeAsWritten | src/main.c:267-277 | as written, the clock then rests on a frame that is not the phrase of the time it was set to |
| Clock.PressDuringFadeInAsWritten | src/main.c:267-289 | as written, a time button pressed while the fade is fading in is harmless: once the fade ends the set time's phrase is shown and the masks are at rest |
| Clock.PollFromRestShowsTime | src/main.c:291-303 | with the masks at rest, a new minute read from the RTC is shown exactly 2u + 2 ticks later |
| Clock.NextMinuteRepairsAsWritten | src/main.c:291-303 | as written, the wrong frame left by a press during the fade-out lasts only until the RTC reports a minute other than the :05 just set; that poll fades to the right phrase |

## Left out

- The contents of `GAMMA_TABLE_H`/`GAMMA_TABLE_L`: they are declared
  `extern`, and the file defining them is not part of this model. Only their
  128-entry bound is kept, and every index is proved to be below it.
- The I2C transactions (`StartI2C2`, `WriteI2C2`, `ReadI2C2`, ...) are foreign
  library calls; only the bytes written and the decoding of the bytes read are
  modelled. `initializeDS1340`, `getOSF` and `clearOSF` are pure transport
  and are left out, and so is the trickle-charger configuration written at
  power-on.
- `readControls` copies an uninitialised local, so it has no defined
  behaviour to model.
- `writeShifts` is bit-banged pin I/O. A frame handed to it appears as a
  value in `Clock.Output`, or as the `frame` of `Fade.TickOut`.
- Hardware bring-up is not modelled: configuration words, oscillator, ports,
  timer reloads, CCP register writes and enabling CCP2 in `startFading` and
  disabling it in `doneFading`. CCP2's enablement is reflected only in
  `Clock.Step` emitting no CCP2 frame at rest. The `LIGHTTEST` diagnostic
  builds are also left out.
- Interrupt and main-loop interleaving is left out. `rebuildDisplay` and the
  time buttons run in the main loop, while `switchFades` and `doneFading` run
  in the interrupt, with no locking. Each event is an atomic step, and a
  Timer1 interrupt between two bits of the diff loop is not modelled.
- Button edge detection and debouncing (`BTN_RDY`, `BTN_DOWN_U`,
  `BTN_DOWN_D`) are left out. A `TimeUp`/`TimeDown` event is a release, and a
  `Brightness` event is one pass with `BTN_RDY` set.
- The timing of the compare events within a PWM period is left out: each is
  just the frame it shifts out.
- The seconds register is always written as 0, the value the firmware sets at
  power-on and never changes. `Rtc.WriteBytes` takes any seconds value.
- TimeStep.TimeIncrease: minutes 60..254 are not reachable from a valid
  BCD register but are handled: they round down to at most 250, so the addition
  does not wrap and the result is minute 0 of the next hour. Only 255 wraps, to
  minute 4 of the same hour. The contract states both; the slot and inverse
  lemmas are stated on the valid dial only.
- Rtc.ReadTime: the function's contract states only the hours bound. The
  minutes bound and the decoding of valid minutes are stated in
  `Rtc.ReadMinutesRange`.
- Fade.RebuildUnchangedIsNoOp: the masks are unchanged when the target equals
  the outputs, but the firmware still runs the fade after a minute change. The
  model follows the code, and `Fade.UnchangedFadeIsInvisible` shows that such
  a fade changes no frame.
- Clock.OnRtcPoll: a minute change during a fade in flight diffs against the
  current masks and restarts the fade-out at the global brightness, as the
  code does. No merge of the two fades is modelled, and no property is claimed
  for that case beyond validity.

## Findings

| source | as written | input that shows it | evidently intended | confidence | as-written member | corrected member |
|---|---|---|---|---|---|---|
| src/main.c:267-289 | A time button calls `quickSwitch`, which rewrites the outputs. It leaves OP_MODE, FADING_BRIGHTNESS, FADING_MARKS and INCOMING_LEDS alone, so a fade in flight goes on: `switchFades` later ORs the old incoming words back into the outputs. | Power-on with the RTC at 0:00, so the fade brings in "it is twelve o'clock". Press time-up during the fade-out phase: the first 121 Timer1 ticks, about 1.2 s at 100 Hz. The clock rests on "it is five past twelve o'clock". A press during the fade-in is harmless. The wrong frame lasts until the next minute change, at most 60 s, because the RTC was written with seconds 0. | The button shows the set time and keeps showing it; the fade in flight is cancelled. | medium, not executed | Clock.TimeButtonDuringFadeAsWritten | Clock.TimeButton |
