/** The word positions of the display, fixed by the wiring of the shift
    registers (src/clock_lib.h). */
module Layout {
  import opened LedArray

  const IT_IS: Pos := 31
  const CONSTRUCTORS_A: Pos := 30
  const MINUTES_QUARTER: Pos := 29
  const MINUTES_TWENTY: Pos := 28
  const MINUTES_FIVE: Pos := 27
  const MINUTES_HALF: Pos := 26
  const MINUTES_TEN: Pos := 25
  const CONSTRUCTORS_OF: Pos := 24
  const CONSTRUCTORS_PAST: Pos := 23
  const HOUR_NINE: Pos := 22
  const HOUR_ONE: Pos := 21
  const HOUR_SIX: Pos := 20
  const HOUR_THREE: Pos := 19
  const HOUR_FOUR: Pos := 18
  const HOUR_FIVE: Pos := 17
  const HOUR_TWO: Pos := 16
  const HOUR_EIGHT: Pos := 15
  const HOUR_ELEVEN: Pos := 14
  const HOUR_SEVEN: Pos := 13
  const HOUR_TWELVE: Pos := 12
  const HOUR_TEN: Pos := 11
  const MINUTES_OCLOCK: Pos := 10

  /** HOUR_POSITIONS: the hour word for an hour index, 0 standing for twelve. */
  const HourPositions: seq<Pos> :=
    [HOUR_TWELVE, HOUR_ONE, HOUR_TWO, HOUR_THREE,
     HOUR_FOUR, HOUR_FIVE, HOUR_SIX, HOUR_SEVEN,
     HOUR_EIGHT, HOUR_NINE, HOUR_TEN, HOUR_ELEVEN]

  /** Every word of the display: the nine non-hour words, the twelve hours, and o'clock. */
  const AllWords: seq<Pos> :=
    [IT_IS, CONSTRUCTORS_A, MINUTES_QUARTER, MINUTES_TWENTY, MINUTES_FIVE,
     MINUTES_HALF, MINUTES_TEN, CONSTRUCTORS_OF, CONSTRUCTORS_PAST] +
    HourPositions + [MINUTES_OCLOCK]

  /** The hour word for hour index h. */
  function HourWord(h: nat): (p: Pos)
    requires h < 12
    ensures p in HourPositions
    ensures 11 <= p <= 22
  {
    HourPositions[h]
  }

  /** The hour index a word names, if it is an hour word: the inverse of HourWord. */
  function HourOf(p: Pos): (h: int)
    ensures h == -1 <==> p !in HourPositions
    ensures 0 <= h < 12 ==> HourWord(h) == p
  {
    if p == HOUR_TWELVE then 0 else if p == HOUR_ONE then 1
    else if p == HOUR_TWO then 2 else if p == HOUR_THREE then 3
    else if p == HOUR_FOUR then 4 else if p == HOUR_FIVE then 5
    else if p == HOUR_SIX then 6 else if p == HOUR_SEVEN then 7
    else if p == HOUR_EIGHT then 8 else if p == HOUR_NINE then 9
    else if p == HOUR_TEN then 10 else if p == HOUR_ELEVEN then 11
    else -1
  }

  /** HOUR_POSITIONS is injective: distinct hours light distinct words. */
  lemma HourWordInjective(h: nat, k: nat)
    requires h < 12 && k < 12
    ensures HourWord(h) == HourWord(k) <==> h == k
  {
    assert HourOf(HourWord(h)) == h;
    assert HourOf(HourWord(k)) == k;
  }

  /** The 22 word positions are pairwise distinct, so no two words share a bit. */
  lemma WordsDistinct()
    ensures |AllWords| == 22
    ensures forall i, j :: 0 <= i < j < |AllWords| ==> AllWords[i] != AllWords[j]
  {
  }

  /** No word sits on bits 0..9: all positions are in 10..31. */
  lemma WordsAboveNine()
    ensures forall i :: 0 <= i < |AllWords| ==> 10 <= AllWords[i] < 32
  {
  }
}
