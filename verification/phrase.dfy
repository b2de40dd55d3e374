/** The phrase composer shared by rebuildDisplay and quickSwitch
    (src/clock_lib.c): time of day to the set of lit words. */
module Phrase {
  import opened LedArray
  import opened Layout

  /** The words one branch of the minute chain sets, in the order the source
      sets them. No branch fires for MINUTES of 60 or more. */
  function BranchWords(hours: nat, minutes: nat): seq<Pos>
    requires hours < 12
  {
    if 0 <= minutes < 5 then [MINUTES_OCLOCK, HourWord(hours)]
    else if 5 <= minutes < 10 then [MINUTES_FIVE, CONSTRUCTORS_PAST, HourWord(hours)]
    else if 10 <= minutes < 15 then [MINUTES_TEN, CONSTRUCTORS_PAST, HourWord(hours)]
    else if 15 <= minutes < 20 then [CONSTRUCTORS_A, MINUTES_QUARTER, CONSTRUCTORS_PAST, HourWord(hours)]
    else if 20 <= minutes < 25 then [MINUTES_TWENTY, CONSTRUCTORS_PAST, HourWord(hours)]
    else if 25 <= minutes < 30 then [MINUTES_FIVE, MINUTES_TWENTY, CONSTRUCTORS_PAST, HourWord(hours)]
    else if 30 <= minutes < 35 then [MINUTES_HALF, CONSTRUCTORS_PAST, HourWord(hours)]
    else if 35 <= minutes < 40 then [MINUTES_FIVE, MINUTES_TWENTY, CONSTRUCTORS_OF, HourWord((hours + 1) % 12)]
    else if 40 <= minutes < 45 then [MINUTES_TWENTY, CONSTRUCTORS_OF, HourWord((hours + 1) % 12)]
    else if 45 <= minutes < 50 then [CONSTRUCTORS_A, MINUTES_QUARTER, CONSTRUCTORS_OF, HourWord((hours + 1) % 12)]
    else if 50 <= minutes < 55 then [MINUTES_TEN, CONSTRUCTORS_OF, HourWord((hours + 1) % 12)]
    else if 55 <= minutes < 60 then [MINUTES_FIVE, CONSTRUCTORS_OF, HourWord((hours + 1) % 12)]
    else []
  }

  /** Every word composition sets: "it is" first, then the branch. */
  function Words(hours: nat, minutes: nat): seq<Pos>
    requires hours < 12
  {
    [IT_IS] + BranchWords(hours, minutes)
  }

  /** setArray applied to each position of ws in turn. */
  function SetAll(a: Frame, ws: seq<Pos>): (r: Frame)
    ensures forall n: Pos :: Lit(r, n) <==> Lit(a, n) || n in ws
    decreases |ws|
  {
    if |ws| == 0 then a
    else
      var r := SetAll(SetArray(a, ws[0]), ws[1..]);
      assert ws == [ws[0]] + ws[1..];
      r
  }

  /** builtDisplay of rebuildDisplay: the frame the time ought to show. */
  function Compose(hours: nat, minutes: nat): (r: Frame)
    requires hours < 12
    ensures forall n: Pos :: Lit(r, n) <==> n in Words(hours, minutes)
    ensures LitSet(r) == set n | n in Words(hours, minutes)
  {
    var r := SetAll(Blank, Words(hours, minutes));
    r
  }

  /** quickSwitch: zero the four output bytes, then set the composed words. */
  function QuickSwitch(outputs: Frame, hours: nat, minutes: nat): (r: Frame)
    requires hours < 12
    ensures forall n: Pos :: Lit(r, n) <==> n in Words(hours, minutes)
    ensures r == Compose(hours, minutes)
  {
    var zeroed := outputs[0 := 0][1 := 0][2 := 0][3 := 0];
    assert zeroed == Blank;
    var r := SetAll(zeroed, Words(hours, minutes));
    FrameExt(r, Compose(hours, minutes));
    r
  }

  // ---------------------------------------------------------------------------
  // An independent, table-driven statement of the same mapping: twelve
  // five-minute buckets, each a list of minute words, a connective and
  // whether the phrase names the next hour.

  datatype Bucket = Bucket(minuteWords: seq<Pos>, connective: seq<Pos>, nextHour: bool)

  const Buckets: seq<Bucket> := [
    Bucket([MINUTES_OCLOCK], [], false),
    Bucket([MINUTES_FIVE], [CONSTRUCTORS_PAST], false),
    Bucket([MINUTES_TEN], [CONSTRUCTORS_PAST], false),
    Bucket([CONSTRUCTORS_A, MINUTES_QUARTER], [CONSTRUCTORS_PAST], false),
    Bucket([MINUTES_TWENTY], [CONSTRUCTORS_PAST], false),
    Bucket([MINUTES_FIVE, MINUTES_TWENTY], [CONSTRUCTORS_PAST], false),
    Bucket([MINUTES_HALF], [CONSTRUCTORS_PAST], false),
    Bucket([MINUTES_FIVE, MINUTES_TWENTY], [CONSTRUCTORS_OF], true),
    Bucket([MINUTES_TWENTY], [CONSTRUCTORS_OF], true),
    Bucket([CONSTRUCTORS_A, MINUTES_QUARTER], [CONSTRUCTORS_OF], true),
    Bucket([MINUTES_TEN], [CONSTRUCTORS_OF], true),
    Bucket([MINUTES_FIVE], [CONSTRUCTORS_OF], true)
  ]

  /** The hour index the phrase names: the next hour from minute 35 on. */
  function ShownHour(hours: nat, minutes: nat): (h: nat)
    requires hours < 12
    ensures h < 12
  {
    if minutes < 35 then hours else (hours + 1) % 12
  }

  function TableWords(hours: nat, minutes: nat): seq<Pos>
    requires hours < 12
  {
    if minutes < 60 then
      var b := Buckets[minutes / 5];
      b.minuteWords + b.connective + [HourWord(if b.nextHour then (hours + 1) % 12 else hours)]
    else []
  }

  /** Exactly one branch of the chain fires for each minute below 60, and it
      is bucket minutes / 5 of the table; none fires from 60 on. */
  lemma ChainIsTable(hours: nat, minutes: nat)
    requires hours < 12
    ensures BranchWords(hours, minutes) == TableWords(hours, minutes)
    ensures minutes < 60 ==> Buckets[minutes / 5].nextHour == (minutes >= 35)
  {
    if minutes < 60 {
      var k := minutes / 5;
      assert 5 * k <= minutes < 5 * k + 5;
    }
  }

  /** The non-hour words a bucket uses. */
  lemma BucketWordsAreNotHours(k: nat)
    requires k < 12
    ensures forall p :: p in Buckets[k].minuteWords + Buckets[k].connective ==>
      p == MINUTES_OCLOCK || CONSTRUCTORS_PAST <= p <= CONSTRUCTORS_A
    ensures (CONSTRUCTORS_PAST in Buckets[k].connective) == (1 <= k <= 6)
    ensures (CONSTRUCTORS_OF in Buckets[k].connective) == (7 <= k)
    ensures (MINUTES_OCLOCK in Buckets[k].minuteWords) == (k == 0)
    ensures CONSTRUCTORS_PAST !in Buckets[k].minuteWords
    ensures CONSTRUCTORS_OF !in Buckets[k].minuteWords
    ensures MINUTES_OCLOCK !in Buckets[k].connective
  {
    if k == 0 {} else if k == 1 {} else if k == 2 {} else if k == 3 {}
    else if k == 4 {} else if k == 5 {} else if k == 6 {} else if k == 7 {}
    else if k == 8 {} else if k == 9 {} else if k == 10 {} else {}
  }

  /** Below minute 60 the words are "it is", the bucket's minute words and
      connective, and the shown hour. */
  lemma WordsOfBucket(hours: nat, minutes: nat)
    requires hours < 12 && minutes < 60
    ensures var b := Buckets[minutes / 5];
      Words(hours, minutes) == [IT_IS] + (b.minuteWords + b.connective) + [HourWord(ShownHour(hours, minutes))]
  {
    ChainIsTable(hours, minutes);
  }

  /** The composed target always says "it is". */
  lemma ComposeSaysItIs(hours: nat, minutes: nat)
    requires hours < 12
    ensures Lit(Compose(hours, minutes), IT_IS)
  {
  }

  /** For a valid minute exactly one hour word is lit: the current hour up to
      minute 34, the next hour from minute 35. */
  lemma ComposeOneHourWord(hours: nat, minutes: nat, k: nat)
    requires hours < 12 && minutes < 60 && k < 12
    ensures Lit(Compose(hours, minutes), HourWord(k)) <==> k == ShownHour(hours, minutes)
  {
    var b := Buckets[minutes / 5];
    var shown := ShownHour(hours, minutes);
    WordsOfBucket(hours, minutes);
    BucketWordsAreNotHours(minutes / 5);
    var w := HourWord(k);
    assert w !in b.minuteWords + b.connective;
    assert w in Words(hours, minutes) <==> w == HourWord(shown);
    HourWordInjective(k, shown);
  }

  /** Which buckets the connective boundaries at minutes 5 and 35 fall between. */
  lemma BucketBounds(minutes: nat)
    requires minutes < 60
    ensures minutes < 5 <==> minutes / 5 == 0
    ensures 5 <= minutes < 35 <==> 1 <= minutes / 5 <= 6
    ensures 35 <= minutes <==> 7 <= minutes / 5
  {
  }

  /** The connective words of the phrase, on the word list. */
  lemma WordsConnective(hours: nat, minutes: nat)
    requires hours < 12 && minutes < 60
    ensures MINUTES_OCLOCK in Words(hours, minutes) <==> minutes < 5
    ensures CONSTRUCTORS_PAST in Words(hours, minutes) <==> 5 <= minutes < 35
    ensures CONSTRUCTORS_OF in Words(hours, minutes) <==> 35 <= minutes
  {
    WordsOfBucket(hours, minutes);
    BucketWordsAreNotHours(minutes / 5);
    BucketBounds(minutes);
  }

  /** The connective: none and "o'clock" below minute 5, "past" for 5..34,
      "of" for 35..59. */
  lemma ComposeConnective(hours: nat, minutes: nat)
    requires hours < 12 && minutes < 60
    ensures Lit(Compose(hours, minutes), MINUTES_OCLOCK) <==> minutes < 5
    ensures Lit(Compose(hours, minutes), CONSTRUCTORS_PAST) <==> 5 <= minutes < 35
    ensures Lit(Compose(hours, minutes), CONSTRUCTORS_OF) <==> 35 <= minutes
  {
    WordsConnective(hours, minutes);
  }

  /** No word of any phrase sits on bits 0..9. */
  lemma WordsAboveLowBits(hours: nat, minutes: nat, n: Pos)
    requires hours < 12 && n < 10
    ensures n !in Words(hours, minutes)
  {
    if minutes < 60 {
      WordsOfBucket(hours, minutes);
      BucketWordsAreNotHours(minutes / 5);
    } else {
      assert Words(hours, minutes) == [IT_IS];
    }
  }

  /** No composed target lights bits 0..9, which carry no word. */
  lemma ComposeLeavesLowBitsDark(hours: nat, minutes: nat, n: Pos)
    requires hours < 12 && n < 10
    ensures !Lit(Compose(hours, minutes), n)
  {
    WordsAboveLowBits(hours, minutes, n);
  }

  /** From minute 60 on no branch fires and only "it is" is lit. */
  lemma ComposePastSixty(hours: nat, minutes: nat)
    requires hours < 12 && minutes >= 60
    ensures LitSet(Compose(hours, minutes)) == {IT_IS}
  {
    assert Words(hours, minutes) == [IT_IS];
  }

  /** The display changes only at five-minute boundaries. */
  lemma ComposeSameBucket(hours: nat, m1: nat, m2: nat)
    requires hours < 12 && m1 < 60 && m2 < 60 && m1 / 5 == m2 / 5
    ensures Compose(hours, m1) == Compose(hours, m2)
  {
    ChainIsTable(hours, m1);
    ChainIsTable(hours, m2);
    FrameExt(Compose(hours, m1), Compose(hours, m2));
  }

  /** 2:37 reads "it is twenty five of three". */
  lemma TwoThirtySeven()
    ensures LitSet(Compose(2, 37)) ==
      {IT_IS, MINUTES_FIVE, MINUTES_TWENTY, CONSTRUCTORS_OF, HOUR_THREE}
  {
    var ws := [IT_IS, MINUTES_FIVE, MINUTES_TWENTY, CONSTRUCTORS_OF, HOUR_THREE];
    assert Words(2, 37) == ws;
    assert (set n | n in ws) == {IT_IS, MINUTES_FIVE, MINUTES_TWENTY, CONSTRUCTORS_OF, HOUR_THREE};
  }
}
