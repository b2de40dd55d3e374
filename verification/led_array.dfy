/** The LED bit array: four shift-register bytes, one bit per word of the
    display. Position n lives in bit n % 8 of byte n / 8, as setArray and
    clearArray address it. */
module LedArray {

  /** An unsigned char seen as bits. */
  type Byte = bv8

  /** The four bytes clocked out to the shift registers. */
  type Frame = a: seq<Byte> | |a| == 4 witness [0, 0, 0, 0]

  /** A word position; only 0..31 address a bit inside the four bytes. */
  type Pos = n: nat | n < 32

  const Blank: Frame := [0x00, 0x00, 0x00, 0x00]
  const AllOn: Frame := [0xFF, 0xFF, 0xFF, 0xFF]

  /** Bit j of a byte, read as the source does: (b >> j) & 0x01. */
  predicate ByteBit(b: Byte, j: nat)
    requires j < 8
  {
    (b >> j) & 1 == 1
  }

  /** Whether the word at position n is lit in frame a. */
  predicate Lit(a: Frame, n: Pos) {
    ByteBit(a[n / 8], n % 8)
  }

  /** The words lit in a frame, as a set of positions. */
  function LitSet(a: Frame): set<nat> {
    set n: nat | n < 32 && Lit(a, n)
  }

  /** Two bytes that agree on all eight bits are equal. */
  lemma ByteExt(x: Byte, y: Byte)
    requires forall j: nat :: j < 8 ==> ByteBit(x, j) == ByteBit(y, j)
    ensures x == y
  {
    assert ByteBit(x, 0) == ByteBit(y, 0);
    assert ByteBit(x, 1) == ByteBit(y, 1);
    assert ByteBit(x, 2) == ByteBit(y, 2);
    assert ByteBit(x, 3) == ByteBit(y, 3);
    assert ByteBit(x, 4) == ByteBit(y, 4);
    assert ByteBit(x, 5) == ByteBit(y, 5);
    assert ByteBit(x, 6) == ByteBit(y, 6);
    assert ByteBit(x, 7) == ByteBit(y, 7);
  }

  /** Two frames that light the same words are the same four bytes. */
  lemma FrameExt(a: Frame, b: Frame)
    requires forall n: Pos :: Lit(a, n) == Lit(b, n)
    ensures a == b
  {
    forall i | 0 <= i < 4
      ensures a[i] == b[i]
    {
      forall j: nat | j < 8
        ensures ByteBit(a[i], j) == ByteBit(b[i], j)
      {
        var n: Pos := 8 * i + j;
        assert n / 8 == i && n % 8 == j;
        assert Lit(a, n) == Lit(b, n);
      }
      ByteExt(a[i], b[i]);
    }
  }

  /** Setting bit j of a byte sets that bit and keeps the seven others. */
  lemma SetBit(b: Byte, j: nat, k: nat)
    requires j < 8 && k < 8
    ensures ByteBit(b | (1 << j), k) == (k == j || ByteBit(b, k))
  {
  }

  /** Clearing bit j of a byte with 0xFF - (1 << j) clears that bit only. */
  lemma ClearBit(b: Byte, j: nat, k: nat)
    requires j < 8 && k < 8
    ensures ByteBit(b & (0xFF - (1 << j)), k) == (k != j && ByteBit(b, k))
  {
  }

  /** setArray: turn on the word at position n. */
  function SetArray(a: Frame, n: Pos): (r: Frame)
    ensures Lit(r, n)
    ensures forall m: Pos :: m != n ==> Lit(r, m) == Lit(a, m)
    ensures forall i :: 0 <= i < 4 && i != n / 8 ==> r[i] == a[i]
  {
    var r := a[n / 8 := a[n / 8] | (1 << (n % 8))];
    assert forall m: Pos :: Lit(r, m) == (m == n || Lit(a, m)) by {
      forall m: Pos
        ensures Lit(r, m) == (m == n || Lit(a, m))
      {
        if m / 8 == n / 8 {
          SetBit(a[n / 8], n % 8, m % 8);
        }
      }
    }
    r
  }

  lemma ClearArrayLit(a: Frame, n: Pos, r: Frame, m: Pos)
    requires r == a[n / 8 := a[n / 8] & (0xFF - (1 << (n % 8)))]
    ensures Lit(r, m) == (m != n && Lit(a, m))
  {
    if m / 8 == n / 8 {
      ClearBit(a[n / 8], n % 8, m % 8);
    }
  }

  /** clearArray: turn off the word at position n. */
  function ClearArray(a: Frame, n: Pos): (r: Frame)
    ensures !Lit(r, n)
    ensures forall m: Pos :: m != n ==> Lit(r, m) == Lit(a, m)
    ensures forall i :: 0 <= i < 4 && i != n / 8 ==> r[i] == a[i]
  {
    var r := a[n / 8 := a[n / 8] & (0xFF - (1 << (n % 8)))];
    assert forall m: Pos :: Lit(r, m) == (m != n && Lit(a, m)) by {
      forall m: Pos {
        ClearArrayLit(a, n, r, m);
      }
    }
    r
  }

  /** Setting a word twice is the same as setting it once. */
  lemma SetArrayIdempotent(a: Frame, n: Pos)
    ensures SetArray(SetArray(a, n), n) == SetArray(a, n)
  {
    FrameExt(SetArray(SetArray(a, n), n), SetArray(a, n));
  }

  /** Setting then clearing a word is clearing it; clearing then setting is setting it. */
  lemma SetClearOverride(a: Frame, n: Pos)
    ensures ClearArray(SetArray(a, n), n) == ClearArray(a, n)
    ensures SetArray(ClearArray(a, n), n) == SetArray(a, n)
  {
    FrameExt(ClearArray(SetArray(a, n), n), ClearArray(a, n));
    FrameExt(SetArray(ClearArray(a, n), n), SetArray(a, n));
  }

  lemma AndBit(x: Byte, y: Byte, j: nat)
    requires j < 8
    ensures ByteBit(x & y, j) == (ByteBit(x, j) && ByteBit(y, j))
  {
  }

  lemma OrBit(x: Byte, y: Byte, j: nat)
    requires j < 8
    ensures ByteBit(x | y, j) == (ByteBit(x, j) || ByteBit(y, j))
  {
  }

  lemma ComplementBit(x: Byte, j: nat)
    requires j < 8
    ensures ByteBit(0xFF - x, j) == !ByteBit(x, j)
  {
  }

  /** A frame whose every byte is the AND of two others lights the common words. */
  lemma AndLit(a: Frame, b: Frame, r: Frame, n: Pos)
    requires forall i :: 0 <= i < 4 ==> r[i] == a[i] & b[i]
    ensures Lit(r, n) == (Lit(a, n) && Lit(b, n))
  {
    var i, j := n / 8, n % 8;
    AndBit(a[i], b[i], j);
  }

  /** A frame whose every byte is the OR of two others lights the words of either. */
  lemma OrLit(a: Frame, b: Frame, r: Frame, n: Pos)
    requires forall i :: 0 <= i < 4 ==> r[i] == a[i] | b[i]
    ensures Lit(r, n) == (Lit(a, n) || Lit(b, n))
  {
    var i, j := n / 8, n % 8;
    OrBit(a[i], b[i], j);
  }

  /** A frame whose every byte is 0xFF minus another's lights the other words. */
  lemma ComplementLit(a: Frame, r: Frame, n: Pos)
    requires forall i :: 0 <= i < 4 ==> r[i] == 0xFF - a[i]
    ensures Lit(r, n) == !Lit(a, n)
  {
    var i, j := n / 8, n % 8;
    ComplementBit(a[i], j);
  }

  /** Byte-wise AND of two frames, as the CCP2 handler and switchFades compute it. */
  function And(a: Frame, b: Frame): (r: Frame)
    ensures forall n: Pos :: Lit(r, n) == (Lit(a, n) && Lit(b, n))
  {
    var r: Frame := seq(4, i requires 0 <= i < 4 => a[i] & b[i]);
    assert forall n: Pos :: Lit(r, n) == (Lit(a, n) && Lit(b, n)) by {
      forall n: Pos {
        AndLit(a, b, r, n);
      }
    }
    r
  }

  /** Byte-wise OR of two frames. */
  function Or(a: Frame, b: Frame): (r: Frame)
    ensures forall n: Pos :: Lit(r, n) == (Lit(a, n) || Lit(b, n))
  {
    var r: Frame := seq(4, i requires 0 <= i < 4 => a[i] | b[i]);
    assert forall n: Pos :: Lit(r, n) == (Lit(a, n) || Lit(b, n)) by {
      forall n: Pos {
        OrLit(a, b, r, n);
      }
    }
    r
  }

  /** Byte-wise 0xFF - x, the complement the source writes as a subtraction. */
  function Complement(a: Frame): (r: Frame)
    ensures forall n: Pos :: Lit(r, n) == !Lit(a, n)
  {
    var r: Frame := seq(4, i requires 0 <= i < 4 => 0xFF - a[i]);
    assert forall n: Pos :: Lit(r, n) == !Lit(a, n) by {
      forall n: Pos {
        ComplementLit(a, r, n);
      }
    }
    r
  }

  lemma BlankLitsNothing()
    ensures forall n: Pos :: !Lit(Blank, n)
    ensures LitSet(Blank) == {}
  {
  }
}
