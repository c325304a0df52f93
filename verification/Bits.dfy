/** The bits of a word. */
module Bits {
  import opened Isa

  function And(x: Word, y: Word): Word { x & y }

  function Or(x: Word, y: Word): Word { x | y }

  /** The word whose only bit is `k`. */
  function One(k: nat): Word
    requires k < 32
  {
    1 << k
  }

  predicate Bit(x: Word, k: nat)
    requires k < 32
  {
    And(x, One(k)) != 0
  }

  /** A bit number as a word. */
  function Place(k: nat): Word
    requires k < 32
  {
    k as bv32
  }

  lemma OneBit(x: Word, k: nat)
    requires k < 32
    ensures And(x, One(k)) == 0 || And(x, One(k)) == One(k)
  {
  }

  lemma AndOfAnd(x: Word, y: Word, p: Word)
    ensures And(And(x, y), p) == And(And(x, p), And(y, p))
  {
  }

  lemma AndOfOr(x: Word, y: Word, p: Word)
    ensures And(Or(x, y), p) == Or(And(x, p), And(y, p))
  {
  }

  lemma AndWith(x: Word)
    ensures And(0, x) == 0 && And(x, 0) == 0 && And(x, x) == x
  {
  }

  lemma OrIsZero(x: Word, y: Word)
    ensures Or(x, y) == 0 <==> x == 0 && y == 0
  {
  }

  lemma BothBits(x: Word, y: Word, k: nat)
    requires k < 32
    ensures Bit(And(x, y), k) <==> Bit(x, k) && Bit(y, k)
  {
    hide And, One;
    OneBit(x, k);
    OneBit(y, k);
    AndOfAnd(x, y, One(k));
    AndWith(And(x, One(k)));
    AndWith(And(y, One(k)));
  }

  lemma EitherBit(x: Word, y: Word, k: nat)
    requires k < 32
    ensures Bit(Or(x, y), k) <==> Bit(x, k) || Bit(y, k)
  {
    hide And, Or, One;
    AndOfOr(x, y, One(k));
    OrIsZero(And(x, One(k)), And(y, One(k)));
  }

  lemma NoBitOfByte0(x: Word)
    requires forall k: nat :: 0 <= k < 8 ==> !Bit(x, k)
    ensures And(x, 0xFF) == 0
  {
    assert !Bit(x, 0) && !Bit(x, 1) && !Bit(x, 2) && !Bit(x, 3);
    assert !Bit(x, 4) && !Bit(x, 5) && !Bit(x, 6) && !Bit(x, 7);
  }

  lemma NoBitOfByte1(x: Word)
    requires forall k: nat :: 8 <= k < 16 ==> !Bit(x, k)
    ensures And(x, 0xFF00) == 0
  {
    assert !Bit(x, 8) && !Bit(x, 9) && !Bit(x, 10) && !Bit(x, 11);
    assert !Bit(x, 12) && !Bit(x, 13) && !Bit(x, 14) && !Bit(x, 15);
  }

  lemma NoBitOfByte2(x: Word)
    requires forall k: nat :: 16 <= k < 24 ==> !Bit(x, k)
    ensures And(x, 0xFF_0000) == 0
  {
    assert !Bit(x, 16) && !Bit(x, 17) && !Bit(x, 18) && !Bit(x, 19);
    assert !Bit(x, 20) && !Bit(x, 21) && !Bit(x, 22) && !Bit(x, 23);
  }

  lemma NoBitOfByte3(x: Word)
    requires forall k: nat :: 24 <= k < 32 ==> !Bit(x, k)
    ensures And(x, 0xFF00_0000) == 0
  {
    assert !Bit(x, 24) && !Bit(x, 25) && !Bit(x, 26) && !Bit(x, 27);
    assert !Bit(x, 28) && !Bit(x, 29) && !Bit(x, 30) && !Bit(x, 31);
  }

  lemma NoBytes(x: Word)
    requires And(x, 0xFF) == 0 && And(x, 0xFF00) == 0 && And(x, 0xFF_0000) == 0 && And(x, 0xFF00_0000) == 0
    ensures x == 0
  {
  }

  /** Only zero has no bits. */
  lemma NoBit(x: Word)
    requires forall k: nat :: k < 32 ==> !Bit(x, k)
    ensures x == 0
  {
    hide And, Bit;
    NoBitOfByte0(x);
    NoBitOfByte1(x);
    NoBitOfByte2(x);
    NoBitOfByte3(x);
    NoBytes(x);
  }

  lemma ZeroHasNoBit(k: nat)
    requires k < 32
    ensures !Bit(0, k)
  {
  }

  lemma BitOne(x: Word)
    ensures Bit(x, 1) <==> x & 0x2 != 0
  {
  }

  lemma BitFive(k: nat)
    requires k < 32
    ensures Bit(0x20, k) <==> k == 5
  {
  }

  lemma BitNine(k: nat)
    requires k < 32
    ensures Bit(0x200, k) <==> k == 9
  {
  }
}
