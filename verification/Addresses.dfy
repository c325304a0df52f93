/** The addresses that a memory answers for, as numbers: the comparisons and the subtraction of the address
    decoder, on words, mean what they do on numbers. */
module Addresses {
  import opened Isa
  import opened BusParts

  /** One more than the highest address. */
  const SPACE := 0x1_0000_0000

  // ---- Words as numbers ------------------------------------------------------------------------

  function Half(x: Word): Word { x >> 1 }

  function Low(x: Word): nat { if x & 1 == 1 then 1 else 0 }

  lemma HalfIsSmaller(x: Word)
    requires x != 0
    ensures Half(x) < x
  {
  }

  /** The number that the bits of a word stand for. */
  function Number(x: Word): nat
    decreases x
  {
    if x == 0 then 0
    else
      HalfIsSmaller(x);
      2 * Number(Half(x)) + Low(x)
  }

  lemma Halves(x: Word)
    ensures Number(x) == 2 * Number(Half(x)) + Low(x)
  {
    if x == 0 {
      assert Half(x) == 0 && Low(x) == 0;
    }
  }

  lemma Bits(x: Word, y: Word)
    requires Half(x) == Half(y) && Low(x) == Low(y)
    ensures x == y
  {
  }

  lemma {:induction false} ZeroNumber(x: Word)
    requires Number(x) == 0
    ensures x == 0
    decreases x
  {
    if x != 0 {
      HalfIsSmaller(x);
      Halves(x);
      ZeroNumber(Half(x));
      NoBits(x);
    }
  }

  lemma NoBits(x: Word)
    requires Half(x) == 0 && Low(x) == 0
    ensures x == 0
  {
  }

  lemma {:induction false} SameNumber(x: Word, y: Word)
    requires Number(x) == Number(y)
    ensures x == y
    decreases x
  {
    hide Half, Low, Number;
    Halves(x);
    Halves(y);
    if x == 0 {
      NumberOfZero();
      ZeroNumber(y);
    } else {
      HalfIsSmaller(x);
      LowIsBit(x);
      LowIsBit(y);
      SameNumber(Half(x), Half(y));
      Bits(x, y);
    }
  }

  lemma NumberOfZero()
    ensures Number(0) == 0
  {
  }

  lemma LowIsBit(x: Word)
    ensures Low(x) <= 1
  {
  }

  /** Halving a word other than zero makes its number smaller. */
  lemma HalfNumber(x: Word)
    requires x != 0
    ensures Number(Half(x)) < Number(x)
  {
    hide Half, Low, Number;
    Halves(x);
    if Number(x) == 0 {
      ZeroNumber(x);
    }
  }

  // ---- Order ---------------------------------------------------------------------------------------

  lemma HalfOrder(x: Word, y: Word)
    requires Below(Half(x), Half(y))
    ensures Below(x, y)
  {
  }

  lemma LowOrder(x: Word, y: Word)
    requires x >> 1 == y >> 1 && (x & 1) < (y & 1)
    ensures x < y
  {
  }

  lemma LowBits(x: Word, y: Word)
    ensures (x & 1) < (y & 1) <==> Low(x) < Low(y)
  {
  }

  lemma LastBitOrder(x: Word, y: Word)
    requires Half(x) == Half(y) && Low(x) < Low(y)
    ensures Below(x, y)
  {
    hide Low;
    LowBits(x, y);
    LowOrder(x, y);
  }

  lemma OneOrder(x: Word, y: Word)
    requires Below(x, y)
    ensures !Below(y, x)
  {
  }

  /** Words compare as their numbers do. */
  lemma {:induction false} OrderOfNumbers(x: Word, y: Word)
    ensures Below(x, y) <==> Number(x) < Number(y)
    decreases Number(x) + Number(y)
  {
    hide Half, Low, Number, Below;
    if x == 0 || y == 0 {
      ZeroOrder(x, y);
    } else {
      HalfNumber(x);
      HalfNumber(y);
      Halves(x);
      Halves(y);
      LowIsBit(x);
      LowIsBit(y);
      OrderOfNumbers(Half(x), Half(y));
      OrderOfNumbers(Half(y), Half(x));
      OrderByHalves(x, y);
      if Half(x) != Half(y) {
        NumbersDiffer(Half(x), Half(y));
      }
    }
  }

  lemma OrderByHalves(x: Word, y: Word)
    ensures Half(x) == Half(y) ==> (Below(x, y) <==> Low(x) < Low(y))
    ensures Below(Half(x), Half(y)) ==> Below(x, y)
    ensures Below(Half(y), Half(x)) ==> !Below(x, y)
  {
    hide Half, Low, Below;
    if Half(x) == Half(y) {
      if Low(x) == Low(y) {
        Bits(x, y);
        NotBelowItself(x);
      } else if Low(x) < Low(y) {
        LastBitOrder(x, y);
      } else {
        LastBitOrder(y, x);
        OneOrder(y, x);
      }
    }
    if Below(Half(x), Half(y)) {
      HalfOrder(x, y);
    }
    if Below(Half(y), Half(x)) {
      HalfOrder(y, x);
      OneOrder(y, x);
    }
  }

  lemma NotBelowItself(x: Word)
    ensures !Below(x, x)
  {
  }

  lemma NumbersDiffer(x: Word, y: Word)
    requires x != y
    ensures Number(x) != Number(y)
  {
    hide Number;
    if Number(x) == Number(y) {
      SameNumber(x, y);
    }
  }

  lemma ZeroOrder(x: Word, y: Word)
    requires x == 0 || y == 0
    ensures Below(x, y) <==> Number(x) < Number(y)
  {
    NumberOfZero();
    if y != 0 {
      NumbersDiffer(y, 0);
    }
  }

  // ---- Sums and differences ------------------------------------------------------------------------

  predicate Top(x: Word) { !x == 0 }

  lemma EvenNext(x: Word)
    requires Low(x) == 0
    ensures Half(Plus(x, 1)) == Half(x) && Low(Plus(x, 1)) == 1
  {
  }

  lemma OddNext(x: Word)
    requires Low(x) == 1 && !Top(x)
    ensures Half(Plus(x, 1)) == Plus(Half(x), 1) && Low(Plus(x, 1)) == 0
  {
  }

  lemma HalfIsNotTop(x: Word)
    ensures !Top(Half(x))
  {
  }

  lemma {:induction false} NextNumber(x: Word)
    requires !Top(x)
    ensures Number(Plus(x, 1)) == Number(x) + 1
    decreases Number(x)
  {
    hide Half, Low, Number, Plus, Top;
    Halves(x);
    Halves(Plus(x, 1));
    LowIsBit(x);
    if Low(x) == 0 {
      EvenNext(x);
    } else {
      HalfIsNotTop(x);
      OddNext(x);
      NextNumber(Half(x));
    }
  }

  function Power(n: nat): nat { if n == 0 then 1 else 2 * Power(n - 1) }

  lemma HalfOfOnes(x: Word, k: Word)
    requires k < 32 && x == 0xFFFF_FFFF >> k
    ensures Low(x) == 1 && Half(x) == 0xFFFF_FFFF >> (k + 1)
  {
  }

  lemma {:induction false} OnesNumber(x: Word, k: Word, n: nat)
    requires k <= 32 && x == 0xFFFF_FFFF >> k && Steps(k, n)
    ensures Number(x) == Power(n) - 1
    decreases n
  {
    hide Half, Low;
    if n > 0 {
      Halves(x);
      HalfOfOnes(x, k);
      OnesNumber(Half(x), k + 1, n - 1);
    }
  }

  /** `n` steps lead from `k` to 32. */
  predicate Steps(k: Word, n: nat)
    decreases n
  {
    if n == 0 then k == 32 else k < 32 && Steps(k + 1, n - 1)
  }

  /** The highest address. */
  lemma TopNumber(x: Word)
    requires Top(x)
    ensures Number(x) == SPACE - 1
  {
    hide Number;
    ThirtyTwo();
    assert x == 0xFFFF_FFFF >> 0;
    OnesNumber(x, 0, 32);
  }

  lemma ThirtyTwo()
    ensures Steps(0, 32) && Power(32) == SPACE
  {
    assert Steps(24, 8) && Power(8) == 256;
    assert Steps(16, 16) && Power(16) == 0x1_0000;
    assert Steps(8, 24) && Power(24) == 0x100_0000;
  }

  lemma Before(o: Word)
    requires o != 0
    ensures !Top(o - 1) && Plus(o - 1, 1) == o
  {
  }

  lemma Regroup(s: Word, o: Word)
    ensures Plus(Plus(s, o - 1), 1) == Plus(s, o)
  {
  }

  /** A sum that stays in the address space is the sum of the numbers. */
  lemma {:induction false} SumOfNumbers(s: Word, o: Word)
    requires Number(s) + Number(o) < SPACE
    ensures Number(Plus(s, o)) == Number(s) + Number(o)
    decreases Number(o)
  {
    hide Number, Plus, Top;
    if o == 0 {
      NumberOfZero();
      PlusZero(s);
    } else {
      var p := o - 1;
      Before(o);
      NextNumber(p);
      SumOfNumbers(s, p);
      if Top(Plus(s, p)) {
        TopNumber(Plus(s, p));
      }
      NextNumber(Plus(s, p));
      Regroup(s, o);
    }
  }

  lemma PlusZero(s: Word)
    ensures Plus(s, 0) == s && Minus(s, s) == 0
  {
  }

  lemma RegroupMinus(a: Word, s: Word)
    ensures Plus(Minus(a - 1, s), 1) == Minus(a, s)
  {
  }

  /** A difference that is not negative is the difference of the numbers. */
  lemma {:induction false} DifferenceOfNumbers(a: Word, s: Word)
    requires Number(s) <= Number(a)
    ensures Number(Minus(a, s)) == Number(a) - Number(s)
    decreases Number(a)
  {
    hide Number, Plus, Minus, Top;
    if a == s {
      NumberOfZero();
      PlusZero(s);
    } else {
      NumbersDiffer(a, s);
      NumberOfZero();
      var b := a - 1;
      Before(a);
      NextNumber(b);
      DifferenceOfNumbers(b, s);
      RegroupMinus(a, s);
      if Top(Minus(b, s)) {
        TopNumber(Minus(b, s));
        NumberInSpace(a);
      }
      NextNumber(Minus(b, s));
    }
  }

  lemma NumberInSpace(a: Word)
    ensures Number(a) < SPACE
  {
    hide Number, Below;
    var top: Word := 0xFFFF_FFFF;
    TopNumber(top);
    OrderOfNumbers(top, a);
    NothingAbove(a);
  }

  lemma NothingAbove(a: Word)
    ensures !Below(0xFFFF_FFFF, a)
  {
  }

  // ---- The address range of a memory -------------------------------------------------------------------

  /** The range ends below the end of the address space. */
  predicate Fits(r: Range) { Number(r.start) + Number(r.size) < SPACE }

  /** A memory answers for exactly the `size` addresses from its start on. */
  lemma HitIffInside(r: Range, a: Word)
    requires Fits(r)
    ensures r.Hit(a) <==> Number(r.start) <= Number(a) < Number(r.start) + Number(r.size)
  {
    hide Number, Below, Plus;
    OrderOfNumbers(a, r.start);
    SumOfNumbers(r.start, r.size);
    OrderOfNumbers(a, Plus(r.start, r.size));
  }

  function LaneNumber(k: bv2): nat { if k == 0 then 0 else if k == 1 then 1 else if k == 2 then 2 else 3 }

  lemma LaneBits(d: Word)
    ensures 2 * Low(Half(d)) + Low(d) == LaneNumber(Offset(d))
  {
  }

  lemma IndexHalves(a: Word, start: Word)
    requires start & 3 == 0
    ensures WordIndex(a, start) == Half(Half(Minus(a, start))) && Offset(Minus(a, start)) == Offset(a)
  {
  }

  /** The byte `n` places above the start is in the word n / 4, in the lane n % 4: each byte has its own. */
  lemma WordOfByte(r: Range, a: Word)
    requires r.Aligned() && Number(r.start) <= Number(a)
    ensures Number(a) - Number(r.start) == 4 * Number(r.Index(a)) + LaneNumber(Offset(a)) && LaneNumber(Offset(a)) < 4
  {
    hide Number, Half, Low, Minus, LaneNumber, Offset, WordIndex;
    var d := Minus(a, r.start);
    DifferenceOfNumbers(a, r.start);
    Halves(d);
    Halves(Half(d));
    LaneBits(d);
    IndexHalves(a, r.start);
    FourLanes(Offset(a));
  }

  lemma FourLanes(k: bv2)
    ensures LaneNumber(k) < 4
  {
  }

  /** An address from the start on hits exactly when its word is one of the size / 4 words of the memory. */
  lemma HitIffWord(r: Range, a: Word)
    requires r.Aligned() && Fits(r) && Number(r.size) % 4 == 0
    ensures r.Hit(a) <==> Number(r.start) <= Number(a) && Number(r.Index(a)) < Number(r.size) / 4
  {
    hide Number, LaneNumber, Offset, WordIndex, Range.Hit;
    HitIffInside(r, a);
    if Number(r.start) <= Number(a) {
      WordOfByte(r, a);
    }
  }

  /** No two bytes of a memory share their word and their lane. */
  lemma OneByteEach(r: Range, a: Word, b: Word)
    requires r.Aligned() && Fits(r) && r.Hit(a) && r.Hit(b) && r.Index(a) == r.Index(b) && Offset(a) == Offset(b)
    ensures a == b
  {
    hide Number, LaneNumber, Offset, WordIndex, Range.Hit;
    HitIffInside(r, a);
    HitIffInside(r, b);
    WordOfByte(r, a);
    WordOfByte(r, b);
    SameNumber(a, b);
  }
}
