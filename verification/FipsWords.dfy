/** What the operations of FIPS 180-4 on words do to each of their 32 bits: sections 2.2.2 and 3.2. */
module FipsWords {
  import opened Words
  import opened Fips180

  /** Bit i of x, the least significant being bit 0. */
  function BitAt(x: nat, i: nat): (b: nat)
    ensures b <= 1
  {
    if i == 0 then x % 2 else BitAt(x / 2, i - 1)
  }

  lemma Halves(c: nat, b: nat)
    requires b <= 1
    ensures (2 * c + b) / 2 == c && (2 * c + b) % 2 == b
  {
  }

  lemma {:induction false} CombineBit(op: Bitwise, x: nat, y: nat, n: nat, i: nat)
    requires i < n
    ensures BitAt(Combine(op, x, y, n), i) == OnBits(op, BitAt(x, i), BitAt(y, i))
  {
    Halves(Combine(op, x / 2, y / 2, n - 1), OnBits(op, x % 2, y % 2));
    if i > 0 { CombineBit(op, x / 2, y / 2, n - 1, i - 1); }
  }

  lemma {:induction false} ComplementBit(x: nat, n: nat, i: nat)
    requires i < n && x < PowerOfTwo(n)
    ensures BitAt(PowerOfTwo(n) - 1 - x, i) == 1 - BitAt(x, i)
  {
    var q, b := x / 2, x % 2;
    Halves(PowerOfTwo(n - 1) - 1 - q, 1 - b);
    assert PowerOfTwo(n) - 1 - x == 2 * (PowerOfTwo(n - 1) - 1 - q) + (1 - b);
    if i > 0 { ComplementBit(q, n - 1, i - 1); }
  }

  /** AND, OR, XOR and complement work bit by bit. */
  lemma BitwiseIff(x: word, y: word, i: nat)
    requires i < 32
    ensures BitAt(And(x, y), i) == 1 <==> BitAt(x, i) == 1 && BitAt(y, i) == 1
    ensures BitAt(Or(x, y), i) == 1 <==> BitAt(x, i) == 1 || BitAt(y, i) == 1
    ensures BitAt(Xor(x, y), i) == 1 <==> BitAt(x, i) != BitAt(y, i)
    ensures BitAt(Not(x), i) == 1 <==> BitAt(x, i) == 0
  {
    hide BitAt, Combine;
    WordSize();
    CombineBit(BitAnd, x, y, 32, i);
    CombineBit(BitOr, x, y, 32, i);
    CombineBit(BitXor, x, y, 32, i);
    ComplementBit(x, 32, i);
  }

  /** There is nothing above the top bit. */
  lemma {:induction false} NoBitBeyond(x: nat, n: nat, i: nat)
    requires x < PowerOfTwo(n) && i >= n
    ensures BitAt(x, i) == 0
  {
    if n == 0 {
      if i > 0 { NoBitBeyond(0, 0, i - 1); }
    } else {
      NoBitBeyond(x / 2, n - 1, i - 1);
    }
  }

  lemma NoBitAbove(x: word, i: nat)
    requires i >= 32
    ensures BitAt(x, i) == 0
  {
    hide BitAt;
    WordSize();
    NoBitBeyond(x, 32, i);
  }

  lemma {:induction false} ShrBit(x: word, n: nat, i: nat)
    ensures BitAt(Shr(x, n), i) == BitAt(x, i + n)
  {
    if n > 0 { ShrBit(x / 2, n - 1, i); }
  }

  /** Taking the bit above them away leaves the low n bits as they are. */
  lemma {:induction false} WithoutTop(y: nat, n: nat, i: nat)
    requires y >= PowerOfTwo(n) && i < n
    ensures BitAt(y - PowerOfTwo(n), i) == BitAt(y, i)
  {
    var p, q, b := PowerOfTwo(n - 1), y / 2, y % 2;
    Halves(q - p, b);
    assert y - PowerOfTwo(n) == 2 * (q - p) + b;
    if i > 0 { WithoutTop(q, n - 1, i - 1); }
  }

  lemma DoubledBit(x: word, i: nat)
    requires i < 32
    ensures BitAt(2 * x % TWO_32, i) == if i == 0 then 0 else BitAt(x, i - 1)
  {
    hide PowerOfTwo;
    WordSize();
    Halves(x, 0);
    if 2 * x >= TWO_32 {
      WithoutTop(2 * x, 32, i);
      assert 2 * x % TWO_32 == 2 * x - TWO_32;
    }
  }

  lemma {:induction false} ShlBit(x: word, n: nat, i: nat)
    requires i < 32
    ensures BitAt(Shl(x, n), i) == if i < n then 0 else BitAt(x, i - n)
    decreases n
  {
    hide BitAt;
    if n > 0 {
      ShlBit(2 * x % TWO_32, n - 1, i);
      if i >= n - 1 { DoubledBit(x, i - (n - 1)); }
    }
  }

  /** A rotation to the right takes each bit from n places above, going round. */
  lemma RotrBit(x: word, n: nat, i: nat)
    requires 0 < n < 32 && i < 32
    ensures BitAt(Rotr(x, n), i) == BitAt(x, if i + n < 32 then i + n else i + n - 32)
  {
    hide BitAt, And, Or, Xor, Not, Shr, Shl;
    BitwiseIff(Shr(x, n), Shl(x, 32 - n), i);
    ShrBit(x, n, i);
    ShlBit(x, 32 - n, i);
    if i + n >= 32 { NoBitAbove(x, i + n); }
  }
}
