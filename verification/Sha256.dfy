/** sha256Bytes: the same digest, computed in place with the language's 32-bit operators, whose
    results are signed except for >>>. A number is an integer here; the operators read it
    modulo 2^32. */
module Sha256 {
  import opened Words
  import F = Fips180

  // ---------------------------------------------------------------- 32-bit operators on numbers

  function ToUint32(x: int): word { x % TWO_32 }

  function ToInt32(x: int): int {
    if x % TWO_32 >= 0x8000_0000 then x % TWO_32 - TWO_32 else x % TWO_32
  }

  function BitAnd(x: int, y: int): int { ToInt32(F.And(ToUint32(x), ToUint32(y))) }
  function BitOr(x: int, y: int): int { ToInt32(F.Or(ToUint32(x), ToUint32(y))) }
  function BitXor(x: int, y: int): int { ToInt32(F.Xor(ToUint32(x), ToUint32(y))) }
  function BitNot(x: int): int { -x - 1 }
  function ShiftLeft(x: int, n: nat): int { ToInt32(F.Shl(ToUint32(x), n)) }
  function ShiftRightZero(x: int, n: nat): int { F.Shr(ToUint32(x), n) }

  lemma SignedIsSame(x: int)
    ensures ToUint32(ToInt32(x)) == ToUint32(x)
  {
  }

  lemma SumIsAdd(x: int, y: int)
    ensures ToUint32(x + y) == F.Add(ToUint32(x), ToUint32(y))
  {
  }

  lemma NotIsNot(x: int)
    ensures ToUint32(BitNot(x)) == F.Not(ToUint32(x))
  {
  }

  /** rotr. */
  function RotateRight(x: int, n: nat): int
    requires n < 32
  {
    BitOr(ShiftRightZero(x, n), ShiftLeft(x, 32 - n))
  }

  lemma RotateIsRotr(x: int, n: nat)
    requires 0 < n < 32
    ensures ToUint32(RotateRight(x, n)) == F.Rotr(ToUint32(x), n)
  {
    hide F.Or, F.Shl, F.Shr, ToInt32;
    SignedIsSame(F.Shl(ToUint32(x), 32 - n));
    SignedIsSame(F.Or(F.Shr(ToUint32(x), n), F.Shl(ToUint32(x), 32 - n)));
  }

  function Xor3(x: int, y: int, z: int): int { BitXor(BitXor(x, y), z) }

  lemma Xor3IsXor(x: int, y: int, z: int)
    ensures ToUint32(Xor3(x, y, z)) == F.Xor(F.Xor(ToUint32(x), ToUint32(y)), ToUint32(z))
  {
    hide F.Xor, ToInt32;
    SignedIsSame(F.Xor(ToUint32(x), ToUint32(y)));
    SignedIsSame(F.Xor(ToUint32(BitXor(x, y)), ToUint32(z)));
  }

  lemma ChIsCh(e: int, f: int, g: int)
    ensures ToUint32(BitXor(BitAnd(e, f), BitAnd(BitNot(e), g))) == F.Ch(ToUint32(e), ToUint32(f), ToUint32(g))
  {
    hide F.Xor, F.And, F.Not, ToInt32, BitNot;
    NotIsNot(e);
    SignedIsSame(F.And(ToUint32(e), ToUint32(f)));
    SignedIsSame(F.And(ToUint32(BitNot(e)), ToUint32(g)));
    SignedIsSame(F.Xor(ToUint32(BitAnd(e, f)), ToUint32(BitAnd(BitNot(e), g))));
  }

  lemma MajIsMaj(a: int, b: int, c: int)
    ensures ToUint32(Xor3(BitAnd(a, b), BitAnd(a, c), BitAnd(b, c))) == F.Maj(ToUint32(a), ToUint32(b), ToUint32(c))
  {
    hide F.Xor, F.And, ToInt32, Xor3;
    SignedIsSame(F.And(ToUint32(a), ToUint32(b)));
    SignedIsSame(F.And(ToUint32(a), ToUint32(c)));
    SignedIsSame(F.And(ToUint32(b), ToUint32(c)));
    Xor3IsXor(BitAnd(a, b), BitAnd(a, c), BitAnd(b, c));
  }

  // ---------------------------------------------------------------- the padded length

  /** (((len + 8) >> 6) + 1) << 6, where >> and << are signed. */
  function PaddedLength(len: nat): int {
    ShiftLeftSix(ToInt32(len + 8) / 64 + 1)
  }

  function ShiftLeftSix(x: int): int { ToInt32(ToUint32(x) * 64) }

  predicate LeastPadding(len: nat, p: int) {
    p % 64 == 0 && p >= len + 9 && p - 64 < len + 9
  }

  /** The length is the least multiple of 64 that leaves room for the marker and the bit count,
      for exactly the lengths below 2^31 - 72; from there on the signed shift overflows. */
  lemma PaddedLengthIff(len: nat)
    ensures LeastPadding(len, PaddedLength(len)) <==> len < 0x8000_0000 - 72
  {
    hide PaddedLength;
    if len < 0x8000_0000 - 72 { PadsShort(len); } else { PadsNoLong(len); }
  }

  lemma PadsShort(len: nat)
    requires len < 0x8000_0000 - 72
    ensures LeastPadding(len, PaddedLength(len))
  {
    hide ToInt32, ToUint32;
    var q := (len + 8) / 64;
    Unchanged(len + 8);
    Unchanged(q + 1);
    Unchanged((q + 1) * 64);
  }

  lemma Unchanged(x: nat)
    requires x < 0x8000_0000
    ensures ToInt32(x) == x && ToUint32(x) == x
  {
  }

  lemma PadsNoLong(len: nat)
    requires len >= 0x8000_0000 - 72
    ensures !LeastPadding(len, PaddedLength(len))
  {
    assert PaddedLength(len) < 0x8000_0000;
  }

  // ---------------------------------------------------------------- the loops

  /** setUint32, big-endian. */
  method SetUint32(a: array<byte>, off: nat, x: int)
    requires off + 4 <= a.Length
    modifies a
    ensures a[..] == old(a[..off]) + BytesOf(ToUint32(x)) + old(a[off + 4..])
  {
    var w := ToUint32(x);
    a[off], a[off + 1], a[off + 2], a[off + 3] := w / 0x100_0000, w / 0x1_0000 % 256, w / 256 % 256, w % 256;
  }

  method Pad(data: seq<byte>) returns (padded: array<byte>)
    requires |data| < 0x8000_0000 - 72
    ensures fresh(padded) && padded[..] == F.Padded(data)
  {
    PaddedLengthIff(|data|);
    var bitLen := |data| * 8;
    var paddedLen := PaddedLength(|data|);
    PaddedLengthIsPadded(|data|);
    padded := new byte[paddedLen](i => if 0 <= i < |data| then data[i] else if i == |data| then 0x80 else 0);
    ghost var k := F.ZeroCount(|data|);
    assert padded[..] == data + [0x80] + F.Zeros(k + 8);
    SetUint32(padded, paddedLen - 8, bitLen / TWO_32);
    SetUint32(padded, paddedLen - 4, bitLen);
    PaddedParts(data, padded[..]);
  }

  lemma PaddedLengthIsPadded(len: nat)
    requires LeastPadding(len, PaddedLength(len))
    ensures PaddedLength(len) == len + 9 + F.ZeroCount(len)
  {
  }

  lemma PaddedParts(data: seq<byte>, p: seq<byte>)
    requires |data| < 0x8000_0000
    requires var n := |data| + 1 + F.ZeroCount(|data|);
             p == ((data + [0x80] + F.Zeros(F.ZeroCount(|data|) + 8))[..n] + BytesOf(ToUint32(|data| * 8 / TWO_32))
                  + [0, 0, 0, 0])[..n + 4] + BytesOf(ToUint32(|data| * 8))
    ensures p == F.Padded(data)
  {
    hide BytesOf, F.ZeroCount, F.Zeros;
    var k := F.ZeroCount(|data|);
    CountWords(|data|);
    PaddedJoin(data + [0x80], k, BytesOf(8 * |data| / TWO_32));
  }

  lemma CountWords(len: nat)
    requires len < 0x8000_0000
    ensures 8 * len / TWO_32 < TWO_32 && ToUint32(len * 8 / TWO_32) == 8 * len / TWO_32 && ToUint32(len * 8) == 8 * len % TWO_32
  {
  }

  lemma PaddedJoin(m: seq<byte>, k: nat, high: seq<byte>)
    requires |high| == 4
    ensures ((m + F.Zeros(k + 8))[..|m| + k] + high + [0, 0, 0, 0])[..|m| + k + 4] == m + F.Zeros(k) + high
  {
    assert F.Zeros(k + 8)[..k] == F.Zeros(k);
    assert (m + F.Zeros(k + 8))[..|m| + k] == m + F.Zeros(k);
  }

  lemma {:induction false} WordsAt(b: seq<byte>, n: nat, i: nat)
    requires |b| >= 4 * n && i < n
    ensures F.WordsOf(b, n)[i] == BigEndian(b[4 * i..4 * i + 4])
    decreases n
  {
    if i < n - 1 { WordsAt(b, n - 1, i); }
  }

  lemma ScheduleStep(block: seq<word>, n: nat, w: seq<word>)
    requires |block| == 16 && 16 <= n < |w| && w[..n] == F.Schedule(block, n)
    requires w[n] == F.Add(F.Add(F.Add(F.SmallSigma1(w[n - 2]), w[n - 7]), F.SmallSigma0(w[n - 15])), w[n - 16])
    ensures w[..n + 1] == F.Schedule(block, n + 1)
  {
    hide F.Add, F.SmallSigma0, F.SmallSigma1;
    var v := w[..n];
    assert w[..n + 1] == v + [w[n]];
  }

  function SigmaZero(x: word): int { Xor3(RotateRight(x, 7), RotateRight(x, 18), ShiftRightZero(x, 3)) }

  function SigmaOne(x: word): int { Xor3(RotateRight(x, 17), RotateRight(x, 19), ShiftRightZero(x, 10)) }

  lemma WordIsItself(x: word)
    ensures ToUint32(x) == x
  {
  }

  lemma SigmaZeroIsSigma(x: word)
    ensures ToUint32(SigmaZero(x)) == F.SmallSigma0(x)
  {
    hide ToInt32, ToUint32, Xor3, RotateRight, F.Rotr, F.Xor, F.Shr;
    WordIsItself(x);
    RotateIsRotr(x, 7);
    RotateIsRotr(x, 18);
    WordIsItself(F.Shr(x, 3));
    Xor3IsXor(RotateRight(x, 7), RotateRight(x, 18), ShiftRightZero(x, 3));
  }

  lemma SigmaOneIsSigma(x: word)
    ensures ToUint32(SigmaOne(x)) == F.SmallSigma1(x)
  {
    hide ToInt32, ToUint32, Xor3, RotateRight, F.Rotr, F.Xor, F.Shr;
    WordIsItself(x);
    RotateIsRotr(x, 17);
    RotateIsRotr(x, 19);
    WordIsItself(F.Shr(x, 10));
    Xor3IsXor(RotateRight(x, 17), RotateRight(x, 19), ShiftRightZero(x, 10));
  }

  /** One new word of the schedule, as the loop computes it. */
  function Extended(w16: word, w15: word, w7: word, w2: word): int {
    ToInt32(w16 + SigmaZero(w15) + w7 + SigmaOne(w2))
  }

  lemma ExtendedIsScheduled(w16: word, w15: word, w7: word, w2: word)
    ensures ToUint32(Extended(w16, w15, w7, w2)) == F.Add(F.Add(F.Add(F.SmallSigma1(w2), w7), F.SmallSigma0(w15)), w16)
  {
    hide ToInt32, ToUint32, SigmaZero, SigmaOne, F.SmallSigma0, F.SmallSigma1, F.Add;
    SigmaZeroIsSigma(w15);
    SigmaOneIsSigma(w2);
    WordIsItself(w16);
    WordIsItself(w7);
    SumOfFour(w16, SigmaZero(w15), w7, SigmaOne(w2));
  }

  lemma SumOfFour(a: int, b: int, c: int, d: int)
    ensures ToUint32(ToInt32(a + b + c + d))
            == F.Add(F.Add(F.Add(ToUint32(d), ToUint32(c)), ToUint32(b)), ToUint32(a))
  {
    hide ToInt32, ToUint32, F.Add;
    SignedIsSame(a + b + c + d);
    SumIsAdd(d, c);
    SumIsAdd(d + c, b);
    SumIsAdd(d + c + b, a);
    assert d + c + b + a == a + b + c + d;
  }

  /** The two loops that fill the schedule. */
  method Expand(padded: array<byte>, off: nat, w: array<word>)
    requires off + 64 <= padded.Length && w.Length == 64
    modifies w
    ensures w[..] == F.Schedule(F.WordsOf(padded[off..off + 64], 16), 64)
  {
    hide F.Schedule, Extended, F.SmallSigma0, F.SmallSigma1, F.Add, ToUint32, BigEndian;
    ghost var block := F.WordsOf(padded[off..off + 64], 16);
    for i := 0 to 16
      invariant forall j | 0 <= j < i :: w[j] == block[j]
    {
      WordsAt(padded[off..off + 64], 16, i);
      assert padded[off..off + 64][4 * i..4 * i + 4] == padded[off + i * 4..off + i * 4 + 4];
      w[i] := BigEndian(padded[off + i * 4..off + i * 4 + 4]);
    }
    assert w[..16] == block;
    ScheduleStart(block);
    for i := 16 to 64
      invariant w[..i] == F.Schedule(block, i)
    {
      ghost var before := w[..i];
      ExtendedIsScheduled(w[i - 16], w[i - 15], w[i - 7], w[i - 2]);
      w[i] := ToUint32(Extended(w[i - 16], w[i - 15], w[i - 7], w[i - 2]));
      assert w[..i] == before;
      ScheduleStep(block, i, w[..]);
      assert w[..][..i + 1] == w[..i + 1] && w[..][..i] == w[..i];
    }
    assert w[..64] == w[..];
  }

  lemma ScheduleStart(block: seq<word>)
    requires |block| == 16
    ensures F.Schedule(block, 16) == block
  {
    assert block[..16] == block;
  }

  /** One round's two sums, as the loop computes them. */
  function FirstSum(h: int, e: int, f: int, g: int, k: word, w: word): int {
    var S1 := Xor3(RotateRight(e, 6), RotateRight(e, 11), RotateRight(e, 25));
    var ch := BitXor(BitAnd(e, f), BitAnd(BitNot(e), g));
    ToInt32(h + S1 + ch + k + w)
  }

  function SecondSum(a: int, b: int, c: int): int {
    var S0 := Xor3(RotateRight(a, 2), RotateRight(a, 13), RotateRight(a, 22));
    var maj := Xor3(BitAnd(a, b), BitAnd(a, c), BitAnd(b, c));
    ToInt32(S0 + maj)
  }

  lemma FirstSumIsT1(h: int, e: int, f: int, g: int, k: word, w: word)
    ensures ToUint32(FirstSum(h, e, f, g, k, w))
            == F.Add(F.Add(F.Add(F.Add(ToUint32(h), F.BigSigma1(ToUint32(e))),
                                 F.Ch(ToUint32(e), ToUint32(f), ToUint32(g))), k), w)
  {
    hide ToInt32, F.Add, F.Ch, Xor3, BitXor, BitAnd, RotateRight, F.Rotr, F.Xor;
    var S1 := Xor3(RotateRight(e, 6), RotateRight(e, 11), RotateRight(e, 25));
    var ch := BitXor(BitAnd(e, f), BitAnd(BitNot(e), g));
    RotateIsRotr(e, 6);
    RotateIsRotr(e, 11);
    RotateIsRotr(e, 25);
    Xor3IsXor(RotateRight(e, 6), RotateRight(e, 11), RotateRight(e, 25));
    ChIsCh(e, f, g);
    SumIsAdd(h, S1);
    SumIsAdd(h + S1, ch);
    SumIsAdd(h + S1 + ch, k);
    SumIsAdd(h + S1 + ch + k, w);
    SignedIsSame(h + S1 + ch + k + w);
  }

  lemma SecondSumIsT2(a: int, b: int, c: int)
    ensures ToUint32(SecondSum(a, b, c)) == F.Add(F.BigSigma0(ToUint32(a)), F.Maj(ToUint32(a), ToUint32(b), ToUint32(c)))
  {
    hide ToInt32, F.Add, F.Maj, Xor3, BitAnd, RotateRight, F.Rotr, F.Xor;
    var S0 := Xor3(RotateRight(a, 2), RotateRight(a, 13), RotateRight(a, 22));
    var maj := Xor3(BitAnd(a, b), BitAnd(a, c), BitAnd(b, c));
    RotateIsRotr(a, 2);
    RotateIsRotr(a, 13);
    RotateIsRotr(a, 22);
    Xor3IsXor(RotateRight(a, 2), RotateRight(a, 13), RotateRight(a, 22));
    MajIsMaj(a, b, c);
    SumIsAdd(S0, maj);
    SignedIsSame(S0 + maj);
  }

  function RegistersOf(a: int, b: int, c: int, d: int, e: int, f: int, g: int, h: int): F.Registers {
    F.Registers(ToUint32(a), ToUint32(b), ToUint32(c), ToUint32(d), ToUint32(e), ToUint32(f), ToUint32(g), ToUint32(h))
  }

  lemma RoundIsRound(a: int, b: int, c: int, d: int, e: int, f: int, g: int, h: int, k: word, w: word)
    ensures var t1, t2 := FirstSum(h, e, f, g, k, w), SecondSum(a, b, c);
            RegistersOf(ToInt32(t1 + t2), a, b, c, ToInt32(d + t1), e, f, g) == F.Round(RegistersOf(a, b, c, d, e, f, g, h), k, w)
  {
    hide FirstSum, SecondSum, ToInt32, ToUint32, F.Add, F.BigSigma0, F.BigSigma1, F.Ch, F.Maj;
    var t1, t2 := FirstSum(h, e, f, g, k, w), SecondSum(a, b, c);
    FirstSumIsT1(h, e, f, g, k, w);
    SecondSumIsT2(a, b, c);
    SumIsAdd(t1, t2);
    SignedIsSame(t1 + t2);
    SumIsAdd(d, t1);
    SignedIsSame(d + t1);
  }

  /** The loop of 64 rounds. */
  method Rounds(w: array<word>, h0: int, h1: int, h2: int, h3: int, h4: int, h5: int, h6: int, h7: int)
    returns (a: int, b: int, c: int, d: int, e: int, f: int, g: int, h: int)
    requires w.Length == 64 && |F.K| == 64
    ensures RegistersOf(a, b, c, d, e, f, g, h) == F.Rounds(RegistersOf(h0, h1, h2, h3, h4, h5, h6, h7), w[..], 64)
  {
    hide FirstSum, SecondSum, RegistersOf, F.Round;
    a, b, c, d, e, f, g, h := h0, h1, h2, h3, h4, h5, h6, h7;
    for i := 0 to 64
      invariant RegistersOf(a, b, c, d, e, f, g, h) == F.Rounds(RegistersOf(h0, h1, h2, h3, h4, h5, h6, h7), w[..], i)
    {
      var t1 := FirstSum(h, e, f, g, F.K[i], w[i]);
      var t2 := SecondSum(a, b, c);
      RoundIsRound(a, b, c, d, e, f, g, h, F.K[i], w[i]);
      h := g;
      g := f;
      f := e;
      e := ToInt32(d + t1);
      d := c;
      c := b;
      b := a;
      a := ToInt32(t1 + t2);
    }
  }

  lemma AddAllIsAdd(a: int, b: int, c: int, d: int, e: int, f: int, g: int, h: int,
                    a': int, b': int, c': int, d': int, e': int, f': int, g': int, h': int)
    ensures RegistersOf(ToInt32(a + a'), ToInt32(b + b'), ToInt32(c + c'), ToInt32(d + d'),
                        ToInt32(e + e'), ToInt32(f + f'), ToInt32(g + g'), ToInt32(h + h'))
            == F.AddAll(RegistersOf(a, b, c, d, e, f, g, h), RegistersOf(a', b', c', d', e', f', g', h'))
  {
    hide ToInt32, ToUint32, F.Add;
    SumSame(a, a');
    SumSame(b, b');
    SumSame(c, c');
    SumSame(d, d');
    SumSame(e, e');
    SumSame(f, f');
    SumSame(g, g');
    SumSame(h, h');
  }

  lemma SumSame(x: int, y: int)
    ensures ToUint32(ToInt32(x + y)) == F.Add(ToUint32(x), ToUint32(y))
  {
    SignedIsSame(x + y);
    SumIsAdd(x, y);
  }

  lemma InitialRegisters()
    ensures RegistersOf(0x6a09e667, 0xbb67ae85, 0x3c6ef372, 0xa54ff53a, 0x510e527f, 0x9b05688c, 0x1f83d9ab, 0x5be0cd19)
            == F.INITIAL
  {
  }

  /** The loop over 64-byte blocks. */
  method HashBlocks(padded: array<byte>)
    returns (h0: int, h1: int, h2: int, h3: int, h4: int, h5: int, h6: int, h7: int)
    requires padded.Length % 64 == 0
    ensures RegistersOf(h0, h1, h2, h3, h4, h5, h6, h7) == F.HashBlocks(padded[..], padded.Length / 64)
  {
    hide RegistersOf, F.AddAll, F.Rounds, F.Schedule, F.WordsOf, ToInt32;
    h0, h1, h2, h3 := 0x6a09e667, 0xbb67ae85, 0x3c6ef372, 0xa54ff53a;
    h4, h5, h6, h7 := 0x510e527f, 0x9b05688c, 0x1f83d9ab, 0x5be0cd19;
    InitialRegisters();
    F.ConstantCount();
    var w := new word[64];
    ghost var n := 0;
    var off := 0;
    while off < padded.Length
      invariant off == 64 * n <= padded.Length
      invariant RegistersOf(h0, h1, h2, h3, h4, h5, h6, h7) == F.HashBlocks(padded[..], n)
    {
      Expand(padded, off, w);
      var a, b, c, d, e, f, g, h := Rounds(w, h0, h1, h2, h3, h4, h5, h6, h7);
      assert padded[..][64 * (n + 1) - 64..64 * (n + 1)] == padded[off..off + 64];
      AddAllIsAdd(h0, h1, h2, h3, h4, h5, h6, h7, a, b, c, d, e, f, g, h);
      h0, h1, h2, h3 := ToInt32(h0 + a), ToInt32(h1 + b), ToInt32(h2 + c), ToInt32(h3 + d);
      h4, h5, h6, h7 := ToInt32(h4 + e), ToInt32(h5 + f), ToInt32(h6 + g), ToInt32(h7 + h);
      off, n := off + 64, n + 1;
    }
  }

  /** setUint32 after what has been written already. */
  method Store(a: array<byte>, off: nat, x: int, ghost before: seq<byte>)
    requires off + 4 <= a.Length && a[..off] == before
    modifies a
    ensures a[..off + 4] == before + BytesOf(ToUint32(x))
  {
    SetUint32(a, off, x);
  }

  /** sha256Bytes. The length bound is the one PaddedLengthIff finds; beyond it the original
      cannot allocate its buffer. */
  method Sha256Bytes(data: seq<byte>) returns (out: array<byte>)
    requires |data| < 0x8000_0000 - 72
    ensures fresh(out) && out[..] == F.Digest(data)
  {
    hide RegistersOf, F.HashBlocks, F.Padded, BytesOf, ToUint32;
    var padded := Pad(data);
    var h0, h1, h2, h3, h4, h5, h6, h7 := HashBlocks(padded);
    out := new byte[32];
    Store(out, 0, h0, []);
    Store(out, 4, h1, out[..4]);
    Store(out, 8, h2, out[..8]);
    Store(out, 12, h3, out[..12]);
    Store(out, 16, h4, out[..16]);
    Store(out, 20, h5, out[..20]);
    Store(out, 24, h6, out[..24]);
    Store(out, 28, h7, out[..28]);
    assert out[..] == out[..32];
    OutputOf(h0, h1, h2, h3, h4, h5, h6, h7);
  }

  lemma OutputOf(a: int, b: int, c: int, d: int, e: int, f: int, g: int, h: int)
    ensures F.Output(RegistersOf(a, b, c, d, e, f, g, h))
            == BytesOf(ToUint32(a)) + BytesOf(ToUint32(b)) + BytesOf(ToUint32(c)) + BytesOf(ToUint32(d))
               + BytesOf(ToUint32(e)) + BytesOf(ToUint32(f)) + BytesOf(ToUint32(g)) + BytesOf(ToUint32(h))
  {
  }
}
