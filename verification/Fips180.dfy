/** SHA-256 as FIPS 180-4 states it. */
module Fips180 {
  import opened Words

  // ---------------------------------------------------------------- operations on words, section 2.2.2

  function PowerOfTwo(n: nat): nat { if n == 0 then 1 else 2 * PowerOfTwo(n - 1) }

  datatype Bitwise = BitAnd | BitOr | BitXor

  function OnBits(op: Bitwise, x: nat, y: nat): (b: nat)
    ensures b <= 1
  {
    match op
    case BitAnd => if x == 1 && y == 1 then 1 else 0
    case BitOr => if x == 1 || y == 1 then 1 else 0
    case BitXor => if x == y then 0 else 1
  }

  /** The low n bits of x and y, combined bit by bit. */
  function Combine(op: Bitwise, x: nat, y: nat, n: nat): (r: nat)
    ensures r < PowerOfTwo(n)
    decreases n
  {
    if n == 0 then 0 else 2 * Combine(op, x / 2, y / 2, n - 1) + OnBits(op, x % 2, y % 2)
  }

  lemma WordSize()
    ensures PowerOfTwo(32) == TWO_32
  {
    assert PowerOfTwo(8) == 0x100;
    assert PowerOfTwo(16) == 0x1_0000;
    assert PowerOfTwo(24) == 0x100_0000;
  }

  function Apply(op: Bitwise, x: word, y: word): word {
    WordSize();
    Combine(op, x, y, 32)
  }

  function And(x: word, y: word): word { Apply(BitAnd, x, y) }
  function Or(x: word, y: word): word { Apply(BitOr, x, y) }
  function Xor(x: word, y: word): word { Apply(BitXor, x, y) }
  function Not(x: word): word { TWO_32 - 1 - x }
  function Add(x: word, y: word): word { (x + y) % TWO_32 }

  function Shr(x: word, n: nat): (r: word)
    ensures r <= x
  {
    if n == 0 then x else Shr(x / 2, n - 1)
  }

  function Shl(x: word, n: nat): word
    decreases n
  {
    if n == 0 then x else Shl(2 * x % TWO_32, n - 1)
  }

  function Rotr(x: word, n: nat): word
    requires 0 < n < 32
  {
    Or(Shr(x, n), Shl(x, 32 - n))
  }

  // ---------------------------------------------------------------- functions and constants, sections 4.1.2 and 4.2.2

  function Ch(x: word, y: word, z: word): word { Xor(And(x, y), And(Not(x), z)) }
  function Maj(x: word, y: word, z: word): word { Xor(Xor(And(x, y), And(x, z)), And(y, z)) }
  function BigSigma0(x: word): word { Xor(Xor(Rotr(x, 2), Rotr(x, 13)), Rotr(x, 22)) }
  function BigSigma1(x: word): word { Xor(Xor(Rotr(x, 6), Rotr(x, 11)), Rotr(x, 25)) }
  function SmallSigma0(x: word): word { Xor(Xor(Rotr(x, 7), Rotr(x, 18)), Shr(x, 3)) }
  function SmallSigma1(x: word): word { Xor(Xor(Rotr(x, 17), Rotr(x, 19)), Shr(x, 10)) }

  const K: seq<word> :=
    [0x428a2f98, 0x71374491, 0xb5c0fbcf, 0xe9b5dba5, 0x3956c25b, 0x59f111f1, 0x923f82a4, 0xab1c5ed5] +
    [0xd807aa98, 0x12835b01, 0x243185be, 0x550c7dc3, 0x72be5d74, 0x80deb1fe, 0x9bdc06a7, 0xc19bf174] +
    [0xe49b69c1, 0xefbe4786, 0x0fc19dc6, 0x240ca1cc, 0x2de92c6f, 0x4a7484aa, 0x5cb0a9dc, 0x76f988da] +
    [0x983e5152, 0xa831c66d, 0xb00327c8, 0xbf597fc7, 0xc6e00bf3, 0xd5a79147, 0x06ca6351, 0x14292967] +
    [0x27b70a85, 0x2e1b2138, 0x4d2c6dfc, 0x53380d13, 0x650a7354, 0x766a0abb, 0x81c2c92e, 0x92722c85] +
    [0xa2bfe8a1, 0xa81a664b, 0xc24b8b70, 0xc76c51a3, 0xd192e819, 0xd6990624, 0xf40e3585, 0x106aa070] +
    [0x19a4c116, 0x1e376c08, 0x2748774c, 0x34b0bcb5, 0x391c0cb3, 0x4ed8aa4a, 0x5b9cca4f, 0x682e6ff3] +
    [0x748f82ee, 0x78a5636f, 0x84c87814, 0x8cc70208, 0x90befffa, 0xa4506ceb, 0xbef9a3f7, 0xc67178f2]

  lemma ConstantCount()
    ensures |K| == 64
  {
  }

  // ---------------------------------------------------------------- padding, section 5.1.1

  /** The least k with len + 1 + k bytes eight short of a multiple of 64. */
  function ZeroCount(len: nat): (k: nat)
    ensures k < 64 && (len + 9 + k) % 64 == 0
  {
    (55 - len) % 64
  }

  function Zeros(n: nat): (z: seq<byte>)
    ensures |z| == n && forall i | 0 <= i < n :: z[i] == 0
  {
    seq<byte>(n, _ => 0)
  }

  function Padded(m: seq<byte>): (p: seq<byte>)
    requires 8 * |m| < TWO_32 * TWO_32
    ensures |p| == |m| + 9 + ZeroCount(|m|)
  {
    m + [0x80] + Zeros(ZeroCount(|m|)) + BytesOf(8 * |m| / TWO_32) + BytesOf(8 * |m| % TWO_32)
  }

  /** What the standard asks of a padded message: the message, a one bit, the fewest zeros that make
      whole blocks of it, and the length in bits as the last 64. */
  lemma PaddedLayout(m: seq<byte>)
    requires 8 * |m| < TWO_32 * TWO_32
    ensures var p := Padded(m);
            && |p| % 64 == 0 && |m| + 9 <= |p| < |m| + 9 + 64
            && p[..|m|] == m && p[|m|] == 0x80
            && (forall i | |m| < i < |p| - 8 :: p[i] == 0)
            && BigEndian(p[|p| - 8..|p| - 4]) * TWO_32 + BigEndian(p[|p| - 4..]) == 8 * |m|
  {
    hide BytesOf, BigEndian;
    var n, k := |m|, ZeroCount(|m|);
    var head, hi, lo := m + [0x80] + Zeros(k), BytesOf(8 * n / TWO_32), BytesOf(8 * n % TWO_32);
    var p := Padded(m);
    assert p == head + hi + lo && |head| == n + 1 + k;
    forall i | n < i < |p| - 8 ensures p[i] == 0 { assert p[i] == head[i] == Zeros(k)[i - n - 1]; }
    assert p[|p| - 8..|p| - 4] == hi && p[|p| - 4..] == lo;
    BigEndianBytes(8 * n / TWO_32);
    BigEndianBytes(8 * n % TWO_32);
  }

  // ---------------------------------------------------------------- computation, section 6.2.2

  datatype Registers = Registers(a: word, b: word, c: word, d: word, e: word, f: word, g: word, h: word)

  const INITIAL := Registers(0x6a09e667, 0xbb67ae85, 0x3c6ef372, 0xa54ff53a, 0x510e527f, 0x9b05688c, 0x1f83d9ab, 0x5be0cd19)

  /** The first n words of the message schedule. */
  function Schedule(block: seq<word>, n: nat): (w: seq<word>)
    requires |block| == 16
    ensures |w| == n
  {
    if n <= 16 then block[..n]
    else
      var w := Schedule(block, n - 1);
      w + [Add(Add(Add(SmallSigma1(w[n - 3]), w[n - 8]), SmallSigma0(w[n - 16])), w[n - 17])]
  }

  function Round(r: Registers, k: word, w: word): Registers {
    var t1 := Add(Add(Add(Add(r.h, BigSigma1(r.e)), Ch(r.e, r.f, r.g)), k), w);
    var t2 := Add(BigSigma0(r.a), Maj(r.a, r.b, r.c));
    Registers(Add(t1, t2), r.a, r.b, r.c, Add(r.d, t1), r.e, r.f, r.g)
  }

  function Rounds(r: Registers, w: seq<word>, n: nat): Registers
    requires n <= |w| && n <= |K|
  {
    if n == 0 then r else Round(Rounds(r, w, n - 1), K[n - 1], w[n - 1])
  }

  function AddAll(x: Registers, y: Registers): Registers {
    Registers(Add(x.a, y.a), Add(x.b, y.b), Add(x.c, y.c), Add(x.d, y.d),
              Add(x.e, y.e), Add(x.f, y.f), Add(x.g, y.g), Add(x.h, y.h))
  }

  function Compress(r: Registers, block: seq<word>): Registers
    requires |block| == 16
  {
    ConstantCount();
    AddAll(r, Rounds(r, Schedule(block, 64), 64))
  }

  function WordsOf(b: seq<byte>, n: nat): (w: seq<word>)
    requires |b| >= 4 * n
    ensures |w| == n
  {
    if n == 0 then [] else WordsOf(b, n - 1) + [BigEndian(b[4 * n - 4..4 * n])]
  }

  function HashBlocks(p: seq<byte>, n: nat): Registers
    requires |p| >= 64 * n
  {
    if n == 0 then INITIAL else Compress(HashBlocks(p, n - 1), WordsOf(p[64 * n - 64..64 * n], 16))
  }

  function Output(r: Registers): (d: seq<byte>)
    ensures |d| == 32
  {
    BytesOf(r.a) + BytesOf(r.b) + BytesOf(r.c) + BytesOf(r.d) + BytesOf(r.e) + BytesOf(r.f) + BytesOf(r.g) + BytesOf(r.h)
  }

  /** The digest of a message of m bytes. */
  function Digest(m: seq<byte>): (d: seq<byte>)
    requires 8 * |m| < TWO_32 * TWO_32
    ensures |d| == 32
  {
    Output(HashBlocks(Padded(m), |Padded(m)| / 64))
  }
}
