/** Canonical base64 (RFC 4648, section 4) and unpadded base64url (section 5).
    The source's shifts and masks act on non-negative values below 2^24 only, so they are
    written as division and remainder by powers of two. */
module Base64 {
  import opened Wrappers
  import Words

  type Byte = Words.byte

  /** A six-bit group, or PAD. */
  type Symbol = n: int | -1 <= n < 64 witness 0

  const PAD: Symbol := -1

  /** Table 1 of RFC 4648. */
  function Letter(n: Symbol): char {
    if n == PAD then '='
    else if n < 26 then ('A' as int + n) as char
    else if n < 52 then ('a' as int + n - 26) as char
    else if n < 62 then ('0' as int + n - 52) as char
    else if n == 62 then '+' else '/'
  }

  predicate IsLetter(c: char) {
    'A' <= c <= 'Z' || 'a' <= c <= 'z' || '0' <= c <= '9' || c == '+' || c == '/'
  }

  /** B64_REVERSE[c]; PAD for every other character. */
  function SymbolOf(c: char): Symbol {
    if 'A' <= c <= 'Z' then c as int - 'A' as int
    else if 'a' <= c <= 'z' then c as int - 'a' as int + 26
    else if '0' <= c <= '9' then c as int - '0' as int + 52
    else if c == '+' then 62 else if c == '/' then 63 else PAD
  }

  lemma SymbolOfLetter(n: Symbol)
    ensures SymbolOf(Letter(n)) == n && (IsLetter(Letter(n)) <==> n != PAD)
  {
  }

  lemma LetterOfSymbol(c: char)
    ensures IsLetter(c) || c == '=' ==> Letter(SymbolOf(c)) == c
    ensures IsLetter(c) <==> SymbolOf(c) != PAD
  {
  }

  /** B64_REVERSE[c] ?? 0. */
  function Bits(n: Symbol): nat { if n == PAD then 0 else n }

  // ---------------------------------------------------------------- specification

  /** One to three octets as six-bit groups, most significant bit first; zero bits fill the
      last group and PAD stands for each missing octet. */
  function Quad(b: seq<Byte>): (q: seq<Symbol>)
    requires 1 <= |b| <= 3
    ensures |q| == 4
  {
    if |b| == 1 then [b[0] / 4, b[0] % 4 * 16, PAD, PAD]
    else if |b| == 2 then [b[0] / 4, b[0] % 4 * 16 + b[1] / 16, b[1] % 16 * 4, PAD]
    else [b[0] / 4, b[0] % 4 * 16 + b[1] / 16, b[1] % 16 * 4 + b[2] / 64, b[2] % 64]
  }

  function Groups(b: seq<Byte>): seq<Symbol> {
    if b == [] then [] else if |b| <= 3 then Quad(b) else Quad(b[..3]) + Groups(b[3..])
  }

  /** Three octets from four groups, PAD read as zero. */
  function Trio(q: seq<Symbol>): (b: seq<Byte>)
    requires |q| == 4
    ensures |b| == 3
  {
    var w, x, y, z := Bits(q[0]), Bits(q[1]), Bits(q[2]), Bits(q[3]);
    [w * 4 + x / 16, x % 16 * 16 + y / 4, y % 4 * 64 + z]
  }

  function Octets(q: seq<Symbol>): seq<Byte> {
    if |q| < 4 then [] else Trio(q[..4]) + Octets(q[4..])
  }

  /** base64Encode's value. */
  function Encode(b: seq<Byte>): string { Letters(Groups(b)) }

  function Letters(q: seq<Symbol>): (s: string)
    ensures |s| == |q|
  {
    seq(|q|, i requires 0 <= i < |q| => Letter(q[i]))
  }

  function Symbols(s: string): (q: seq<Symbol>)
    ensures |q| == |s|
  {
    seq(|s|, i requires 0 <= i < |s| => SymbolOf(s[i]))
  }

  function PadOf(s: string): nat {
    if |s| >= 2 && s[|s| - 1] == '=' && s[|s| - 2] == '=' then 2
    else if |s| >= 1 && s[|s| - 1] == '=' then 1 else 0
  }

  /** base64Decode's value: the octets of every group of four, less one per pad character. */
  function Decode(s: string): (b: seq<Byte>)
    requires |s| % 4 == 0
    ensures |b| == |s| / 4 * 3 - PadOf(s)
  {
    OctetsLength(Symbols(s));
    Octets(Symbols(s))[..|s| / 4 * 3 - PadOf(s)]
  }

  /** The pattern of whole four-character groups with at most one padded group at the end. */
  predicate IsShape(s: string) {
    && |s| % 4 == 0
    && forall i | 0 <= i < |s| - PadOf(s) :: IsLetter(s[i])
  }

  predicate IsCanonical(s: string) {
    s != [] && IsShape(s) && Encode(Decode(s)) == s
  }

  // ---------------------------------------------------------------- octets and groups

  function Zeros(n: nat): (z: seq<Byte>)
    ensures |z| == n
  {
    seq(n, _ => 0)
  }

  /** How many octets short of a whole group b is. */
  function Missing(n: nat): nat {
    if n == 0 then 0 else if n <= 3 then 3 - n else Missing(n - 3)
  }

  lemma {:induction false} GroupsLength(b: seq<Byte>)
    ensures 3 * |Groups(b)| == 4 * (|b| + Missing(|b|))
    ensures Missing(|b|) <= 2
    ensures |Groups(b)| % 4 == 0
  {
    if |b| > 3 { GroupsLength(b[3..]); }
  }

  lemma {:induction false} OctetsCount(q: seq<Symbol>, k: nat)
    requires 4 * k <= |q| < 4 * k + 4
    ensures |Octets(q)| == 3 * k
  {
    if k > 0 { OctetsCount(q[4..], k - 1); }
  }

  lemma OctetsLength(q: seq<Symbol>)
    ensures |Octets(q)| == |q| / 4 * 3
  {
    OctetsCount(q, |q| / 4);
  }

  lemma TrioOfQuad(b: seq<Byte>)
    requires 1 <= |b| <= 3
    ensures Trio(Quad(b)) == b + Zeros(3 - |b|)
  {
  }

  lemma GroupsStep(b: seq<Byte>)
    requires |b| > 3
    ensures Groups(b)[..4] == Quad(b[..3]) && Groups(b)[4..] == Groups(b[3..])
  {
  }

  lemma OctetsOfGroupsStep(b: seq<Byte>)
    requires |b| > 3
    ensures Octets(Groups(b)) == b[..3] + Octets(Groups(b[3..]))
  {
    GroupsStep(b);
    TrioOfQuad(b[..3]);
  }

  lemma {:induction false} OctetsOfGroups(b: seq<Byte>)
    ensures Octets(Groups(b)) == b + Zeros(Missing(|b|))
  {
    if |b| > 3 {
      OctetsOfGroupsStep(b);
      OctetsOfGroups(b[3..]);
      assert b == b[..3] + b[3..];
    } else if b != [] {
      TrioOfQuad(b);
      assert Quad(b)[..4] == Quad(b) && Quad(b)[4..] == [];
    }
  }

  /** A group carries PAD exactly in its last Missing(|b|) places. */
  lemma {:induction false} GroupsPads(b: seq<Byte>, i: nat)
    requires i < |Groups(b)|
    ensures Groups(b)[i] == PAD <==> i >= |Groups(b)| - Missing(|b|)
  {
    if |b| > 3 {
      GroupsLength(b[3..]);
      if i >= 4 {
        GroupsPads(b[3..], i - 4);
        GroupsStep(b);
        assert Groups(b)[i] == Groups(b)[4..][i - 4];
      }
    }
  }

  lemma SymbolsOfLetters(q: seq<Symbol>)
    ensures Symbols(Letters(q)) == q
  {
    forall i | 0 <= i < |q| ensures Symbols(Letters(q))[i] == q[i] { SymbolOfLetter(q[i]); }
  }

  lemma EncodeShape(b: seq<Byte>)
    ensures IsShape(Encode(b)) && PadOf(Encode(b)) == Missing(|b|)
    ensures 3 * |Encode(b)| == 4 * (|b| + Missing(|b|))
  {
    var q, s := Groups(b), Encode(b);
    GroupsLength(b);
    forall i | 0 <= i < |s|
      ensures (s[i] == '=' <==> i >= |s| - Missing(|b|)) && (s[i] == '=' <==> !IsLetter(s[i]))
    {
      GroupsPads(b, i);
      SymbolOfLetter(q[i]);
    }
  }

  /** decode(encode(b)) is b, for every byte string. */
  lemma DecodeEncode(b: seq<Byte>)
    ensures |Encode(b)| % 4 == 0 && Decode(Encode(b)) == b
  {
    EncodeShape(b);
    SymbolsOfLetters(Groups(b));
    OctetsOfGroups(b);
  }

  /** A string is accepted exactly when it is the encoding of some non-empty byte string,
      and then of one only. */
  lemma CanonicalIffEncoding(s: string)
    ensures IsCanonical(s) <==> exists b: seq<Byte> {:trigger Encode(b)} :: b != [] && s == Encode(b)
    ensures forall b: seq<Byte> {:trigger Encode(b)} ::
              b != [] && s == Encode(b) ==> |s| % 4 == 0 && Decode(s) == b
  {
    forall b: seq<Byte> {:trigger Encode(b)} | b != [] && s == Encode(b)
      ensures IsCanonical(s) && Decode(s) == b
    {
      DecodeEncode(b);
      EncodeShape(b);
    }
    assert Encode([]) == [];
  }

  // ---------------------------------------------------------------- the source's loops

  /** base64Encode: one 24-bit word per iteration. */
  method EncodeLoop(bytes: seq<Byte>) returns (out: string)
    ensures out == Encode(bytes)
  {
    out := "";
    var i := 0;
    assert bytes[0..] == bytes;
    while i < |bytes|
      invariant Encode(bytes) == out + EncodeFrom(bytes, i)
      decreases |bytes| - i
    {
      var b0: nat := bytes[i];
      var b1: nat := if i + 1 < |bytes| then bytes[i + 1] else 0;
      var b2: nat := if i + 2 < |bytes| then bytes[i + 2] else 0;
      var triple: nat := b0 * 65536 + b1 * 256 + b2;
      var chunk := [Letter(triple / 262144 % 64), Letter(triple / 4096 % 64)];
      chunk := chunk + [if i + 1 < |bytes| then Letter(triple / 64 % 64) else '='];
      chunk := chunk + [if i + 2 < |bytes| then Letter(triple % 64) else '='];
      EncodeChunk(bytes, i, chunk);
      Associative(out, chunk, EncodeFrom(bytes, i + 3));
      out := out + chunk;
      i := i + 3;
    }
  }

  lemma Associative(a: string, b: string, c: string)
    ensures a + (b + c) == (a + b) + c
  {
  }

  function EncodeFrom(bytes: seq<Byte>, i: nat): string {
    if i < |bytes| then Encode(bytes[i..]) else []
  }

  /** What one iteration of the encoder appends. */
  predicate IsChunk(bytes: seq<Byte>, i: nat, chunk: string)
    requires i < |bytes|
  {
    var b0: nat := bytes[i];
    var b1: nat := if i + 1 < |bytes| then bytes[i + 1] else 0;
    var b2: nat := if i + 2 < |bytes| then bytes[i + 2] else 0;
    var triple: nat := b0 * 65536 + b1 * 256 + b2;
    chunk == [Letter(triple / 262144 % 64), Letter(triple / 4096 % 64),
              if i + 1 < |bytes| then Letter(triple / 64 % 64) else '=',
              if i + 2 < |bytes| then Letter(triple % 64) else '=']
  }

  lemma EncodeChunk(bytes: seq<Byte>, i: nat, chunk: string)
    requires i < |bytes| && IsChunk(bytes, i, chunk)
    ensures EncodeFrom(bytes, i) == chunk + EncodeFrom(bytes, i + 3)
  {
    var rest := bytes[i..];
    if |rest| > 3 {
      ChunkIsQuad(rest[..3], chunk);
      LettersConcat(Quad(rest[..3]), Groups(rest[3..]));
      assert rest[3..] == bytes[i + 3..];
    } else {
      ChunkIsQuad(rest, chunk);
    }
  }

  lemma LettersConcat(p: seq<Symbol>, q: seq<Symbol>)
    ensures Letters(p + q) == Letters(p) + Letters(q)
  {
  }

  lemma ChunkIsQuad(head: seq<Byte>, chunk: string)
    requires 1 <= |head| <= 3 && IsChunk(head, 0, chunk)
    ensures chunk == Letters(Quad(head))
  {
    var b1 := if 1 < |head| then head[1] else 0;
    var b2 := if 2 < |head| then head[2] else 0;
    WordGroups(head[0], b1, b2);
  }

  /** Splitting a number at a power of two, given both parts. */
  lemma Split(t: nat, d: nat, hi: nat, lo: nat)
    requires lo < d && t == d * hi + lo
    ensures t / d == hi && t % d == lo
  {
    var k, r := t / d, t % d;
    assert d * (k - hi) == lo - r;
    Multiple(d, k - hi);
  }

  lemma Multiple(d: nat, x: int)
    ensures x >= 1 ==> d * x >= d
    ensures x <= -1 ==> d * x + d <= 0
  {
    if x >= 1 { assert d * (x - 1) >= 0; }
    if x <= -1 { assert d * (-1 - x) >= 0; }
  }

  lemma WordGroups(b0: nat, b1: nat, b2: nat)
    requires b0 < 256 && b1 < 256 && b2 < 256
    ensures var t := b0 * 65536 + b1 * 256 + b2;
            && t / 262144 % 64 == b0 / 4 && t / 4096 % 64 == b0 % 4 * 16 + b1 / 16
            && t / 64 % 64 == b1 % 16 * 4 + b2 / 64 && t % 64 == b2 % 64
  {
    var t := b0 * 65536 + b1 * 256 + b2;
    var u, v, p, r, m, n := b0 / 4, b0 % 4, b1 / 16, b1 % 16, b2 / 64, b2 % 64;
    Split(t, 262144, u, v * 65536 + b1 * 256 + b2);
    Split(t, 4096, 16 * b0 + p, r * 256 + b2);
    Split(16 * b0 + p, 64, u, 16 * v + p);
    Split(t, 64, 1024 * b0 + 4 * b1 + m, n);
    Split(1024 * b0 + 4 * b1 + m, 64, 16 * b0 + p, 4 * r + m);
    Split(u, 64, 0, u);
  }

  lemma WordOctets(w: nat, x: nat, y: nat, z: nat)
    requires w < 64 && x < 64 && y < 64 && z < 64
    ensures var t := w * 262144 + x * 4096 + y * 64 + z;
            && t / 65536 % 256 == w * 4 + x / 16 && t / 256 % 256 == x % 16 * 16 + y / 4
            && t % 256 == y % 4 * 64 + z
  {
    var t := w * 262144 + x * 4096 + y * 64 + z;
    var p, r, m, n := x / 16, x % 16, y / 4, y % 4;
    Split(t, 65536, 4 * w + p, 4096 * r + 64 * y + z);
    Split(4 * w + p, 256, 0, 4 * w + p);
    Split(t, 256, 1024 * w + 16 * x + m, 64 * n + z);
    Split(1024 * w + 16 * x + m, 256, 4 * w + p, 16 * r + m);
  }

  /** if (offset < outLen) out[offset++] = octet, where all lists the octets to be written. */
  method Store(out: array<Byte>, offset: nat, octet: Byte, ghost all: seq<Byte>) returns (next: nat)
    requires offset <= out.Length && (offset < out.Length ==> offset < |all| && all[offset] == octet)
    requires offset <= |all| && out[..offset] == all[..offset]
    modifies out
    ensures next == if offset < out.Length then offset + 1 else offset
    ensures next <= |all| && out[..next] == all[..next]
  {
    next := offset;
    if offset < out.Length {
      out[offset] := octet;
      next := offset + 1;
    }
  }

  /** base64Decode: octets written in place until the declared length is reached. */
  method DecodeLoop(canonical: string) returns (out: array<Byte>)
    requires |canonical| % 4 == 0
    ensures out[..] == Decode(canonical)
  {
    var outLen := |canonical| / 4 * 3 - PadOf(canonical);
    out := new Byte[outLen](_ => 0);
    var offset := 0;
    var i := 0;
    ghost var q := Symbols(canonical);
    ghost var k := 0;
    OctetsLength(q);
    while i < |canonical|
      invariant i == 4 * k && i <= |canonical|
      invariant offset == if 3 * k <= outLen then 3 * k else outLen
      invariant offset <= |Octets(q)| && out[..offset] == Octets(q)[..offset]
    {
      var a, b := Bits(SymbolOf(canonical[i])), Bits(SymbolOf(canonical[i + 1]));
      var c, d := Bits(SymbolOf(canonical[i + 2])), Bits(SymbolOf(canonical[i + 3]));
      var triple: nat := a * 262144 + b * 4096 + c * 64 + d;
      WordAt(q, k, triple);
      ghost var all := Octets(q);
      offset := Store(out, offset, triple / 65536 % 256, all);
      offset := Store(out, offset, triple / 256 % 256, all);
      offset := Store(out, offset, triple % 256, all);
      i, k := i + 4, k + 1;
    }
    assert out[..] == out[..offset];
  }

  lemma WordAt(q: seq<Symbol>, k: nat, triple: nat)
    requires 4 * k + 4 <= |q|
    requires triple == Bits(q[4 * k]) * 262144 + Bits(q[4 * k + 1]) * 4096
                       + Bits(q[4 * k + 2]) * 64 + Bits(q[4 * k + 3])
    ensures |Octets(q)| >= 3 * k + 3
    ensures Octets(q)[3 * k] == triple / 65536 % 256
    ensures Octets(q)[3 * k + 1] == triple / 256 % 256
    ensures Octets(q)[3 * k + 2] == triple % 256
  {
    OctetsAt(q, k);
    WordOctets(Bits(q[4 * k]), Bits(q[4 * k + 1]), Bits(q[4 * k + 2]), Bits(q[4 * k + 3]));
  }

  lemma {:induction false} OctetsTrio(q: seq<Symbol>, k: nat)
    requires 4 * k + 4 <= |q|
    ensures |Octets(q)| >= 3 * k + 3 && Octets(q)[3 * k..3 * k + 3] == Trio(q[4 * k..4 * k + 4])
  {
    hide Trio;
    if k > 0 {
      var rest := q[4..];
      OctetsTrio(rest, k - 1);
      assert rest[4 * (k - 1)..4 * (k - 1) + 4] == q[4 * k..4 * k + 4];
      assert Octets(q)[3 * k..3 * k + 3] == Octets(rest)[3 * (k - 1)..3 * (k - 1) + 3];
    }
  }

  lemma OctetsAt(q: seq<Symbol>, k: nat)
    requires 4 * k + 4 <= |q|
    ensures |Octets(q)| >= 3 * k + 3
    ensures var w, x, y, z := Bits(q[4 * k]), Bits(q[4 * k + 1]), Bits(q[4 * k + 2]), Bits(q[4 * k + 3]);
            && Octets(q)[3 * k] == w * 4 + x / 16
            && Octets(q)[3 * k + 1] == x % 16 * 16 + y / 4
            && Octets(q)[3 * k + 2] == y % 4 * 64 + z
  {
    hide Bits, Octets;
    OctetsTrio(q, k);
    var t := Octets(q)[3 * k..3 * k + 3];
    assert t[0] == Octets(q)[3 * k] && t[1] == Octets(q)[3 * k + 1] && t[2] == Octets(q)[3 * k + 2];
  }

  // ---------------------------------------------------------------- zero pad bits

  lemma QuadOfTrio(q: seq<Symbol>, pad: nat)
    requires |q| == 4 && pad <= 2 && forall i | 0 <= i < 4 :: q[i] == PAD <==> i >= 4 - pad
    ensures Quad(Trio(q)[..3 - pad]) == q <==>
              && (pad == 1 ==> q[2] % 4 == 0)
              && (pad == 2 ==> q[1] % 16 == 0)
  {
    var w, x, y, z := Bits(q[0]), Bits(q[1]), Bits(q[2]), Bits(q[3]);
    var p, r, m, n := x / 16, x % 16, y / 4, y % 4;
    Split(4 * w + p, 4, w, p);
    Split(16 * r + m, 16, r, m);
    Split(64 * n + z, 64, n, z);
    var o := Trio(q);
    assert o[0] == 4 * w + p && o[1] == 16 * r + m && o[2] == 64 * n + z;
    var back := Quad(o[..3 - pad]);
    assert back[0] == w;
    assert pad == 0 ==> back == [w, 16 * p + r, 4 * m + n, z];
    assert pad == 1 ==> back == [w, 16 * p + r, 4 * m, PAD];
    assert pad == 2 ==> back == [w, 16 * p, PAD, PAD];
  }

  lemma GroupsOfOctetsStep(q: seq<Symbol>, n: nat)
    requires |q| > 4 && 3 < n <= |Octets(q)|
    ensures |Octets(q[4..])| == |Octets(q)| - 3
    ensures Groups(Octets(q)[..n]) == Quad(Trio(q[..4])) + Groups(Octets(q[4..])[..n - 3])
  {
    hide Trio, Quad;
    var d := Octets(q)[..n];
    assert d[..3] == Trio(q[..4]) && d[3..] == Octets(q[4..])[..n - 3];
  }

  /** Dropping pad octets from k decoded groups and encoding the rest gives the groups back. */
  predicate RoundTrips(q: seq<Symbol>, k: nat, pad: nat)
    requires |q| == 4 * k && k > 0 && pad <= 2
  {
    OctetsCount(q, k);
    Groups(Octets(q)[..3 * k - pad]) == q
  }

  predicate ZeroPadBits(q: seq<Symbol>, pad: nat)
    requires |q| >= 4
  {
    (pad == 1 ==> q[|q| - 2] % 4 == 0) && (pad == 2 ==> q[|q| - 3] % 16 == 0)
  }

  lemma RoundTripsOne(q: seq<Symbol>, pad: nat)
    requires |q| == 4 && pad <= 2 && forall i | 0 <= i < 4 :: q[i] == PAD <==> i >= 4 - pad
    ensures RoundTrips(q, 1, pad) <==> ZeroPadBits(q, pad)
  {
    QuadOfTrio(q, pad);
    assert q[..4] == q && q[4..] == [];
    assert Octets(q) == Trio(q);
  }

  lemma RoundTripsStep(q: seq<Symbol>, k: nat, pad: nat)
    requires |q| == 4 * k && k > 1 && pad <= 2
    requires forall i | 0 <= i < 4 :: q[i] != PAD
    ensures RoundTrips(q, k, pad) <==> RoundTrips(q[4..], k - 1, pad)
  {
    var head, tail := q[..4], q[4..];
    OctetsCount(q, k);
    OctetsCount(tail, k - 1);
    QuadOfTrio(head, 0);
    assert Trio(head)[..3] == Trio(head);
    GroupsOfOctetsStep(q, 3 * k - pad);
    assert 3 * k - pad - 3 == 3 * (k - 1) - pad;
    SamePrefix(q, head, tail, Groups(Octets(tail)[..3 * (k - 1) - pad]));
  }

  lemma {:induction false} RoundTripsIffZeroPadBits(q: seq<Symbol>, k: nat, pad: nat)
    requires |q| == 4 * k && k > 0 && pad <= 2
    requires forall i | 0 <= i < |q| :: q[i] == PAD <==> i >= |q| - pad
    ensures RoundTrips(q, k, pad) <==> ZeroPadBits(q, pad)
  {
    if k == 1 {
      RoundTripsOne(q, pad);
    } else {
      RoundTripsStep(q, k, pad);
      RoundTripsIffZeroPadBits(q[4..], k - 1, pad);
    }
  }

  lemma SamePrefix(q: seq<Symbol>, head: seq<Symbol>, tail: seq<Symbol>, other: seq<Symbol>)
    requires q == head + tail
    ensures head + other == q <==> other == tail
  {
    if head + other == q { assert other == q[|head|..] == tail; }
  }

  lemma CanonicalIffRoundTrips(s: string, k: nat, q: seq<Symbol>)
    requires s != [] && IsShape(s) && |s| == 4 * k && q == Symbols(s)
    ensures PadOf(s) <= 2 && (IsCanonical(s) <==> RoundTrips(q, k, PadOf(s)))
  {
    ShapeSymbols(s);
    OctetsCount(q, k);
    var d := Octets(q)[..3 * k - PadOf(s)];
    assert Decode(s) == d;
    LettersInjective(Groups(d), q);
  }

  /** Among strings of the right shape, acceptance is exactly "the unused low bits of the
      last group are zero" (RFC 4648, section 3.5). */
  lemma CanonicalIffZeroPadBits(s: string)
    requires s != [] && IsShape(s)
    ensures IsCanonical(s) <==> ZeroPadBits(Symbols(s), PadOf(s))
  {
    var q, k, pad := Symbols(s), |s| / 4, PadOf(s);
    ShapeSymbols(s);
    CanonicalIffRoundTrips(s, k, q);
    RoundTripsIffZeroPadBits(q, k, pad);
  }

  lemma LettersInjective(p: seq<Symbol>, q: seq<Symbol>)
    ensures Letters(p) == Letters(q) <==> p == q
  {
    SymbolsOfLetters(p);
    SymbolsOfLetters(q);
  }

  lemma ShapeSymbols(s: string)
    requires IsShape(s)
    ensures Letters(Symbols(s)) == s
    ensures forall i | 0 <= i < |s| :: Symbols(s)[i] == PAD <==> i >= |s| - PadOf(s)
  {
    forall i | 0 <= i < |s|
      ensures SymbolOf(s[i]) == PAD <==> i >= |s| - PadOf(s)
      ensures Letter(SymbolOf(s[i])) == s[i]
    {
      LetterOfSymbol(s[i]);
    }
  }

  // ---------------------------------------------------------------- base64url

  predicate IsUrlLetter(c: char) {
    'A' <= c <= 'Z' || 'a' <= c <= 'z' || '0' <= c <= '9' || c == '-' || c == '_'
  }

  function ToUrl(c: char): char { if c == '+' then '-' else if c == '/' then '_' else c }

  function FromUrl(c: char): char { if c == '-' then '+' else if c == '_' then '/' else c }

  /** Padded encoding, both special letters replaced, trailing '=' dropped. */
  function UrlEncode(b: seq<Byte>): (s: string)
    ensures 3 * |s| == 4 * |b| + Missing(|b|) && Missing(|b|) <= 2
  {
    EncodeShape(b); GroupsLength(b);
    var e := Encode(b);
    seq(|e| - PadOf(e), i requires 0 <= i < |e| - PadOf(e) => ToUrl(e[i]))
  }

  /** The unpadded input with its alphabet restored and '=' appended to a whole group. */
  function Repad(v: string): (s: string)
    ensures |s| % 4 == 0 && |v| <= |s| <= |v| + 3
  {
    var n := (4 - |v| % 4) % 4;
    seq(|v| + n, i requires 0 <= i < |v| + n => if i < |v| then FromUrl(v[i]) else '=')
  }

  /** Node's lenient decoder: bits left over after the last whole octet are dropped unread. */
  function LenientDecode(v: string): seq<Byte> {
    OctetsLength(Symbols(Repad(v)));
    Octets(Symbols(Repad(v)))[..|v| * 3 / 4]
  }

  /** base64UrlDecode: decode leniently, then insist on the exact canonical spelling. */
  function UrlDecode(v: string): Option<seq<Byte>> {
    if v == [] || exists i | 0 <= i < |v| :: !IsUrlLetter(v[i]) then None
    else if UrlEncode(LenientDecode(v)) != v then None
    else Some(LenientDecode(v))
  }

  lemma UrlEncodeLetters(b: seq<Byte>, i: nat)
    requires i < |UrlEncode(b)|
    ensures i < |Encode(b)| && IsUrlLetter(UrlEncode(b)[i]) && FromUrl(UrlEncode(b)[i]) == Encode(b)[i]
  {
    EncodeShape(b);
    assert IsLetter(Encode(b)[i]);
  }

  lemma RepadOfEncode(b: seq<Byte>)
    ensures Repad(UrlEncode(b)) == Encode(b)
  {
    hide Groups, Letters;
    var e, v := Encode(b), UrlEncode(b);
    EncodeShape(b);
    EncodePads(b);
    GroupsLength(b);
    forall i | 0 <= i < |v| ensures Repad(v)[i] == e[i] { UrlEncodeLetters(b, i); }
  }

  lemma EncodePads(b: seq<Byte>)
    ensures forall i | 0 <= i < |Encode(b)| && i >= |Encode(b)| - Missing(|b|) :: Encode(b)[i] == '='
  {
    forall i | 0 <= i < |Encode(b)| && i >= |Encode(b)| - Missing(|b|) ensures Encode(b)[i] == '=' {
      GroupsPads(b, i);
    }
  }

  lemma LenientDecodeOfEncode(b: seq<Byte>)
    ensures LenientDecode(UrlEncode(b)) == b
  {
    RepadOfEncode(b);
    SymbolsOfLetters(Groups(b));
    OctetsOfGroups(b);
    assert |UrlEncode(b)| * 3 / 4 == |b|;
  }

  /** The pair is a bijection between non-empty byte strings and accepted strings. */
  lemma UrlBijection(v: string, b: seq<Byte>)
    ensures b != [] ==> (UrlDecode(v) == Some(b) <==> v == UrlEncode(b))
    ensures UrlDecode(v) != Some([])
  {
    LenientDecodeOfEncode(b);
    forall i | 0 <= i < |UrlEncode(b)| ensures IsUrlLetter(UrlEncode(b)[i]) { UrlEncodeLetters(b, i); }
  }
}
