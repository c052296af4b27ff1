/** Strings as the language has them, sequences of 16-bit code units, and their UTF-8 form
    (RFC 3629, section 3). */
module Utf8 {
  import opened Wrappers
  import opened Words

  type unit = x: int | 0 <= x < 0x1_0000

  predicate High(u: unit) { 0xD800 <= u < 0xDC00 }
  predicate Low(u: unit) { 0xDC00 <= u < 0xE000 }

  /** LONE_SURROGATE_RE: a high surrogate with no low one after it, or a low one with no high one
      before it. */
  predicate HasLone(s: seq<unit>) {
    exists i :: 0 <= i < |s| && LoneAt(s, i)
  }

  predicate LoneAt(s: seq<unit>, i: nat)
    requires i < |s|
  {
    || (High(s[i]) && !(i + 1 < |s| && Low(s[i + 1])))
    || (Low(s[i]) && !(i > 0 && High(s[i - 1])))
  }

  /** A scalar value: a code point that is not a surrogate. */
  type scalar = c: int | 0 <= c < 0xD800 || 0xE000 <= c < 0x11_0000

  const REPLACEMENT: scalar := 0xFFFD

  function Pair(h: unit, l: unit): scalar
    requires High(h) && Low(l)
  {
    0x1_0000 + (h - 0xD800) * 0x400 + (l - 0xDC00)
  }

  /** The string as scalar values; a lone surrogate becomes a replacement character. */
  function Scalars(s: seq<unit>): seq<scalar> {
    if s == [] then []
    else if High(s[0]) && |s| > 1 && Low(s[1]) then [Pair(s[0], s[1])] + Scalars(s[2..])
    else [if High(s[0]) || Low(s[0]) then REPLACEMENT else s[0]] + Scalars(s[1..])
  }

  function EncodeScalar(c: scalar): (b: seq<byte>)
    ensures 1 <= |b| <= 4
  {
    if c < 0x80 then [c]
    else if c < 0x800 then [0xC0 + c / 0x40, 0x80 + c % 0x40]
    else if c < 0x1_0000 then [0xE0 + c / 0x1000, 0x80 + c / 0x40 % 0x40, 0x80 + c % 0x40]
    else [0xF0 + c / 0x4_0000, 0x80 + c / 0x1000 % 0x40, 0x80 + c / 0x40 % 0x40, 0x80 + c % 0x40]
  }

  function EncodeScalars(cs: seq<scalar>): (b: seq<byte>)
    ensures |b| <= 4 * |cs|
  {
    if cs == [] then [] else EncodeScalar(cs[0]) + EncodeScalars(cs[1..])
  }

  /** TextEncoder.encode. */
  function Encode(s: seq<unit>): seq<byte> { EncodeScalars(Scalars(s)) }

  // ---------------------------------------------------------------- decoding

  function LengthFrom(first: byte): nat {
    if first < 0x80 then 1 else if first < 0xE0 then 2 else if first < 0xF0 then 3 else 4
  }

  /** The scalar value whose form starts b, if b starts with one. */
  function ValueOf(b: seq<byte>): int
    requires b != [] && |b| >= LengthFrom(b[0])
  {
    match LengthFrom(b[0])
    case 1 => b[0]
    case 2 => (b[0] as int - 0xC0) * 0x40 + (b[1] as int - 0x80)
    case 3 => (b[0] as int - 0xE0) * 0x1000 + (b[1] as int - 0x80) * 0x40 + (b[2] as int - 0x80)
    case _ => (b[0] as int - 0xF0) * 0x4_0000 + (b[1] as int - 0x80) * 0x1000 + (b[2] as int - 0x80) * 0x40 + (b[3] as int - 0x80)
  }

  lemma ScalarDecodes(c: scalar, rest: seq<byte>)
    ensures var b := EncodeScalar(c) + rest;
            LengthFrom(b[0]) == |EncodeScalar(c)| && ValueOf(b) == c
  {
    var q := c / 0x40;
    var p := q / 0x40;
    assert c / 0x1000 == p && c / 0x4_0000 == p / 0x40;
  }

  /** UTF-8 forms of different scalar sequences differ. */
  lemma {:induction false} EncodeScalarsInjective(x: seq<scalar>, y: seq<scalar>)
    requires EncodeScalars(x) == EncodeScalars(y)
    ensures x == y
  {
    hide EncodeScalar, LengthFrom, ValueOf;
    if x != [] && y != [] {
      var rx, ry := EncodeScalars(x[1..]), EncodeScalars(y[1..]);
      ScalarDecodes(x[0], rx);
      ScalarDecodes(y[0], ry);
      assert EncodeScalars(x)[|EncodeScalar(x[0])|..] == rx && EncodeScalars(y)[|EncodeScalar(y[0])|..] == ry;
      EncodeScalarsInjective(x[1..], y[1..]);
    }
  }

  // ---------------------------------------------------------------- without lone surrogates

  function UnitsOf(c: scalar): seq<unit> {
    if c < 0x1_0000 then [c] else [0xD800 + (c - 0x1_0000) / 0x400, 0xDC00 + (c - 0x1_0000) % 0x400]
  }

  function Units(cs: seq<scalar>): seq<unit> {
    if cs == [] then [] else UnitsOf(cs[0]) + Units(cs[1..])
  }

  lemma {:induction false} TailHasNone(s: seq<unit>, n: nat)
    requires !HasLone(s) && n <= |s| && (0 < n < |s| ==> !Low(s[n]) || !High(s[n - 1]))
    ensures !HasLone(s[n..])
  {
    var t := s[n..];
    forall i | 0 <= i < |t| ensures !LoneAt(t, i) {
      assert !LoneAt(s, n + i);
      assert t[i] == s[n + i];
    }
  }

  /** A string is recovered from its scalar values exactly when it holds no lone surrogate. */
  lemma {:induction false} RecoveredIff(s: seq<unit>)
    ensures Units(Scalars(s)) == s <==> !HasLone(s)
    decreases |s|
  {
    assert s == [] ==> !HasLone(s);
    hide HasLone, LoneAt, UnitsOf, Pair;
    if s != [] {
      if High(s[0]) && |s| > 1 && Low(s[1]) {
        RecoveredIff(s[2..]);
        PairFirst(s);
        UnitsOfPair(s[0], s[1]);
        assert s == [s[0], s[1]] + s[2..];
        assert Scalars(s)[1..] == Scalars(s[2..]);
      } else {
        RecoveredIff(s[1..]);
        SingleFirst(s);
        var c: scalar := if High(s[0]) || Low(s[0]) then REPLACEMENT else s[0];
        UnitsOfSingle(c);
        assert Scalars(s)[1..] == Scalars(s[1..]);
        assert s == [s[0]] + s[1..];
      }
    }
  }

  lemma UnitsOfPair(h: unit, l: unit)
    requires High(h) && Low(l)
    ensures UnitsOf(Pair(h, l)) == [h, l]
  {
  }

  lemma UnitsOfSingle(c: scalar)
    requires c < 0x1_0000
    ensures UnitsOf(c) == [c]
  {
  }

  lemma PairFirst(s: seq<unit>)
    requires |s| > 1 && High(s[0]) && Low(s[1])
    ensures HasLone(s) <==> HasLone(s[2..])
  {
    if !HasLone(s) {
      assert |s| > 2 ==> !LoneAt(s, 2);
      TailHasNone(s, 2);
    }
    if HasLone(s) {
      var i :| 0 <= i < |s| && LoneAt(s, i);
      assert i >= 2;
      assert LoneAt(s[2..], i - 2);
    }
  }

  lemma SingleFirst(s: seq<unit>)
    requires s != [] && !(High(s[0]) && |s| > 1 && Low(s[1]))
    ensures !High(s[0]) && !Low(s[0]) ==> (HasLone(s) <==> HasLone(s[1..]))
    ensures High(s[0]) || Low(s[0]) ==> HasLone(s)
  {
    if High(s[0]) || Low(s[0]) { assert LoneAt(s, 0); }
    if !High(s[0]) && !Low(s[0]) {
      if !HasLone(s) { TailHasNone(s, 1); }
      if HasLone(s) {
        var i :| 0 <= i < |s| && LoneAt(s, i);
        assert LoneAt(s[1..], i - 1);
      }
    }
  }

  /** On strings without lone surrogates, UTF-8 is injective. */
  lemma EncodeInjective(s: seq<unit>, t: seq<unit>)
    requires !HasLone(s) && !HasLone(t) && Encode(s) == Encode(t)
    ensures s == t
  {
    EncodeScalarsInjective(Scalars(s), Scalars(t));
    RecoveredIff(s);
    RecoveredIff(t);
  }

  /** And only on those: any string with one shares its form with another string. */
  lemma LoneCollides(s: seq<unit>) returns (t: seq<unit>)
    requires HasLone(s)
    ensures t != s && Encode(t) == Encode(s) && !HasLone(t)
  {
    t := Units(Scalars(s));
    RecoveredIff(s);
    ScalarsUnits(Scalars(s));
    RecoveredIff(t);
  }

  lemma {:induction false} ScalarsUnits(cs: seq<scalar>)
    ensures Scalars(Units(cs)) == cs
  {
    if cs != [] {
      var c := cs[0];
      ScalarsUnits(cs[1..]);
      var rest := Units(cs[1..]);
      if c < 0x1_0000 {
        assert ([c] + rest)[1..] == rest;
      } else {
        var u := UnitsOf(c);
        assert (u + rest)[2..] == rest && (u + rest)[0] == u[0] && (u + rest)[1] == u[1];
        assert Pair(u[0], u[1]) == c;
      }
    }
  }

  lemma {:induction false} EncodeLength(s: seq<unit>)
    ensures |Scalars(s)| <= |s| && |Encode(s)| <= 4 * |s|
    decreases |s|
  {
    if s != [] {
      if High(s[0]) && |s| > 1 && Low(s[1]) { EncodeLength(s[2..]); } else { EncodeLength(s[1..]); }
    }
  }
}
