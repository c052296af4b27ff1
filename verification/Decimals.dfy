/** Canonical decimal spelling of sequence numbers, watermarks and positions.
    The feed and replica models work on numbers; this module is what makes that faithful:
    the accepted strings and the numbers they spell are in one-to-one correspondence, and
    the server's and the replica's separately written validators accept the same strings. */
module Decimals {
  import opened Wrappers

  const UINT64_MAX: nat := 0xFFFF_FFFF_FFFF_FFFF

  predicate IsDigit(c: char) { '0' <= c <= '9' }

  function DigitValue(c: char): nat
    requires IsDigit(c)
  {
    c as int - '0' as int
  }

  function DigitChar(d: nat): (c: char)
    requires d < 10
    ensures IsDigit(c) && DigitValue(c) == d
  {
    ('0' as int + d) as char
  }

  /** BigInt.prototype.toString. */
  function Spell(n: nat): (s: string)
    ensures |s| > 0
  {
    if n < 10 then [DigitChar(n)] else Spell(n / 10) + [DigitChar(n % 10)]
  }

  /** The pattern (0|[1-9][0-9]*). */
  predicate IsCanonical(s: string) {
    |s| > 0 && (forall i | 0 <= i < |s| :: IsDigit(s[i])) && (s[0] == '0' ==> |s| == 1)
  }

  /** BigInt(s) on a string of digits. */
  function Value(s: string): nat
    requires forall i | 0 <= i < |s| :: IsDigit(s[i])
  {
    if s == [] then 0 else 10 * Value(s[..|s| - 1]) + DigitValue(s[|s| - 1])
  }

  /** The replica's check: any canonical digit string, then a bound on its value. */
  function ReplicaDecimal(s: string): Option<nat> {
    if !IsCanonical(s) then None
    else if Value(s) > UINT64_MAX then None
    else Some(Value(s))
  }

  /** The server's check: at most twenty digits by pattern, then the same bound. */
  predicate IsUint64Decimal(s: string) {
    IsCanonical(s) && |s| <= 20 && Value(s) <= UINT64_MAX
  }

  function Power10(k: nat): (p: nat)
    ensures p > 0
  {
    if k == 0 then 1 else 10 * Power10(k - 1)
  }

  lemma {:induction false} SpellIsCanonical(n: nat)
    ensures IsCanonical(Spell(n))
    ensures Value(Spell(n)) == n
    ensures Spell(n)[0] == '0' ==> n == 0
  {
    if n < 10 {
      assert Spell(n)[..0] == [];
    } else {
      SpellIsCanonical(n / 10);
      var s := Spell(n);
      assert s[..|s| - 1] == Spell(n / 10);
    }
  }

  lemma {:induction false} ValueBelowPower(s: string)
    requires forall i | 0 <= i < |s| :: IsDigit(s[i])
    ensures Value(s) < Power10(|s|)
  {
    if s != [] { ValueBelowPower(s[..|s| - 1]); }
  }

  lemma {:induction false} ValueAtLeastPower(s: string)
    requires IsCanonical(s) && s[0] != '0'
    ensures Value(s) >= Power10(|s| - 1)
  {
    if |s| > 1 { ValueAtLeastPower(s[..|s| - 1]); }
    else { assert s[..0] == []; }
  }

  lemma {:induction false} SpellOfValue(s: string)
    requires IsCanonical(s)
    ensures Spell(Value(s)) == s
  {
    if |s| == 1 {
      assert s[..0] == [];
      assert s == [DigitChar(Value(s))];
    } else {
      var p := s[..|s| - 1];
      SpellOfValue(p);
      ValueAtLeastPower(p);
      assert Value(s) / 10 == Value(p) && Value(s) % 10 == DigitValue(s[|s| - 1]);
      assert s == p + [s[|s| - 1]];
    }
  }

  /** Reading a spelled number back gives the number; only its own spelling reads as it. */
  lemma {:induction false} DecimalBijection(n: nat, s: string)
    ensures ReplicaDecimal(s) == Some(n) <==> n < 0x1_0000_0000_0000_0000 && s == Spell(n)
  {
    SpellIsCanonical(n);
    if IsCanonical(s) { SpellOfValue(s); }
  }

  lemma {:induction false} PowerMonotone(a: nat, b: nat)
    requires a <= b
    ensures Power10(a) <= Power10(b)
  {
    if a < b { PowerMonotone(a, b - 1); }
  }

  /** The twenty-digit limit in the server's pattern excludes nothing the bound admits. */
  lemma {:induction false} ValidatorsAgree(s: string)
    ensures IsUint64Decimal(s) <==> ReplicaDecimal(s).Some?
  {
    if IsCanonical(s) && |s| > 20 {
      ValueAtLeastPower(s);
      PowerMonotone(20, |s| - 1);
      assert Power10(20) == 100_000_000_000_000_000_000 by { Power20(); }
    }
  }

  lemma Power20()
    ensures Power10(20) == 100_000_000_000_000_000_000
  {
    assert Power10(5) == 100_000;
    PowerAdd(5, 5); PowerAdd(10, 10);
  }

  lemma {:induction false} PowerAdd(a: nat, b: nat)
    ensures Power10(a + b) == Power10(a) * Power10(b)
  {
    if a > 0 {
      PowerAdd(a - 1, b);
      assert Power10(a + b) == 10 * Power10(a - 1 + b);
    }
  }

  /** A smaller number never has the longer spelling. */
  lemma {:induction false} SpellLengthMonotone(m: nat, n: nat)
    requires m <= n
    ensures |Spell(m)| <= |Spell(n)|
  {
    if n >= 10 && m >= 10 { SpellLengthMonotone(m / 10, n / 10); }
  }
}
