/** Texts: blanks, identity keys, splitting at a separator and joining again, numerals. */
module TextParts {
  /** What String.prototype.trim removes. */
  predicate Space(c: char) {
    || c in {'\t', '\n', '\U{B}', '\U{C}', '\r', ' ', '\U{A0}', '\U{1680}', '\U{2028}', '\U{2029}', '\U{202F}', '\U{205F}',
             '\U{3000}', '\U{FEFF}'}
    || '\U{2000}' <= c <= '\U{200A}'
  }

  /** A compressed public key: 02 or 03 and 64 lowercase hexadecimal digits. */
  predicate IdentityKey(s: string) {
    |s| == 66 && s[0] == '0' && s[1] in {'2', '3'} && forall i | 2 <= i < 66 :: HexDigit(s[i])
  }

  function TrimStart<T>(s: seq<T>, space: T -> bool): seq<T> {
    if s == [] || !space(s[0]) then s else TrimStart(s[1..], space)
  }

  function TrimEnd<T>(s: seq<T>, space: T -> bool): seq<T> {
    if s == [] || !space(s[|s| - 1]) then s else TrimEnd(s[..|s| - 1], space)
  }

  /** String.prototype.trim, over characters or code units. */
  function Trim<T>(s: seq<T>, space: T -> bool): seq<T> { TrimEnd(TrimStart(s, space), space) }

  lemma {:induction false} TrimStartBlank<T>(s: seq<T>, space: T -> bool)
    ensures TrimStart(s, space) == [] <==> forall i | 0 <= i < |s| :: space(s[i])
    ensures TrimStart(s, space) != [] ==> !space(TrimStart(s, space)[0])
  {
    if s != [] && space(s[0]) {
      TrimStartBlank(s[1..], space);
      assert s == [s[0]] + s[1..];
      if TrimStart(s[1..], space) != [] {
        var i :| 0 <= i < |s[1..]| && !space(s[1..][i]);
        assert s[i + 1] == s[1..][i];
      }
    }
  }

  lemma {:induction false} TrimEndKeeps<T>(s: seq<T>, space: T -> bool)
    requires s != [] && !space(s[0])
    ensures TrimEnd(s, space) != []
  {
    if |s| > 1 { TrimEndKeeps(s[..|s| - 1], space); }
  }

  lemma {:induction false} TrimStartDrops<T>(blanks: seq<T>, rest: seq<T>, space: T -> bool)
    requires (forall i | 0 <= i < |blanks| :: space(blanks[i])) && rest != [] && !space(rest[0])
    ensures TrimStart(blanks + rest, space) == rest
  {
    if blanks == [] {
      assert blanks + rest == rest;
    } else {
      TrimStartDrops(blanks[1..], rest, space);
      assert (blanks + rest)[1..] == blanks[1..] + rest;
    }
  }

  lemma {:induction false} TrimEndDrops<T>(s: seq<T>, m: nat, space: T -> bool)
    requires 0 < m <= |s| && !space(s[m - 1])
    ensures var t := TrimEnd(s, space); s[..m] <= t <= s && !space(t[|t| - 1])
  {
    if space(s[|s| - 1]) { TrimEndDrops(s[..|s| - 1], m, space); }
  }

  /** Nothing is left of a text of blanks only, and of no other. */
  lemma BlankIff<T>(s: seq<T>, space: T -> bool)
    ensures Trim(s, space) == [] <==> forall i | 0 <= i < |s| :: space(s[i])
  {
    TrimStartBlank(s, space);
    if TrimStart(s, space) != [] { TrimEndKeeps(TrimStart(s, space), space); }
  }

  function Join(parts: seq<string>, c: char): string {
    if parts == [] then "" else if |parts| == 1 then parts[0] else parts[0] + [c] + Join(parts[1..], c)
  }

  /** String.prototype.split for a one-character separator. */
  function Split(s: string, c: char): (parts: seq<string>)
    ensures parts != []
  {
    SplitFrom(s, c, 0)
  }

  /** The parts of s, of whose first i characters none is the separator. */
  function SplitFrom(s: string, c: char, i: nat): (parts: seq<string>)
    requires i <= |s|
    ensures parts != []
    decreases |s|, |s| - i
  {
    if i == |s| then [s]
    else if s[i] == c then [s[..i]] + SplitFrom(s[i + 1..], c, 0)
    else SplitFrom(s, c, i + 1)
  }

  predicate Free(s: string, c: char) { c !in s }

  lemma {:induction false} SplitRest(s: string, c: char, i: nat, p: string, rest: string)
    requires Free(p, c) && s == p + [c] + rest && i <= |p|
    ensures SplitFrom(s, c, i) == [p] + Split(rest, c)
    decreases |p| - i
  {
    if i < |p| {
      assert s[i] == p[i];
      SplitRest(s, c, i + 1, p, rest);
    } else {
      assert s[..i] == p && s[i + 1..] == rest;
    }
  }

  lemma {:induction false} SplitOne(s: string, c: char, i: nat)
    requires Free(s, c) && i <= |s|
    ensures SplitFrom(s, c, i) == [s]
    decreases |s| - i
  {
    if i < |s| {
      assert s[i] != c;
      SplitOne(s, c, i + 1);
    }
  }

  /** Parts without the separator survive joining and splitting. */
  lemma {:induction false} SplitJoin(parts: seq<string>, c: char)
    requires parts != [] && forall i | 0 <= i < |parts| :: Free(parts[i], c)
    ensures Split(Join(parts, c), c) == parts
  {
    if |parts| == 1 {
      SplitOne(parts[0], c, 0);
    } else {
      SplitJoin(parts[1..], c);
      SplitRest(Join(parts, c), c, 0, parts[0], Join(parts[1..], c));
    }
  }

  lemma {:induction false} JoinSplitFrom(s: string, c: char, i: nat)
    requires i <= |s| && Free(s[..i], c)
    ensures Join(SplitFrom(s, c, i), c) == s
    ensures forall k | 0 <= k < |SplitFrom(s, c, i)| :: Free(SplitFrom(s, c, i)[k], c)
    decreases |s|, |s| - i
  {
    if i == |s| {
      assert s[..i] == s;
    } else if s[i] == c {
      var rest := s[i + 1..];
      JoinSplitFrom(rest, c, 0);
      assert s == s[..i] + [c] + rest;
      assert ([s[..i]] + SplitFrom(rest, c, 0))[1..] == SplitFrom(rest, c, 0);
    } else {
      assert s[..i + 1] == s[..i] + [s[i]];
      JoinSplitFrom(s, c, i + 1);
    }
  }

  lemma JoinSplit(s: string, c: char)
    ensures Join(Split(s, c), c) == s
    ensures forall k | 0 <= k < |Split(s, c)| :: Free(Split(s, c)[k], c)
  {
    JoinSplitFrom(s, c, 0);
  }

  lemma JoinInjective(x: seq<string>, y: seq<string>, c: char)
    requires x != [] && y != [] && Join(x, c) == Join(y, c)
    requires forall i | 0 <= i < |x| :: Free(x[i], c)
    requires forall i | 0 <= i < |y| :: Free(y[i], c)
    ensures x == y
  {
    SplitJoin(x, c);
    SplitJoin(y, c);
  }

  lemma {:induction false} JoinAppend(x: seq<string>, y: seq<string>, c: char)
    requires x != [] && y != []
    ensures Join(x + y, c) == Join(x, c) + [c] + Join(y, c)
  {
    if |x| == 1 {
      assert (x + y)[1..] == y;
    } else {
      JoinAppend(x[1..], y, c);
      assert (x + y)[1..] == x[1..] + y;
    }
  }

  // ---------------------------------------------------------------- numerals

  function DigitOf(v: nat): (d: char)
    requires v < 16
    ensures '0' <= d <= '9' || 'a' <= d <= 'f'
    ensures v < 10 <==> '0' <= d <= '9'
  {
    if v < 10 then (v + '0' as int) as char else (v - 10 + 'a' as int) as char
  }

  predicate HexDigit(d: char) { '0' <= d <= '9' || 'a' <= d <= 'f' }

  predicate DecDigit(d: char) { '0' <= d <= '9' }

  function ValueOf(d: char): (v: nat)
    requires HexDigit(d)
    ensures v < 16
  {
    if d <= '9' then d as int - '0' as int else d as int - 'a' as int + 10
  }

  predicate Base(b: nat) { b == 10 || b == 16 }

  function Quotient(n: nat, base: nat): (q: nat)
    requires Base(base)
    ensures n >= base ==> q < n
  {
    if base == 10 then n / 10 else n / 16
  }

  function Remainder(n: nat, base: nat): (r: nat)
    requires Base(base)
    ensures r < base
    ensures Scaled(Quotient(n, base), base) + r == n
  {
    if base == 10 then n % 10 else n % 16
  }

  function Scaled(n: nat, base: nat): nat
    requires Base(base)
  {
    if base == 10 then 10 * n else 16 * n
  }

  /** Number.prototype.toString(base). */
  function Numeral(n: nat, base: nat): (s: string)
    requires Base(base)
    ensures s != [] && forall i | 0 <= i < |s| :: HexDigit(s[i])
    decreases n
  {
    if n < base then [DigitOf(n)] else Numeral(Quotient(n, base), base) + [DigitOf(Remainder(n, base))]
  }

  /** parseInt(s, base), for texts of digits. */
  function Parse(s: string, base: nat): nat
    requires Base(base)
    requires forall i | 0 <= i < |s| :: HexDigit(s[i])
  {
    if s == [] then 0 else Scaled(Parse(s[..|s| - 1], base), base) + ValueOf(s[|s| - 1])
  }

  lemma {:induction false} ParseNumeral(n: nat, base: nat)
    requires Base(base)
    ensures Parse(Numeral(n, base), base) == n
    decreases n
  {
    if n < base {
      assert [DigitOf(n)][..0] == [];
      assert Parse([], base) == 0;
    } else {
      ParseNumeral(Quotient(n, base), base);
      var s := Numeral(n, base);
      assert s[..|s| - 1] == Numeral(Quotient(n, base), base);
    }
  }
}
