/** Rate-limit keys from IP literals: what addresses literals denote (RFC 4291, sections 2.2 and
    2.5.5.2), and the canonicaliser that turns literals into keys. */
module IpLiteral {
  import opened Wrappers
  import opened TextParts

  // ---------------------------------------------------------------- literals and addresses

  predicate Octet(s: string) {
    1 <= |s| <= 3 && (forall i | 0 <= i < |s| :: DecDigit(s[i])) && Parse(s, 10) <= 255
  }

  predicate Group(s: string) {
    1 <= |s| <= 4 && forall i | 0 <= i < |s| :: HexDigit(s[i])
  }

  predicate Octets(o: seq<string>) { |o| == 4 && forall i | 0 <= i < |o| :: Octet(o[i]) }

  predicate Groups(g: seq<string>) { forall i | 0 <= i < |g| :: Group(g[i]) }

  /** A dotted quad; or groups, at most one run of zeros left out, and perhaps a dotted quad in
      place of the last two groups (dotted is empty if not). */
  datatype Literal =
    | V4(octets: seq<string>)
    | V6(head: seq<string>, zip: bool, tail: seq<string>, dotted: seq<string>)

  predicate LiteralOk(l: Literal) {
    match l
    case V4(o) => Octets(o)
    case V6(head, zip, tail, dotted) =>
      && Groups(head) && Groups(tail) && (dotted == [] || Octets(dotted))
      && (if zip then |head| + |tail| + Extra(dotted) <= 7 else tail == [] && |head| + Extra(dotted) == 8)
  }

  function Extra(dotted: seq<string>): nat { if dotted == [] then 0 else 2 }

  function Last(dotted: seq<string>): seq<string> { if dotted == [] then [] else [Join(dotted, '.')] }

  function Show(l: Literal): string {
    match l
    case V4(o) => Join(o, '.')
    case V6(head, zip, tail, dotted) =>
      if zip then Join(head, ':') + "::" + Join(tail + Last(dotted), ':') else Join(head + Last(dotted), ':')
  }

  function Values(g: seq<string>, base: nat): (v: seq<nat>)
    requires Base(base)
    requires forall i | 0 <= i < |g| :: forall j | 0 <= j < |g[i]| :: HexDigit(g[i][j])
    ensures |v| == |g| && forall i | 0 <= i < |g| :: v[i] == Parse(g[i], base)
  {
    seq<nat>(|g|, i requires 0 <= i < |g| => Parse(g[i], base))
  }

  function Zeros(n: nat): (z: seq<nat>)
    ensures |z| == n && forall i | 0 <= i < n :: z[i] == 0
  {
    seq<nat>(n, _ => 0)
  }

  /** Four octets as two groups. */
  function Halves(o: seq<nat>): (h: seq<nat>)
    requires |o| == 4
    ensures |h| == 2
  {
    [o[0] * 256 + o[1], o[2] * 256 + o[3]]
  }

  function HalvesOf(dotted: seq<string>): (h: seq<nat>)
    requires dotted == [] || Octets(dotted)
    ensures |h| == Extra(dotted)
  {
    if dotted == [] then [] else Halves(Values(dotted, 10))
  }

  /** The eight groups of the address denoted; an IPv4 address is its mapped IPv6 one. */
  function AddressOf(l: Literal): (a: seq<nat>)
    requires LiteralOk(l)
    ensures |a| == 8
  {
    match l
    case V4(o) => Zeros(5) + [0xFFFF] + Halves(Values(o, 10))
    case V6(head, zip, tail, dotted) =>
      Values(head, 16) + Zeros(8 - |head| - |tail| - Extra(dotted)) + Values(tail, 16) + HalvesOf(dotted)
  }

  predicate Address(a: seq<nat>) { |a| == 8 && forall i | 0 <= i < 8 :: a[i] < 0x1_0000 }

  predicate Mapped(a: seq<nat>)
    requires |a| == 8
  {
    a[0] == 0 && a[1] == 0 && a[2] == 0 && a[3] == 0 && a[4] == 0 && a[5] == 0xFFFF
  }

  function Numerals(v: seq<nat>, base: nat): (g: seq<string>)
    requires Base(base)
    ensures |g| == |v| && forall i | 0 <= i < |v| :: g[i] == Numeral(v[i], base)
  {
    seq(|v|, i requires 0 <= i < |v| => Numeral(v[i], base))
  }

  function Quad(a: seq<nat>): (q: seq<nat>)
    requires |a| == 8
    ensures |q| == 4
  {
    [a[6] / 256, a[6] % 256, a[7] / 256, a[7] % 256]
  }

  /** The one key of an address. */
  function KeyText(a: seq<nat>): string
    requires |a| == 8
  {
    if Mapped(a) then Join(Numerals(Quad(a), 10), '.') else Join(Numerals(a, 16), ':')
  }

  // ---------------------------------------------------------------- the canonicaliser

  function CanonicalV4(s: string): Option<string> {
    var parts := Split(s, '.');
    if |parts| != 4 || !(forall i | 0 <= i < 4 :: Octet(parts[i])) then None
    else Some(Join(Numerals(Values(parts, 10), 10), '.'))
  }

  function LastIndex(s: string, c: char): (i: int)
    ensures -1 <= i < |s|
    ensures i >= 0 ==> s[i] == c
    ensures forall k | i < k < |s| :: s[k] != c
  {
    if s == [] then -1 else if s[|s| - 1] == c then |s| - 1 else LastIndex(s[..|s| - 1], c)
  }

  /** A trailing dotted quad as two groups. */
  function Undotted(s: string): Option<string> {
    if '.' !in s then Some(s)
    else
      var colon := LastIndex(s, ':');
      if colon == -1 then None
      else
        var dotted := CanonicalV4(s[colon + 1..]);
        if dotted.None? then None
        else
          var o := Split(dotted.value, '.');
          if |o| == 4 && forall i | 0 <= i < 4 :: Octet(o[i]) then
            var h := Halves(Values(o, 10));
            Some(s[..colon + 1] + Numeral(h[0], 16) + ":" + Numeral(h[1], 16))
          else None
  }

  /** Where the first "::" from i on starts, or the end of the text. */
  function DoubleFrom(s: string, i: nat): (k: nat)
    requires i <= |s|
    ensures i <= k <= |s|
    ensures k < |s| ==> k + 1 < |s| && s[k] == ':' && s[k + 1] == ':'
    ensures forall j | i <= j < k && j + 1 < |s| :: !(s[j] == ':' && s[j + 1] == ':')
    decreases |s| - i
  {
    if i == |s| then i
    else if i + 1 < |s| && s[i] == ':' && s[i + 1] == ':' then i
    else DoubleFrom(s, i + 1)
  }

  function PartsOf(s: string): seq<string> { if s == "" then [] else Split(s, ':') }

  /** The rest of canonicalizeIpv6. */
  function Plain(s: string): Option<string> {
    var index := DoubleFrom(s, 0);
    var zip := index < |s|;
    if s == "" || (exists i | 0 <= i < |s| :: !HexDigit(s[i]) && s[i] != ':') then None
    else if zip && DoubleFrom(s, index + 2) < |s| then None
    else
      var head := if zip then PartsOf(s[..index]) else Split(s, ':');
      var tail := if zip then PartsOf(s[index + 2..]) else [];
      if !Groups(head + tail) then None
      else if (if zip then |head + tail| > 7 else |head + tail| != 8) then None
      else
        GroupsApart(head, tail);
        var a := Values(head, 16) + Zeros(8 - |head + tail|) + Values(tail, 16);
        Some(Rendered(Numerals(a, 16)))
  }

  lemma GroupsApart(x: seq<string>, y: seq<string>)
    ensures Groups(x + y) <==> Groups(x) && Groups(y)
  {
    if Groups(x + y) {
      forall i | 0 <= i < |x| ensures Group(x[i]) { assert (x + y)[i] == x[i]; }
      forall i | 0 <= i < |y| ensures Group(y[i]) { assert (x + y)[|x| + i] == y[i]; }
    }
  }

  /** The last step compares texts of groups. */
  function Rendered(e: seq<string>): string
    requires |e| == 8 && forall i | 0 <= i < 8 :: forall j | 0 <= j < |e[i]| :: HexDigit(e[i][j])
  {
    if e[0] == "0" && e[1] == "0" && e[2] == "0" && e[3] == "0" && e[4] == "0" && e[5] == "ffff" then
      var high, low := Parse(e[6], 16), Parse(e[7], 16);
      Join(Numerals([high / 256, high % 256, low / 256, low % 256], 10), '.')
    else Join(e, ':')
  }

  function CanonicalV6(s: string): Option<string> {
    var u := Undotted(s);
    if u.None? then None else Plain(u.value)
  }

  function LowerChar(c: char): char { if 'A' <= c <= 'Z' then (c as int + 32) as char else c }

  function Lower(s: string): (r: string)
    ensures |r| == |s| && forall i | 0 <= i < |s| :: r[i] == LowerChar(s[i])
  {
    seq(|s|, i requires 0 <= i < |s| => LowerChar(s[i]))
  }

  /** Trimmed, in lower case, without a zone. */
  function Clean(s: string): string { Split(Lower(Trim(s, Space)), '%')[0] }

  /** normalizeIpLiteral. */
  function Normalize(s: string): Option<string> {
    var c := Clean(s);
    if |c| == 0 || |c| > 45 then None
    else if ':' in c then CanonicalV6(c)
    else CanonicalV4(c)
  }
}
