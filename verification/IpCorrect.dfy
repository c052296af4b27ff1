/** Keys and addresses correspond: the canonicaliser maps every spelling of an address, in either
    family, to one key, and different addresses to different keys. */
module IpCorrect {
  import opened Wrappers
  import opened TextParts
  import opened IpLiteral

  // ---------------------------------------------------------------- what joined groups look like

  predicate Hexes(s: string) { forall i | 0 <= i < |s| :: HexDigit(s[i]) }

  predicate NoDouble(s: string) { forall i | 0 <= i && i + 1 < |s| :: !(s[i] == ':' && s[i + 1] == ':') }

  lemma {:induction false} JoinedGroups(g: seq<string>)
    requires Groups(g) && g != []
    ensures var s := Join(g, ':');
            && s != "" && HexDigit(s[0]) && HexDigit(s[|s| - 1]) && NoDouble(s)
            && (forall i | 0 <= i < |s| :: HexDigit(s[i]) || s[i] == ':')
            && |s| <= 5 * |g| - 1
  {
    if |g| > 1 {
      assert forall i | 0 <= i < |g[1..]| :: g[1..][i] == g[i + 1];
      JoinedGroups(g[1..]);
      var s, first, rest := Join(g, ':'), g[0], Join(g[1..], ':');
      forall i | 0 <= i && i + 1 < |s| ensures !(s[i] == ':' && s[i + 1] == ':') {
        if i > |first| { assert s[i] == rest[i - |first| - 1] && s[i + 1] == rest[i - |first|]; }
      }
    }
  }

  lemma GroupsFree(g: seq<string>)
    requires Groups(g)
    ensures forall i | 0 <= i < |g| :: Free(g[i], ':')
  {
  }

  lemma {:induction false} NoneFrom(s: string, i: nat)
    requires NoDouble(s) && i <= |s|
    ensures DoubleFrom(s, i) == |s|
    decreases |s| - i
  {
    if i < |s| { NoneFrom(s, i + 1); }
  }

  lemma {:induction false} DoubleAt(s: string, i: nat, k: nat)
    requires i <= k && k + 1 < |s| && s[k] == ':' && s[k + 1] == ':'
    requires forall j | i <= j < k :: !(s[j] == ':' && s[j + 1] == ':')
    ensures DoubleFrom(s, i) == k
    decreases k - i
  {
    if i < k { DoubleAt(s, i + 1, k); }
  }

  lemma {:induction false} DoubleShift(p: string, s: string, i: nat)
    requires i <= |s|
    ensures DoubleFrom(p + s, |p| + i) == |p| + DoubleFrom(s, i)
    decreases |s| - i
  {
    if i < |s| {
      var t := p + s;
      assert t[|p| + i] == s[i] && (i + 1 < |s| ==> t[|p| + i + 1] == s[i + 1]);
      DoubleShift(p, s, i + 1);
    }
  }

  lemma PartsShown(g: seq<string>)
    requires Groups(g)
    ensures PartsOf(Join(g, ':')) == g
  {
    if g != [] {
      JoinedGroups(g);
      GroupsFree(g);
      SplitJoin(g, ':');
    }
  }

  // ---------------------------------------------------------------- rendering

  lemma {:induction false} ParseBound(s: string, base: nat)
    requires Hexes(s) && base == 16
    ensures |s| <= 1 ==> Parse(s, base) < 16
    ensures |s| <= 2 ==> Parse(s, base) < 256
    ensures |s| <= 3 ==> Parse(s, base) < 4096
    ensures |s| <= 4 ==> Parse(s, base) < 65536
  {
    if s != [] {
      ParseBound(s[..|s| - 1], base);
    }
  }

  lemma NumeralsFree(v: seq<nat>, base: nat, c: char)
    requires Base(base) && !HexDigit(c)
    ensures forall i | 0 <= i < |v| :: Free(Numerals(v, base)[i], c)
  {
  }

  lemma NumeralEqual(x: nat, y: nat, base: nat)
    requires Base(base)
    ensures Numeral(x, base) == Numeral(y, base) <==> x == y
  {
    ParseNumeral(x, base);
    ParseNumeral(y, base);
  }

  lemma SpecialNumerals()
    ensures Numeral(0, 16) == "0" && Numeral(0xFFFF, 16) == "ffff"
  {
    assert Numeral(0xF, 16) == "f";
    assert Numeral(0xFF, 16) == "ff";
    assert Numeral(0xFFF, 16) == "fff";
  }

  lemma RenderedIsKey(a: seq<nat>)
    requires |a| == 8
    ensures Rendered(Numerals(a, 16)) == KeyText(a)
  {
    hide Numeral, Parse, Join;
    SpecialNumerals();
    forall i | 0 <= i < 8
      ensures (Numerals(a, 16)[i] == "0" <==> a[i] == 0) && (Numerals(a, 16)[i] == "ffff" <==> a[i] == 0xFFFF)
      ensures Parse(Numerals(a, 16)[i], 16) == a[i]
    {
      NumeralEqual(a[i], 0, 16);
      NumeralEqual(a[i], 0xFFFF, 16);
      ParseNumeral(a[i], 16);
    }
  }

  // ---------------------------------------------------------------- plain literals

  function Expand(head: seq<string>, tail: seq<string>): (a: seq<nat>)
    requires Groups(head) && Groups(tail) && |head| + |tail| <= 8
    ensures |a| == 8
  {
    Values(head, 16) + Zeros(8 - |head| - |tail|) + Values(tail, 16)
  }

  lemma ShortPlain(head: seq<string>)
    requires Groups(head) && |head| == 8
    ensures Plain(Join(head, ':')) == Some(KeyText(Expand(head, [])))
  {
    hide Numeral, Parse, Join, Split, KeyText, Rendered, Group;
    var s := Join(head, ':');
    JoinedGroups(head);
    NoneFrom(s, 0);
    GroupsFree(head);
    SplitJoin(head, ':');
    assert head + [] == head;
    RenderedIsKey(Expand(head, []));
  }

  lemma ZipLeft(l: string, r: string)
    requires NoDouble(l) && (l != "" ==> l[|l| - 1] != ':')
    ensures DoubleFrom(l + [':', ':'] + r, 0) == |l|
  {
    var s := l + [':', ':'] + r;
    forall j | 0 <= j < |l| ensures !(s[j] == ':' && s[j + 1] == ':') {
      if j + 1 < |l| { assert s[j] == l[j] && s[j + 1] == l[j + 1]; }
    }
    DoubleAt(s, 0, |l|);
  }

  lemma ZipRight(l: string, r: string)
    requires NoDouble(r)
    ensures DoubleFrom(l + [':', ':'] + r, |l| + 2) == |l + [':', ':'] + r|
  {
    NoneFrom(r, 0);
    DoubleShift(l + [':', ':'], r, 0);
  }

  predicate Joined(s: string) {
    && NoDouble(s) && (s != "" ==> s[|s| - 1] != ':')
    && forall i | 0 <= i < |s| :: HexDigit(s[i]) || s[i] == ':'
  }

  lemma JoinedAny(g: seq<string>)
    requires Groups(g)
    ensures Joined(Join(g, ':'))
  {
    if g != [] { JoinedGroups(g); }
  }

  lemma ZipShape(l: string, r: string)
    requires Joined(l) && Joined(r)
    ensures var s := l + "::" + r;
            && DoubleFrom(s, 0) == |l| && DoubleFrom(s, |l| + 2) == |s|
            && (forall i | 0 <= i < |s| :: HexDigit(s[i]) || s[i] == ':')
            && s[..|l|] == l && s[|l| + 2..] == r
  {
    assert l + "::" + r == l + [':', ':'] + r;
    ZipLeft(l, r);
    ZipRight(l, r);
  }

  lemma ZipParts(l: string, r: string, head: seq<string>, tail: seq<string>)
    requires Joined(l) && Joined(r) && PartsOf(l) == head && PartsOf(r) == tail
    requires Groups(head) && Groups(tail) && |head| + |tail| <= 7
    ensures Plain(l + "::" + r) == Some(Rendered(Numerals(Expand(head, tail), 16)))
  {
    hide Numeral, Parse, Rendered, Groups, DoubleFrom, HexDigit, PartsOf, Joined, Values, Zeros, Numerals;
    ZipShape(l, r);
    GroupsApart(head, tail);
    var s := l + "::" + r;
    assert s != "" && |head + tail| == |head| + |tail|;
  }

  lemma ZipPlain(head: seq<string>, tail: seq<string>)
    requires Groups(head) && Groups(tail) && |head| + |tail| <= 7
    ensures Plain(Join(head, ':') + "::" + Join(tail, ':')) == Some(KeyText(Expand(head, tail)))
  {
    hide Plain, Join, Groups, KeyText, Rendered, Expand, PartsOf, Joined;
    JoinedAny(head);
    JoinedAny(tail);
    PartsShown(head);
    PartsShown(tail);
    ZipParts(Join(head, ':'), Join(tail, ':'), head, tail);
    RenderedIsKey(Expand(head, tail));
  }

  // ---------------------------------------------------------------- dotted quads

  lemma OctetFree(o: seq<string>)
    requires Octets(o)
    ensures forall i | 0 <= i < |o| :: Free(o[i], '.') && Free(o[i], ':')
  {
  }

  lemma QuadSplits(o: seq<string>)
    requires Octets(o)
    ensures Split(Join(o, '.'), '.') == o
  {
    hide Octet, Join, Split;
    OctetFree(o);
    SplitJoin(o, '.');
  }

  /** Numerals of octets are octets again. */
  lemma NumeralOctet(n: nat)
    requires n <= 255
    ensures Octet(Numeral(n, 10)) && Parse(Numeral(n, 10), 10) == n
  {
    ParseNumeral(n, 10);
    DecimalDigits(n);
    ShortDecimal(n);
  }

  lemma {:induction false} DecimalDigits(n: nat)
    ensures forall i | 0 <= i < |Numeral(n, 10)| :: DecDigit(Numeral(n, 10)[i])
  {
    if n >= 10 { DecimalDigits(n / 10); }
  }

  lemma ShortDecimal(n: nat)
    requires n <= 255
    ensures 1 <= |Numeral(n, 10)| <= 3
  {
    var a := n / 10;
    var b := a / 10;
    assert b < 10 && |Numeral(b, 10)| == 1;
    assert |Numeral(a, 10)| <= 2;
  }

  lemma QuadOfHalves(o: seq<nat>)
    requires |o| == 4 && o[0] <= 255 && o[1] <= 255 && o[2] <= 255 && o[3] <= 255
    ensures Quad(Zeros(5) + [0xFFFF] + Halves(o)) == o && Mapped(Zeros(5) + [0xFFFF] + Halves(o))
  {
  }

  lemma V4Shown(o: seq<string>)
    requires Octets(o)
    ensures CanonicalV4(Join(o, '.')) == Some(Join(Numerals(Values(o, 10), 10), '.'))
    ensures CanonicalV4(Join(o, '.')) == Some(KeyText(AddressOf(V4(o))))
  {
    hide Join, Split, Numerals;
    QuadSplits(o);
    QuadOfHalves(Values(o, 10));
  }

  lemma OctetsAgain(v: seq<nat>)
    requires |v| == 4 && v[0] <= 255 && v[1] <= 255 && v[2] <= 255 && v[3] <= 255
    ensures Octets(Numerals(v, 10)) && Values(Numerals(v, 10), 10) == v
  {
    hide Numeral, Parse;
    forall i | 0 <= i < 4 ensures Octet(Numerals(v, 10)[i]) && Parse(Numerals(v, 10)[i], 10) == v[i] { NumeralOctet(v[i]); }
  }

  lemma LastIndexIs(p: string, d: string, c: char)
    requires p != "" && p[|p| - 1] == c && Free(d, c)
    ensures LastIndex(p + d, c) == |p| - 1
  {
    var i := LastIndex(p + d, c);
    assert (p + d)[|p| - 1] == c;
  }

  lemma QuadChars(o: seq<string>)
    requires Octets(o)
    ensures '.' in Join(o, '.') && Free(Join(o, '.'), ':') && |Join(o, '.')| <= 15
    ensures Join(o, '.') == o[0] + "." + o[1] + "." + o[2] + "." + o[3]
  {
    var d := o[0] + "." + o[1] + "." + o[2] + "." + o[3];
    assert o[1..][1..][1..] == [o[3]] && o[1..][1..] == [o[2], o[3]] && o[1..] == [o[1], o[2], o[3]];
    assert Join([o[3]], '.') == o[3];
    assert Join([o[2], o[3]], '.') == o[2] + ['.'] + o[3];
    assert Join([o[1], o[2], o[3]], '.') == o[1] + ['.'] + (o[2] + ['.'] + o[3]);
    assert d[|o[0]|] == '.';
  }

  function GroupsFor(dotted: seq<string>): (g: seq<string>)
    requires dotted == [] || Octets(dotted)
  {
    Numerals(HalvesOf(dotted), 16)
  }

  lemma QuadValues(dotted: seq<string>)
    requires Octets(dotted)
    ensures var c := CanonicalV4(Join(dotted, '.'));
            && c.Some? && Octets(Split(c.value, '.')) && Values(Split(c.value, '.'), 10) == Values(dotted, 10)
  {
    hide Numeral, Parse, Join, Split, CanonicalV4;
    V4Shown(dotted);
    OctetValues(dotted);
    OctetsAgain(Values(dotted, 10));
    QuadSplits(Numerals(Values(dotted, 10), 10));
  }

  /** A trailing dotted quad is turned into the two groups it stands for. */
  lemma UndottedIs(p: string, dotted: seq<string>)
    requires Octets(dotted) && p != "" && p[|p| - 1] == ':'
    ensures Undotted(p + Join(dotted, '.')) == Some(p + Join(GroupsFor(dotted), ':'))
  {
    var d := Join(dotted, '.');
    var s := p + d;
    QuadChars(dotted);
    QuadValues(dotted);
    LastIndexIs(p, d, ':');
    assert '.' in s by { var i :| 0 <= i < |d| && d[i] == '.'; assert s[|p| + i] == '.'; }
    TwoJoined(HalvesOf(dotted));
    UndottedTail(p, d, dotted);
  }

  lemma UndottedTail(p: string, d: string, dotted: seq<string>)
    requires p != "" && '.' in p + d && LastIndex(p + d, ':') == |p| - 1 && Octets(dotted)
    requires var c := CanonicalV4(d);
             c.Some? && Octets(Split(c.value, '.')) && Values(Split(c.value, '.'), 10) == Values(dotted, 10)
    ensures var h := HalvesOf(dotted);
            Undotted(p + d) == Some(p + (Numeral(h[0], 16) + ":" + Numeral(h[1], 16)))
  {
    hide Numeral, Join, Split, CanonicalV4, LastIndex;
    var s := p + d;
    assert s[..|p|] == p && s[|p|..] == d;
    var h := HalvesOf(dotted);
    assert p + Numeral(h[0], 16) + ":" + Numeral(h[1], 16) == p + (Numeral(h[0], 16) + ":" + Numeral(h[1], 16));
  }

  lemma OctetValues(o: seq<string>)
    requires Octets(o)
    ensures forall i | 0 <= i < 4 :: Values(o, 10)[i] <= 255
  {
  }

  lemma TwoJoined(h: seq<nat>)
    requires |h| == 2
    ensures Join(Numerals(h, 16), ':') == Numeral(h[0], 16) + ":" + Numeral(h[1], 16)
  {
    var g := Numerals(h, 16);
    assert g == [g[0], g[1]] && g[1..] == [g[1]];
  }

  lemma HexGroup(n: nat)
    requires n < 0x1_0000
    ensures Group(Numeral(n, 16)) && Parse(Numeral(n, 16), 16) == n
  {
    ParseNumeral(n, 16);
    NumeralLength(n);
  }

  lemma NumeralLength(n: nat)
    requires n < 0x1_0000
    ensures |Numeral(n, 16)| <= 4
  {
    var a := n / 16;
    var b := a / 16;
    var c := b / 16;
    assert c < 16 && |Numeral(c, 16)| == 1;
    assert |Numeral(b, 16)| <= 2;
    assert |Numeral(a, 16)| <= 3;
  }

  lemma GroupsForOk(dotted: seq<string>)
    requires dotted == [] || Octets(dotted)
    ensures Groups(GroupsFor(dotted)) && Values(GroupsFor(dotted), 16) == HalvesOf(dotted)
    ensures |GroupsFor(dotted)| == Extra(dotted)
  {
    hide Numeral, Parse, Octet;
    if dotted != [] {
      OctetValues(dotted);
      var h := HalvesOf(dotted);
      forall i | 0 <= i < 2 ensures Group(GroupsFor(dotted)[i]) && Parse(GroupsFor(dotted)[i], 16) == h[i] { HexGroup(h[i]); }
    }
  }
}
