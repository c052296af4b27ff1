/** The theorems about rate-limit keys. */
module IpKeys {
  import opened Wrappers
  import opened TextParts
  import opened IpLiteral
  import opened IpCorrect

  /** What stands before a literal's dotted quad. */
  function Before(l: Literal): string
    requires l.V6?
  {
    if l.zip then Join(l.head, ':') + "::" + (if l.tail == [] then "" else Join(l.tail, ':') + ":")
    else Join(l.head, ':') + ":"
  }

  /** The same literal with two groups for its dotted quad. */
  function Grouped(l: Literal): Literal
    requires l.V6? && LiteralOk(l)
  {
    var g := GroupsFor(l.dotted);
    if l.zip then V6(l.head, true, l.tail + g, []) else V6(l.head + g, false, [], [])
  }

  lemma ShowBefore(l: Literal)
    requires l.V6? && LiteralOk(l) && l.dotted != []
    ensures Show(l) == Before(l) + Join(l.dotted, '.')
    ensures Before(l) != "" && Before(l)[|Before(l)| - 1] == ':'
  {
    var d := Join(l.dotted, '.');
    assert Join([d], ':') == d;
    assert Last(l.dotted) == [d];
    if l.zip {
      if l.tail == [] { assert l.tail + [d] == [d]; } else { JoinAppend(l.tail, [d], ':'); }
    } else {
      JoinAppend(l.head, [d], ':');
    }
  }

  lemma ShowGrouped(l: Literal)
    requires l.V6? && LiteralOk(l) && l.dotted != []
    ensures LiteralOk(Grouped(l)) && Show(Grouped(l)) == Before(l) + Join(GroupsFor(l.dotted), ':')
  {
    hide Join, Group, Octet, Numeral, Parse;
    var g := GroupsFor(l.dotted);
    GroupsForOk(l.dotted);
    if l.zip {
      GroupsApart(l.tail, g);
      assert l.tail + g + [] == l.tail + g;
      if l.tail == [] { assert l.tail + g == g; } else { JoinAppend(l.tail, g, ':'); }
    } else {
      GroupsApart(l.head, g);
      assert l.head + g + [] == l.head + g;
      JoinAppend(l.head, g, ':');
    }
  }

  lemma ValuesAppend(x: seq<string>, y: seq<string>)
    requires Groups(x) && Groups(y)
    ensures Groups(x + y) && Values(x + y, 16) == Values(x, 16) + Values(y, 16)
  {
    GroupsApart(x, y);
  }

  lemma AddressGrouped(l: Literal)
    requires l.V6? && LiteralOk(l) && LiteralOk(Grouped(l))
    ensures AddressOf(Grouped(l)) == AddressOf(l)
  {
    hide Numeral, Parse, Group, Octet;
    var g := GroupsFor(l.dotted);
    GroupsForOk(l.dotted);
    if l.zip { ValuesAppend(l.tail, g); } else { ValuesAppend(l.head, g); }
  }

  /** A literal without a dotted quad. */
  lemma PlainShown(l: Literal)
    requires l.V6? && LiteralOk(l) && l.dotted == []
    ensures Plain(Show(l)) == Some(KeyText(AddressOf(l)))
  {
    hide Plain, Join, Group, KeyText, Parse;
    if l.zip {
      assert l.tail + Last([]) == l.tail;
      ZipPlain(l.head, l.tail);
      assert Expand(l.head, l.tail) == AddressOf(l);
    } else {
      assert l.head + Last([]) == l.head;
      ShortPlain(l.head);
      assert Expand(l.head, []) == AddressOf(l);
    }
  }

  predicate LiteralChar(c: char) { HexDigit(c) || c == ':' || c == '.' }

  lemma PlainChars(l: Literal)
    requires l.V6? && LiteralOk(l) && l.dotted == []
    ensures forall i | 0 <= i < |Show(l)| :: HexDigit(Show(l)[i]) || Show(l)[i] == ':'
    ensures 1 <= |Show(l)| <= 39 && ':' in Show(l)
  {
    hide Join, Group;
    if l.zip {
      assert l.tail + Last([]) == l.tail;
      if l.head != [] { JoinedGroups(l.head); } else { assert Join([], ':') == "" by { NothingJoined(); } }
      if l.tail != [] { JoinedGroups(l.tail); } else { assert Join([], ':') == "" by { NothingJoined(); } }
      assert Show(l)[|Join(l.head, ':')|] == ':';
    } else {
      assert l.head + Last([]) == l.head;
      JoinedGroups(l.head);
      JoinAppend(l.head[..1], l.head[1..], ':');
      assert l.head[..1] + l.head[1..] == l.head;
      assert Show(l)[|Join(l.head[..1], ':')|] == ':';
    }
  }

  lemma NothingJoined()
    ensures Join([], ':') == ""
  {
  }

  lemma V6Shown(l: Literal)
    requires l.V6? && LiteralOk(l)
    ensures CanonicalV6(Show(l)) == Some(KeyText(AddressOf(l)))
  {
    hide Plain, Show, KeyText, AddressOf, Join, LiteralOk, Undotted;
    if l.dotted == [] {
      PlainChars(l);
      UndottedPlain(Show(l));
      PlainShown(l);
    } else {
      ShowBefore(l);
      ShowGrouped(l);
      assert Octets(l.dotted) by { DottedOk(l); }
      UndottedIs(Before(l), l.dotted);
      AddressGrouped(l);
      GroupedPlain(l);
      PlainShown(Grouped(l));
    }
  }

  lemma DottedOk(l: Literal)
    requires l.V6? && LiteralOk(l) && l.dotted != []
    ensures Octets(l.dotted)
  {
  }

  lemma GroupedPlain(l: Literal)
    requires l.V6? && LiteralOk(l)
    ensures Grouped(l).V6? && Grouped(l).dotted == []
  {
  }

  lemma UndottedPlain(s: string)
    requires forall i | 0 <= i < |s| :: HexDigit(s[i]) || s[i] == ':'
    ensures Undotted(s) == Some(s)
  {
  }

  // ---------------------------------------------------------------- cleaning

  /** Some of the letters of text may be capitals. */
  predicate Mixed(s: string, text: string) {
    && |s| == |text|
    && forall i | 0 <= i < |s| :: s[i] == text[i] || ('a' <= text[i] <= 'f' && s[i] as int - 'A' as int == text[i] as int - 'a' as int)
  }

  /** A literal, with some letters capitals, with a zone or without, and blanks before and after. */
  predicate Written(s: string, text: string, before: string, mixed: string, zone: string, after: string) {
    && s == before + (mixed + zone + after) && Mixed(mixed, text) && (zone == "" || zone[0] == '%')
    && (forall i | 0 <= i < |before| :: Space(before[i])) && (forall i | 0 <= i < |after| :: Space(after[i]))
  }

  lemma MixedChars(s: string, text: string)
    requires Mixed(s, text) && forall i | 0 <= i < |text| :: LiteralChar(text[i])
    ensures Lower(s) == text && (forall i | 0 <= i < |s| :: !Space(s[i])) && Free(text, '%')
  {
  }

  /** Cleaning leaves the literal. */
  lemma WrittenIsClean(s: string, text: string, before: string, mixed: string, zone: string, after: string)
    requires text != "" && (forall i | 0 <= i < |text| :: LiteralChar(text[i]))
    requires Written(s, text, before, mixed, zone, after)
    ensures Clean(s) == text
  {
    hide Space, LiteralChar, TrimStart, TrimEnd;
    var core, m := mixed + zone + after, |text|;
    MixedChars(mixed, text);
    TrimStartDrops(before, core, Space);
    assert core[m - 1] == mixed[m - 1];
    TrimEndDrops(core, m, Space);
    var t := TrimEnd(core, Space);
    assert Trim(s, Space) == t && core[..m] == mixed;
    if |t| == m {
      assert t == mixed;
      SplitOne(text, '%', 0);
    } else {
      OnlyBlanks(core, mixed, after, |t| - 1);
      assert t[m] == core[m] == '%';
      var rest := Lower(t)[m + 1..];
      assert Lower(t) == text + ['%'] + rest by { LowerParts(t, mixed, text); }
      SplitRest(Lower(t), '%', 0, text, rest);
    }
  }

  /** What follows the literal directly is blank. */
  lemma OnlyBlanks(core: string, mixed: string, after: string, k: nat)
    requires |mixed| <= k < |core| && forall i | 0 <= i < |after| :: Space(after[i])
    ensures core == mixed + after ==> Space(core[k])
  {
    if core == mixed + after { assert core[k] == after[k - |mixed|]; }
  }

  lemma LiteralIsClean(s: string)
    requires s != "" && forall i | 0 <= i < |s| :: LiteralChar(s[i])
    ensures Clean(s) == s
  {
    hide Clean, LiteralChar;
    assert s == "" + (s + "" + "");
    WrittenIsClean(s, s, "", s, "", "");
  }

  lemma LowerParts(t: string, mixed: string, text: string)
    requires mixed <= t && |mixed| < |t| && t[|mixed|] == '%' && Lower(mixed) == text
    ensures Lower(t) == text + ['%'] + Lower(t)[|mixed| + 1..]
  {
    assert forall i | 0 <= i < |mixed| :: Lower(t)[i] == LowerChar(mixed[i]) == text[i];
  }

  lemma LiteralShape(l: Literal)
    requires LiteralOk(l)
    ensures var s := Show(l);
            && 1 <= |s| <= 45 && (forall i | 0 <= i < |s| :: LiteralChar(s[i])) && (':' in s <==> l.V6?)
  {
    hide Join, Group, Octet;
    if l.V4? {
      QuadChars(l.octets);
      QuadText(l.octets);
    } else if l.dotted == [] {
      PlainChars(l);
    } else {
      ShowBefore(l);
      DottedOk(l);
      QuadChars(l.dotted);
      QuadText(l.dotted);
      BeforeShape(l);
      assert Show(l)[|Before(l)| - 1] == ':';
    }
  }

  lemma QuadText(o: seq<string>)
    requires Octets(o)
    ensures forall i | 0 <= i < |Join(o, '.')| :: LiteralChar(Join(o, '.')[i])
    ensures |Join(o, '.')| >= 1
  {
    hide Join;
    QuadChars(o);
  }

  lemma BeforeShape(l: Literal)
    requires l.V6? && LiteralOk(l) && l.dotted != []
    ensures |Before(l)| <= 30 && forall i | 0 <= i < |Before(l)| :: LiteralChar(Before(l)[i])
  {
    hide Join, Group, Octet;
    NothingJoined();
    if l.head != [] { JoinedGroups(l.head); }
    if l.tail != [] { JoinedGroups(l.tail); }
  }

  // ---------------------------------------------------------------- the theorems

  /** Every literal has a key, the one of the address it denotes - in capitals or not, with a zone or
      without, and with blanks around it. */
  lemma WrittenHasKey(l: Literal, s: string, before: string, mixed: string, zone: string, after: string)
    requires LiteralOk(l) && Written(s, Show(l), before, mixed, zone, after)
    ensures Normalize(s) == Some(KeyText(AddressOf(l)))
  {
    hide Clean, CanonicalV4, CanonicalV6, KeyText, AddressOf, Written;
    LiteralShape(l);
    WrittenIsClean(s, Show(l), before, mixed, zone, after);
    if l.V4? { V4Shown(l.octets); } else { V6Shown(l); }
  }

  lemma LiteralHasKey(l: Literal)
    requires LiteralOk(l)
    ensures Normalize(Show(l)) == Some(KeyText(AddressOf(l)))
  {
    hide LiteralOk, Show, Normalize, KeyText, AddressOf;
    assert Show(l) == "" + (Show(l) + "" + "");
    WrittenHasKey(l, Show(l), "", Show(l), "", "");
  }

  lemma AddressIsAddress(l: Literal)
    requires LiteralOk(l)
    ensures Address(AddressOf(l))
  {
    hide Parse;
    var a := AddressOf(l);
    match l
    case V4(o) => OctetValues(o);
    case V6(head, zip, tail, dotted) =>
      if dotted != [] { OctetValues(dotted); }
      forall i | 0 <= i < |head| ensures Values(head, 16)[i] < 0x1_0000 { ParseBound(head[i], 16); }
      forall i | 0 <= i < |tail| ensures Values(tail, 16)[i] < 0x1_0000 { ParseBound(tail[i], 16); }
      assert forall i | 0 <= i < |HalvesOf(dotted)| :: HalvesOf(dotted)[i] < 0x1_0000;
  }

  /** The key of an address, as a literal: it denotes that address. */
  function KeyLiteral(a: seq<nat>): Literal
    requires Address(a)
  {
    if Mapped(a) then V4(Numerals(Quad(a), 10)) else V6(Numerals(a, 16), false, [], [])
  }

  lemma KeyIsLiteral(a: seq<nat>)
    requires Address(a)
    ensures LiteralOk(KeyLiteral(a)) && Show(KeyLiteral(a)) == KeyText(a) && AddressOf(KeyLiteral(a)) == a
  {
    hide Numeral, Parse, Join, Group, Octet;
    if Mapped(a) {
      OctetsAgain(Quad(a));
      assert Halves(Quad(a)) == [a[6], a[7]];
    } else {
      forall i | 0 <= i < 8 ensures Group(Numerals(a, 16)[i]) && Parse(Numerals(a, 16)[i], 16) == a[i] { HexGroup(a[i]); }
      assert Numerals(a, 16) + Last([]) == Numerals(a, 16);
    }
  }

  /** Different addresses have different keys: a key says which address it is of. */
  lemma KeyTextInjective(a: seq<nat>, b: seq<nat>)
    requires Address(a) && Address(b) && KeyText(a) == KeyText(b)
    ensures a == b
  {
    hide Show, AddressOf, KeyText, LiteralOk, Numeral;
    KeyIsLiteral(a);
    KeyIsLiteral(b);
    SameKeyText(a, b);
  }

  lemma SameKeyText(a: seq<nat>, b: seq<nat>)
    requires Address(a) && Address(b) && KeyText(a) == KeyText(b)
    requires LiteralOk(KeyLiteral(a)) && LiteralOk(KeyLiteral(b))
    requires Show(KeyLiteral(a)) == KeyText(a) && Show(KeyLiteral(b)) == KeyText(b)
    requires AddressOf(KeyLiteral(a)) == a && AddressOf(KeyLiteral(b)) == b
    ensures a == b
  {
    hide Numeral, Parse, Join, Group, Octet, AddressOf;
    LiteralShape(KeyLiteral(a));
    LiteralShape(KeyLiteral(b));
    if Mapped(a) {
      NumeralsFree(Quad(a), 10, '.');
      NumeralsFree(Quad(b), 10, '.');
      JoinInjective(Numerals(Quad(a), 10), Numerals(Quad(b), 10), '.');
    } else {
      NumeralsFree(a, 16, ':');
      NumeralsFree(b, 16, ':');
      JoinInjective(Numerals(a, 16), Numerals(b, 16), ':');
    }
  }

  /** Two texts that clean to literals get the same key exactly when the literals denote the same
      address, in whatever families and spellings. */
  lemma SameKeyIffSameAddress(x: string, y: string, a: Literal, b: Literal)
    requires LiteralOk(a) && LiteralOk(b) && Clean(x) == Show(a) && Clean(y) == Show(b)
    ensures Normalize(x).Some? && Normalize(y).Some?
    ensures Normalize(x) == Normalize(y) <==> AddressOf(a) == AddressOf(b)
  {
    hide Show, AddressOf, KeyText, LiteralOk, Clean, CanonicalV4, CanonicalV6, Address;
    LiteralShape(a);
    LiteralShape(b);
    LiteralIsClean(Show(a));
    LiteralIsClean(Show(b));
    NormalizeClean(x, Show(a));
    NormalizeClean(y, Show(b));
    LiteralHasKey(a);
    LiteralHasKey(b);
    AddressIsAddress(a);
    AddressIsAddress(b);
    if KeyText(AddressOf(a)) == KeyText(AddressOf(b)) { KeyTextInjective(AddressOf(a), AddressOf(b)); }
  }

  lemma NormalizeClean(x: string, s: string)
    requires Clean(x) == s && Clean(s) == s
    ensures Normalize(x) == Normalize(s)
  {
  }

  // ---------------------------------------------------------------- nothing else is accepted

  lemma PartsJoined(s: string)
    ensures Join(PartsOf(s), ':') == s
  {
    if s != "" { JoinSplit(s, ':'); }
  }

  /** A text without a dotted quad that is accepted is a literal. */
  lemma PlainIsLiteral(s: string) returns (l: Literal)
    requires Plain(s).Some?
    ensures l.V6? && l.dotted == [] && LiteralOk(l) && Show(l) == s
    ensures var index := DoubleFrom(s, 0);
            if index < |s| then l.zip && l.tail == PartsOf(s[index + 2..]) && l.head == PartsOf(s[..index])
            else !l.zip && l.head == Split(s, ':')
  {
    hide Join, Split, Group, Parse, Numeral, Rendered, HexDigit;
    var index := DoubleFrom(s, 0);
    if index < |s| {
      var left, right := s[..index], s[index + 2..];
      PartsJoined(left);
      PartsJoined(right);
      l := V6(PartsOf(left), true, PartsOf(right), []);
      GroupsApart(l.head, l.tail);
      assert l.tail + Last([]) == l.tail;
      assert s == left + "::" + right;
    } else {
      l := V6(Split(s, ':'), false, [], []);
      JoinSplit(s, ':');
      assert l.head + [] == l.head && l.head + Last([]) == l.head;
    }
  }

  /** Splitting off the last two groups. */
  lemma SplitTail(q: string, g: seq<string>)
    requires g != [] && Groups(g)
    ensures Split(q + ":" + Join(g, ':'), ':') == Split(q, ':') + g
  {
    hide Join, Split, Group;
    JoinSplit(q, ':');
    GroupsFree(g);
    JoinAppend(Split(q, ':'), g, ':');
    SplitJoin(Split(q, ':') + g, ':');
  }

  /** A run of colons before two groups lies before them. */
  lemma DoubleBefore(p: string, r: string)
    requires p != "" && p[|p| - 1] == ':' && r != "" && r[0] != ':' && NoDouble(r)
    ensures var k := DoubleFrom(p + r, 0); k == |p + r| || k + 2 <= |p|
  {
  }

  lemma DottedIsLiteral(p: string, octets: seq<string>) returns (l: Literal)
    requires p != "" && p[|p| - 1] == ':' && Octets(octets)
    requires Plain(p + Join(GroupsFor(octets), ':')).Some?
    ensures LiteralOk(l) && Show(l) == p + Join(octets, '.')
  {
    hide Join, Split, Group, Octet, Plain, Numeral, Parse;
    var g := GroupsFor(octets);
    GroupsForOk(octets);
    JoinedGroups(g);
    var r := Join(g, ':');
    var s := p + r;
    var plain := PlainIsLiteral(s);
    ColonNotHex();
    DoubleBefore(p, r);
    var k := DoubleFrom(s, 0);
    var q := p[..|p| - 1];
    assert p == q + ":";
    if k < |s| {
      if k + 2 == |p| {
        assert s[k + 2..] == r;
        PartsShown(g);
        l := V6(plain.head, true, [], octets);
        assert s[..k] == p[..k];
      } else {
        var mid := p[k + 2..|p| - 1];
        assert s[k + 2..] == mid + ":" + r;
        SplitTail(mid, g);
        GroupsApart(Split(mid, ':'), g);
        l := V6(plain.head, true, Split(mid, ':'), octets);
        JoinSplit(mid, ':');
      }
      PartsJoined(s[..k]);
      ShowBefore(l);
      assert Before(l) == p;
    } else {
      SplitTail(q, g);
      GroupsApart(Split(q, ':'), g);
      assert s == q + ":" + r;
      l := V6(Split(q, ':'), false, [], octets);
      JoinSplit(q, ':');
      ShowBefore(l);
    }
  }

  lemma ColonNotHex()
    ensures !HexDigit(':')
  {
  }

  lemma AcceptedV4(c: string) returns (l: Literal)
    requires CanonicalV4(c).Some?
    ensures LiteralOk(l) && Show(l) == c
  {
    hide Join, Split, Octet, Numeral, Parse;
    l := V4(Split(c, '.'));
    JoinSplit(c, '.');
  }

  lemma AcceptedDotted(c: string) returns (l: Literal)
    requires '.' in c && CanonicalV6(c).Some?
    ensures LiteralOk(l) && Show(l) == c
  {
    hide Plain, Join, Split, Octet, Numeral, Parse, LiteralOk, Show;
    var colon := LastIndex(c, ':');
    var p, d := c[..colon + 1], c[colon + 1..];
    var octets := Split(d, '.');
    JoinSplit(d, '.');
    assert c == p + d;
    UndottedIs(p, octets);
    l := DottedIsLiteral(p, octets);
  }

  /** Whatever is accepted is, once cleaned, a literal: nothing malformed has a key. */
  lemma AcceptedIsLiteral(x: string) returns (l: Literal)
    requires Normalize(x).Some?
    ensures LiteralOk(l) && Show(l) == Clean(x)
  {
    hide Clean, Plain, CanonicalV4, LiteralOk, Show;
    var c := Clean(x);
    if ':' !in c {
      l := AcceptedV4(c);
    } else if '.' !in c {
      l := PlainIsLiteral(c);
    } else {
      l := AcceptedDotted(c);
    }
  }

  /** Normalising a key changes nothing. */
  lemma NormalizeIdempotent(x: string)
    requires Normalize(x).Some?
    ensures Normalize(Normalize(x).value) == Normalize(x)
  {
    hide Show, AddressOf, KeyText, LiteralOk, Clean, CanonicalV4, CanonicalV6, Address, KeyLiteral;
    var l := AcceptedIsLiteral(x);
    LiteralShape(l);
    LiteralIsClean(Show(l));
    NormalizeClean(x, Show(l));
    LiteralHasKey(l);
    AddressIsAddress(l);
    KeyIsLiteral(AddressOf(l));
    LiteralHasKey(KeyLiteral(AddressOf(l)));
  }
}
