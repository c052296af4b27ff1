/** The skipper against the grammar: on every generated text it finds exactly the end of the value,
    up to its nesting limit, and duplicate members are found exactly when there are some. */
module JsonSkipCorrect {
  import opened Wrappers
  import opened Utf8
  import opened JsonGrammar
  import opened JsonSkip

  lemma AtSplit(t: seq<unit>, i: nat, a: seq<unit>, b: seq<unit>)
    requires At(t, i, a + b)
    ensures At(t, i, a) && At(t, i + |a|, b)
  {
    var s := a + b;
    assert t[i..i + |s|] == s;
    assert t[i..i + |a|] == s[..|a|];
    assert t[i + |a|..i + |a| + |b|] == s[|a|..];
  }

  lemma AtFirst(t: seq<unit>, i: nat, s: seq<unit>)
    requires At(t, i, s) && s != []
    ensures i < |t| && t[i] == s[0] && At(t, i + 1, s[1..])
  {
    assert s == [s[0]] + s[1..];
    AtSplit(t, i, [s[0]], s[1..]);
    assert t[i..i + |s|][0] == t[i];
  }

  // ---------------------------------------------------------------- tokens

  lemma {:induction false} BlanksSkipped(t: seq<unit>, i: nat, w: seq<unit>)
    requires Blanks(w) && At(t, i, w) && (i + |w| < |t| ==> !Blank(t[i + |w|]))
    ensures SkipBlanks(t, i) == i + |w|
    decreases w
  {
    if w != [] {
      AtFirst(t, i, w);
      BlanksSkipped(t, i + 1, w[1..]);
    }
  }

  /** A string's end is where its grammar ends it. */
  lemma {:induction false} StringEnds(t: seq<unit>, i: nat, ps: seq<Piece>)
    requires PiecesOk(ps) && At(t, i, ShowPieces(ps) + [QUOTE])
    ensures StringEnd(t, i) == i + |ShowPieces(ps)|
    decreases ps
  {
    if ps == [] {
      assert ShowPieces(ps) + [QUOTE] == [QUOTE];
      AtFirst(t, i, [QUOTE]);
    } else {
      var s, rest := ShowPiece(ps[0]), ShowPieces(ps[1..]) + [QUOTE];
      assert ShowPieces(ps) + [QUOTE] == s + rest;
      AtSplit(t, i, s, rest);
      AtFirst(t, i, s);
      if |s| > 1 { AtFirst(t, i + 1, s[1..]); }
      StringEnds(t, i + |s|, ps[1..]);
    }
  }

  predicate Ended(t: seq<unit>, i: nat) {
    i < |t| ==> Blank(t[i]) || t[i] in {COMMA, CLOSE_OBJECT, CLOSE_ARRAY}
  }

  lemma {:induction false} DigitsSkipped(t: seq<unit>, i: nat, d: seq<unit>)
    requires (forall k | 0 <= k < |d| :: Digit(d[k])) && At(t, i, d) && (i + |d| < |t| ==> !Digit(t[i + |d|]))
    ensures SkipDigits(t, i) == i + |d|
    decreases d
  {
    if d != [] {
      AtFirst(t, i, d);
      DigitsSkipped(t, i + 1, d[1..]);
    }
  }

  lemma ExponentPartsEnd(t: seq<unit>, i: nat, e: unit, sign: seq<unit>, digits: seq<unit>)
    requires (e == 0x65 || e == 0x45) && sign in {[], [0x2B], [0x2D]} && Digits(digits)
    requires At(t, i, [e] + sign + digits) && Ended(t, i + 1 + |sign| + |digits|)
    ensures ExponentEnd(t, i) == i + 1 + |sign| + |digits|
  {
    hide At, SkipDigits;
    assert [e] + sign + digits == [e] + (sign + digits);
    AtSplit(t, i, [e], sign + digits);
    AtFirst(t, i, [e]);
    AtSplit(t, i + 1, sign, digits);
    var d := i + 1 + |sign|;
    AtFirst(t, d, digits);
    if sign != [] { AtFirst(t, i + 1, sign); }
    DigitsSkipped(t, d, digits);
  }

  lemma ExponentEnds(t: seq<unit>, i: nat, x: Option<Exponent>)
    requires (x.Some? ==> ExponentOk(x.value)) && At(t, i, ShowExponent(x)) && Ended(t, i + |ShowExponent(x)|)
    ensures ExponentEnd(t, i) == i + |ShowExponent(x)|
  {
    if x.Some? { ExponentPartsEnd(t, i, x.value.e, x.value.sign, x.value.digits); }
  }

  /** Neither digits nor a fraction go on here. */
  predicate Clear(t: seq<unit>, i: nat) { i < |t| ==> !Digit(t[i]) && t[i] != 0x2E }

  lemma ExponentClear(t: seq<unit>, i: nat, x: Option<Exponent>)
    requires (x.Some? ==> ExponentOk(x.value)) && At(t, i, ShowExponent(x)) && Ended(t, i + |ShowExponent(x)|)
    ensures Clear(t, i)
  {
    hide At;
    if x.Some? { AtFirst(t, i, ShowExponent(x)); }
  }

  lemma FractionEnds(t: seq<unit>, i: nat, f: seq<unit>)
    requires (f != [] ==> Digits(f)) && At(t, i, ShowFraction(f)) && Clear(t, i + |ShowFraction(f)|)
    ensures FractionEnd(t, i) == i + |ShowFraction(f)| && (i < |t| ==> !Digit(t[i]))
  {
    hide At, SkipDigits;
    if f != [] {
      AtSplit(t, i, [0x2E], f);
      AtFirst(t, i, [0x2E]);
      AtFirst(t, i + 1, f);
      DigitsSkipped(t, i + 1, f);
    }
  }

  lemma TailEnds(t: seq<unit>, i: nat, f: seq<unit>, x: Option<Exponent>)
    requires (f != [] ==> Digits(f)) && (x.Some? ==> ExponentOk(x.value))
    requires At(t, i, ShowFraction(f) + ShowExponent(x)) && Ended(t, i + |ShowFraction(f)| + |ShowExponent(x)|)
    ensures i <= |t| && ExponentEnd(t, FractionEnd(t, i)) == i + |ShowFraction(f)| + |ShowExponent(x)|
    ensures i < |t| ==> !Digit(t[i])
  {
    hide SkipDigits, Digits, ExponentOk, ShowExponent, ShowFraction, ExponentEnd, FractionEnd, Ended, Clear;
    var j := i + |ShowFraction(f)|;
    AtSplit(t, i, ShowFraction(f), ShowExponent(x));
    ExponentClear(t, j, x);
    FractionEnds(t, i, f);
    ExponentEnds(t, j, x);
  }

  lemma WholeSkipped(t: seq<unit>, i: nat, whole: seq<unit>)
    requires Digits(whole) && (whole[0] == 0x30 ==> |whole| == 1) && At(t, i, whole)
    requires i + |whole| < |t| ==> !Digit(t[i + |whole|])
    ensures i < |t| && Digit(t[i]) && (if t[i] == 0x30 then i + 1 else SkipDigits(t, i + 1)) == i + |whole|
  {
    hide At, SkipDigits;
    AtFirst(t, i, whole);
    if whole[0] != 0x30 { DigitsSkipped(t, i + 1, whole[1..]); }
  }

  lemma NumberEnds(t: seq<unit>, i: nat, whole: seq<unit>, f: seq<unit>, x: Option<Exponent>)
    requires Digits(whole) && (whole[0] == 0x30 ==> |whole| == 1) && (f != [] ==> Digits(f)) && (x.Some? ==> ExponentOk(x.value))
    requires At(t, i, whole + (ShowFraction(f) + ShowExponent(x)))
    requires Ended(t, i + |whole| + |ShowFraction(f)| + |ShowExponent(x)|)
    ensures NumberEnd(t, i) == i + |whole| + |ShowFraction(f)| + |ShowExponent(x)|
  {
    hide At, SkipDigits, Digits, ExponentOk, ShowExponent, ShowFraction, ExponentEnd, FractionEnd, Ended;
    AtSplit(t, i, whole, ShowFraction(f) + ShowExponent(x));
    TailEnds(t, i + |whole|, f, x);
    WholeSkipped(t, i, whole);
  }

  lemma NotAt(t: seq<unit>, i: nat, s: seq<unit>)
    requires i < |t| && s != [] && t[i] != s[0]
    ensures !At(t, i, s)
  {
    if At(t, i, s) { AtFirst(t, i, s); }
  }

  lemma WordEnds(t: seq<unit>, i: nat, w: seq<unit>)
    requires (w == TRUE || w == FALSE || w == NULL) && At(t, i, w)
    ensures LiteralFirst(t, i) && LiteralEnd(t, i) == i + |w|
  {
    hide At, NumberEnd;
    AtFirst(t, i, w);
    if w != TRUE { NotAt(t, i, TRUE); }
    if w == NULL { NotAt(t, i, FALSE); }
  }

  lemma NumberLiteralEnds(t: seq<unit>, i: nat, v: Value)
    requires ValueOk(v) && v.Number? && At(t, i, Show(v)) && Ended(t, i + |Show(v)|)
    ensures LiteralFirst(t, i) && LiteralEnd(t, i) == i + |Show(v)|
  {
    hide At, NumberEnd, ExponentOk, ShowExponent, ShowFraction, Ended;
    var sign: seq<unit> := if v.minus then [0x2D] else [];
    var tail := ShowFraction(v.fraction) + ShowExponent(v.exponent);
    assert Show(v) == sign + (v.whole + tail);
    AtSplit(t, i, sign, v.whole + tail);
    if v.minus { AtFirst(t, i, sign); }
    AtFirst(t, i + |sign|, v.whole + tail);
    NumberEnds(t, i + |sign|, v.whole, v.fraction, v.exponent);
    NotAt(t, i, TRUE);
    NotAt(t, i, FALSE);
    NotAt(t, i, NULL);
  }

  /** What starts a literal starts nothing else. */
  predicate LiteralFirst(t: seq<unit>, i: nat) {
    i < |t| && !Blank(t[i]) && t[i] != QUOTE && t[i] != OPEN_OBJECT && t[i] != OPEN_ARRAY
  }

  lemma ShowFirst(v: Value)
    requires ValueOk(v)
    ensures Show(v) != [] && !Blank(Show(v)[0]) && Show(v)[0] != CLOSE_ARRAY
  {
    match v
    case Number(minus, whole, _, _) => if !minus { assert Show(v)[0] == whole[0]; }
    case _ =>
  }

  // ---------------------------------------------------------------- values

  /** Where the parts of a member stand: its name's quotes, its colon, the end of its value, and
      what closes it. */
  datatype Places = Places(open: nat, close: nat, colon: nat, end: nat, last: nat)

  function PlacesOf(i: nat, ms: Members): Places {
    var open := i + |ms.w1|;
    var close := open + 1 + |ShowPieces(ms.name)|;
    var colon := close + 1 + |ms.w2|;
    var end := colon + 1 + |ms.w3| + |Show(ms.value)|;
    Places(open, close, colon, end, end + |ms.w4|)
  }

  lemma MemberHead(t: seq<unit>, i: nat, ms: Members)
    requires At(t, i, ShowMembers(ms))
    ensures var p := PlacesOf(i, ms);
            && At(t, i, ms.w1) && p.open < |t| && t[p.open] == QUOTE
            && At(t, p.open + 1, ShowPieces(ms.name) + [QUOTE])
            && At(t, p.close + 1, ms.w2 + ([COLON] + (ms.w3 + (Show(ms.value) + ShowTail(ms)))))
  {
    hide At, ShowPieces, Show, ShowTail;
    var p := PlacesOf(i, ms);
    var after := ms.w2 + ([COLON] + (ms.w3 + (Show(ms.value) + ShowTail(ms))));
    var name := ShowPieces(ms.name);
    AtSplit(t, i, ms.w1, [QUOTE] + (name + ([QUOTE] + after)));
    AtSplit(t, p.open, [QUOTE], name + ([QUOTE] + after));
    AtFirst(t, p.open, [QUOTE]);
    assert name + ([QUOTE] + after) == (name + [QUOTE]) + after;
    AtSplit(t, p.open + 1, name + [QUOTE], after);
  }

  lemma MemberValue(t: seq<unit>, i: nat, ms: Members)
    requires At(t, i, ShowMembers(ms))
    ensures var p := PlacesOf(i, ms);
            && At(t, p.close + 1, ms.w2) && p.colon < |t| && t[p.colon] == COLON
            && At(t, p.colon + 1, ms.w3 + Show(ms.value)) && At(t, p.end, ShowTail(ms))
  {
    hide At, ShowPieces, Show, ShowTail;
    MemberHead(t, i, ms);
    var p := PlacesOf(i, ms);
    var tail := Show(ms.value) + ShowTail(ms);
    AtSplit(t, p.close + 1, ms.w2, [COLON] + (ms.w3 + tail));
    AtSplit(t, p.colon, [COLON], ms.w3 + tail);
    AtFirst(t, p.colon, [COLON]);
    assert ms.w3 + tail == (ms.w3 + Show(ms.value)) + ShowTail(ms);
    AtSplit(t, p.colon + 1, ms.w3 + Show(ms.value), ShowTail(ms));
  }

  /** Blanks, and a mark that ends a value. */
  lemma BlankTail(t: seq<unit>, i: nat, w: seq<unit>, rest: seq<unit>)
    requires Blanks(w) && At(t, i, w + rest) && rest != [] && rest[0] in {COMMA, CLOSE_OBJECT, CLOSE_ARRAY}
    ensures At(t, i, w) && Ended(t, i) && i + |w| < |t| && t[i + |w|] == rest[0] && At(t, i + |w| + 1, rest[1..])
  {
    hide At;
    AtSplit(t, i, w, rest);
    AtFirst(t, i + |w|, rest);
    if w != [] { AtFirst(t, i, w); }
  }

  lemma MemberTail(t: seq<unit>, i: nat, ms: Members)
    requires MembersOk(ms) && At(t, i, ShowMembers(ms))
    ensures var p := PlacesOf(i, ms);
            && At(t, p.end, ms.w4) && p.last < |t| && Ended(t, p.end)
            && (if ms.next.None? then t[p.last] == CLOSE_OBJECT
                else t[p.last] == COMMA && At(t, p.last + 1, ShowMembers(ms.next.value)))
  {
    hide At, ShowPieces, Show, ShowMembers, Blanks, Ended;
    MemberValue(t, i, ms);
    var rest := if ms.next.None? then [CLOSE_OBJECT] else [COMMA] + ShowMembers(ms.next.value);
    BlankTail(t, PlacesOf(i, ms).end, ms.w4, rest);
    if ms.next.Some? { assert rest[1..] == ShowMembers(ms.next.value); }
  }

  lemma MembersLength(ms: Members)
    ensures |ShowMembers(ms)| == PlacesOf(0, ms).last + 1 + (if ms.next.None? then 0 else |ShowMembers(ms.next.value)|)
  {
  }

  lemma {:induction false} BlanksOnce(t: seq<unit>, i: nat)
    requires i <= |t|
    ensures SkipBlanks(t, SkipBlanks(t, i)) == SkipBlanks(t, i)
    ensures SkipBlanks(t, i) < |t| ==> !Blank(t[SkipBlanks(t, i)])
    decreases |t| - i
  {
    if i < |t| && Blank(t[i]) { BlanksOnce(t, i + 1); }
  }

  /** What the skipper answers for a value that ends at end. */
  function Answer(nesting: nat, end: nat): int {
    if nesting <= MAX_DEPTH then end else -1
  }

  /** The scanners find those places. */
  lemma MemberScanned(t: seq<unit>, i: nat, ms: Members)
    requires MembersOk(ms) && At(t, i, ShowMembers(ms))
    ensures var p := PlacesOf(i, ms);
            && i <= p.open < p.close < p.colon < p.end <= p.last < |t|
            && t[p.open] == QUOTE && t[p.colon] == COLON
            && SkipBlanks(t, i) == p.open && StringEnd(t, p.open + 1) == p.close
            && SkipBlanks(t, p.close + 1) == p.colon && SkipBlanks(t, p.end) == p.last
            && At(t, p.colon + 1, ms.w3 + Show(ms.value)) && Ended(t, p.end)
            && (if ms.next.None? then t[p.last] == CLOSE_OBJECT
                else t[p.last] == COMMA && At(t, p.last + 1, ShowMembers(ms.next.value)))
  {
    hide At, ShowPieces, Show, ShowMembers, SkipBlanks, StringEnd;
    var p := PlacesOf(i, ms);
    ShowFirst(ms.value);
    MemberHead(t, i, ms);
    MemberValue(t, i, ms);
    MemberTail(t, i, ms);
    BlanksSkipped(t, i, ms.w1);
    StringEnds(t, p.open + 1, ms.name);
    BlanksSkipped(t, p.close + 1, ms.w2);
    BlanksSkipped(t, p.end, ms.w4);
  }

  lemma {:induction false} MembersSkipped(t: seq<unit>, i: nat, depth: nat, ms: Members)
    requires MembersOk(ms) && At(t, i, ShowMembers(ms))
    ensures SkipMembers(t, i, depth) == Answer(depth + 1 + MembersNesting(ms), i + |ShowMembers(ms)|)
    decreases ms, 1
  {
    hide At, Ended, Blanks, PiecesOk, ValueOk, ShowPieces, Show, ShowMembers, SkipValue, SkipBlanks, StringEnd, Nesting;
    var p := PlacesOf(i, ms);
    MemberScanned(t, i, ms);
    MembersLength(ms);
    ValueSkipped(t, p.colon + 1, depth + 1, ms.w3, ms.value);
    if ms.next.Some? { MembersSkipped(t, p.last + 1, depth, ms.next.value); }
  }

  function Rest(es: Elements): seq<unit> {
    if es.next.None? then [CLOSE_ARRAY] else [COMMA] + ShowElements(es.next.value)
  }

  lemma ElementsText(es: Elements)
    ensures ShowElements(es) == (es.v1 + Show(es.value)) + (es.v2 + Rest(es))
    ensures |Rest(es)| == 1 + (if es.next.None? then 0 else |ShowElements(es.next.value)|)
    ensures es.next.Some? ==> Rest(es)[0] == COMMA && Rest(es)[1..] == ShowElements(es.next.value)
    ensures es.next.None? ==> Rest(es)[0] == CLOSE_ARRAY
  {
  }

  lemma ElementParts(t: seq<unit>, i: nat, es: Elements)
    requires ElementsOk(es) && At(t, i, ShowElements(es))
    ensures var end := i + |es.v1| + |Show(es.value)|;
            var last := end + |es.v2|;
            && At(t, i, es.v1 + Show(es.value)) && At(t, end, es.v2) && Ended(t, end) && last < |t|
            && |ShowElements(es)| == last - i + 1 + (if es.next.None? then 0 else |ShowElements(es.next.value)|)
            && (if es.next.None? then t[last] == CLOSE_ARRAY
                else t[last] == COMMA && At(t, last + 1, ShowElements(es.next.value)))
  {
    hide At, Show, ShowElements, Rest, ValueOk;
    var end := i + |es.v1| + |Show(es.value)|;
    ElementsText(es);
    AtSplit(t, i, es.v1 + Show(es.value), es.v2 + Rest(es));
    AtSplit(t, end, es.v2, Rest(es));
    AtFirst(t, end + |es.v2|, Rest(es));
    if es.v2 != [] { AtFirst(t, end, es.v2); }
  }

  lemma {:induction false} ElementsSkipped(t: seq<unit>, i: nat, depth: nat, es: Elements)
    requires ElementsOk(es) && At(t, i, ShowElements(es))
    ensures SkipElements(t, i, depth) == Answer(depth + 1 + ElementsNesting(es), i + |ShowElements(es)|)
    decreases es, 1
  {
    hide At, Show, ShowElements, SkipValue, SkipBlanks, Nesting;
    ElementParts(t, i, es);
    var end := i + |es.v1| + |Show(es.value)|;
    ValueSkipped(t, i, depth + 1, es.v1, es.value);
    BlanksSkipped(t, end, es.v2);
    if es.next.Some? { ElementsSkipped(t, end + |es.v2| + 1, depth, es.next.value); }
  }

  /** skipJsonValue finds the end of every value whose nesting fits, and gives up on every other. */
  lemma {:induction false} ValueSkipped(t: seq<unit>, i: nat, depth: nat, w: seq<unit>, v: Value)
    requires ValueOk(v) && Blanks(w) && At(t, i, w + Show(v)) && Ended(t, i + |w| + |Show(v)|)
    ensures SkipValue(t, i, depth) == Answer(depth + Nesting(v), i + |w| + |Show(v)|)
    decreases v, 0
  {
    hide At, Show, SkipMembers, SkipElements, LiteralEnd, StringEnd, SkipBlanks, MembersNesting, ElementsNesting, Ended;
    hide Blanks, MembersOk, ElementsOk, ShowPieces, SkipValue;
    var j := i + |w|;
    ValueStarts(t, i, w, v);
    match v
    case Object(ms) =>
      ShowContainer(v);
      ObjectOpens(t, j, ms);
      MembersSkipped(t, j + 1, depth, ms);
      ObjectSkipped(t, i, depth);
    case Array(es) =>
      ShowContainer(v);
      ArrayOpens(t, j, es);
      ElementsSkipped(t, j + 1, depth, es);
      ArraySkipped(t, i, depth);
    case _ =>
      LeafSkipped(t, i, depth, v);
  }

  lemma ValueStarts(t: seq<unit>, i: nat, w: seq<unit>, v: Value)
    requires ValueOk(v) && Blanks(w) && At(t, i, w + Show(v))
    ensures SkipBlanks(t, i) == i + |w| < |t| && At(t, i + |w|, Show(v))
  {
    hide At, Show, Blanks, ValueOk;
    AtSplit(t, i, w, Show(v));
    ShowFirst(v);
    AtFirst(t, i + |w|, Show(v));
    BlanksSkipped(t, i, w);
  }

  lemma LeafSkipped(t: seq<unit>, i: nat, depth: nat, v: Value)
    requires ValueOk(v) && !v.Object? && !v.Array? && i <= |t|
    requires var j := SkipBlanks(t, i); j < |t| && At(t, j, Show(v)) && Ended(t, j + |Show(v)|)
    ensures SkipValue(t, i, depth) == Answer(depth + Nesting(v), SkipBlanks(t, i) + |Show(v)|)
  {
    hide At, Show, SkipBlanks, Ended, Blanks, ShowPieces, SkipValue;
    match v
    case Word(x) => TokenSkipped(t, i, depth, v);
    case Number(_, _, _, _) => TokenSkipped(t, i, depth, v);
    case Text(ps) => TextSkipped(t, i, depth, ps);
    case _ => EmptySkipped(t, i, depth, v);
  }

  lemma ObjectSkipped(t: seq<unit>, i: nat, depth: nat)
    requires i <= |t| && SkipBlanks(t, i) < |t| && t[SkipBlanks(t, i)] == OPEN_OBJECT
    requires var k := SkipBlanks(t, SkipBlanks(t, i) + 1); k < |t| && t[k] == QUOTE
    ensures SkipValue(t, i, depth) == if depth > MAX_DEPTH then -1 else SkipMembers(t, SkipBlanks(t, i) + 1, depth)
  {
    hide SkipBlanks, SkipMembers, SkipElements, LiteralEnd, StringEnd;
    MembersFromBlanks(t, SkipBlanks(t, i) + 1, depth);
  }

  lemma ArraySkipped(t: seq<unit>, i: nat, depth: nat)
    requires i <= |t| && SkipBlanks(t, i) < |t| && t[SkipBlanks(t, i)] == OPEN_ARRAY
    requires var k := SkipBlanks(t, SkipBlanks(t, i) + 1); k < |t| && t[k] != CLOSE_ARRAY
    ensures SkipValue(t, i, depth) == if depth > MAX_DEPTH then -1 else SkipElements(t, SkipBlanks(t, i) + 1, depth)
  {
    hide SkipBlanks, SkipMembers, SkipElements, LiteralEnd, StringEnd;
    ElementsFromBlanks(t, SkipBlanks(t, i) + 1, depth);
  }

  lemma ShowContainer(v: Value)
    ensures v.Object? ==> Show(v) == [OPEN_OBJECT] + ShowMembers(v.members)
    ensures v.Array? ==> Show(v) == [OPEN_ARRAY] + ShowElements(v.elements)
    ensures v.Text? ==> Show(v) == [QUOTE] + ShowPieces(v.pieces) + [QUOTE]
    ensures v.EmptyObject? ==> Show(v) == [OPEN_OBJECT] + v.blank + [CLOSE_OBJECT]
    ensures v.EmptyArray? ==> Show(v) == [OPEN_ARRAY] + v.blank + [CLOSE_ARRAY]
  {
  }

  lemma TokenSkipped(t: seq<unit>, i: nat, depth: nat, v: Value)
    requires ValueOk(v) && (v.Word? || v.Number?) && i <= |t|
    requires var j := SkipBlanks(t, i); At(t, j, Show(v)) && Ended(t, j + |Show(v)|)
    ensures SkipValue(t, i, depth) == Answer(depth, SkipBlanks(t, i) + |Show(v)|)
  {
    hide At, Show, LiteralEnd, SkipBlanks;
    var j := SkipBlanks(t, i);
    if v.Word? { ShowWord(v); WordEnds(t, j, v.w); } else { NumberLiteralEnds(t, j, v); }
  }

  lemma ShowWord(v: Value)
    requires v.Word?
    ensures Show(v) == v.w
  {
  }

  lemma TextSkipped(t: seq<unit>, i: nat, depth: nat, ps: seq<Piece>)
    requires PiecesOk(ps) && i <= |t|
    requires At(t, SkipBlanks(t, i), Show(Text(ps)))
    ensures SkipValue(t, i, depth) == Answer(depth, SkipBlanks(t, i) + |Show(Text(ps))|)
  {
    hide At, ShowPieces, StringEnd, SkipBlanks;
    var j := SkipBlanks(t, i);
    assert Show(Text(ps)) == [QUOTE] + (ShowPieces(ps) + [QUOTE]);
    AtSplit(t, j, [QUOTE], ShowPieces(ps) + [QUOTE]);
    AtFirst(t, j, [QUOTE]);
    StringEnds(t, j + 1, ps);
  }

  lemma EmptyParts(t: seq<unit>, j: nat, open: unit, b: seq<unit>, close: unit)
    requires Blanks(b) && !Blank(close) && At(t, j, [open] + b + [close])
    ensures j < |t| && t[j] == open
    ensures SkipBlanks(t, j + 1) == j + 1 + |b| < |t| && t[j + 1 + |b|] == close
  {
    hide At, SkipBlanks;
    assert [open] + b + [close] == [open] + (b + [close]);
    AtSplit(t, j, [open], b + [close]);
    AtFirst(t, j, [open]);
    AtSplit(t, j + 1, b, [close]);
    AtFirst(t, j + 1 + |b|, [close]);
    BlanksSkipped(t, j + 1, b);
  }

  lemma EmptySkipped(t: seq<unit>, i: nat, depth: nat, v: Value)
    requires (v.EmptyObject? || v.EmptyArray?) && Blanks(v.blank) && i <= |t|
    requires At(t, SkipBlanks(t, i), Show(v))
    ensures SkipValue(t, i, depth) == Answer(depth, SkipBlanks(t, i) + |Show(v)|)
  {
    hide At, SkipBlanks, SkipMembers, SkipElements, Show, Blanks, LiteralEnd, StringEnd;
    ShowContainer(v);
    var j := SkipBlanks(t, i);
    if v.EmptyObject? {
      EmptyParts(t, j, OPEN_OBJECT, v.blank, CLOSE_OBJECT);
    } else {
      EmptyParts(t, j, OPEN_ARRAY, v.blank, CLOSE_ARRAY);
    }
  }

  lemma ObjectOpens(t: seq<unit>, j: nat, ms: Members)
    requires MembersOk(ms) && At(t, j, Show(Object(ms)))
    ensures j < |t| && t[j] == OPEN_OBJECT && At(t, j + 1, ShowMembers(ms))
    ensures var k := SkipBlanks(t, j + 1); k < |t| && t[k] == QUOTE
  {
    hide At, ShowMembers, SkipBlanks, MembersNesting;
    AtSplit(t, j, [OPEN_OBJECT], ShowMembers(ms));
    AtFirst(t, j, [OPEN_OBJECT]);
    MemberHead(t, j + 1, ms);
    BlanksSkipped(t, j + 1, ms.w1);
  }

  lemma ArrayOpens(t: seq<unit>, j: nat, es: Elements)
    requires ElementsOk(es) && At(t, j, Show(Array(es)))
    ensures j < |t| && t[j] == OPEN_ARRAY && At(t, j + 1, ShowElements(es))
    ensures var k := SkipBlanks(t, j + 1); k < |t| && t[k] != CLOSE_ARRAY
  {
    hide At, ShowElements, SkipBlanks, ElementsNesting, Show, ValueOk, Ended;
    ShowContainer(Array(es));
    AtSplit(t, j, [OPEN_ARRAY], ShowElements(es));
    AtFirst(t, j, [OPEN_ARRAY]);
    ElementParts(t, j + 1, es);
    AtSplit(t, j + 1, es.v1, Show(es.value));
    ShowFirst(es.value);
    AtFirst(t, j + 1 + |es.v1|, Show(es.value));
    BlanksSkipped(t, j + 1, es.v1);
  }

  lemma MembersFromBlanks(t: seq<unit>, i: nat, depth: nat)
    requires i <= |t|
    ensures SkipMembers(t, SkipBlanks(t, i), depth) == SkipMembers(t, i, depth)
  {
    hide SkipBlanks, SkipValue, StringEnd;
    BlanksOnce(t, i);
  }

  lemma ElementsFromBlanks(t: seq<unit>, i: nat, depth: nat)
    requires i <= |t|
    ensures SkipElements(t, SkipBlanks(t, i), depth) == SkipElements(t, i, depth)
  {
    hide SkipBlanks, SkipMembers, StringEnd, LiteralEnd;
    BlanksOnce(t, i);
    assert SkipValue(t, SkipBlanks(t, i), depth + 1) == SkipValue(t, i, depth + 1);
  }
}
