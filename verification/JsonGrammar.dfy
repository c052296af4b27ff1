/** JSON texts as RFC 8259 generates them: derivation trees, whitespace included, and the code
    units they spell. */
module JsonGrammar {
  import opened Wrappers
  import opened Utf8

  const QUOTE: unit := 0x22
  const BACKSLASH: unit := 0x5C
  const OPEN_OBJECT: unit := 0x7B
  const CLOSE_OBJECT: unit := 0x7D
  const OPEN_ARRAY: unit := 0x5B
  const CLOSE_ARRAY: unit := 0x5D
  const COLON: unit := 0x3A
  const COMMA: unit := 0x2C

  const TRUE: seq<unit> := [0x74, 0x72, 0x75, 0x65]
  const FALSE: seq<unit> := [0x66, 0x61, 0x6C, 0x73, 0x65]
  const NULL: seq<unit> := [0x6E, 0x75, 0x6C, 0x6C]

  /** Section 2. */
  predicate Blank(u: unit) { u == 0x20 || u == 0x09 || u == 0x0A || u == 0x0D }

  predicate Blanks(w: seq<unit>) { forall i | 0 <= i < |w| :: Blank(w[i]) }

  predicate Digit(u: unit) { 0x30 <= u <= 0x39 }

  predicate Digits(d: seq<unit>) { d != [] && forall i | 0 <= i < |d| :: Digit(d[i]) }

  predicate HexDigit(u: unit) { 0x30 <= u <= 0x39 || 0x41 <= u <= 0x46 || 0x61 <= u <= 0x66 }

  /** Section 7: a character of a string, as written. */
  datatype Piece =
    | Plain(u: unit)
    | Escape(c: unit)
    | Unicode(h0: unit, h1: unit, h2: unit, h3: unit)

  predicate PieceOk(p: Piece) {
    match p
    case Plain(u) => u >= 0x20 && u != QUOTE && u != BACKSLASH
    case Escape(c) => c in {QUOTE, BACKSLASH, 0x2F, 0x62, 0x66, 0x6E, 0x72, 0x74}
    case Unicode(h0, h1, h2, h3) => HexDigit(h0) && HexDigit(h1) && HexDigit(h2) && HexDigit(h3)
  }

  function ShowPiece(p: Piece): (s: seq<unit>)
    ensures |s| >= 1
  {
    match p
    case Plain(u) => [u]
    case Escape(c) => [BACKSLASH, c]
    case Unicode(h0, h1, h2, h3) => [BACKSLASH, 0x75, h0, h1, h2, h3]
  }

  function ShowPieces(ps: seq<Piece>): seq<unit> {
    if ps == [] then [] else ShowPiece(ps[0]) + ShowPieces(ps[1..])
  }

  function HexValue(u: unit): (v: nat)
    ensures v < 16
  {
    if 0x30 <= u <= 0x39 then u - 0x30 else if 0x41 <= u <= 0x46 then u - 0x37 else if 0x61 <= u <= 0x66 then u - 0x57 else 0
  }

  /** The code unit a piece stands for. */
  function Meaning(p: Piece): unit {
    match p
    case Plain(u) => u
    case Escape(c) => if c == 0x62 then 0x08 else if c == 0x66 then 0x0C else if c == 0x6E then 0x0A
                      else if c == 0x72 then 0x0D else if c == 0x74 then 0x09 else c
    case Unicode(h0, h1, h2, h3) => HexValue(h0) * 0x1000 + HexValue(h1) * 0x100 + HexValue(h2) * 0x10 + HexValue(h3)
  }

  function Decode(ps: seq<Piece>): seq<unit> {
    if ps == [] then [] else [Meaning(ps[0])] + Decode(ps[1..])
  }

  /** Section 6. */
  datatype Exponent = Exponent(e: unit, sign: seq<unit>, digits: seq<unit>)

  datatype Value =
    | Word(w: seq<unit>)
    | Number(minus: bool, whole: seq<unit>, fraction: seq<unit>, exponent: Option<Exponent>)
    | Text(pieces: seq<Piece>)
    | EmptyObject(blank: seq<unit>)
    | Object(members: Members)
    | EmptyArray(blank: seq<unit>)
    | Array(elements: Elements)

  /** blanks name blanks : blanks value blanks, and more after a comma or nothing. */
  datatype Members = Members(w1: seq<unit>, name: seq<Piece>, w2: seq<unit>, w3: seq<unit>, value: Value, w4: seq<unit>,
                             next: Option<Members>)

  datatype Elements = Elements(v1: seq<unit>, value: Value, v2: seq<unit>, next: Option<Elements>)

  predicate PiecesOk(ps: seq<Piece>) { forall i | 0 <= i < |ps| :: PieceOk(ps[i]) }

  predicate ValueOk(v: Value) {
    match v
    case Word(w) => w == TRUE || w == FALSE || w == NULL
    case Number(_, whole, fraction, exponent) =>
      && Digits(whole) && (whole[0] == 0x30 ==> |whole| == 1)
      && (fraction != [] ==> Digits(fraction))
      && (exponent.Some? ==> ExponentOk(exponent.value))
    case Text(ps) => PiecesOk(ps)
    case EmptyObject(b) => Blanks(b)
    case Object(ms) => MembersOk(ms)
    case EmptyArray(b) => Blanks(b)
    case Array(es) => ElementsOk(es)
  }

  predicate ExponentOk(x: Exponent) {
    (x.e == 0x65 || x.e == 0x45) && x.sign in {[], [0x2B], [0x2D]} && Digits(x.digits)
  }

  predicate MembersOk(ms: Members) {
    && Blanks(ms.w1) && PiecesOk(ms.name) && Blanks(ms.w2) && Blanks(ms.w3) && ValueOk(ms.value) && Blanks(ms.w4)
    && (ms.next.Some? ==> MembersOk(ms.next.value))
  }

  predicate ElementsOk(es: Elements) {
    && Blanks(es.v1) && ValueOk(es.value) && Blanks(es.v2)
    && (es.next.Some? ==> ElementsOk(es.next.value))
  }

  function Show(v: Value): seq<unit>
    decreases v, 0
  {
    match v
    case Word(w) => w
    case Number(minus, whole, fraction, exponent) => ShowNumber(minus, whole, fraction, exponent)
    case Text(ps) => [QUOTE] + ShowPieces(ps) + [QUOTE]
    case EmptyObject(b) => [OPEN_OBJECT] + b + [CLOSE_OBJECT]
    case Object(ms) => [OPEN_OBJECT] + ShowMembers(ms)
    case EmptyArray(b) => [OPEN_ARRAY] + b + [CLOSE_ARRAY]
    case Array(es) => [OPEN_ARRAY] + ShowElements(es)
  }

  function ShowNumber(minus: bool, whole: seq<unit>, fraction: seq<unit>, exponent: Option<Exponent>): seq<unit> {
    (if minus then [0x2D] else []) + whole
    + (ShowFraction(fraction) + ShowExponent(exponent))
  }

  function ShowFraction(f: seq<unit>): seq<unit> { if f == [] then [] else [0x2E] + f }

  function ShowExponent(x: Option<Exponent>): seq<unit> {
    if x.None? then [] else [x.value.e] + x.value.sign + x.value.digits
  }

  /** From after the brace to the closing one. */
  function ShowMembers(ms: Members): seq<unit>
    decreases ms, 1
  {
    ms.w1 + ([QUOTE] + (ShowPieces(ms.name) + ([QUOTE] + (ms.w2 + ([COLON] + (ms.w3 + (Show(ms.value) + ShowTail(ms))))))))
  }

  function ShowTail(ms: Members): seq<unit>
    decreases ms, 0
  {
    ms.w4 + (if ms.next.None? then [CLOSE_OBJECT] else [COMMA] + ShowMembers(ms.next.value))
  }

  function ShowElements(es: Elements): seq<unit>
    decreases es, 0
  {
    es.v1 + (Show(es.value) + (es.v2 + (if es.next.None? then [CLOSE_ARRAY] else [COMMA] + ShowElements(es.next.value))))
  }

  /** How deeply values with content are nested below a value. */
  function Nesting(v: Value): nat {
    match v
    case Object(ms) => 1 + MembersNesting(ms)
    case Array(es) => 1 + ElementsNesting(es)
    case _ => 0
  }

  function Larger(a: nat, b: nat): nat { if a < b then b else a }

  function MembersNesting(ms: Members): nat {
    if ms.next.None? then Nesting(ms.value) else Larger(Nesting(ms.value), MembersNesting(ms.next.value))
  }

  function ElementsNesting(es: Elements): nat {
    if es.next.None? then Nesting(es.value) else Larger(Nesting(es.value), ElementsNesting(es.next.value))
  }

  // ---------------------------------------------------------------- the letters

  /** The classes and words above, in characters. */
  lemma Letters(u: unit)
    ensures Blank(u) <==> u in {' ' as int, '\t' as int, '\n' as int, '\r' as int}
    ensures Digit(u) <==> '0' as int <= u <= '9' as int
    ensures HexDigit(u) <==> '0' as int <= u <= '9' as int || 'A' as int <= u <= 'F' as int || 'a' as int <= u <= 'f' as int
    ensures HexDigit(u) ==> HexValue(u) == u - (if u <= '9' as int then '0' as int else if u <= 'F' as int then 'A' as int - 10
                                                else 'a' as int - 10)
    ensures PieceOk(Escape(u)) <==> u in {'\"' as int, '\\' as int, '/' as int, 'b' as int, 'f' as int, 'n' as int, 'r' as int,
                                          't' as int}
    ensures PieceOk(Escape(u)) ==>
              Meaning(Escape(u)) == if u == 'b' as int then 8 else if u == 'f' as int then 12 else if u == 'n' as int then '\n' as int
                                    else if u == 'r' as int then '\r' as int else if u == 't' as int then '\t' as int else u
    ensures TRUE == ['t' as int, 'r' as int, 'u' as int, 'e' as int] && NULL == ['n' as int, 'u' as int, 'l' as int, 'l' as int]
    ensures FALSE == ['f' as int, 'a' as int, 'l' as int, 's' as int, 'e' as int]
    ensures [QUOTE, BACKSLASH, COLON, COMMA] == ['\"' as int, '\\' as int, ':' as int, ',' as int]
    ensures [OPEN_OBJECT, CLOSE_OBJECT, OPEN_ARRAY, CLOSE_ARRAY] == ['{' as int, '}' as int, '[' as int, ']' as int]
  {
  }
}
