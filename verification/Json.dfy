/** JSON.stringify and UTF-8 byte lengths, as far as the feed's page accounting uses them. */
module Json {
  import opened Wrappers
  import Decimals

  datatype Json =
    | Null
    | Bool(flag: bool)
    | Num(n: nat)
    | Str(text: string)
    | Arr(items: seq<Json>)
    | Obj(members: seq<Member>)

  datatype Member = Member(name: string, value: Json)

  function HexDigit(d: nat): char
    requires d < 16
  {
    if d < 10 then ('0' as int + d) as char else ('a' as int + d - 10) as char
  }

  /** Two-character escapes, \u00XX for the other control characters, everything else verbatim. */
  function EscapeChar(c: char): string {
    if c == '\"' then "\\\""
    else if c == '\\' then "\\\\"
    else if c as int == 8 then "\\b"
    else if c as int == 12 then "\\f"
    else if c == '\n' then "\\n"
    else if c == '\r' then "\\r"
    else if c == '\t' then "\\t"
    else if c as int < 32 then "\\u00" + [HexDigit(c as int / 16), HexDigit(c as int % 16)]
    else [c]
  }

  function Escape(s: string): string {
    if s == [] then [] else EscapeChar(s[0]) + Escape(s[1..])
  }

  function Quote(s: string): string { "\"" + Escape(s) + "\"" }

  function Stringify(j: Json): string
    decreases j, 1
  {
    match j
    case Null => "null"
    case Bool(b) => if b then "true" else "false"
    case Num(n) => Decimals.Spell(n)
    case Str(s) => Quote(s)
    case Arr(items) => "[" + StringifyItems(items) + "]"
    case Obj(members) => "{" + StringifyMembers(members) + "}"
  }

  function StringifyItems(items: seq<Json>): string
    decreases items, 0
  {
    if items == [] then []
    else if |items| == 1 then Stringify(items[0])
    else Stringify(items[0]) + "," + StringifyItems(items[1..])
  }

  function StringifyMembers(members: seq<Member>): string
    decreases members, 0
  {
    if members == [] then []
    else
      var m := members[0];
      var head := Quote(m.name) + ":" + Stringify(m.value);
      if |members| == 1 then head else head + "," + StringifyMembers(members[1..])
  }

  /** RFC 3629, section 3: bytes of one Unicode scalar value. */
  function CharBytes(c: char): nat {
    var u := c as int;
    if u < 0x80 then 1 else if u < 0x800 then 2 else if u < 0x10000 then 3 else 4
  }

  function Bytes(s: string): nat {
    if s == [] then 0 else CharBytes(s[0]) + Bytes(s[1..])
  }

  /** estimateJsonBytes. */
  function JsonBytes(j: Json): nat { Bytes(Stringify(j)) }

  lemma {:induction false} BytesConcat(a: string, b: string)
    ensures Bytes(a + b) == Bytes(a) + Bytes(b)
  {
    if a == [] {
      assert a + b == b;
    } else {
      BytesConcat(a[1..], b);
      assert (a + b)[1..] == a[1..] + b;
    }
  }

  predicate Ascii(s: string) { forall i | 0 <= i < |s| :: s[i] as int < 0x80 }

  /** No character of s is escaped. */
  predicate Plain(s: string) {
    forall i | 0 <= i < |s| :: 32 <= s[i] as int < 0x80 && s[i] != '\"' && s[i] != '\\'
  }

  lemma {:induction false} AsciiBytes(s: string)
    requires Ascii(s)
    ensures Bytes(s) == |s|
  {
    if s != [] { AsciiBytes(s[1..]); }
  }

  lemma {:induction false} PlainEscape(s: string)
    requires Plain(s)
    ensures Escape(s) == s
  {
    if s != [] { PlainEscape(s[1..]); assert s == [s[0]] + s[1..]; }
  }

  lemma PlainQuoteBytes(s: string)
    requires Plain(s)
    ensures Bytes(Quote(s)) == |s| + 2
  {
    PlainEscape(s);
    AsciiBytes(Quote(s));
  }

  lemma SpellIsPlain(n: nat)
    ensures Plain(Decimals.Spell(n))
  {
    Decimals.SpellIsCanonical(n);
    var s := Decimals.Spell(n);
    forall i | 0 <= i < |s| ensures 32 <= s[i] as int < 0x80 && s[i] != '\"' && s[i] != '\\' {
      assert Decimals.IsDigit(s[i]);
    }
  }

  function Sum(sizes: seq<nat>): nat {
    if sizes == [] then 0 else Sum(sizes[..|sizes| - 1]) + sizes[|sizes| - 1]
  }

  /** Bytes of a JSON array whose elements take the given sizes: brackets, commas, elements. */
  function ArrayBytes(sizes: seq<nat>): nat {
    2 + Sum(sizes) + (if sizes == [] then 0 else |sizes| - 1)
  }

  function Sizes(items: seq<Json>): (sizes: seq<nat>)
    ensures |sizes| == |items|
    ensures forall i | 0 <= i < |items| :: sizes[i] == JsonBytes(items[i])
  {
    seq(|items|, i requires 0 <= i < |items| => JsonBytes(items[i]))
  }

  lemma {:induction false} SumFront(sizes: seq<nat>)
    requires sizes != []
    ensures Sum(sizes) == sizes[0] + Sum(sizes[1..])
  {
    if |sizes| > 1 {
      var p := sizes[..|sizes| - 1];
      SumFront(p);
      assert sizes[1..][..|sizes[1..]| - 1] == p[1..];
    } else {
      assert sizes[..0] == [] && sizes[1..] == [];
    }
  }

  lemma {:induction false} ItemsBytes(items: seq<Json>)
    requires items != []
    ensures Bytes(StringifyItems(items)) == Sum(Sizes(items)) + |items| - 1
  {
    SumFront(Sizes(items));
    assert Sizes(items)[1..] == Sizes(items[1..]);
    if |items| > 1 {
      ItemsBytes(items[1..]);
      BytesConcat(Stringify(items[0]) + ",", StringifyItems(items[1..]));
      BytesConcat(Stringify(items[0]), ",");
      AsciiBytes(",");
    } else {
      assert Sizes(items[1..]) == [];
    }
  }

  /** The wire size of an array really is its elements plus framing. */
  lemma ArrBytes(items: seq<Json>)
    ensures JsonBytes(Arr(items)) == ArrayBytes(Sizes(items))
  {
    AsciiBytes("["); AsciiBytes("]");
    BytesConcat("[" + StringifyItems(items), "]");
    BytesConcat("[", StringifyItems(items));
    if items == [] { assert Sizes(items) == []; assert StringifyItems(items) == []; }
    else { ItemsBytes(items); }
  }

  /** Bytes of the inside of an object, member by member. */
  function MembersBytes(members: seq<Member>): nat {
    if members == [] then 0
    else Bytes(Quote(members[0].name)) + 1 + JsonBytes(members[0].value)
         + (if |members| == 1 then 0 else 1 + MembersBytes(members[1..]))
  }

  lemma {:induction false} MembersBytesExact(members: seq<Member>)
    ensures Bytes(StringifyMembers(members)) == MembersBytes(members)
  {
    if members != [] {
      var m := members[0];
      AsciiBytes(":"); AsciiBytes(",");
      BytesConcat(Quote(m.name) + ":", Stringify(m.value));
      BytesConcat(Quote(m.name), ":");
      if |members| > 1 {
        var head := Quote(m.name) + ":" + Stringify(m.value);
        MembersBytesExact(members[1..]);
        BytesConcat(head + ",", StringifyMembers(members[1..]));
        BytesConcat(head, ",");
      }
    }
  }

  lemma ObjBytes(members: seq<Member>)
    ensures JsonBytes(Obj(members)) == 2 + MembersBytes(members)
  {
    AsciiBytes("{"); AsciiBytes("}");
    MembersBytesExact(members);
    BytesConcat("{" + StringifyMembers(members), "}");
    BytesConcat("{", StringifyMembers(members));
  }
}
