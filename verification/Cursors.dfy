/** The text of a cursor: base64url of its JSON payload, a dot, base64url of a 32-byte
    authenticator. The authenticator is an uninterpreted byte string; only lengths and
    alphabets matter here, the protocol model treats a cursor as its payload. */
module Cursors {
  import opened Wrappers
  import opened Json
  import Decimals
  import Base64
  import Paging
  import Utf8

  type Mac = m: seq<Base64.Byte> | |m| == 32 witness seq(32, _ => 0)

  /** The bytes of a text. */
  function TextBytes(s: string): seq<Base64.Byte> {
    if s == [] then [] else Utf8.EncodeScalar(s[0] as int) + TextBytes(s[1..])
  }

  /** The sizes Json counts are those of the encoding. */
  lemma {:induction false} TextLength(s: string)
    ensures |TextBytes(s)| == Bytes(s)
  {
    if s != [] { TextLength(s[1..]); }
  }

  function Payload(epoch: string, feed: string, digest: string, watermark: nat, position: string, expiry: nat): Json {
    Obj([Member("v", Num(1)), Member("epoch", Str(epoch)), Member("feed", Str(feed)),
         Member("fd", Str(digest)), Member("w", Str(Decimals.Spell(watermark))),
         Member("p", Str(position)), Member("exp", Num(expiry))])
  }

  function Property(name: string, text: string): string { Quote(name) + ":" + text }

  /** The payload's text: seven members, the version first. */
  lemma PayloadText(epoch: string, feed: string, digest: string, watermark: nat, position: string, expiry: nat)
    ensures Stringify(Payload(epoch, feed, digest, watermark, position, expiry))
            == "{" + (Property("v", "1") + "," + (Property("epoch", Quote(epoch)) + "," + (Property("feed", Quote(feed)) + ","
               + (Property("fd", Quote(digest)) + "," + (Property("w", Quote(Decimals.Spell(watermark))) + ","
               + (Property("p", Quote(position)) + "," + Property("exp", Decimals.Spell(expiry)))))))) + "}"
  {
    hide Quote, StringifyMembers, Property, Decimals.Spell;
    var e, f, d, w := Member("epoch", Str(epoch)), Member("feed", Str(feed)), Member("fd", Str(digest)),
                      Member("w", Str(Decimals.Spell(watermark)));
    var p, x := Member("p", Str(position)), Member("exp", Num(expiry));
    LastMember(x);
    MembersStep(p, [x]);
    MembersStep(w, [p] + [x]);
    MembersStep(d, [w] + ([p] + [x]));
    MembersStep(f, [d] + ([w] + ([p] + [x])));
    MembersStep(e, [f] + ([d] + ([w] + ([p] + [x]))));
    MembersStep(Member("v", Num(1)), [e] + ([f] + ([d] + ([w] + ([p] + [x])))));
    assert [Member("v", Num(1))] + ([e] + ([f] + ([d] + ([w] + ([p] + [x])))))
           == Payload(epoch, feed, digest, watermark, position, expiry).members;
    OneIs();
  }

  lemma OneIs()
    ensures Stringify(Num(1)) == "1"
  {
  }

  lemma LastMember(m: Member)
    ensures StringifyMembers([m]) == Property(m.name, Stringify(m.value))
  {
  }

  lemma MembersStep(m: Member, rest: seq<Member>)
    requires rest != []
    ensures StringifyMembers([m] + rest) == Property(m.name, Stringify(m.value)) + "," + StringifyMembers(rest)
  {
    assert ([m] + rest)[1..] == rest;
  }

  /** createCursor. */
  function Token(payload: Json, mac: Mac): string {
    Base64.UrlEncode(TextBytes(Stringify(payload))) + "." + Base64.UrlEncode(mac)
  }

  lemma TokenLength(payload: Json, mac: Mac)
    ensures |Token(payload, mac)| == (4 * JsonBytes(payload) + 2) / 3 + 44
  {
    TextLength(Stringify(payload));
    var u := Base64.UrlEncode(TextBytes(Stringify(payload)));
    Base64.GroupsLength(TextBytes(Stringify(payload)));
    MissingOf32();
  }

  lemma MissingOf32()
    ensures Base64.Missing(32) == 1
  {
    assert Base64.Missing(5) == 1;
    assert Base64.Missing(11) == 1;
    assert Base64.Missing(17) == 1;
    assert Base64.Missing(23) == 1;
    assert Base64.Missing(29) == 1;
  }

  /** Tokens contain nothing JSON would escape. */
  lemma TokenIsPlain(payload: Json, mac: Mac)
    ensures Plain(Token(payload, mac)) && |Token(payload, mac)| >= 3
  {
    UrlEncodeIsPlain(TextBytes(Stringify(payload)));
    UrlEncodeIsPlain(mac);
    TokenLength(payload, mac);
  }

  lemma UrlEncodeIsPlain(b: seq<Base64.Byte>)
    ensures Plain(Base64.UrlEncode(b))
  {
    var v := Base64.UrlEncode(b);
    forall i | 0 <= i < |v| ensures 32 <= v[i] as int < 0x80 && v[i] != '\"' && v[i] != '\\' {
      Base64.UrlEncodeLetters(b, i);
    }
  }

  /** A shorter position never makes the longer cursor, whatever the authenticators are. */
  lemma TokenLengthMonotone(epoch: string, feed: string, digest: string, watermark: nat,
                            p: string, q: string, expiry: nat, mac: Mac, mac': Mac)
    requires Plain(p) && Plain(q) && |p| <= |q|
    ensures |Token(Payload(epoch, feed, digest, watermark, p, expiry), mac)|
            <= |Token(Payload(epoch, feed, digest, watermark, q, expiry), mac')|
  {
    var x := Payload(epoch, feed, digest, watermark, p, expiry);
    var y := Payload(epoch, feed, digest, watermark, q, expiry);
    assert Paging.Names(x.members) == Paging.Names(y.members);
    Paging.PageDifference(x.members, y.members);
    PlainQuoteBytes(p);
    PlainQuoteBytes(q);
    TokenLength(x, mac);
    TokenLength(y, mac');
  }

  /** The token for a position's text, under any authenticator. */
  function Mint(epoch: string, feed: string, digest: string, watermark: nat, position: string, expiry: nat,
                mac: Json -> Mac): string
  {
    var payload := Payload(epoch, feed, digest, watermark, position, expiry);
    Token(payload, mac(payload))
  }

  /** token is free of escapes and no longer than the budget's. */
  predicate Budgeted(token: string, budget: string) { Plain(token) && 3 <= |token| <= |budget| }

  /** No token is longer than one for a position of at least its length. */
  lemma MintBudget(epoch: string, feed: string, digest: string, watermark: nat, p: string, q: string, expiry: nat,
                   mac: Json -> Mac)
    requires Plain(p) && Plain(q) && |p| <= |q|
    ensures Budgeted(Mint(epoch, feed, digest, watermark, p, expiry, mac), Mint(epoch, feed, digest, watermark, q, expiry, mac))
  {
    var x := Payload(epoch, feed, digest, watermark, p, expiry);
    var y := Payload(epoch, feed, digest, watermark, q, expiry);
    TokenLengthMonotone(epoch, feed, digest, watermark, p, q, expiry, mac(x), mac(y));
    TokenIsPlain(x, mac(x));
  }

  /** The cursor at the watermark is as long as any cursor of its pass. */
  lemma TokenBudget(epoch: string, feed: string, digest: string, watermark: nat, position: nat, expiry: nat,
                    mac: Json -> Mac)
    requires position <= watermark
    ensures Budgeted(Mint(epoch, feed, digest, watermark, Decimals.Spell(position), expiry, mac),
                     Mint(epoch, feed, digest, watermark, Decimals.Spell(watermark), expiry, mac))
  {
    Decimals.SpellLengthMonotone(position, watermark);
    SpellIsPlain(position);
    SpellIsPlain(watermark);
    MintBudget(epoch, feed, digest, watermark, Decimals.Spell(position), Decimals.Spell(watermark), expiry, mac);
  }
}
