/** The part of a changes page that is not records is small, so no page, empty or not, is ever
    above the limit. */
module Envelope {
  import opened Wrappers
  import opened Json
  import opened History
  import opened Feeds
  import opened FeedSafety
  import SnapshotFeed
  import opened PageBytes
  import Decimals
  import Paging
  import Cursors

  /** A character costs at most six bytes. */
  lemma {:induction false} QuoteBound(s: string)
    ensures Bytes(Escape(s)) <= 6 * |s|
  {
    if s != [] {
      QuoteBound(s[1..]);
      BytesConcat(EscapeChar(s[0]), Escape(s[1..]));
      EscapeBound(s[0]);
    }
  }

  lemma EscapeBound(c: char)
    ensures Bytes(EscapeChar(c)) <= 6
  {
    var e := EscapeChar(c);
    if forall i | 0 <= i < |e| :: e[i] as int < 0x80 { AsciiBytes(e); }
  }

  lemma StrBound(s: string)
    ensures JsonBytes(Str(s)) <= 2 + 6 * |s|
  {
    QuoteBound(s);
    AsciiBytes("\"");
    BytesConcat("\"" + Escape(s), "\"");
    BytesConcat("\"", Escape(s));
  }

  lemma {:induction false} FrameBound(names: seq<string>, n: nat)
    requires forall i | 0 <= i < |names| :: |names[i]| <= n
    ensures Paging.FrameBytes(names) <= |names| * (6 * n + 4)
  {
    if names != [] {
      StrBound(names[0]);
      if |names| > 1 {
        FrameBound(names[1..], n);
        assert |names| * (6 * n + 4) == (|names| - 1) * (6 * n + 4) + (6 * n + 4);
      }
    }
  }

  lemma DigitsBound(n: nat)
    requires n <= Decimals.UINT64_MAX
    ensures |Decimals.Spell(n)| <= 20 && JsonBytes(Str(Decimals.Spell(n))) <= 122 && JsonBytes(Num(n)) <= 20
  {
    Decimals.DecimalBijection(n, Decimals.Spell(n));
    Decimals.ValidatorsAgree(Decimals.Spell(n));
    StrBound(Decimals.Spell(n));
    SpellIsPlain(n);
    AsciiBytes(Decimals.Spell(n));
  }

  /** What validation lets through. */
  predicate Validated(epoch: string, feed: string, digest: string, watermark: nat, expiry: nat, serverTime: string) {
    |epoch| <= 128 && |feed| <= 16 && |digest| <= 128 && |serverTime| <= 64
    && watermark <= Decimals.UINT64_MAX && expiry <= Decimals.UINT64_MAX
  }

  lemma PayloadBound(epoch: string, feed: string, digest: string, watermark: nat, position: string, expiry: nat)
    requires Validated(epoch, feed, digest, watermark, expiry, "") && |position| <= 128
    ensures JsonBytes(Cursors.Payload(epoch, feed, digest, watermark, position, expiry)) <= 3400
  {
    var m := Cursors.Payload(epoch, feed, digest, watermark, position, expiry).members;
    Paging.SevenMembers(m);
    PayloadNames(m);
    FrameBound(Paging.Names(m), 16);
    StrBound(epoch);
    StrBound(feed);
    StrBound(digest);
    StrBound(position);
    DigitsBound(1);
    DigitsBound(watermark);
    DigitsBound(expiry);
  }

  lemma PayloadNames(m: seq<Member>)
    requires |m| == 7 && m[0].name == "v" && m[1].name == "epoch" && m[2].name == "feed" && m[3].name == "fd"
    requires m[4].name == "w" && m[5].name == "p" && m[6].name == "exp"
    ensures forall i | 0 <= i < 7 :: |Paging.Names(m)[i]| <= 16
  {
  }

  lemma PageNames(m: seq<Member>)
    requires |m| == 7 && m[0].name == "records" && m[1].name == "nextCursor" && m[2].name == "checkpoint"
    requires m[3].name == "hasMore" && m[4].name == "watermark" && m[5].name == "epoch" && m[6].name == "serverTime"
    ensures forall i | 0 <= i < 7 :: |Paging.Names(m)[i]| <= 16
  {
  }

  lemma EnvelopeBound(token: Option<string>, epoch: string, watermark: nat, serverTime: string)
    requires token.Some? ==> Plain(token.value) && |token.value| <= 4600
    requires |epoch| <= 128 && |serverTime| <= 64 && watermark <= Decimals.UINT64_MAX
    ensures JsonBytes(Paging.PageJson(Null, token, watermark, token.Some?, watermark, epoch, serverTime)) <= 10000
  {
    hide Paging.FrameBytes, JsonBytes;
    var m := Paging.PageJson(Null, token, watermark, token.Some?, watermark, epoch, serverTime).members;
    Paging.SevenMembers(m);
    PageNames(m);
    FrameBound(Paging.Names(m), 16);
    NullBytes();
    CursorBound(token);
    StrBound(epoch);
    StrBound(serverTime);
    DigitsBound(watermark);
    Paging.FlagBytes(token.Some?);
  }

  lemma NullBytes()
    ensures JsonBytes(Null) == 4
  {
    AsciiBytes("null");
  }

  lemma CursorBound(token: Option<string>)
    requires token.Some? ==> Plain(token.value) && |token.value| <= 4600
    ensures JsonBytes(Paging.CursorJson(token)) <= 4602
  {
    NullBytes();
    if token.Some? { PlainQuoteBytes(token.value); }
  }

  /** The text of a position in a cursor; place spells a snapshot position. */
  function PositionText(p: Position, place: (nat, Key) -> string): string {
    match p
    case At(n) => Decimals.Spell(n)
    case After(t, k) => place(t, k)
  }

  /** How pages are spelled when cursors are those createCursor mints for these requests, with
      snapshot positions - a timestamp, a bar and a key - of one width. */
  ghost predicate Minted(wire: Wire, feed: Feed -> string, digest: Filter -> string, place: (nat, Key) -> string, width: nat,
                         expiry: nat, mac: Json -> Cursors.Mac)
  {
    && width <= 128 && (forall t, k :: Plain(place(t, k)) && |place(t, k)| == width)
    && forall epoch, f, w, p ::
         wire.token(epoch, f, w, p)
         == Cursors.Mint(epoch, feed(if p.At? then Changes else Snapshots), digest(f), w, PositionText(p, place), expiry, mac)
  }

  /** Such tokens are within the budgets the pages are cut by, for every secret. */
  lemma MintedTokensBudgeted(wire: Wire, feed: Feed -> string, digest: Filter -> string, place: (nat, Key) -> string,
                             width: nat, expiry: nat, mac: Json -> Cursors.Mac)
    requires Minted(wire, feed, digest, place, width, expiry, mac)
    ensures TokensBudgeted(wire)
  {
    hide Cursors.Mint, Cursors.Budgeted;
    forall epoch, f, w, p: nat | p <= w
      ensures Cursors.Budgeted(wire.token(epoch, f, w, At(p)), wire.token(epoch, f, w, At(w)))
    {
      Cursors.TokenBudget(epoch, feed(Changes), digest(f), w, p, expiry, mac);
    }
    forall epoch, f, w, t, k, u, l
      ensures Cursors.Budgeted(wire.token(epoch, f, w, After(t, k)), wire.token(epoch, f, w, After(u, l)))
    {
      Cursors.MintBudget(epoch, feed(Snapshots), digest(f), w, place(t, k), place(u, l), expiry, mac);
    }
  }

  lemma MintBound(epoch: string, feed: string, digest: string, watermark: nat, position: string, expiry: nat,
                  mac: Json -> Cursors.Mac)
    requires Validated(epoch, feed, digest, watermark, expiry, "") && |position| <= 128
    ensures var token := Cursors.Mint(epoch, feed, digest, watermark, position, expiry, mac);
            Plain(token) && |token| <= 4600
  {
    hide JsonBytes, Plain;
    var payload := Cursors.Payload(epoch, feed, digest, watermark, position, expiry);
    PayloadBound(epoch, feed, digest, watermark, position, expiry);
    Cursors.TokenLength(payload, mac(payload));
    Cursors.TokenIsPlain(payload, mac(payload));
  }

  /** Every envelope is small. */
  lemma OverheadBound(wire: Wire, feed: Feed -> string, digest: Filter -> string, place: (nat, Key) -> string, width: nat,
                      expiry: nat, mac: Json -> Cursors.Mac, epoch: string, f: Filter, watermark: nat, at: Option<Position>)
    requires Minted(wire, feed, digest, place, width, expiry, mac)
    requires Validated(epoch, feed(Changes), digest(f), watermark, expiry, wire.serverTime) && |feed(Snapshots)| <= 16
    requires at.Some? && at.value.At? ==> at.value.sequence <= Decimals.UINT64_MAX
    ensures Overhead(epoch, f, watermark, at, wire) <= 10000
  {
    hide JsonBytes, Cursors.Mint, Paging.PageJson, Plain;
    var token := TokenAt(epoch, f, watermark, at, wire);
    if at.Some? {
      var text := PositionText(at.value, place);
      if at.value.At? { DigitsBound(at.value.sequence); }
      MintBound(epoch, feed(if at.value.At? then Changes else Snapshots), digest(f), watermark, text, expiry, mac);
    }
    EnvelopeBound(token, epoch, watermark, wire.serverTime);
    Paging.OverheadExact(wire.marker, Null, token, watermark, at.Some?, watermark, epoch, wire.serverTime);
  }

  /** No changes page is ever larger than the limit: not for any history, request, page limit,
      filter or records, whichever cursor, checkpoint and flag it goes out with. */
  lemma EveryPageWithinLimit(wire: Wire, feed: Feed -> string, digest: Filter -> string, place: (nat, Key) -> string, width: nat,
                             expiry: nat, mac: Json -> Cursors.Mac,
                             e: Epoch, current: string, f: Filter, req: Request, limit: nat, page: Page)
    requires Minted(wire, feed, digest, place, width, expiry, mac)
    requires EpochOk(e) && Authentic(e, current, req) && 1 <= limit <= Paging.MAX_PAGE_RECORDS
    requires Validated(current, feed(Changes), digest(f), |e.log|, expiry, wire.serverTime) && |feed(Snapshots)| <= 16
    requires ListChanges(e, current, f, req, limit, Costs(wire)) == Ok(page)
    ensures JsonBytes(PageText(page, f, wire)) <= 8 * 1024 * 1024
  {
    hide PageText, Overhead, ListChanges, Costs, PageScans, PageExact, PageSound, Continues, EpochOk, Minted;
    MintedTokensBudgeted(wire, feed, digest, place, width, expiry, mac);
    ServedPage(e, current, f, req, limit, Costs(wire), page);
    OverheadBound(wire, feed, digest, place, width, expiry, mac, page.epoch, f, page.watermark, Some(At(page.watermark)));
    PageWithinLimit(e, current, f, req, limit, wire, page);
  }

  /** Nor is any snapshot page. */
  lemma EverySnapshotPageWithinLimit(wire: Wire, feed: Feed -> string, digest: Filter -> string, place: (nat, Key) -> string,
                                     width: nat, expiry: nat, mac: Json -> Cursors.Mac,
                                     e: Epoch, s: SnapshotFeed.Snapshot, cursor: Option<Cursor>, limit: nat, page: Page)
    requires Minted(wire, feed, digest, place, width, expiry, mac) && limit >= 1
    requires Validated(s.epoch, feed(Changes), digest(s.filter), s.watermark, expiry, wire.serverTime) && |feed(Snapshots)| <= 16
    requires SnapshotFeed.ListSnapshotPage(e, s, cursor, limit, Costs(wire)) == Ok(page)
    ensures JsonBytes(PageText(page, s.filter, wire)) <= 8 * 1024 * 1024
  {
    hide PageText, Overhead, SnapshotFeed.ListSnapshotPage, Costs, Minted;
    MintedTokensBudgeted(wire, feed, digest, place, width, expiry, mac);
    forall at: Option<Position> | at.None? || at.value.After?
      ensures Overhead(s.epoch, s.filter, s.watermark, at, wire) + 2 <= Paging.MAX_PAGE_BYTES
    {
      OverheadBound(wire, feed, digest, place, width, expiry, mac, s.epoch, s.filter, s.watermark, at);
    }
    SnapshotPageWithinLimit(e, s, cursor, limit, wire, page);
  }
}
