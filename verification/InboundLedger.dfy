/** What an inbound pass has done to the world, event by event, and what may be said of it. */
module InboundLedger {
  import opened Wrappers

  type Key = nat

  datatype Message = Message(messageId: string, sender: string, body: string)

  /** A page as the transport reports it, valid or not. */
  datatype RawPage = RawPage(messages: seq<Message>, hasMore: bool, offset: nat, nextOffset: Option<nat>)

  datatype Page = Page(messages: seq<Message>, hasMore: bool, nextOffset: nat)

  /** What is archived for a message; owner and direction are fixed for a pass. */
  datatype Record = Record(messageBox: string, message: Message)

  /** A page read, a record confirmed archived, an acknowledgement sent (ok if it succeeded). An
      acknowledgement names a host and message ids, nothing else. */
  datatype Event =
    | Listed(host: string, box: string, offset: nat, page: Page)
    | Archived(key: Key, record: Record)
    | Acknowledged(ackHost: string, ids: seq<string>, ok: bool)

  /** validateRawPage; the offset it continues from is the one the page reports. */
  function Validate(p: RawPage): Result<Page, ()> {
    var next := if p.nextOffset.None? then p.offset + |p.messages| else p.nextOffset.value;
    if next != p.offset + |p.messages| || (p.hasMore && p.messages == [])
       || (exists i | 0 <= i < |p.messages| :: p.messages[i].messageId == "") then Err(())
    else Ok(Page(p.messages, p.hasMore, next))
  }

  /** A page is taken as reported, and the next one is asked for where it ends; it is refused if it says
      otherwise, if it promises more without having anything, or if a message has no id. */
  lemma ValidateIff(p: RawPage)
    ensures Validate(p).Err? <==> || (p.nextOffset.Some? && p.nextOffset.value != p.offset + |p.messages|)
                                  || (p.hasMore && |p.messages| == 0) || (exists m :: m in p.messages && |m.messageId| == 0)
    ensures Validate(p).Ok? ==> Validate(p).value == Page(p.messages, p.hasMore, p.offset + |p.messages|)
  {
    if exists m :: m in p.messages && |m.messageId| == 0 {
      var m :| m in p.messages && |m.messageId| == 0;
      var i :| 0 <= i < |p.messages| && p.messages[i] == m;
      assert p.messages[i].messageId == "";
    }
  }

  // ---------------------------------------------------------------- counting events

  function CountKey(trace: seq<Event>, key: Key): nat {
    if trace == [] then 0
    else CountKey(trace[..|trace| - 1], key)
         + (if trace[|trace| - 1].Archived? && trace[|trace| - 1].key == key then 1 else 0)
  }

  function CountArchived(trace: seq<Event>): nat {
    if trace == [] then 0 else CountArchived(trace[..|trace| - 1]) + (if trace[|trace| - 1].Archived? then 1 else 0)
  }

  function CountListed(trace: seq<Event>): nat {
    if trace == [] then 0 else CountListed(trace[..|trace| - 1]) + (if trace[|trace| - 1].Listed? then 1 else 0)
  }

  /** Ids in acknowledgements that succeeded. */
  function CountAcknowledged(trace: seq<Event>): nat {
    if trace == [] then 0
    else CountAcknowledged(trace[..|trace| - 1])
         + (if trace[|trace| - 1].Acknowledged? && trace[|trace| - 1].ok then |trace[|trace| - 1].ids| else 0)
  }

  lemma CountsStep(trace: seq<Event>, e: Event)
    ensures forall key :: CountKey(trace + [e], key) == CountKey(trace, key) + (if e.Archived? && e.key == key then 1 else 0)
    ensures CountArchived(trace + [e]) == CountArchived(trace) + (if e.Archived? then 1 else 0)
    ensures CountListed(trace + [e]) == CountListed(trace) + (if e.Listed? then 1 else 0)
    ensures CountAcknowledged(trace + [e]) == CountAcknowledged(trace) + (if e.Acknowledged? && e.ok then |e.ids| else 0)
  {
    assert (trace + [e])[..|trace|] == trace;
  }

  // ---------------------------------------------------------------- archive before acknowledge

  /** This very content, under its own key, was confirmed archived. */
  ghost predicate Safe(trace: seq<Event>, keyOf: Record -> Option<Key>, r: Record) {
    keyOf(r).Some? && Archived(keyOf(r).value, r) in trace
  }

  /** A message of this page has the id and is safe. */
  ghost predicate Vouched(trace: seq<Event>, keyOf: Record -> Option<Key>, box: string, page: Page, id: string) {
    exists m :: m in page.messages && m.messageId == id && Safe(trace, keyOf, Record(box, m))
  }

  /** Every id it carries is that of a safe message, all of them from one page of that host. */
  ghost predicate Justified(before: seq<Event>, keyOf: Record -> Option<Key>, a: Event)
    requires a.Acknowledged?
  {
    && a.ids != []
    && exists i :: 0 <= i < |before| && before[i].Listed? && before[i].host == a.ackHost
                   && forall id | id in a.ids :: Vouched(before, keyOf, before[i].box, before[i].page, id)
  }

  /** Every acknowledgement was justified by what came before it. */
  ghost predicate Careful(trace: seq<Event>, keyOf: Record -> Option<Key>) {
    forall i | 0 <= i < |trace| && trace[i].Acknowledged? :: Justified(trace[..i], keyOf, trace[i])
  }

  lemma CarefulStep(trace: seq<Event>, keyOf: Record -> Option<Key>, e: Event)
    requires Careful(trace, keyOf) && (e.Acknowledged? ==> Justified(trace, keyOf, e))
    ensures Careful(trace + [e], keyOf)
  {
    hide Justified;
    var t := trace + [e];
    forall i | 0 <= i < |t| && t[i].Acknowledged? ensures Justified(t[..i], keyOf, t[i]) {
      if i < |trace| { assert t[..i] == trace[..i] && t[i] == trace[i]; } else { assert t[..i] == trace; }
    }
  }

  // ---------------------------------------------------------------- what an id stands for

  /** By event n, message m of that box was listed on that host. */
  ghost predicate Shown(trace: seq<Event>, n: nat, host: string, box: string, m: Message)
    requires n <= |trace|
  {
    exists i :: 0 <= i < n && trace[i].Listed? && trace[i].host == host && trace[i].box == box && m in trace[i].page.messages
  }

  /** Event n acknowledges m: whatever bears an acknowledged id on that host is gone from it. */
  ghost predicate Removes(trace: seq<Event>, n: nat, box: string, m: Message) {
    n < |trace| && trace[n].Acknowledged? && m.messageId in trace[n].ids && Shown(trace, n, trace[n].ackHost, box, m)
  }

  /** No acknowledgement removes a message that was not archived before. */
  ghost predicate NothingLost(trace: seq<Event>, keyOf: Record -> Option<Key>) {
    forall n: nat, box, m {:trigger Removes(trace, n, box, m)} ::
      Removes(trace, n, box, m) ==> Safe(trace[..n], keyOf, Record(box, m))
  }

  /** Event n acknowledges, for one archived message, an id that another message shown on that host
      shares and that has not been archived. */
  ghost predicate Shares(trace: seq<Event>, keyOf: Record -> Option<Key>, n: nat, a: Record, u: Record) {
    && Removes(trace, n, a.messageBox, a.message) && Safe(trace[..n], keyOf, a)
    && Removes(trace, n, u.messageBox, u.message) && !Safe(trace[..n], keyOf, u)
    && u != a && u.message.messageId == a.message.messageId
  }

  /** Archive before acknowledge, message by message: it holds if and only if no acknowledged id is
      shared by an archived and an unarchived message of the host. */
  lemma NothingLostIff(trace: seq<Event>, keyOf: Record -> Option<Key>)
    requires Careful(trace, keyOf)
    ensures NothingLost(trace, keyOf) <==> !exists n: nat, a, u :: Shares(trace, keyOf, n, a, u)
  {
    hide Safe;
    if NothingLost(trace, keyOf) {
      forall n: nat, a, u ensures !Shares(trace, keyOf, n, a, u) {
        if Removes(trace, n, u.messageBox, u.message) { assert Safe(trace[..n], keyOf, Record(u.messageBox, u.message)); }
      }
    }
    if !NothingLost(trace, keyOf) {
      var n: nat, box, m :| Removes(trace, n, box, m) && !Safe(trace[..n], keyOf, Record(box, m));
      var a := VouchedBy(trace, keyOf, n, m.messageId);
      assert Shares(trace, keyOf, n, a, Record(box, m));
    }
  }

  /** One more acknowledgement loses nothing if and only if every message shown on its host under one
      of its ids is safe by then. */
  lemma LostStep(trace: seq<Event>, keyOf: Record -> Option<Key>, e: Event)
    requires e.Acknowledged?
    ensures NothingLost(trace + [e], keyOf) <==>
              NothingLost(trace, keyOf)
              && forall box, m | Shown(trace, |trace|, e.ackHost, box, m) && m.messageId in e.ids ::
                   Safe(trace, keyOf, Record(box, m))
  {
    hide Safe, Shown;
    var t, last := trace + [e], |trace|;
    assert t[..last] == trace;
    forall box, m ensures Removes(t, last, box, m) <==> Shown(trace, last, e.ackHost, box, m) && m.messageId in e.ids {
      ShownBefore(trace, e, last, e.ackHost, box, m);
    }
    forall n: nat, box, m | n < last
      ensures t[..n] == trace[..n] && (Removes(t, n, box, m) <==> Removes(trace, n, box, m))
    {
      assert t[..n] == trace[..n] && t[n] == trace[n];
      if trace[n].Acknowledged? { ShownBefore(trace, e, n, trace[n].ackHost, box, m); }
    }
    if NothingLost(t, keyOf) {
      forall n: nat, box, m | Removes(trace, n, box, m) ensures Safe(trace[..n], keyOf, Record(box, m)) {
        assert Removes(t, n, box, m);
      }
      forall box, m | Shown(trace, last, e.ackHost, box, m) && m.messageId in e.ids ensures Safe(trace, keyOf, Record(box, m)) {
        assert Removes(t, last, box, m);
      }
    }
  }

  lemma ShownBefore(trace: seq<Event>, e: Event, n: nat, host: string, box: string, m: Message)
    requires n <= |trace|
    ensures Shown(trace + [e], n, host, box, m) <==> Shown(trace, n, host, box, m)
  {
    var t := trace + [e];
    assert forall i | 0 <= i < n :: t[i] == trace[i];
    if Shown(trace, n, host, box, m) {
      var i :| 0 <= i < n && trace[i].Listed? && trace[i].host == host && trace[i].box == box && m in trace[i].page.messages;
      assert t[i] == trace[i];
    }
  }

  /** The archived message an acknowledged id was put on the list for. */
  lemma VouchedBy(trace: seq<Event>, keyOf: Record -> Option<Key>, n: nat, id: string) returns (a: Record)
    requires Careful(trace, keyOf) && n < |trace| && trace[n].Acknowledged? && id in trace[n].ids
    ensures Removes(trace, n, a.messageBox, a.message) && Safe(trace[..n], keyOf, a) && a.message.messageId == id
  {
    hide Safe;
    var before := trace[..n];
    assert Justified(before, keyOf, trace[n]);
    var i :| 0 <= i < |before| && before[i].Listed? && before[i].host == trace[n].ackHost
             && forall x | x in trace[n].ids :: Vouched(before, keyOf, before[i].box, before[i].page, x);
    assert Vouched(before, keyOf, before[i].box, before[i].page, id);
    var m :| m in before[i].page.messages && m.messageId == id && Safe(before, keyOf, Record(before[i].box, m));
    a := Record(before[i].box, m);
    assert trace[i] == before[i];
  }

  /** On each host an id names one message of one box, as far as has been shown. */
  ghost predicate IdsName(trace: seq<Event>) {
    forall host, a: Record, u: Record {:trigger Shown(trace, |trace|, host, a.messageBox, a.message),
                                                Shown(trace, |trace|, host, u.messageBox, u.message)} ::
      (&& Shown(trace, |trace|, host, a.messageBox, a.message) && Shown(trace, |trace|, host, u.messageBox, u.message)
       && a.message.messageId == u.message.messageId) ==> a == u
  }

  /** So on hosts whose ids are unique nothing is ever lost. */
  lemma UniqueIdsLoseNothing(trace: seq<Event>, keyOf: Record -> Option<Key>)
    requires Careful(trace, keyOf) && IdsName(trace)
    ensures NothingLost(trace, keyOf)
  {
    hide Safe;
    forall n: nat, box, m | Removes(trace, n, box, m) ensures Safe(trace[..n], keyOf, Record(box, m)) {
      var a := VouchedBy(trace, keyOf, n, m.messageId);
      var host := trace[n].ackHost;
      assert Shown(trace, |trace|, host, a.messageBox, a.message);
      var u := Record(box, m);
      assert Shown(trace, |trace|, host, u.messageBox, u.message);
    }
  }

  /** It happens where ids are not unique: a page lists two messages under one id, the first is
      archived, the second is not, and the acknowledgement of the first removes both. */
  lemma SharedIdLost(host: string, box: string, sender: string, body: string, other: string, k: Key,
                     keyOf: Record -> Option<Key>)
    returns (trace: seq<Event>, u: Message)
    requires body != other && keyOf(Record(box, Message("id", sender, body))) == Some(k)
    ensures var m := Message("id", sender, body);
            && u == Message("id", sender, other)
            && trace == [Listed(host, box, 0, Page([m, u], false, 2)), Archived(k, Record(box, m)),
                         Acknowledged(host, ["id"], true)]
    ensures Careful(trace, keyOf) && Removes(trace, 2, box, u) && !Safe(trace, keyOf, Record(box, u))
    ensures !NothingLost(trace, keyOf)
  {
    var m := Message("id", sender, body);
    u := Message("id", sender, other);
    trace := [Listed(host, box, 0, Page([m, u], false, 2)), Archived(k, Record(box, m)),
              Acknowledged(host, ["id"], true)];
    var before := trace[..2];
    assert before[1] == Archived(k, Record(box, m)) && before[0].page.messages[0] == m;
    assert Safe(before, keyOf, Record(box, m));
    assert Vouched(before, keyOf, box, before[0].page, "id");
    assert Justified(before, keyOf, trace[2]);
    assert trace[0].page.messages[1] == u;
    assert Shown(trace, 2, host, box, u);
    assert Removes(trace, 2, box, u) && !Safe(before, keyOf, Record(box, u));
  }

  // ---------------------------------------------------------------- the cache

  datatype Status = Stored | AlreadyPresent | Rejected | Failed

  datatype Cached = Cached(record: Record, status: Status)

  /** What the cache holds under k was confirmed, under its own key. */
  ghost predicate Confirmed(trace: seq<Event>, keyOf: Record -> Option<Key>, k: Key, c: Cached) {
    c.status in {Stored, AlreadyPresent} && Archived(k, c.record) in trace && keyOf(c.record) == Some(k)
  }

  /** The cache is exactly what has been confirmed, and nothing is confirmed twice. */
  ghost predicate CacheOk(trace: seq<Event>, cache: map<Key, Cached>, keyOf: Record -> Option<Key>) {
    && (forall k | k in cache :: Confirmed(trace, keyOf, k, cache[k]))
    && (forall k :: CountKey(trace, k) == if k in cache then 1 else 0)
    && CountArchived(trace) == |cache|
  }

  lemma ConfirmedMore(trace: seq<Event>, e: Event, keyOf: Record -> Option<Key>, k: Key, c: Cached)
    requires Confirmed(trace, keyOf, k, c)
    ensures Confirmed(trace + [e], keyOf, k, c)
  {
  }

  lemma ConfirmedNow(trace: seq<Event>, keyOf: Record -> Option<Key>, k: Key, c: Cached)
    requires c.status in {Stored, AlreadyPresent} && keyOf(c.record) == Some(k)
    ensures Confirmed(trace + [Archived(k, c.record)], keyOf, k, c)
  {
    assert (trace + [Archived(k, c.record)])[|trace|] == Archived(k, c.record);
  }

  lemma CacheStep(trace: seq<Event>, cache: map<Key, Cached>, keyOf: Record -> Option<Key>, k: Key, c: Cached)
    requires CacheOk(trace, cache, keyOf) && k !in cache && c.status in {Stored, AlreadyPresent} && keyOf(c.record) == Some(k)
    ensures CacheOk(trace + [Archived(k, c.record)], cache[k := c], keyOf)
  {
    hide CountKey, CountArchived, Confirmed;
    var e, more := Archived(k, c.record), cache[k := c];
    CountsStep(trace, e);
    ConfirmedNow(trace, keyOf, k, c);
    assert more.Keys == cache.Keys + {k};
    forall x | x in more ensures Confirmed(trace + [e], keyOf, x, more[x]) {
      if x != k { ConfirmedMore(trace, e, keyOf, x, cache[x]); }
    }
  }

  lemma {:induction false} ArchivedCounts(trace: seq<Event>, k: Key, r: Record)
    requires Archived(k, r) in trace
    ensures CountKey(trace, k) >= 1
    ensures CountKey(trace, k) == 1 ==> forall q | Archived(k, q) in trace :: q == r
  {
    var front, last := trace[..|trace| - 1], trace[|trace| - 1];
    assert trace == front + [last];
    if Archived(k, r) in front { ArchivedCounts(front, k, r); }
    forall q | Archived(k, q) in trace && CountKey(trace, k) == 1 ensures q == r {
      if Archived(k, q) in front { ArchivedCounts(front, k, q); }
    }
  }

  /** The pass's own cache decides whether a message is safe. */
  predicate InCache(cache: map<Key, Cached>, keyOf: Record -> Option<Key>, r: Record) {
    keyOf(r).Some? && keyOf(r).value in cache && cache[keyOf(r).value].record == r
  }

  lemma SafeIffCached(trace: seq<Event>, cache: map<Key, Cached>, keyOf: Record -> Option<Key>, r: Record)
    requires CacheOk(trace, cache, keyOf)
    ensures Safe(trace, keyOf, r) <==> InCache(cache, keyOf, r)
  {
    if Safe(trace, keyOf, r) {
      var k := keyOf(r).value;
      ArchivedCounts(trace, k, r);
      assert CountKey(trace, k) == 1;
      assert Archived(k, cache[k].record) in trace;
    }
  }

  lemma CacheOther(trace: seq<Event>, cache: map<Key, Cached>, keyOf: Record -> Option<Key>, e: Event)
    requires CacheOk(trace, cache, keyOf) && !e.Archived?
    ensures CacheOk(trace + [e], cache, keyOf)
  {
    CountsStep(trace, e);
    forall k | k in cache ensures Confirmed(trace + [e], keyOf, k, cache[k]) { ConfirmedMore(trace, e, keyOf, k, cache[k]); }
  }

  // ---------------------------------------------------------------- reading a box to its end

  /** The id was acknowledged on that host, successfully. */
  ghost predicate AcknowledgedIn(trace: seq<Event>, host: string, id: string) {
    exists i :: 0 <= i < |trace| && trace[i].Acknowledged? && trace[i].ok && trace[i].ackHost == host && id in trace[i].ids
  }

  /** Every message of the page is archived, and in acknowledge mode acknowledged. */
  ghost predicate PageDone(trace: seq<Event>, keyOf: Record -> Option<Key>, acknowledge: bool, host: string, box: string,
                           page: Page)
  {
    forall m | m in page.messages ::
      && Safe(trace, keyOf, Record(box, m))
      && (acknowledge ==> AcknowledgedIn(trace, host, m.messageId))
  }

  /** The pages read from one box, each with the offset it was asked for. */
  datatype Read = Read(offset: nat, page: Page)

  /** Without acknowledgements every page is asked for where the one before it ended; with them,
      always at the start, since what was acknowledged is gone. */
  ghost predicate Consecutive(pages: seq<Read>, acknowledge: bool) {
    forall i | 0 <= i < |pages| :: pages[i].offset == StartOf(pages[..i], acknowledge)
  }

  /** Where the next page is asked for. */
  function StartOf(pages: seq<Read>, acknowledge: bool): nat {
    if pages == [] || acknowledge then 0 else pages[|pages| - 1].page.nextOffset
  }

  /** The last page is the end of the box. */
  ghost predicate Ends(pages: seq<Read>, acknowledge: bool) {
    && pages != []
    && var last := pages[|pages| - 1].page;
       !last.hasMore && (acknowledge ==> last.messages == [])
  }

  /** The box was read to its end and everything in it was dealt with. */
  ghost predicate BoxDone(trace: seq<Event>, keyOf: Record -> Option<Key>, acknowledge: bool, host: string, box: string,
                          pages: seq<Read>) {
    && Consecutive(pages, acknowledge) && Ends(pages, acknowledge)
    && (forall i | 0 <= i < |pages| :: Listed(host, box, pages[i].offset, pages[i].page) in trace)
    && (forall i | 0 <= i < |pages| :: PageDone(trace, keyOf, acknowledge, host, box, pages[i].page))
  }

  lemma PageDoneMore(trace: seq<Event>, more: seq<Event>, keyOf: Record -> Option<Key>, acknowledge: bool, host: string,
                     box: string, page: Page)
    requires trace <= more && PageDone(trace, keyOf, acknowledge, host, box, page)
    ensures PageDone(more, keyOf, acknowledge, host, box, page)
  {
    forall m | m in page.messages
      ensures Safe(more, keyOf, Record(box, m)) && (acknowledge ==> AcknowledgedIn(more, host, m.messageId))
    {
      if acknowledge {
        var i :| 0 <= i < |trace| && trace[i].Acknowledged? && trace[i].ok && trace[i].ackHost == host
                 && m.messageId in trace[i].ids;
        assert more[i] == trace[i];
      }
    }
  }

  lemma BoxDoneMore(trace: seq<Event>, more: seq<Event>, keyOf: Record -> Option<Key>, acknowledge: bool, host: string,
                    box: string, pages: seq<Read>)
    requires trace <= more && BoxDone(trace, keyOf, acknowledge, host, box, pages)
    ensures BoxDone(more, keyOf, acknowledge, host, box, pages)
  {
    forall i | 0 <= i < |pages|
      ensures Listed(host, box, pages[i].offset, pages[i].page) in more
      ensures PageDone(more, keyOf, acknowledge, host, box, pages[i].page)
    {
      assert Listed(host, box, pages[i].offset, pages[i].page) in trace;
      PageDoneMore(trace, more, keyOf, acknowledge, host, box, pages[i].page);
    }
  }

  function Laid(pages: seq<Read>): seq<Message> {
    if pages == [] then [] else Laid(pages[..|pages| - 1]) + pages[|pages| - 1].page.messages
  }

  /** The transport answers truly for a box whose content does not change meanwhile. */
  ghost predicate Truthful(pages: seq<Read>, box: seq<Message>) {
    forall i | 0 <= i < |pages| ::
      var r := pages[i];
      && r.offset + |r.page.messages| <= |box| && r.page.messages == box[r.offset..r.offset + |r.page.messages|]
      && r.page.nextOffset == r.offset + |r.page.messages|
      && (r.page.hasMore <==> r.page.nextOffset < |box|)
  }

  lemma ConsecutiveFront(pages: seq<Read>)
    requires Consecutive(pages, false) && pages != []
    ensures Consecutive(pages[..|pages| - 1], false)
  {
    var front := pages[..|pages| - 1];
    forall i | 0 <= i < |front| ensures front[i].offset == StartOf(front[..i], false) {
      assert front[..i] == pages[..i];
    }
  }

  lemma ConsecutiveMore(pages: seq<Read>, acknowledge: bool, r: Read)
    requires Consecutive(pages, acknowledge) && r.offset == StartOf(pages, acknowledge)
    ensures Consecutive(pages + [r], acknowledge)
  {
    var more := pages + [r];
    forall i | 0 <= i < |more| ensures more[i].offset == StartOf(more[..i], acknowledge) {
      if i < |pages| { assert more[..i] == pages[..i]; } else { assert more[..i] == pages; }
    }
  }

  lemma TruthfulLast(pages: seq<Read>, box: seq<Message>)
    requires Consecutive(pages, false) && Truthful(pages, box) && pages != []
    ensures Truthful(pages[..|pages| - 1], box)
    ensures var last, from := pages[|pages| - 1].page, StartOf(pages[..|pages| - 1], false);
            && from <= last.nextOffset == from + |last.messages| <= |box|
            && last.messages == box[from..last.nextOffset]
  {
    hide StartOf;
    var front := pages[..|pages| - 1];
    assert forall i | 0 <= i < |front| :: front[i] == pages[i];
    assert pages[|pages| - 1].offset == StartOf(front, false);
  }

  lemma {:induction false} PagesTile(pages: seq<Read>, box: seq<Message>)
    requires Consecutive(pages, false) && Truthful(pages, box)
    ensures var end := StartOf(pages, false);
            end <= |box| && Laid(pages) == box[..end]
  {
    hide Consecutive, Truthful;
    if pages != [] {
      var front, last := pages[..|pages| - 1], pages[|pages| - 1].page;
      ConsecutiveFront(pages);
      TruthfulLast(pages, box);
      PagesTile(front, box);
      var from := StartOf(front, false);
      assert box[..from] + box[from..last.nextOffset] == box[..last.nextOffset];
    }
  }

  /** So a complete read saw the whole box: its pages, laid end to end, are the box. */
  lemma CompleteReadSeesBox(pages: seq<Read>, box: seq<Message>)
    requires Consecutive(pages, false) && Ends(pages, false) && Truthful(pages, box)
    ensures Laid(pages) == box
  {
    PagesTile(pages, box);
    assert box[..|box|] == box;
  }

  // ---------------------------------------------------------------- draining a box

  predicate Bears(ms: seq<Message>, id: string) { exists i :: 0 <= i < |ms| && ms[i].messageId == id }

  /** box after a page of messages has been acknowledged: everything under one of their ids goes. */
  function Without(box: seq<Message>, page: seq<Message>): seq<Message> {
    if box == [] then []
    else Without(box[..|box| - 1], page) + (if Bears(page, box[|box| - 1].messageId) then [] else [box[|box| - 1]])
  }

  /** What is left of a box once these pages have been acknowledged. */
  function Left(box: seq<Message>, pages: seq<Read>): seq<Message> {
    if pages == [] then box else Without(Left(box, pages[..|pages| - 1]), pages[|pages| - 1].page.messages)
  }

  /** The transport answers truly for a box that only this pass's acknowledgements change. */
  ghost predicate TruthfulDrain(pages: seq<Read>, box: seq<Message>) {
    forall i | 0 <= i < |pages| ::
      var left := Left(box, pages[..i]);
      pages[i].page.messages <= left && (pages[i].page.hasMore <==> |pages[i].page.messages| < |left|)
  }

  ghost predicate UniqueIds(box: seq<Message>) {
    forall i, j | 0 <= i < j < |box| :: box[i].messageId != box[j].messageId
  }

  lemma {:induction false} WithoutKeeps(box: seq<Message>, page: seq<Message>, m: Message)
    requires m in box
    ensures m in Without(box, page) || Bears(page, m.messageId)
  {
    var front, last := box[..|box| - 1], box[|box| - 1];
    assert box == front + [last];
    if m in front { WithoutKeeps(front, page, m); }
  }

  lemma PrefixBears(box: seq<Message>, n: nat, k: nat)
    requires UniqueIds(box) && n <= |box| && k < |box|
    ensures Bears(box[..n], box[k].messageId) <==> k < n
  {
    if k < n { assert box[..n][k] == box[k]; }
    if Bears(box[..n], box[k].messageId) {
      var i :| 0 <= i < n && box[..n][i].messageId == box[k].messageId;
      assert box[i] == box[..n][i];
    }
  }

  /** Acknowledging a prefix of a box whose ids are unique leaves the rest, in order. */
  lemma {:induction false} WithoutPrefix(box: seq<Message>, n: nat, k: nat)
    requires UniqueIds(box) && n <= |box| && k <= |box|
    ensures Without(box[..k], box[..n]) == if k <= n then [] else box[n..k]
    decreases k
  {
    hide Bears, UniqueIds, Without;
    if k == 0 {
      WithoutNone(box[..n]);
    } else {
      WithoutPrefix(box, n, k - 1);
      PrefixBears(box, n, k - 1);
      WithoutLast(box[..k - 1], box[k - 1], box[..n]);
      assert box[..k] == box[..k - 1] + [box[k - 1]];
      if k > n { assert box[n..k] == (if k - 1 <= n then [] else box[n..k - 1]) + [box[k - 1]]; }
    }
  }

  lemma WithoutNone(page: seq<Message>)
    ensures Without([], page) == []
  {
  }

  lemma WithoutLast(front: seq<Message>, last: Message, page: seq<Message>)
    ensures Without(front + [last], page) == Without(front, page) + if Bears(page, last.messageId) then [] else [last]
  {
    hide Bears;
    assert (front + [last])[..|front|] == front;
  }

  lemma DrainFront(pages: seq<Read>, box: seq<Message>)
    requires TruthfulDrain(pages, box) && pages != []
    ensures TruthfulDrain(pages[..|pages| - 1], box)
  {
    hide Left;
    var front := pages[..|pages| - 1];
    forall i | 0 <= i < |front|
      ensures front[i].page.messages <= Left(box, front[..i])
              && (front[i].page.hasMore <==> |front[i].page.messages| < |Left(box, front[..i])|)
    {
      assert front[..i] == pages[..i] && front[i] == pages[i];
    }
  }

  /** Whatever was in the box is still there or had its id acknowledged. */
  lemma {:induction false} DrainAccounts(pages: seq<Read>, box: seq<Message>, m: Message)
    requires m in box
    ensures m in Left(box, pages) || exists i :: 0 <= i < |pages| && Bears(pages[i].page.messages, m.messageId)
    decreases |pages|
  {
    if pages != [] {
      var front, last := pages[..|pages| - 1], pages[|pages| - 1];
      DrainAccounts(front, box, m);
      if m in Left(box, front) {
        WithoutKeeps(Left(box, front), last.page.messages, m);
      } else {
        var i :| 0 <= i < |front| && Bears(front[i].page.messages, m.messageId);
        assert pages[i] == front[i];
      }
    }
  }

  lemma UniqueRest(box: seq<Message>, n: nat)
    requires UniqueIds(box) && n <= |box|
    ensures UniqueIds(box[n..])
  {
    var left := box[n..];
    forall i, j | 0 <= i < j < |left| ensures left[i].messageId != left[j].messageId {
      assert left[i] == box[n + i] && left[j] == box[n + j];
    }
  }

  lemma TileStep(box: seq<Message>, laid: seq<Message>, page: seq<Message>)
    requires UniqueIds(box) && laid <= box && page <= box[|laid|..]
    ensures laid + page <= box && Without(box[|laid|..], page) == box[|laid + page|..]
  {
    hide Without, UniqueIds;
    var left, n := box[|laid|..], |page|;
    UniqueRest(box, |laid|);
    WithoutPrefix(left, n, |left|);
    assert left[..|left|] == left && left[..n] == page;
    assert Without(left, page) == left[n..];
    assert left[n..] == box[|laid| + n..];
    assert box == laid + left && left == page + left[n..];
  }

  lemma {:induction false} DrainTiles(pages: seq<Read>, box: seq<Message>)
    requires TruthfulDrain(pages, box) && UniqueIds(box)
    ensures Laid(pages) <= box && Left(box, pages) == box[|Laid(pages)|..]
    decreases |pages|
  {
    hide UniqueIds, Without;
    if pages != [] {
      var front, last := pages[..|pages| - 1], pages[|pages| - 1];
      DrainFront(pages, box);
      DrainTiles(front, box);
      TileStep(box, Laid(front), last.page.messages);
    }
  }

  /** In acknowledge mode, where every read starts over, a complete read has drained the box: each
      of its messages was shown, or shared its id with one that was; if no two share an id, the
      pages laid end to end are the box. */
  lemma CompleteDrainSeesBox(pages: seq<Read>, box: seq<Message>)
    requires Ends(pages, true) && TruthfulDrain(pages, box)
    ensures Left(box, pages) == []
    ensures forall m | m in box :: exists i :: 0 <= i < |pages| && Bears(pages[i].page.messages, m.messageId)
    ensures UniqueIds(box) ==> Laid(pages) == box
  {
    hide Bears;
    var front, last := pages[..|pages| - 1], pages[|pages| - 1];
    assert Left(box, front) == [];
    assert Left(box, pages) == Without([], last.page.messages) == [];
    forall m | m in box ensures exists i :: 0 <= i < |pages| && Bears(pages[i].page.messages, m.messageId) {
      DrainAccounts(pages, box, m);
    }
    if UniqueIds(box) { DrainTiles(pages, box); }
  }
}
