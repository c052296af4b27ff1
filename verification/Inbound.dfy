/** syncPending: one bounded pass over the boxes of some hosts, archiving each message before any
    acknowledgement of it. The transport, the archive and the cancellation signal may do anything. */
module Inbound {
  import opened Wrappers
  import opened InboundLedger

  datatype Acknowledgement = Disabled | Done | Pending | Refused

  datatype Outcome = Outcome(host: string, box: string, messageId: string, key: Option<Key>, archive: Status,
                             acknowledgement: Acknowledgement, deduped: bool)

  /** A message archived and waiting for its acknowledgement, and its place among the outcomes. */
  datatype Item = Item(message: Message, at: nat)

  function CountDone(outcomes: seq<Outcome>): nat {
    if outcomes == [] then 0
    else CountDone(outcomes[..|outcomes| - 1]) + (if outcomes[|outcomes| - 1].acknowledgement == Done then 1 else 0)
  }

  lemma CountDonePush(outcomes: seq<Outcome>, o: Outcome)
    ensures CountDone(outcomes + [o]) == CountDone(outcomes) + (if o.acknowledgement == Done then 1 else 0)
  {
    assert (outcomes + [o])[..|outcomes|] == outcomes;
  }

  lemma {:induction false} CountDoneSet(outcomes: seq<Outcome>, i: nat, o: Outcome)
    requires i < |outcomes| && outcomes[i].acknowledgement != Done
    ensures CountDone(outcomes[i := o]) == CountDone(outcomes) + (if o.acknowledgement == Done then 1 else 0)
  {
    var n := |outcomes| - 1;
    if i < n {
      CountDoneSet(outcomes[..n], i, o);
      assert outcomes[i := o][..n] == outcomes[..n][i := o];
    } else {
      assert outcomes[i := o][..n] == outcomes[..n];
    }
  }

  /** Places waiting for an acknowledgement, one after another. */
  predicate Waiting(outcomes: seq<Outcome>, items: seq<Item>) {
    && (forall i | 0 <= i < |items| :: items[i].at < |outcomes| && outcomes[items[i].at].acknowledgement == Pending)
    && (forall i, j | 0 <= i < j < |items| :: items[i].at < items[j].at)
  }

  /** The message is archived, by this pass or before it. */
  predicate Secured(o: Outcome) { o.archive in {Stored, AlreadyPresent} }

  /** The outcome of something that is left undone. */
  predicate Failing(o: Outcome) { !Secured(o) || o.acknowledgement == Refused }

  predicate AnyFailing(outcomes: seq<Outcome>) {
    exists k :: 0 <= k < |outcomes| && Failing(outcomes[k])
  }

  /** No archived message is left waiting for an acknowledgement. */
  predicate Settled(outcomes: seq<Outcome>) {
    forall k | 0 <= k < |outcomes| && Secured(outcomes[k]) :: outcomes[k].acknowledgement != Pending
  }

  predicate Placed(items: seq<Item>, at: nat) {
    exists i :: 0 <= i < |items| && items[i].at == at
  }

  /** Of the messages reported from place base on, exactly the archived ones, in their order and each
      with its place. */
  predicate PutUp(outcomes: seq<Outcome>, base: nat, messages: seq<Message>, items: seq<Item>) {
    && |outcomes| == base + |messages|
    && (forall i | 0 <= i < |items| :: base <= items[i].at < |outcomes| && items[i].message == messages[items[i].at - base])
    && (forall i, j | 0 <= i < j < |items| :: items[i].at < items[j].at)
    && (forall k | base <= k < |outcomes| :: Placed(items, k) <==> Secured(outcomes[k]))
  }

  /** The outcomes from place base on are those of the messages, in order; failed says whether any of
      them is not archived. */
  predicate Reported(outcomes: seq<Outcome>, base: nat, host: string, box: string, messages: seq<Message>, a: Acknowledgement,
                     failed: bool)
  {
    && |outcomes| == base + |messages|
    && (forall k | base <= k < |outcomes| ::
          var o := outcomes[k];
          o.host == host && o.box == box && o.messageId == messages[k - base].messageId && o.acknowledgement == a)
    && (failed <==> exists k :: base <= k < |outcomes| && !Secured(outcomes[k]))
  }

  function MessagesOf(items: seq<Item>): (ms: seq<Message>)
    ensures |ms| == |items| && forall i | 0 <= i < |items| :: ms[i] == items[i].message
  {
    seq(|items|, i requires 0 <= i < |items| => items[i].message)
  }

  function IdsOf(items: seq<Item>): (ids: seq<string>)
    ensures |ids| == |items| && forall i | 0 <= i < |items| :: ids[i] == items[i].message.messageId
  {
    seq(|items|, i requires 0 <= i < |items| => items[i].message.messageId)
  }

  /** The outcomes with those of the items marked. */
  predicate Marked(outcomes: seq<Outcome>, marked: seq<Outcome>, items: seq<Item>, a: Acknowledgement) {
    && |marked| == |outcomes|
    && forall k | 0 <= k < |marked| :: marked[k] == if Placed(items, k) then outcomes[k].(acknowledgement := a) else outcomes[k]
  }

  /** Mark all of them. */
  method Mark(outcomes: seq<Outcome>, items: seq<Item>, a: Acknowledgement) returns (marked: seq<Outcome>)
    requires Waiting(outcomes, items)
    ensures CountDone(marked) == CountDone(outcomes) + (if a == Done then |items| else 0)
    ensures Marked(outcomes, marked, items, a)
  {
    hide CountDone;
    marked := outcomes;
    for n := 0 to |items|
      invariant |marked| == |outcomes|
      invariant CountDone(marked) == CountDone(outcomes) + (if a == Done then n else 0)
      invariant forall k | 0 <= k < |marked| ::
                  marked[k] == if Placed(items[..n], k) then outcomes[k].(acknowledgement := a) else outcomes[k]
    {
      var at := items[n].at;
      PlacedMore(items, n);
      CountDoneSet(marked, at, marked[at].(acknowledgement := a));
      marked := marked[at := marked[at].(acknowledgement := a)];
    }
    assert items[..|items|] == items;
  }

  lemma PlacedMore(items: seq<Item>, n: nat)
    requires n < |items| && forall i, j | 0 <= i < j < |items| :: items[i].at < items[j].at
    ensures !Placed(items[..n], items[n].at)
    ensures forall k :: Placed(items[..n + 1], k) <==> Placed(items[..n], k) || k == items[n].at
  {
    forall k | Placed(items[..n], k) ensures Placed(items[..n + 1], k) {
      var i :| 0 <= i < n && items[..n][i].at == k;
      assert items[..n + 1][i].at == k;
    }
    assert items[..n + 1][n] == items[n];
    forall k | Placed(items[..n + 1], k) && k != items[n].at ensures Placed(items[..n], k) {
      var i :| 0 <= i < n + 1 && items[..n + 1][i].at == k;
      assert items[..n][i].at == k;
    }
  }

  /** The outcome o reported for a message: what the cache says of it, if its key is known, with
      another content under that key a conflict; what the archive said, if not; and the cache learns
      of a confirmation only. */
  ghost predicate Told(host: string, box: string, m: Message, key: Option<Key>, was: map<Key, Cached>, now: map<Key, Cached>,
                       o: Outcome, good: bool)
  {
    && key.Some? && o.host == host && o.box == box && o.messageId == m.messageId && o.key == key
    && (good <==> o.archive in {Stored, AlreadyPresent})
    && var k, r := key.value, Record(box, m);
       if k in was then
         && now == was && (o.deduped <==> was[k].record == r)
         && o.archive == if was[k].record == r then was[k].status else Rejected
       else !o.deduped && now == if good then was[k := Cached(r, o.archive)] else was
  }

  /** How a step of the pass ends: it goes on, it is out of budget, or it throws. */
  datatype Flow = Go | Spent | Thrown

  class Pass {
    const acknowledge: bool
    const maxPages: nat
    const maxMessages: nat
    /** The canonical record key; None where computing it throws. */
    const keyOf: Record -> Option<Key>

    var pagesRead: nat
    var messagesRead: nat
    var archived: nat
    var acknowledged: nat
    var incomplete: bool
    var cache: map<Key, Cached>
    var outcomes: seq<Outcome>
    /** The cancellation signal. */
    var aborted: bool
    ghost var trace: seq<Event>

    constructor (acknowledge: bool, maxPages: nat, maxMessages: nat, keyOf: Record -> Option<Key>)
      ensures Valid() && trace == [] && outcomes == [] && !incomplete && !aborted && pagesRead == 0 == messagesRead
      ensures this.acknowledge == acknowledge && this.maxPages == maxPages && this.maxMessages == maxMessages
              && this.keyOf == keyOf
    {
      this.acknowledge, this.maxPages, this.maxMessages, this.keyOf := acknowledge, maxPages, maxMessages, keyOf;
      pagesRead, messagesRead, archived, acknowledged, incomplete, cache, outcomes, trace :=
        0, 0, 0, 0, false, map[], [], [];
      aborted := false;
    }

    /** Holds after every step of every run. */
    ghost predicate Valid()
      reads this
    {
      && CacheOk(trace, cache, keyOf)
      && Careful(trace, keyOf)
      && archived == |cache|
      && acknowledged == CountDone(outcomes) == CountAcknowledged(trace)
      && pagesRead == CountListed(trace) <= maxPages
      && messagesRead <= maxMessages
      && OutcomesTrue(outcomes, trace)
    }

    /** Add an event that is not an archive confirmation. */
    ghost method Log(e: Event)
      requires CacheOk(trace, cache, keyOf) && Careful(trace, keyOf) && OutcomesTrue(outcomes, trace)
      requires !e.Archived? && (e.Acknowledged? ==> Justified(trace, keyOf, e))
      modifies this`trace
      ensures trace == old(trace) + [e]
      ensures CacheOk(trace, cache, keyOf) && Careful(trace, keyOf) && OutcomesTrue(outcomes, trace)
      ensures CountListed(trace) == CountListed(old(trace)) + (if e.Listed? then 1 else 0)
      ensures CountAcknowledged(trace) == CountAcknowledged(old(trace)) + (if e.Acknowledged? && e.ok then |e.ids| else 0)
    {
      hide CacheOk, Careful, OutcomesTrue, Justified;
      CacheOther(trace, cache, keyOf, e);
      CarefulStep(trace, keyOf, e);
      CountsStep(trace, e);
      OutcomesTrueMore(outcomes, trace, trace + [e]);
      trace := trace + [e];
    }

    /** requireNotCancelled; the signal may be raised at any time before. */
    method Cancelled() returns (yes: bool)
      requires Valid()
      modifies this`aborted
      ensures Valid() && yes == aborted && (old(aborted) ==> aborted)
    {
      var raised: bool := *;
      aborted := aborted || raised;
      yes := aborted;
    }

    method GiveUp()
      requires Valid()
      modifies this`incomplete
      ensures Valid() && incomplete
    {
      incomplete := true;
    }

    /** archiveBatch for one record, with archiveStatus's reading of the answer; Failed is a call
        that threw. */
    method Archive(k: Key, r: Record) returns (status: Status)
      requires Valid() && k !in cache && keyOf(r) == Some(k)
      modifies this`trace, this`cache, this`archived
      ensures Valid() && old(trace) <= trace && CountListed(trace) == CountListed(old(trace))
      ensures status in {Stored, AlreadyPresent} ==> Safe(trace, keyOf, r)
      ensures cache == if status in {Stored, AlreadyPresent} then old(cache)[k := Cached(r, status)] else old(cache)
    {
      hide Careful, CacheOk, OutcomesTrue, CountDone, CountListed, CountAcknowledged;
      status := *;
      if status in {Stored, AlreadyPresent} {
        ghost var e := Archived(k, r);
        CacheStep(trace, cache, keyOf, k, Cached(r, status));
        CarefulStep(trace, keyOf, e);
        CountsStep(trace, e);
        OutcomesTrueMore(outcomes, trace, trace + [e]);
        assert |cache[k := Cached(r, status)]| == |cache| + 1;
        cache, archived, trace := cache[k := Cached(r, status)], archived + 1, trace + [e];
      }
    }

    /** One message: archived now, or earlier with the same content, or not. */
    method ArchiveOne(host: string, box: string, m: Message) returns (flow: Flow, good: bool)
      requires Valid() && messagesRead < maxMessages
      modifies this`messagesRead, this`trace, this`cache, this`archived, this`outcomes, this`aborted
      ensures Valid() && old(trace) <= trace && flow != Spent && messagesRead == old(messagesRead) + 1
      ensures old(aborted) ==> aborted
      ensures var key := keyOf(Record(box, m)); flow == Thrown <==> key.None? || (key.value !in old(cache) && aborted)
      ensures flow == Go ==> |outcomes| == |old(outcomes)| + 1 && outcomes[..|old(outcomes)|] == old(outcomes)
      ensures flow == Go ==> Told(host, box, m, keyOf(Record(box, m)), old(cache), cache, outcomes[|old(outcomes)|], good)
      ensures flow == Go ==> outcomes[|old(outcomes)|].acknowledgement == if acknowledge then Pending else Disabled
      ensures flow == Go && good ==> Safe(trace, keyOf, Record(box, m))
    {
      hide CacheOk, Careful, OutcomesTrue, CountDone, CountListed, CountAcknowledged;
      messagesRead := messagesRead + 1;
      var r := Record(box, m);
      var key := keyOf(r);
      if key.None? { return Thrown, false; }
      var k := key.value;
      var status;
      var deduped := false;
      if k in cache {
        CachedSafe(trace, cache, keyOf, k);
        if cache[k].record != r { status := Rejected; } else { status, deduped := cache[k].status, true; }
      } else {
        var cancelled := Cancelled();
        if cancelled { return Thrown, false; }
        status := Archive(k, r);
      }
      good := status in {Stored, AlreadyPresent};
      Push(Outcome(host, box, m.messageId, key, status, if acknowledge then Pending else Disabled, deduped), m);
      flow := Go;
    }

    /** outcomes.push; m is the message an archived outcome is about. */
    method Push(o: Outcome, ghost m: Message)
      requires Valid() && o.acknowledgement != Done
      requires o.archive in {Stored, AlreadyPresent} ==>
                 o.key.Some? && o.messageId == m.messageId && Archived(o.key.value, Record(o.box, m)) in trace
      modifies this`outcomes
      ensures Valid() && outcomes == old(outcomes) + [o]
    {
      hide CacheOk, Careful, OutcomesTrue, CountDone, CountListed, CountAcknowledged;
      CountDonePush(outcomes, o);
      OutcomesTruePush(outcomes, o, m, trace);
      outcomes := outcomes + [o];
    }

    /** The messages of one page, in order. When all have been dealt with, exactly those found archived
        are put up for acknowledgement, if there is to be one. */
    method ArchivePage(host: string, box: string, page: Page) returns (flow: Flow, items: seq<Item>, failed: bool)
      requires Valid()
      modifies this`messagesRead, this`trace, this`cache, this`archived, this`outcomes, this`incomplete, this`aborted
      ensures Valid() && old(trace) <= trace && (old(aborted) ==> aborted)
      ensures incomplete == (old(incomplete) || flow == Spent) && messagesRead >= old(messagesRead)
      ensures flow == Thrown ==> aborted || exists m | m in page.messages :: keyOf(Record(box, m)).None?
      ensures flow == Spent ==> messagesRead == maxMessages < old(messagesRead) + |page.messages|
      ensures flow == Go ==>
                && messagesRead == old(messagesRead) + |page.messages| && old(outcomes) <= outcomes
                && Reported(outcomes, |old(outcomes)|, host, box, page.messages, if acknowledge then Pending else Disabled,
                            failed)
                && (if acknowledge then PutUp(outcomes, |old(outcomes)|, page.messages, items) else items == [])
                && forall n | 0 <= n < |page.messages| && Secured(outcomes[|old(outcomes)| + n]) ::
                     Safe(trace, keyOf, Record(box, page.messages[n]))
    {
      hide Valid, Safe, PutUp, Reported;
      items, failed := [], false;
      ghost var base := |outcomes|;
      NothingReported(outcomes, host, box, if acknowledge then Pending else Disabled);
      for n := 0 to |page.messages|
        invariant Valid() && old(trace) <= trace && incomplete == old(incomplete) && (old(aborted) ==> aborted)
        invariant messagesRead == old(messagesRead) + n && old(outcomes) <= outcomes && |outcomes| == base + n
        invariant Reported(outcomes, base, host, box, page.messages[..n], if acknowledge then Pending else Disabled, failed)
        invariant if acknowledge then PutUp(outcomes, base, page.messages[..n], items) else items == []
        invariant forall k | 0 <= k < n && Secured(outcomes[base + k]) :: Safe(trace, keyOf, Record(box, page.messages[k]))
      {
        if messagesRead >= maxMessages {
          Bounded();
          GiveUp();
          return Spent, items, failed;
        }
        ghost var before, reported := trace, outcomes;
        var at := |outcomes|;
        var good;
        flow, good := ArchiveOne(host, box, page.messages[n]);
        if flow != Go { return; }
        AllSafeMore(before, trace, keyOf, box);
        assert outcomes == reported + [outcomes[at]];
        ReportedMore(reported, outcomes[at], base, host, box, page.messages, n, if acknowledge then Pending else Disabled,
                     failed);
        assert page.messages[..n + 1] == page.messages[..n] + [page.messages[n]];
        if acknowledge { PutUpMore(reported, outcomes[at], base, page.messages[..n], page.messages[n], items); }
        if !good { failed := true; } else if acknowledge { items := items + [Item(page.messages[n], at)]; }
      }
      assert page.messages[..|page.messages|] == page.messages;
      flow := Go;
    }

    lemma Bounded()
      requires Valid()
      ensures messagesRead <= maxMessages && pagesRead <= maxPages
    {
    }

    /** acknowledgeMessage for a page's archived messages. */
    method Acknowledge(host: string, items: seq<Item>) returns (ok: bool)
      requires Valid() && items != [] && Waiting(outcomes, items)
      requires Justified(trace, keyOf, InboundLedger.Acknowledged(host, IdsOf(items), true))
      modifies this`trace, this`outcomes, this`acknowledged, this`incomplete
      ensures Valid() && old(trace) <= trace
      ensures ok ==> incomplete == old(incomplete)
                     && forall id | id in IdsOf(items) :: AcknowledgedIn(trace, host, id)
      ensures !ok ==> incomplete
      ensures trace == old(trace) + [InboundLedger.Acknowledged(host, IdsOf(items), ok)]
      ensures Marked(old(outcomes), outcomes, items, if ok then Done else Refused)
      ensures NothingLost(trace, keyOf) <==>
                old(NothingLost(trace, keyOf)) && old(AllCached(trace, cache, keyOf, host, IdsOf(items)))
    {
      hide CacheOk, Careful, NothingLost, AllCached, OutcomesTrue, Justified, CountDone, CountListed, CountAcknowledged;
      ok := *;
      var marked := Mark(outcomes, items, if ok then Done else Refused);
      MarkedTrue(outcomes, marked, if ok then Done else Refused, trace);
      ghost var e := InboundLedger.Acknowledged(host, IdsOf(items), ok);
      JustifiedEither(trace, keyOf, host, IdsOf(items), ok);
      LosesNothingIff(trace, cache, keyOf, host, IdsOf(items), ok);
      outcomes := marked;
      Log(e);
      if ok {
        acknowledged := acknowledged + |items|;
        assert trace[|trace| - 1] == e;
      } else {
        incomplete := true;
      }
    }

    /** One round of the innermost loop: a page, if it comes, and what is done about it. */
    method ReadPage(host: string, box: string, offset: nat) returns (next: Next, ghost page: Page)
      requires Valid() && PagesLeft() && Settled(outcomes)
      modifies this
      ensures Valid() && old(trace) <= trace && (old(aborted) ==> aborted)
      ensures old(pagesRead) <= pagesRead <= old(pagesRead) + 1 && messagesRead >= old(messagesRead)
      ensures old(aborted) ==> next.Aborted? && trace == old(trace)
      ensures next.Aborted? ==> aborted || Keyless(trace, keyOf)
      ensures next.Exhausted? ==> messagesRead == maxMessages
      ensures incomplete == (old(incomplete) || next in {Broken, Exhausted})
      ensures next.More? || next.EndOfBox? || next.Broken? ==>
                Settled(outcomes) && (AnyFailing(outcomes) <==> AnyFailing(old(outcomes)) || next.Broken?)
      ensures next.More? ==> pagesRead == old(pagesRead) + 1
      ensures next.More? || next.EndOfBox? ==>
                Listed(host, box, offset, page) in trace && PageDone(trace, keyOf, acknowledge, host, box, page)
      ensures next.More? ==> next.offset == if acknowledge then 0 else page.nextOffset
      ensures next.EndOfBox? ==> !page.hasMore && (acknowledge ==> page.messages == [])
    {
      hide Valid, Safe, AcknowledgedIn, PutUp, Reported, Settled, AnyFailing, Keyless;
      page := Page([], false, 0);
      var cancelled := Cancelled();
      if cancelled { return Aborted, page; }
      var listed := NextPage(host, box, offset);
      if listed.Err? { return Broken, page; }
      page := listed.value;
      var p := listed.value;
      ghost var at, base := |trace| - 1, |outcomes|;
      if p.messages == [] { return EndOfBox, page; }
      var flow, items, failed := ArchivePage(host, box, p);
      if flow == Thrown {
        if !aborted { KeylessShown(trace, keyOf, at); }
        return Aborted, page;
      }
      if flow == Spent { return Exhausted, page; }
      assert outcomes[..base] == old(outcomes);
      next := Settle(host, box, offset, p, at, base, items, failed);
    }

    /** The page at this offset, or an outcome that says there was none. */
    method NextPage(host: string, box: string, offset: nat) returns (listed: Result<Page, ()>)
      requires Valid() && PagesLeft() && Settled(outcomes)
      modifies this`pagesRead, this`trace, this`outcomes, this`incomplete
      ensures Valid()
      ensures listed.Err? ==> incomplete && Settled(outcomes) && AnyFailing(outcomes)
                              && trace == old(trace) && pagesRead == old(pagesRead)
                              && outcomes == old(outcomes) + [Outcome(host, box, "", None, Failed, Pending, false)]
      ensures listed.Ok? ==> incomplete == old(incomplete) && outcomes == old(outcomes) && pagesRead == old(pagesRead) + 1
                             && trace == old(trace) + [Listed(host, box, offset, listed.value)]
                             && (listed.value.messages == [] ==> !listed.value.hasMore)
    {
      hide CacheOk, Careful, CountListed, CountAcknowledged, OutcomesTrue, Settled, AnyFailing;
      listed := List();
      if listed.Err? {
        SettledMore(outcomes, Outcome(host, box, "", None, Failed, Pending, false));
        Push(Outcome(host, box, "", None, Failed, Pending, false), Message("", "", ""));
        incomplete := true;
      } else {
        pagesRead := pagesRead + 1;
        Log(Listed(host, box, offset, listed.value));
      }
    }

    /** What follows a page's messages, whose outcomes stand from place base on: acknowledge the items,
        give up on the box, or go on. */
    method Settle(host: string, box: string, offset: nat, page: Page, ghost at: nat, ghost base: nat, items: seq<Item>,
                  failed: bool)
      returns (next: Next)
      requires Valid() && page.messages != [] && at < |trace| && trace[at] == Listed(host, box, offset, page)
      requires base <= |outcomes| && Settled(outcomes[..base])
      requires Reported(outcomes, base, host, box, page.messages, if acknowledge then Pending else Disabled, failed)
      requires if acknowledge then PutUp(outcomes, base, page.messages, items) else items == []
      requires forall n | 0 <= n < |page.messages| && base + n < |outcomes| && Secured(outcomes[base + n]) ::
                 Safe(trace, keyOf, Record(box, page.messages[n]))
      modifies this`trace, this`outcomes, this`acknowledged, this`incomplete, this`aborted
      ensures Valid() && old(trace) <= trace && !next.Exhausted? && (old(aborted) ==> aborted)
      ensures next.Aborted? ==> aborted && items != []
      ensures items == [] || next.Aborted? ==> trace == old(trace) && outcomes == old(outcomes)
      ensures items == [] ==> next == if failed then Broken else if page.hasMore || acknowledge then More(page.nextOffset)
                                                              else EndOfBox
      ensures items != [] && !next.Aborted? ==>
                exists ok :: && trace == old(trace) + [InboundLedger.Acknowledged(host, IdsOf(items), ok)]
                             && Marked(old(outcomes), outcomes, items, if ok then Done else Refused)
                             && next == if ok && !failed then More(0) else Broken
      ensures incomplete == (old(incomplete) || next.Broken?)
      ensures !next.Aborted? ==>
                Settled(outcomes) && (AnyFailing(outcomes) <==> AnyFailing(old(outcomes)[..base]) || next.Broken?)
      ensures next.More? || next.EndOfBox? ==> PageDone(trace, keyOf, acknowledge, host, box, page)
      ensures next.More? ==> next.offset == if acknowledge then 0 else page.nextOffset
      ensures next.EndOfBox? ==> !page.hasMore && !acknowledge
      ensures items != [] && !next.Aborted? ==>
                (NothingLost(trace, keyOf) <==>
                   old(NothingLost(trace, keyOf)) && old(AllCached(trace, cache, keyOf, host, IdsOf(items))))
    {
      hide Valid, Safe, NothingLost, AllCached, PutUp, Reported, Settled, AnyFailing, AcknowledgedIn, Justified, Waiting;
      hide Secured;
      ghost var before, pending := trace, outcomes;
      ItemsWait(outcomes, base, host, box, page.messages, items, if acknowledge then Pending else Disabled, failed,
                acknowledge);
      if items != [] {
        var cancelled := Cancelled();
        if cancelled { return Aborted; }
        PageVouches(trace, keyOf, host, box, page, at, base, outcomes, items);
        var ok := Acknowledge(host, items);
        AfterMarking(pending, outcomes, base, host, box, page.messages, items, if ok then Done else Refused, failed);
        if !ok { return Broken; }
        if !failed { PageIsDone(before, trace, keyOf, true, host, box, page, base, pending, items, Pending); }
        next := More(0);
      } else {
        AfterNothing(outcomes, base, host, box, page.messages, acknowledge, failed);
        if acknowledge && failed {
          GiveUp();
          return Broken;
        }
        if !failed { PageIsDone(before, trace, keyOf, false, host, box, page, base, pending, items, Disabled); }
        next := More(page.nextOffset);
      }
      if failed {
        GiveUp();
        return Broken;
      }
      if !page.hasMore && !acknowledge { next := EndOfBox; }
    }

    /** All pages of one box of one host. */
    method ReadBox(host: string, box: string) returns (flow: Flow, ghost pages: seq<Read>)
      requires Valid() && Settled(outcomes) && (AnyFailing(outcomes) ==> incomplete)
      requires incomplete ==> !PagesLeft() || AnyFailing(outcomes)
      modifies this
      ensures Valid() && old(trace) <= trace && (old(aborted) ==> aborted)
      ensures old(incomplete) ==> incomplete
      ensures flow == Thrown ==> aborted || Keyless(trace, keyOf)
      ensures old(aborted && PagesLeft()) ==> flow == Thrown && trace == old(trace)
      ensures flow == Spent ==> messagesRead == maxMessages
      ensures flow != Thrown ==> (incomplete <==> !PagesLeft() || AnyFailing(outcomes))
      ensures flow == Go ==> Settled(outcomes)
      ensures flow == Go && !incomplete ==> BoxDone(trace, keyOf, acknowledge, host, box, pages)
    {
      hide Valid, BoxDone, PageDone, Consecutive, Settled, AnyFailing, Keyless;
      pages := [];
      NoneRead(acknowledge);
      var offset: nat := 0;
      var over := false;
      while !over && PagesLeft()
        invariant Valid() && old(trace) <= trace && Settled(outcomes) && (old(aborted) ==> aborted)
        invariant old(incomplete) ==> incomplete
        invariant AnyFailing(outcomes) ==> incomplete
        invariant incomplete ==> !PagesLeft() || AnyFailing(outcomes)
        invariant old(aborted && PagesLeft()) ==> !over && PagesLeft() && trace == old(trace)
        invariant Consecutive(pages, acknowledge) && (!over ==> offset == StartOf(pages, acknowledge))
        invariant PagesDone(trace, keyOf, acknowledge, host, box, pages)
        invariant over && !incomplete ==> Ends(pages, acknowledge)
        decreases maxPages - pagesRead, !over
      {
        ghost var before := trace;
        Bounded();
        var next;
        ghost var page;
        next, page := ReadPage(host, box, offset);
        if next.Aborted? { return Thrown, pages; }
        if next.Exhausted? { return Spent, pages; }
        PagesDoneMore(before, trace, keyOf, acknowledge, host, box, pages);
        if next.Broken? {
          over := true;
        } else {
          ConsecutiveMore(pages, acknowledge, Read(offset, page));
          pages := pages + [Read(offset, page)];
          if next.More? { offset := next.offset; } else { over := true; }
        }
      }
      if !PagesLeft() { GiveUp(); }
      flow := Go;
      if !incomplete { BoxIsDone(trace, keyOf, acknowledge, host, box, pages); }
    }

    predicate PagesLeft()
      reads this
    {
      pagesRead < maxPages && messagesRead < maxMessages
    }

    /** listRawPage and validateRawPage. */
    method List() returns (r: Result<Page, ()>)
      ensures r.Ok? && r.value.messages == [] ==> !r.value.hasMore
      ensures r.Ok? ==> forall m | m in r.value.messages :: m.messageId != ""
    {
      var lost: bool := *;
      if lost { return Err(()); }
      var raw: RawPage := *;
      return Validate(raw);
    }

    /** syncPending's loops over hosts and boxes; thrown is a run that ended in an exception, cut one
        that spent its message budget inside a page. A run that reports itself complete has read every
        box of every host to its end, and archived (and, if asked to, acknowledged) every message it
        was shown; it reports itself incomplete exactly if it used up a budget or some outcome says
        that something failed; and unless it was cut, no archived message is left unacknowledged
        without having been put up for it. */
    method SyncPending(hosts: seq<string>, boxes: seq<string>)
      returns (thrown: bool, ghost cut: bool, ghost read: map<(string, string), seq<Read>>)
      requires Valid() && trace == [] && outcomes == [] && !incomplete
      modifies this
      ensures Valid() && Careful(trace, keyOf) && forall k :: CountKey(trace, k) <= 1
      ensures archived == CountArchived(trace) && acknowledged == CountAcknowledged(trace) == CountDone(outcomes)
      ensures pagesRead == CountListed(trace) <= maxPages && messagesRead <= maxMessages
      ensures thrown ==> aborted || Keyless(trace, keyOf)
      ensures hosts != [] && boxes != [] && old(aborted && PagesLeft()) ==> thrown && trace == []
      ensures !thrown && !cut ==> Settled(outcomes)
      ensures cut ==> messagesRead == maxMessages
      ensures !thrown && hosts != [] && boxes != [] ==> (incomplete <==> !PagesLeft() || AnyFailing(outcomes))
      ensures !thrown && !incomplete ==>
                forall h, b | h in hosts && b in boxes ::
                  (h, b) in read && BoxDone(trace, keyOf, acknowledge, h, b, read[(h, b)])
    {
      hide Valid, BoxDone, Settled, AnyFailing, Keyless;
      read, cut := map[], false;
      NothingYet();
      for i := 0 to |hosts|
        invariant Valid() && Settled(outcomes) && (AnyFailing(outcomes) ==> incomplete)
        invariant incomplete ==> !PagesLeft() || AnyFailing(outcomes)
        invariant i > 0 && boxes != [] ==> (incomplete <==> !PagesLeft() || AnyFailing(outcomes))
        invariant old(aborted && PagesLeft()) && boxes != [] ==> i == 0 && aborted && PagesLeft() && trace == []
        invariant !incomplete ==> ReadsDone(trace, keyOf, acknowledge, read)
        invariant !incomplete ==> forall h, b | h in hosts[..i] && b in boxes :: (h, b) in read
      {
        for j := 0 to |boxes|
          invariant Valid() && Settled(outcomes) && (AnyFailing(outcomes) ==> incomplete)
          invariant incomplete ==> !PagesLeft() || AnyFailing(outcomes)
          invariant j > 0 ==> (incomplete <==> !PagesLeft() || AnyFailing(outcomes))
          invariant old(aborted && PagesLeft()) && boxes != [] ==> j == 0 && aborted && PagesLeft() && trace == []
          invariant !incomplete ==> ReadsDone(trace, keyOf, acknowledge, read)
          invariant !incomplete ==> forall h, b | h in hosts[..i] && b in boxes :: (h, b) in read
          invariant !incomplete ==> forall b | b in boxes[..j] :: (hosts[i], b) in read
        {
          ghost var before := trace;
          var flow;
          ghost var pages;
          flow, pages := ReadBox(hosts[i], boxes[j]);
          if flow != Go {
            Accounts();
            return flow == Thrown, flow == Spent, read;
          }
          if !incomplete {
            ReadsDoneMore(before, trace, keyOf, acknowledge, read);
            read := read[(hosts[i], boxes[j]) := pages];
          }
        }
      }
      Accounts();
      thrown := false;
    }

    lemma NothingYet()
      ensures outcomes == [] ==> Settled(outcomes) && !AnyFailing(outcomes)
    {
    }

    lemma Accounts()
      requires Valid()
      ensures Careful(trace, keyOf) && forall k :: CountKey(trace, k) <= 1
      ensures archived == CountArchived(trace) && acknowledged == CountAcknowledged(trace) == CountDone(outcomes)
      ensures pagesRead == CountListed(trace) <= maxPages && messagesRead <= maxMessages
    {
    }
  }

  /** Where the innermost loop goes next: another page, the next box, the next box with something
      left behind, out of both loops with the budget spent, or out with an exception. */
  datatype Next = More(offset: nat) | EndOfBox | Broken | Exhausted | Aborted

  ghost predicate PagesDone(trace: seq<Event>, keyOf: Record -> Option<Key>, acknowledge: bool, host: string, box: string,
                            pages: seq<Read>) {
    forall i | 0 <= i < |pages| ::
      && Listed(host, box, pages[i].offset, pages[i].page) in trace
      && PageDone(trace, keyOf, acknowledge, host, box, pages[i].page)
  }

  lemma PagesDoneMore(trace: seq<Event>, more: seq<Event>, keyOf: Record -> Option<Key>, acknowledge: bool, host: string,
                      box: string, pages: seq<Read>)
    requires trace <= more && PagesDone(trace, keyOf, acknowledge, host, box, pages)
    ensures PagesDone(more, keyOf, acknowledge, host, box, pages)
  {
    hide PageDone;
    forall i | 0 <= i < |pages|
      ensures Listed(host, box, pages[i].offset, pages[i].page) in more
      ensures PageDone(more, keyOf, acknowledge, host, box, pages[i].page)
    {
      assert Listed(host, box, pages[i].offset, pages[i].page) in trace;
      PageDoneMore(trace, more, keyOf, acknowledge, host, box, pages[i].page);
    }
  }

  lemma BoxIsDone(trace: seq<Event>, keyOf: Record -> Option<Key>, acknowledge: bool, host: string, box: string,
                  pages: seq<Read>)
    requires PagesDone(trace, keyOf, acknowledge, host, box, pages)
    requires Consecutive(pages, acknowledge) && Ends(pages, acknowledge)
    ensures BoxDone(trace, keyOf, acknowledge, host, box, pages)
  {
  }

  ghost predicate ReadsDone(trace: seq<Event>, keyOf: Record -> Option<Key>, acknowledge: bool,
                            read: map<(string, string), seq<Read>>) {
    forall hb | hb in read :: BoxDone(trace, keyOf, acknowledge, hb.0, hb.1, read[hb])
  }

  lemma ReadsDoneMore(trace: seq<Event>, more: seq<Event>, keyOf: Record -> Option<Key>, acknowledge: bool,
                      read: map<(string, string), seq<Read>>)
    requires trace <= more && ReadsDone(trace, keyOf, acknowledge, read)
    ensures ReadsDone(more, keyOf, acknowledge, read)
  {
    hide BoxDone;
    forall hb | hb in read ensures BoxDone(more, keyOf, acknowledge, hb.0, hb.1, read[hb]) {
      BoxDoneMore(trace, more, keyOf, acknowledge, hb.0, hb.1, read[hb]);
    }
  }

  lemma NoneRead(acknowledge: bool)
    ensures Consecutive([], acknowledge)
  {
  }

  lemma JustifiedEither(trace: seq<Event>, keyOf: Record -> Option<Key>, host: string, ids: seq<string>, ok: bool)
    requires Justified(trace, keyOf, InboundLedger.Acknowledged(host, ids, true))
    ensures Justified(trace, keyOf, InboundLedger.Acknowledged(host, ids, ok))
  {
  }

  /** Every message this host has shown under one of these ids is in the cache: what the pass could
      check before it acknowledges them. */
  ghost predicate AllCached(trace: seq<Event>, cache: map<Key, Cached>, keyOf: Record -> Option<Key>, host: string,
                         ids: seq<string>)
  {
    forall box, m | Shown(trace, |trace|, host, box, m) && m.messageId in ids :: InCache(cache, keyOf, Record(box, m))
  }

  /** Acknowledging ids loses nothing more if and only if all of that is cached. */
  lemma LosesNothingIff(trace: seq<Event>, cache: map<Key, Cached>, keyOf: Record -> Option<Key>, host: string,
                        ids: seq<string>, ok: bool)
    requires CacheOk(trace, cache, keyOf)
    ensures NothingLost(trace + [InboundLedger.Acknowledged(host, ids, ok)], keyOf)
            <==> NothingLost(trace, keyOf) && AllCached(trace, cache, keyOf, host, ids)
  {
    hide CacheOk, Shown, Safe, InCache, NothingLost;
    LostStep(trace, keyOf, InboundLedger.Acknowledged(host, ids, ok));
    forall r ensures Safe(trace, keyOf, r) <==> InCache(cache, keyOf, r) { SafeIffCached(trace, cache, keyOf, r); }
  }

  /** Archived messages of one page justify acknowledging their ids. */
  lemma PageVouches(trace: seq<Event>, keyOf: Record -> Option<Key>, host: string, box: string, page: Page, at: nat,
                    base: nat, outcomes: seq<Outcome>, items: seq<Item>)
    requires items != [] && at < |trace| && trace[at].Listed? && trace[at].host == host
    requires trace[at].box == box && trace[at].page == page
    requires PutUp(outcomes, base, page.messages, items)
    requires forall n | 0 <= n < |page.messages| && base + n < |outcomes| && Secured(outcomes[base + n]) ::
               Safe(trace, keyOf, Record(box, page.messages[n]))
    ensures Justified(trace, keyOf, InboundLedger.Acknowledged(host, IdsOf(items), true))
  {
    hide Safe, Secured;
    forall id | id in IdsOf(items) ensures Vouched(trace, keyOf, box, page, id) {
      var i :| 0 <= i < |items| && IdsOf(items)[i] == id;
      var n := items[i].at - base;
      assert Placed(items, base + n) && items[i].message == page.messages[n];
    }
  }

  lemma CachedSafe(trace: seq<Event>, cache: map<Key, Cached>, keyOf: Record -> Option<Key>, k: Key)
    requires CacheOk(trace, cache, keyOf) && k in cache
    ensures Safe(trace, keyOf, cache[k].record) && keyOf(cache[k].record) == Some(k)
    ensures cache[k].status in {Stored, AlreadyPresent}
  {
  }

  lemma NothingReported(outcomes: seq<Outcome>, host: string, box: string, a: Acknowledgement)
    ensures Reported(outcomes, |outcomes|, host, box, [], a, false) && PutUp(outcomes, |outcomes|, [], [])
  {
  }

  /** The outcome of the next message. */
  lemma ReportedMore(outcomes: seq<Outcome>, o: Outcome, base: nat, host: string, box: string, messages: seq<Message>, n: nat,
                     a: Acknowledgement, failed: bool)
    requires n < |messages| && Reported(outcomes, base, host, box, messages[..n], a, failed)
    requires o.host == host && o.box == box && o.messageId == messages[n].messageId && o.acknowledgement == a
    ensures Reported(outcomes + [o], base, host, box, messages[..n + 1], a, failed || !Secured(o))
  {
    hide Secured;
    var more := outcomes + [o];
    assert forall k | base <= k < |outcomes| :: more[k] == outcomes[k] && messages[..n + 1][k - base] == messages[..n][k - base];
    assert more[|outcomes|] == o;
  }

  /** It is put up if it is archived. */
  lemma PutUpMore(outcomes: seq<Outcome>, o: Outcome, base: nat, messages: seq<Message>, m: Message, items: seq<Item>)
    requires PutUp(outcomes, base, messages, items)
    ensures PutUp(outcomes + [o], base, messages + [m], if Secured(o) then items + [Item(m, |outcomes|)] else items)
  {
    hide Secured, Placed;
    NotPlaced(items, |outcomes|);
    if Secured(o) {
      forall k ensures Placed(items + [Item(m, |outcomes|)], k) <==> Placed(items, k) || k == |outcomes| {
        PlacedLast(items, Item(m, |outcomes|), k);
      }
      PutUpNext(outcomes, o, base, messages, m, items, items + [Item(m, |outcomes|)]);
    } else {
      PutUpNext(outcomes, o, base, messages, m, items, items);
    }
  }

  lemma PutUpNext(outcomes: seq<Outcome>, o: Outcome, base: nat, messages: seq<Message>, m: Message, items: seq<Item>,
                  all: seq<Item>)
    requires PutUp(outcomes, base, messages, items) && items <= all <= items + [Item(m, |outcomes|)]
    requires forall k :: Placed(all, k) <==> Placed(items, k) || (Secured(o) && k == |outcomes|)
    requires !Placed(items, |outcomes|)
    ensures PutUp(outcomes + [o], base, messages + [m], all)
  {
    hide Secured, Placed;
    var more := outcomes + [o];
    assert forall k | base <= k < |outcomes| :: more[k] == outcomes[k];
    assert more[|outcomes|] == o;
    assert forall i | 0 <= i < |items| :: all[i] == items[i];
  }

  lemma PlacedLast(items: seq<Item>, item: Item, k: nat)
    ensures Placed(items + [item], k) <==> Placed(items, k) || k == item.at
  {
    var all := items + [item];
    if Placed(items, k) {
      var i :| 0 <= i < |items| && items[i].at == k;
      assert all[i].at == k;
    }
    assert all[|items|] == item;
  }

  lemma NotPlaced(items: seq<Item>, at: nat)
    requires forall i | 0 <= i < |items| :: items[i].at < at
    ensures !Placed(items, at)
  {
  }

  /** What is put up is waiting; in acknowledge mode something is, unless something failed. */
  lemma ItemsWait(outcomes: seq<Outcome>, base: nat, host: string, box: string, messages: seq<Message>, items: seq<Item>,
                  a: Acknowledgement, failed: bool, acknowledge: bool)
    requires Reported(outcomes, base, host, box, messages, a, failed) && messages != []
    requires if acknowledge then PutUp(outcomes, base, messages, items) && a == Pending else items == []
    ensures Waiting(outcomes, items) && (acknowledge && !failed ==> items != [])
  {
    assert acknowledge ==> (Placed(items, base) <==> Secured(outcomes[base]));
  }

  lemma AfterMarking(outcomes: seq<Outcome>, marked: seq<Outcome>, base: nat, host: string, box: string, messages: seq<Message>,
                     items: seq<Item>, a: Acknowledgement, failed: bool)
    requires base <= |outcomes| && Settled(outcomes[..base]) && items != [] && (a == Done || a == Refused)
    requires Reported(outcomes, base, host, box, messages, Pending, failed) && PutUp(outcomes, base, messages, items)
    requires Marked(outcomes, marked, items, a)
    ensures Settled(marked)
    ensures AnyFailing(marked) <==> AnyFailing(outcomes[..base]) || failed || a == Refused
  {
    hide Secured;
    forall k | 0 <= k < base ensures marked[k] == outcomes[k] == outcomes[..base][k] && !Placed(items, k) {
    }
    forall k | base <= k < |marked| ensures Secured(marked[k]) == Secured(outcomes[k]) == Placed(items, k) {
      SecuredMarked(outcomes[k], a);
    }
    assert Placed(items, items[0].at);
    if AnyFailing(outcomes[..base]) {
      var k :| 0 <= k < base && Failing(outcomes[..base][k]);
      assert Failing(marked[k]);
    }
    if failed {
      var k :| base <= k < |outcomes| && !Secured(outcomes[k]);
      assert Failing(marked[k]);
    }
    if a == Refused { assert Failing(marked[items[0].at]); }
    if AnyFailing(marked) {
      var k :| 0 <= k < |marked| && Failing(marked[k]);
      if k < base { assert Failing(outcomes[..base][k]); }
    }
  }

  lemma SecuredMarked(o: Outcome, a: Acknowledgement)
    ensures Secured(o.(acknowledgement := a)) == Secured(o)
  {
  }

  /** Nothing was put up. */
  lemma AfterNothing(outcomes: seq<Outcome>, base: nat, host: string, box: string, messages: seq<Message>, acknowledge: bool,
                     failed: bool)
    requires base <= |outcomes| && Settled(outcomes[..base])
    requires Reported(outcomes, base, host, box, messages, if acknowledge then Pending else Disabled, failed)
    requires acknowledge ==> PutUp(outcomes, base, messages, [])
    ensures Settled(outcomes)
    ensures AnyFailing(outcomes) <==> AnyFailing(outcomes[..base]) || failed
  {
    hide Secured;
    forall k | 0 <= k < |outcomes| && Secured(outcomes[k]) ensures outcomes[k].acknowledgement != Pending {
      if k < base { assert outcomes[..base][k] == outcomes[k]; } else { assert acknowledge ==> Placed([], k); }
    }
    if AnyFailing(outcomes[..base]) {
      var k :| 0 <= k < base && Failing(outcomes[..base][k]);
      assert Failing(outcomes[k]);
    }
    if failed {
      var k :| base <= k < |outcomes| && !Secured(outcomes[k]);
      assert Failing(outcomes[k]);
    }
    if AnyFailing(outcomes) {
      var k :| 0 <= k < |outcomes| && Failing(outcomes[k]);
      if k < base { assert Failing(outcomes[..base][k]); }
    }
  }

  /** A page none of whose messages failed, all of it acknowledged if it is to be. */
  lemma PageIsDone(before: seq<Event>, trace: seq<Event>, keyOf: Record -> Option<Key>, acknowledge: bool, host: string,
                   box: string, page: Page, base: nat, outcomes: seq<Outcome>, items: seq<Item>, a: Acknowledgement)
    requires before <= trace && Reported(outcomes, base, host, box, page.messages, a, false)
    requires forall n | 0 <= n < |page.messages| && base + n < |outcomes| && Secured(outcomes[base + n]) ::
               Safe(before, keyOf, Record(box, page.messages[n]))
    requires acknowledge ==> PutUp(outcomes, base, page.messages, items)
                             && forall id | id in IdsOf(items) :: AcknowledgedIn(trace, host, id)
    ensures PageDone(trace, keyOf, acknowledge, host, box, page)
  {
    hide Safe, AcknowledgedIn, Secured, PutUp;
    AllSafeMore(before, trace, keyOf, box);
    forall m | m in page.messages
      ensures Safe(trace, keyOf, Record(box, m)) && (acknowledge ==> AcknowledgedIn(trace, host, m.messageId))
    {
      var n :| 0 <= n < |page.messages| && page.messages[n] == m;
      assert Secured(outcomes[base + n]);
      if acknowledge { IdPutUp(outcomes, base, page.messages, items, n); }
    }
  }

  lemma IdPutUp(outcomes: seq<Outcome>, base: nat, messages: seq<Message>, items: seq<Item>, n: nat)
    requires PutUp(outcomes, base, messages, items) && n < |messages| && Secured(outcomes[base + n])
    ensures messages[n].messageId in IdsOf(items)
  {
    hide Secured;
    assert Placed(items, base + n);
    var i :| 0 <= i < |items| && items[i].at == base + n;
    assert IdsOf(items)[i] == messages[n].messageId;
  }

  lemma SettledMore(outcomes: seq<Outcome>, o: Outcome)
    requires Settled(outcomes) && !Secured(o)
    ensures Settled(outcomes + [o]) && AnyFailing(outcomes + [o])
  {
    assert (outcomes + [o])[|outcomes|] == o;
  }

  /** A message was listed whose key cannot be computed. */
  ghost predicate Keyless(trace: seq<Event>, keyOf: Record -> Option<Key>) {
    exists i, m :: 0 <= i < |trace| && trace[i].Listed? && m in trace[i].page.messages && keyOf(Record(trace[i].box, m)).None?
  }

  lemma KeylessShown(trace: seq<Event>, keyOf: Record -> Option<Key>, at: nat)
    requires at < |trace| && trace[at].Listed?
    requires exists m :: m in trace[at].page.messages && keyOf(Record(trace[at].box, m)).None?
    ensures Keyless(trace, keyOf)
  {
  }

  lemma MarkedTrue(outcomes: seq<Outcome>, marked: seq<Outcome>, a: Acknowledgement, trace: seq<Event>)
    requires OutcomesTrue(outcomes, trace) && |marked| == |outcomes|
    requires forall k | 0 <= k < |marked| :: marked[k] == outcomes[k] || marked[k] == outcomes[k].(acknowledgement := a)
    ensures OutcomesTrue(marked, trace)
  {
    forall k | 0 <= k < |marked| ensures OutcomeTrue(marked[k], trace) { assert OutcomeTrue(outcomes[k], trace); }
  }

  lemma AllSafeMore(trace: seq<Event>, more: seq<Event>, keyOf: Record -> Option<Key>, box: string)
    requires trace <= more
    ensures forall m | Safe(trace, keyOf, Record(box, m)) :: Safe(more, keyOf, Record(box, m))
  {
  }

  lemma OutcomesTruePush(outcomes: seq<Outcome>, o: Outcome, m: Message, trace: seq<Event>)
    requires OutcomesTrue(outcomes, trace)
    requires o.archive in {Stored, AlreadyPresent} ==>
               o.key.Some? && o.messageId == m.messageId && Archived(o.key.value, Record(o.box, m)) in trace
    ensures OutcomesTrue(outcomes + [o], trace)
  {
    var more := outcomes + [o];
    forall i | 0 <= i < |more| ensures OutcomeTrue(more[i], trace) {
      if i < |outcomes| { assert OutcomeTrue(outcomes[i], trace); }
    }
  }

  /** An outcome says archived only of a key confirmed archived. */
  ghost predicate OutcomesTrue(outcomes: seq<Outcome>, trace: seq<Event>) {
    forall i | 0 <= i < |outcomes| :: OutcomeTrue(outcomes[i], trace)
  }

  ghost predicate OutcomeTrue(o: Outcome, trace: seq<Event>) {
    o.archive in {Stored, AlreadyPresent} ==>
      o.key.Some? && exists m: Message :: m.messageId == o.messageId && Archived(o.key.value, Record(o.box, m)) in trace
  }

  lemma OutcomesTrueMore(outcomes: seq<Outcome>, trace: seq<Event>, more: seq<Event>)
    requires OutcomesTrue(outcomes, trace) && trace <= more
    ensures OutcomesTrue(outcomes, more)
  {
    forall i | 0 <= i < |outcomes| ensures OutcomeTrue(outcomes[i], more) {
      var o := outcomes[i];
      assert OutcomeTrue(o, trace);
      if o.archive in {Stored, AlreadyPresent} {
        var m: Message :| m.messageId == o.messageId && Archived(o.key.value, Record(o.box, m)) in trace;
        assert Archived(o.key.value, Record(o.box, m)) in more;
      }
    }
  }
}
