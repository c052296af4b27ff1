/** What the server as a whole holds, what a replica claims of it, and the checks a client makes on
    the pages it is sent. */
module Replica {
  import opened Wrappers
  import opened History
  import opened Feeds
  import opened FeedSafety
  import opened SnapshotFeed
  import Paging

  // ---------------------------------------------------------------- the server's whole state

  /** Every epoch's history, past epochs included; only the current one is still written. */
  datatype Server = Server(current: string, epochs: map<string, Epoch>, snapshots: map<string, Snapshot>)

  ghost predicate ServerOk(s: Server) {
    && s.current in s.epochs
    && (forall n | n in s.epochs :: EpochOk(s.epochs[n]))
    && (forall id | id in s.snapshots ::
          && s.snapshots[id].epoch in s.epochs
          && SnapshotOk(s.epochs[s.snapshots[id].epoch], s.snapshots[id]))
  }

  /** Whatever other writers, the purger, epoch rotation and snapshot invalidation can do. */
  ghost predicate Evolves(a: Server, b: Server) {
    && ServerOk(b)
    && (forall n | n in a.epochs :: n in b.epochs && Grows(a.epochs[n], b.epochs[n]))
    && (forall id | id in a.snapshots ::
          && id in b.snapshots
          && b.snapshots[id] == a.snapshots[id].(active := b.snapshots[id].active))
  }

  lemma EvolvesTransitive(a: Server, b: Server, c: Server)
    requires Evolves(a, b) && Evolves(b, c)
    ensures Evolves(a, c)
  {
    forall n | n in a.epochs ensures n in c.epochs && Grows(a.epochs[n], c.epochs[n]) {
      GrowsTransitive(a.epochs[n], b.epochs[n], c.epochs[n]);
    }
  }

  /** The last sequence an epoch has allocated. */
  function HeadOf(s: Server, epoch: string): nat {
    if epoch in s.epochs then |s.epochs[epoch].log| else 0
  }

  lemma HeadsGrow(a: Server, b: Server, epoch: string)
    requires Evolves(a, b)
    ensures HeadOf(a, epoch) <= HeadOf(b, epoch)
  {
  }

  // ---------------------------------------------------------------- coverage

  datatype Continuation = Continuation(cursor: Cursor, watermark: nat)

  /** What the replica claims to hold; also its compare-and-set version. */
  datatype Coverage = Coverage(epoch: string, checkpoint: nat, generation: nat, continuation: Option<Continuation>)

  /** The end of the pass a coverage is in. */
  function GoalOf(c: Coverage): nat {
    if c.continuation.Some? then c.continuation.value.watermark else c.checkpoint
  }

  /** A coverage that makes sense against the server, rows aside. */
  ghost predicate CoverageShape(s: Server, f: Filter, c: Coverage) {
    && c.epoch in s.epochs
    && c.checkpoint <= GoalOf(c) <= |s.epochs[c.epoch].log|
    && (c.continuation.Some? ==>
          var cur := c.continuation.value.cursor;
          && c.checkpoint > 0
          && cur == Cursor(c.epoch, Changes, f, c.continuation.value.watermark, At(c.checkpoint), cur.expiry))
  }

  /** The replica is never silently wrong: its rows are a faithful copy of its epoch's log at
      its checkpoint. */
  ghost predicate CoverageOk(s: Server, f: Filter, c: Option<Coverage>, rows: map<Key, Row>) {
    if c.None? then rows == map[]
    else
      && CoverageShape(s, f, c.value)
      && Faithful(s.epochs[c.value.epoch], f, rows, c.value.checkpoint, GoalOf(c.value))
  }

  lemma CoverageStable(a: Server, b: Server, f: Filter, c: Option<Coverage>, rows: map<Key, Row>)
    requires ServerOk(a) && Evolves(a, b) && CoverageOk(a, f, c, rows)
    ensures CoverageOk(b, f, c, rows)
  {
    if c.Some? {
      FaithfulStable(a.epochs[c.value.epoch], b.epochs[c.value.epoch], f, rows, c.value.checkpoint, GoalOf(c.value));
    }
  }

  datatype Ref = Ref(epoch: string, snapshotId: string)

  datatype Staged = Staged(expected: Option<Coverage>, rows: map<Key, Row>)

  datatype Created = Created(snapshotId: string, epoch: string, watermark: nat, active: bool)

  /** The request applyChanges makes for a coverage. */
  function RequestFor(c: Coverage): Request {
    if c.continuation.Some? then Continue(c.continuation.value.cursor) else FromCheckpoint(c.checkpoint, c.epoch)
  }

  // ---------------------------------------------------------------- the client's page checks

  /** assertPageShape, on numbers. */
  predicate PageShape(p: Page) {
    && (p.hasMore <==> p.nextCursor.Some?)
    && p.checkpoint <= p.watermark
    && (!p.hasMore ==> p.checkpoint == p.watermark)
  }

  /** Stable insertion: after every item of the same or a smaller sequence. */
  function Place(items: seq<Item>, i: Item): seq<Item> {
    if items == [] || SequenceOf(items[|items| - 1]) <= SequenceOf(i) then items + [i]
    else Place(items[..|items| - 1], i) + [items[|items| - 1]]
  }

  function SortItems(items: seq<Item>): seq<Item> {
    if items == [] then [] else Place(SortItems(items[..|items| - 1]), items[|items| - 1])
  }

  /** orderedEvents: events in sequence order, none beyond the checkpoint. */
  function OrderedEvents(p: Page): Result<seq<Item>, Code> {
    if exists i | 0 <= i < |p.records| :: SequenceOf(p.records[i]) > p.checkpoint then Err(PageInconsistent)
    else Ok(SortItems(p.records))
  }

  ghost predicate InOrder(items: seq<Item>) {
    forall i, j | 0 <= i < j < |items| :: SequenceOf(items[i]) <= SequenceOf(items[j])
  }

  /** The items of one sequence, in the order they stand. */
  function Slot(items: seq<Item>, s: nat): seq<Item> {
    if items == [] then []
    else Slot(items[..|items| - 1], s)
         + (if SequenceOf(items[|items| - 1]) == s then [items[|items| - 1]] else [])
  }

  /** Placing keeps the order; nothing is in the result but the list and the item. */
  lemma {:induction false} PlaceOrders(items: seq<Item>, i: Item)
    requires InOrder(items)
    ensures InOrder(Place(items, i)) && |Place(items, i)| == |items| + 1
    ensures items != [] && SequenceOf(i) < SequenceOf(items[|items| - 1]) ==>
              forall k | 0 <= k < |items| :: SequenceOf(Place(items, i)[k]) <= SequenceOf(items[|items| - 1])
  {
    if items != [] && SequenceOf(items[|items| - 1]) > SequenceOf(i) {
      var front, last := items[..|items| - 1], items[|items| - 1];
      PlaceOrders(front, i);
      var p := Place(front, i);
      forall k | 0 <= k < |p| ensures SequenceOf(p[k]) <= SequenceOf(last) {
        if front == [] || SequenceOf(front[|front| - 1]) <= SequenceOf(i) {
          assert p == front + [i];
        } else if k < |front| {
          assert SequenceOf(p[k]) <= SequenceOf(front[|front| - 1]);
        } else {
          assert p[k] == front[|front| - 1];
        }
      }
    }
  }

  lemma {:induction false} PlaceSlots(items: seq<Item>, i: Item, s: nat)
    requires InOrder(items)
    ensures Slot(Place(items, i), s) == Slot(items, s) + (if SequenceOf(i) == s then [i] else [])
  {
    var r := Place(items, i);
    if items == [] || SequenceOf(items[|items| - 1]) <= SequenceOf(i) {
      assert r[..|r| - 1] == items;
    } else {
      var front, last := items[..|items| - 1], items[|items| - 1];
      PlaceSlots(front, i, s);
      assert r[..|r| - 1] == Place(front, i);
      SlotAbove(items, s);
    }
  }

  /** Nothing in an ordered list stands beyond its last item's sequence. */
  lemma {:induction false} SlotAbove(items: seq<Item>, s: nat)
    requires InOrder(items) && items != []
    ensures SequenceOf(items[|items| - 1]) < s ==> Slot(items, s) == []
    decreases |items|
  {
    if |items| > 1 && SequenceOf(items[|items| - 1]) < s { SlotAbove(items[..|items| - 1], s); }
    if |items| == 1 { assert items[..0] == []; }
  }

  /** The sort is one: in order, and stable - events of one sequence keep their places relative
      to each other, which also makes it a rearrangement. */
  lemma {:induction false} SortItemsStable(items: seq<Item>, s: nat)
    ensures InOrder(SortItems(items)) && |SortItems(items)| == |items|
    ensures Slot(SortItems(items), s) == Slot(items, s)
  {
    if items != [] {
      SortItemsStable(items[..|items| - 1], s);
      PlaceOrders(SortItems(items[..|items| - 1]), items[|items| - 1]);
      PlaceSlots(SortItems(items[..|items| - 1]), items[|items| - 1], s);
    }
  }

  lemma {:induction false} SortOfOrdered(items: seq<Item>)
    requires InOrder(items)
    ensures SortItems(items) == items
  {
    if items != [] {
      SortOfOrdered(items[..|items| - 1]);
    }
  }

  /** A sound page passes the client's shape check; it passes the event check exactly when no deletion
      is sent early, and then the sort changes nothing and the events account for its range. */
  lemma ServedPagePassesChecks(e: Epoch, f: Filter, c: nat, page: Page)
    requires EpochOk(e) && PageSound(e, f, c, page) && Continues(f, c, page)
    ensures PageShape(page)
    ensures OrderedEvents(page).Ok? ==>
              OrderedEvents(page).value == page.records
              && Covers(e, f, c, page.checkpoint, page.watermark, page.records)
  {
    if OrderedEvents(page).Ok? {
      CoversOrdered(e, f, c, page.checkpoint, page.watermark, page.records);
      SortOfOrdered(page.records);
    }
  }

  lemma {:induction false} RowsInRising(retained: set<nat>, lo: nat, hi: nat)
    ensures Rising(RowsIn(retained, lo, hi))
    decreases hi - lo
  {
    if lo < hi { RowsInRising(retained, lo + 1, hi); }
  }

  /** A candidate carries the sequence it answers for, or a deletion from beyond the watermark. */
  lemma {:induction false} CollectedAsScanned(e: Epoch, f: Filter, w: nat, rows: seq<nat>)
    requires ValidRows(e, rows)
    ensures forall i | 0 <= i < |Collect(e, f, w, rows)| ::
              var c := Collect(e, f, w, rows)[i];
              SequenceOf(c.item) == c.sequence || SequenceOf(c.item) > w
  {
    if rows != [] {
      var front := rows[..|rows| - 1];
      CollectedAsScanned(e, f, w, front);
      LatestDeleteIs(e, e.log[rows[|rows| - 1] - 1].key, |e.log|);
      assert forall i | 0 <= i < |Collect(e, f, w, front)| ::
          Collect(e, f, w, rows)[i] == Collect(e, f, w, front)[i];
    }
  }

  /** Every page the feed answers with, to any request over any gaps, passes the client's shape check;
      and if it passes the event check, the sort leaves it as it is. */
  lemma EveryPagePassesChecks(e: Epoch, current: string, f: Filter, req: Request, limit: nat, b: Budget, page: Page)
    requires EpochOk(e) && Authentic(e, current, req) && 1 <= limit <= Paging.MAX_PAGE_RECORDS
    requires ListChanges(e, current, f, req, limit, b) == Ok(page)
    ensures PageShape(page)
    ensures OrderedEvents(page).Ok? ==> OrderedEvents(page).value == page.records
  {
    hide ListChanges, PageExact, PageSound, Collect;
    ServedPage(e, current, f, req, limit, b, page);
    if OrderedEvents(page).Ok? {
      var rows := RowsIn(e.retained, StartOf(req), page.checkpoint);
      RetainedValid(e, StartOf(req), page.checkpoint);
      RowsInRising(e.retained, StartOf(req), page.checkpoint);
      CollectOrdered(e, f, page.watermark, rows);
      CollectedAsScanned(e, f, page.watermark, rows);
      ScanInOrder(Collect(e, f, page.watermark, rows), page);
    }
  }

  lemma ScanInOrder(cs: seq<Candidate>, page: Page)
    requires page.records == ItemsOf(cs) && page.checkpoint <= page.watermark && OrderedEvents(page).Ok?
    requires forall i | 0 <= i < |cs| :: SequenceOf(cs[i].item) == cs[i].sequence || SequenceOf(cs[i].item) > page.watermark
    requires forall i, j | 0 <= i < j < |cs| :: cs[i].sequence < cs[j].sequence
    ensures OrderedEvents(page).value == page.records
  {
    forall i | 0 <= i < |cs| ensures SequenceOf(cs[i].item) == cs[i].sequence {
      assert page.records[i] == cs[i].item;
    }
    SortOfOrdered(page.records);
  }

  /** So a pass stalls: once a record changed in the range still to be read is deleted beyond the
      pass's watermark, no page that reaches the change is accepted while the deletion is retained,
      however often the pass is resumed. */
  lemma EarlyDeletionStallsPass(e: Epoch, f: Filter, c: nat, page: Page, s: nat, d: nat)
    requires EpochOk(e) && PageExact(e, f, c, page)
    requires c < s <= page.checkpoint <= page.watermark < d && d in e.retained
    requires e.log[s - 1].Change? && DeletedAt(e, e.log[s - 1].key, d)
    ensures OrderedEvents(page) == Err(PageInconsistent)
  {
    var i, _ := EarlyDeletionSent(e, f, c, page, s, d);
    assert SequenceOf(page.records[i]) > page.checkpoint;
  }

  /** A read from a checkpoint never stalls: its watermark is the head of the log, and no deletion
      lies beyond that. */
  lemma CheckpointNeverStalls(e: Epoch, current: string, f: Filter, c: nat, epoch: string, limit: nat, b: Budget, page: Page)
    requires EpochOk(e) && 1 <= limit <= Paging.MAX_PAGE_RECORDS
    requires ListChanges(e, current, f, FromCheckpoint(c, epoch), limit, b) == Ok(page)
    ensures OrderedEvents(page) == Ok(page.records)
  {
    hide ListChanges, PageScans, PageExact, PageSound;
    ServedPage(e, current, f, FromCheckpoint(c, epoch), limit, b, page);
    if OrderedEvents(page).Err? {
      var s, d := RejectionIsEarlyDeletion(e, f, c, page);
      assert false;
    }
    ServedPagePassesChecks(e, f, c, page);
  }

  /** A stalled pass ends when its cursor does: the rejected page moves nothing, so the same
      continuation is sent again, and from its expiry on it is answered by the error that makes the
      client take a snapshot, whatever has happened to the history. */
  lemma StallEndsAtExpiry(e: Epoch, current: string, f: Filter, c: Coverage, limit: nat, b: Budget)
    requires EpochOk(e) && 1 <= limit <= Paging.MAX_PAGE_RECORDS
    requires c.continuation.Some? && c.continuation.value.cursor.expiry <= b.now
    requires Authentic(e, current, RequestFor(c))
    ensures ListChanges(e, current, f, RequestFor(c), limit, b) == Err(CursorExpired)
  {
  }

  /** It happens: two records changed, the second deleted after the pass to 2 began. The rest of the
      pass is served with the deletion under its own sequence, and the client rejects it. */
  lemma EarlyDeletionServed(x: Content, state: string, name: string, sizeOf: Item -> nat, now: int, ttl: nat)
    returns (e: Epoch, page: Page)
    requires sizeOf(Removal(2, 3)) + 2 <= Paging.MAX_PAGE_BYTES
    ensures EpochOk(e) && e.log == [Change(1, state, 1), Change(2, state, 1), Deletion(2)] && e.retained == {1, 2, 3}
    ensures var f := Filter(None, None, None);
            var req := Continue(Cursor(name, Changes, f, 2, At(1), now + 1));
            && Authentic(e, name, req)
            && ListChanges(e, name, f, req, 1, Budget(sizeOf, (a, b, c, d) => 0, now, ttl)) == Ok(page)
            && page == Page([Removal(2, 3)], None, 2, false, 2, name)
            && PageShape(page) && OrderedEvents(page) == Err(PageInconsistent)
  {
    e := Epoch([Change(1, state, 1), Change(2, state, 1), Deletion(2)], map[1 := x, 2 := x], {1, 2, 3});
    page := Page([Removal(2, 3)], None, 2, false, 2, name);
    EarlyRead(e, x, state, name, Budget(sizeOf, (a, b, c, d) => 0, now, ttl));
    assert SequenceOf(page.records[0]) > page.checkpoint;
  }

  lemma EarlyRead(e: Epoch, x: Content, state: string, name: string, b: Budget)
    requires e == Epoch([Change(1, state, 1), Change(2, state, 1), Deletion(2)], map[1 := x, 2 := x], {1, 2, 3})
    requires (forall a, f, w, p :: b.overheadOf(a, f, w, p) == 0) && b.sizeOf(Removal(2, 3)) + 2 <= Paging.MAX_PAGE_BYTES
    ensures EpochOk(e)
    ensures var f := Filter(None, None, None);
            var req := Continue(Cursor(name, Changes, f, 2, At(1), b.now + 1));
            && Authentic(e, name, req)
            && ListChanges(e, name, f, req, 1, b) == Ok(Page([Removal(2, 3)], None, 2, false, 2, name))
  {
    var f, w := Filter(None, None, None), Window(2, 1, name, false);
    assert Select(e.retained, 1, 2, 1) == [2];
    assert LatestDelete(e, 2, 3) == Some(3);
    assert Version(e, 3, 2) == None;
    var cs := [Candidate(Removal(2, 3), 2)];
    assert CandidateAt(e, f, 2, 2) == Some(cs[0]);
    assert Collect(e, f, 2, []) == [] && [2][..0] == [];
    assert Collect(e, f, 2, [2]) == cs;
    OneFits(ItemSizes(cs, b.sizeOf));
    assert ItemsOf(cs) == [Removal(2, 3)];
    assert ReadWindow(e, f, w, 1, b) == Ok(Page([Removal(2, 3)], None, 2, false, 2, name));
  }

  lemma OneFits(sizes: seq<nat>)
    requires |sizes| == 1 && sizes[0] + 2 <= Paging.MAX_PAGE_BYTES
    ensures Paging.FitCount(sizes, 1, 0, Paging.MAX_PAGE_BYTES, 0) == Ok(1)
  {
    Paging.TotalStep(sizes, 0, 0);
  }

  /** And nothing else stalls it: a rejected page names such a change and such a deletion. */
  lemma RejectionIsEarlyDeletion(e: Epoch, f: Filter, c: nat, page: Page) returns (s: nat, d: nat)
    requires EpochOk(e) && PageExact(e, f, c, page) && PageSound(e, f, c, page)
    requires OrderedEvents(page).Err?
    ensures c < s <= page.checkpoint && page.watermark < d && d in e.retained
    ensures e.log[s - 1].Change? && DeletedAt(e, e.log[s - 1].key, d)
  {
    var i :| 0 <= i < |page.records| && SequenceOf(page.records[i]) > page.checkpoint;
    var w := page.watermark;
    var cs := CandidatesIn(e, f, w, c, page.checkpoint);
    s := CandidateSource(e, f, w, c, page.checkpoint, i);
    d := SequenceOf(cs[i].item);
    assert e.log[s - 1].key in e.content;
    LatestDeleteIs(e, e.log[s - 1].key, |e.log|);
  }

  lemma {:induction false} CandidateSource(e: Epoch, f: Filter, w: nat, lo: nat, hi: nat, i: nat) returns (s: nat)
    requires EpochOk(e) && hi <= |e.log| && i < |CandidatesIn(e, f, w, lo, hi)|
    ensures lo < s <= hi && e.log[s - 1].key in e.content
    ensures CandidateAt(e, f, w, s) == Some(CandidatesIn(e, f, w, lo, hi)[i])
    decreases hi
  {
    assert e.log[hi - 1].key in e.content;
    if i < |CandidatesIn(e, f, w, lo, hi - 1)| { s := CandidateSource(e, f, w, lo, hi - 1, i); }
    else { s := hi; }
  }
}
