/** When the rows a replica holds are the log folded to its checkpoint, exactly: for one page, and for
    everything applied since the copy was last known to be exact. */
module Exactness {
  import opened Wrappers
  import opened History
  import opened Feeds
  import opened FeedSafety
  import opened Replica
  import Decimals
  import Paging

  /** k's row at q was written in (c, q], and k has been deleted since: a scan of (c, q] leaves it
      out. */
  predicate Hidden(e: Epoch, f: Filter, c: nat, q: nat, k: Key) {
    && q <= |e.log|
    && View(e, f, q, k).Some? && View(e, f, q, k).value.sequence > c
    && !Live(e, k)
  }

  ghost predicate Dead(e: Epoch, k: Key) {
    exists d: nat :: DeletedAt(e, k, d)
  }

  lemma DeadIsGone(e: Epoch, k: Key)
    requires EpochOk(e) && Dead(e, k)
    ensures !Live(e, k)
  {
    var d: nat :| DeletedAt(e, k, d);
    DeletedStaysGone(e, d, |e.log|, k);
  }

  /** Only a deletion that lies beyond the page can hide a record; if the record's last deletion
      were retained beyond the watermark, the page would have been rejected. */
  lemma HiddenIsDeletedLater(e: Epoch, f: Filter, c: nat, q: nat, k: Key) returns (d: nat)
    requires EpochOk(e) && Hidden(e, f, c, q, k)
    ensures q < d && DeletedAt(e, k, d)
  {
    d := GoneWasDeleted(e, q, |e.log|, k);
  }

  // ---------------------------------------------------------------- what a scan does to a copy

  /** What a copy holds for k at p: its row, unless k was missed on the way; then, as long as there
      is a row to hold, an older one or none. */
  ghost predicate Stands(e: Epoch, f: Filter, missed: bool, row: Option<Row>, p: nat, k: Key)
    requires p <= |e.log|
  {
    var truth := View(e, f, p, k);
    if missed && truth.Some? then row.None? || row.value.sequence < truth.value.sequence else row == truth
  }

  /** One scanned sequence. */
  lemma StandsStep(e: Epoch, f: Filter, rows: map<Key, Row>, missed: bool, c: nat, q: nat, w: nat, k: Key)
    requires EpochOk(e) && c < q <= w <= |e.log| && e.log[q - 1].key in e.content && (missed ==> !Live(e, k))
    requires Stands(e, f, missed || Hidden(e, f, c, q - 1, k), RowOf(rows, k), q - 1, k)
    ensures var cand := CandidateAt(e, f, w, q);
            (cand.Some? ==> SequenceOf(cand.value.item) <= w) ==>
              Stands(e, f, missed || Hidden(e, f, c, q, k),
                     RowOf(if cand.Some? then ApplyItem(rows, cand.value.item) else rows, k), q, k)
  {
    if View(e, f, q - 1, k).Some? { VersionNamesItself(e, q - 1, k); }
  }

  /** A whole scan of (c, q]. */
  lemma {:induction false} ScanStands(e: Epoch, f: Filter, rows: map<Key, Row>, missed: bool, c: nat, q: nat, w: nat, k: Key)
    requires EpochOk(e) && c <= q <= w <= |e.log| && (missed ==> !Live(e, k))
    requires Stands(e, f, missed, RowOf(rows, k), c, k)
    requires forall i | 0 <= i < |CandidatesIn(e, f, w, c, q)| :: SequenceOf(CandidatesIn(e, f, w, c, q)[i].item) <= w
    ensures Stands(e, f, missed || Hidden(e, f, c, q, k), RowOf(Apply(rows, ItemsOf(CandidatesIn(e, f, w, c, q))), k), q, k)
    decreases q
  {
    hide Hidden, Stands, CandidateAt;
    if c == q {
      NothingHidden(e, f, c, k);
    } else {
      var cs, front := CandidatesIn(e, f, w, c, q), CandidatesIn(e, f, w, c, q - 1);
      assert e.log[q - 1].key in e.content;
      assert forall i | 0 <= i < |front| :: front[i] == cs[i];
      ScanStands(e, f, rows, missed, c, q - 1, w, k);
      StandsStep(e, f, Apply(rows, ItemsOf(front)), missed, c, q, w, k);
      if |cs| > |front| { assert ItemsOf(cs)[..|cs| - 1] == ItemsOf(front); }
      else { assert cs == front; }
    }
  }

  lemma NothingHidden(e: Epoch, f: Filter, c: nat, k: Key)
    requires c <= |e.log|
    ensures !Hidden(e, f, c, c, k)
  {
    if View(e, f, c, k).Some? { VersionNamesItself(e, c, k); }
  }

  // ---------------------------------------------------------------- pages applied one after another

  /** A page that was applied: the history it was served from, and where its range starts. */
  datatype Served = Served(epoch: Epoch, start: nat, page: Page)

  /** It carries the scan of its range, with nothing from beyond it. */
  ghost predicate Scans(s: Served, f: Filter) {
    && EpochOk(s.epoch) && s.start <= s.page.checkpoint <= s.page.watermark <= |s.epoch.log|
    && PageExact(s.epoch, f, s.start, s.page)
    && forall i | 0 <= i < |s.page.records| :: SequenceOf(s.page.records[i]) <= s.page.checkpoint
  }

  /** Pages applied one after another from base to p, each served from an earlier state of the one
      history that is e by now. */
  ghost predicate Follows(e: Epoch, f: Filter, base: nat, trail: seq<Served>, p: nat)
    decreases |trail|
  {
    && EpochOk(e) && base <= p <= |e.log|
    && if trail == [] then p == base
       else
         var last := trail[|trail| - 1];
         && Scans(last, f) && last.page.checkpoint == p && Grows(last.epoch, e)
         && Follows(last.epoch, f, base, trail[..|trail| - 1], last.start)
  }

  function Replay(rows: map<Key, Row>, trail: seq<Served>): map<Key, Row> {
    if trail == [] then rows else Apply(Replay(rows, trail[..|trail| - 1]), trail[|trail| - 1].page.records)
  }

  /** One of these pages hid k. */
  predicate Missed(f: Filter, trail: seq<Served>, k: Key) {
    exists i :: 0 <= i < |trail| && Hidden(trail[i].epoch, f, trail[i].start, trail[i].page.checkpoint, k)
  }

  lemma MissedStep(f: Filter, trail: seq<Served>, k: Key)
    requires trail != []
    ensures var last := trail[|trail| - 1];
            Missed(f, trail, k) <==>
              Missed(f, trail[..|trail| - 1], k) || Hidden(last.epoch, f, last.start, last.page.checkpoint, k)
  {
    hide Hidden;
    var front := trail[..|trail| - 1];
    if Missed(f, front, k) {
      var i :| 0 <= i < |front| && Hidden(front[i].epoch, f, front[i].start, front[i].page.checkpoint, k);
      assert trail[i] == front[i];
    }
    if Missed(f, trail, k) {
      var i :| 0 <= i < |trail| && Hidden(trail[i].epoch, f, trail[i].start, trail[i].page.checkpoint, k);
      assert i < |front| ==> front[i] == trail[i];
    }
  }

  lemma FollowsStable(was: Epoch, e: Epoch, f: Filter, base: nat, trail: seq<Served>, p: nat)
    requires Grows(was, e) && Follows(was, f, base, trail, p)
    ensures Follows(e, f, base, trail, p)
  {
    if trail != [] { GrowsTransitive(trail[|trail| - 1].epoch, was, e); }
  }

  lemma ExactStable(was: Epoch, e: Epoch, f: Filter, rows: map<Key, Row>, p: nat)
    requires EpochOk(was) && Grows(was, e) && p <= |was.log|
    ensures Exact(was, f, rows, p) <==> Exact(e, f, rows, p)
  {
    forall k ensures View(e, f, p, k) == View(was, f, p, k) { ViewStable(was, e, f, p, k); }
  }

  lemma StandsStable(was: Epoch, e: Epoch, f: Filter, missed: bool, row: Option<Row>, p: nat, k: Key)
    requires EpochOk(was) && Grows(was, e) && p <= |was.log|
    requires Stands(was, f, missed, row, p, k)
    ensures Stands(e, f, missed, row, p, k)
    ensures Dead(was, k) ==> Dead(e, k)
  {
    ViewStable(was, e, f, p, k);
    if Dead(was, k) {
      var d: nat :| DeletedAt(was, k, d);
      assert DeletedAt(e, k, d);
    }
  }

  /** What is left of k after all of it. */
  lemma {:induction false} TrailStands(e: Epoch, f: Filter, rows: map<Key, Row>, base: nat, trail: seq<Served>, p: nat, k: Key)
    requires Follows(e, f, base, trail, p) && Exact(e, f, rows, base)
    ensures Stands(e, f, Missed(f, trail, k), RowOf(Replay(rows, trail), k), p, k)
    ensures Missed(f, trail, k) ==> Dead(e, k)
    decreases |trail|
  {
    hide Stands, Hidden, Missed, CandidatesIn;
    if trail == [] {
      EmptyTrail(e, f, rows, base, k);
    } else {
      var last, front := trail[|trail| - 1], trail[..|trail| - 1];
      ExactStable(last.epoch, e, f, rows, base);
      TrailStands(last.epoch, f, rows, base, front, last.start, k);
      MissedStep(f, trail, k);
      PageStands(last, f, Replay(rows, front), Missed(f, front, k), k);
      StandsStable(last.epoch, e, f, Missed(f, trail, k), RowOf(Replay(rows, trail), k), p, k);
    }
  }

  lemma EmptyTrail(e: Epoch, f: Filter, rows: map<Key, Row>, p: nat, k: Key)
    requires Exact(e, f, rows, p)
    ensures !Missed(f, [], k) && Replay(rows, []) == rows && Stands(e, f, false, RowOf(rows, k), p, k)
  {
  }

  lemma PageStands(s: Served, f: Filter, rows: map<Key, Row>, missed: bool, k: Key)
    requires Scans(s, f) && (missed ==> Dead(s.epoch, k)) && Stands(s.epoch, f, missed, RowOf(rows, k), s.start, k)
    ensures var hidden := Hidden(s.epoch, f, s.start, s.page.checkpoint, k);
            && Stands(s.epoch, f, missed || hidden, RowOf(Apply(rows, s.page.records), k), s.page.checkpoint, k)
            && (missed || hidden ==> Dead(s.epoch, k))
  {
    hide Stands, CandidatesIn;
    var cs := CandidatesIn(s.epoch, f, s.page.watermark, s.start, s.page.checkpoint);
    forall i | 0 <= i < |cs| ensures SequenceOf(cs[i].item) <= s.page.watermark { assert s.page.records[i] == cs[i].item; }
    if missed { DeadIsGone(s.epoch, k); }
    ScanStands(s.epoch, f, rows, missed, s.start, s.page.checkpoint, s.page.watermark, k);
    if Hidden(s.epoch, f, s.start, s.page.checkpoint, k) {
      var _ := HiddenIsDeletedLater(s.epoch, f, s.start, s.page.checkpoint, k);
    }
  }

  /** Pages applied to an exact copy, with writers and the purger at work between any two, leave an
      exact copy if and only if every record that one of them hid is gone at the last checkpoint. */
  lemma PassExactIff(e: Epoch, f: Filter, rows: map<Key, Row>, base: nat, trail: seq<Served>, p: nat)
    requires Follows(e, f, base, trail, p) && Exact(e, f, rows, base)
    ensures Exact(e, f, Replay(rows, trail), p) <==> forall k :: Missed(f, trail, k) ==> View(e, f, p, k).None?
  {
    hide Missed, Replay, View, Follows;
    assert p <= |e.log| by { FollowsWithin(e, f, base, trail, p); }
    forall k ensures RowOf(Replay(rows, trail), k) == View(e, f, p, k) <==> (Missed(f, trail, k) ==> View(e, f, p, k).None?) {
      TrailStands(e, f, rows, base, trail, p, k);
    }
    if Exact(e, f, Replay(rows, trail), p) {
      forall k ensures Missed(f, trail, k) ==> View(e, f, p, k).None? {
        assert RowOf(Replay(rows, trail), k) == View(e, f, p, k);
      }
    }
  }

  lemma FollowsWithin(e: Epoch, f: Filter, base: nat, trail: seq<Served>, p: nat)
    requires Follows(e, f, base, trail, p)
    ensures EpochOk(e) && base <= p <= |e.log|
  {
  }

  /** What an accepted page carries: the scan of its range, with nothing from beyond it. */
  lemma AcceptedScan(e: Epoch, f: Filter, c: nat, page: Page)
    requires EpochOk(e) && PageSound(e, f, c, page) && PageExact(e, f, c, page) && OrderedEvents(page).Ok?
    ensures OrderedEvents(page).value == page.records && Scans(Served(e, c, page), f)
  {
    hide CandidatesIn, Covers;
    CoversOrdered(e, f, c, page.checkpoint, page.watermark, page.records);
    SortOfOrdered(page.records);
  }

  /** After an accepted page an exact copy is exact again, at the page's checkpoint, if and only if
      no record written in the range has been deleted since. */
  lemma ExactIffNothingHidden(e: Epoch, f: Filter, rows: map<Key, Row>, c: nat, page: Page)
    requires EpochOk(e) && PageSound(e, f, c, page) && PageExact(e, f, c, page) && Exact(e, f, rows, c)
    requires OrderedEvents(page).Ok?
    ensures Exact(e, f, Apply(rows, OrderedEvents(page).value), page.checkpoint)
            <==> forall k :: !Hidden(e, f, c, page.checkpoint, k)
  {
    hide Exact, View, EpochOk, PageSound, OrderedEvents, PageExact, Live;
    AcceptedScan(e, f, c, page);
    var trail := [Served(e, c, page)];
    assert trail[..0] == [];
    PassExactIff(e, f, rows, c, trail, page.checkpoint);
    assert Replay(rows, trail) == Apply(rows, page.records);
    forall k ensures Missed(f, trail, k) <==> Hidden(e, f, c, page.checkpoint, k) { MissedStep(f, trail, k); }
  }

  /** A finished copy that is not exact never reads on past what it has missed: some deletion that it
      lacks has been purged, no page from its checkpoint reaches that far, and one that would have
      to is refused with the error that makes the client take a snapshot. */
  lemma InexactCopyExpires(e: Epoch, current: string, f: Filter, rows: map<Key, Row>, c: nat, limit: nat, b: Budget)
    returns (k: Key, d: nat)
    requires EpochOk(e) && |e.log| <= Decimals.UINT64_MAX && 1 <= limit <= Paging.MAX_PAGE_RECORDS
    requires Faithful(e, f, rows, c, c) && !Exact(e, f, rows, c)
    ensures RowOf(rows, k) != View(e, f, c, k) && DeletedAt(e, k, d) && c < d && d !in e.retained
    ensures var answer := ListChanges(e, current, f, FromCheckpoint(c, current), limit, b);
            && (answer.Ok? ==> answer.value.checkpoint < d)
            && (d <= c + limit ==> answer == Err(CursorExpired))
  {
    hide EpochOk, Faithful, Exact, ReadWindow, PageScans, PageExact, PageSound;
    k, d := LackedDeletion(e, f, rows, c);
    var answer := ListChanges(e, current, f, FromCheckpoint(c, current), limit, b);
    if answer.Ok? { ServedPage(e, current, f, FromCheckpoint(c, current), limit, b, answer.value); }
    ExpiresIffGap(e, f, Window(|e.log|, c, current, true), limit, b);
  }

  lemma LackedDeletion(e: Epoch, f: Filter, rows: map<Key, Row>, c: nat) returns (k: Key, d: nat)
    requires Faithful(e, f, rows, c, c) && !Exact(e, f, rows, c)
    ensures RowOf(rows, k) != View(e, f, c, k) && DeletedAt(e, k, d) && c < d <= |e.log| && d !in e.retained
  {
    k :| RowOf(rows, k) != View(e, f, c, k);
    d :| DeletedAt(e, k, d) && c < d && (d <= c || d !in e.retained);
  }

  // ---------------------------------------------------------------- instances

  /** Inexact on the way, exact at the end: a record written and deleted within one pass of two
      pages. The first page leaves the change out; the second carries the deletion. */
  lemma MidPassInexact(x: Content, state: string, name: string, now: int, ttl: nat)
    returns (e: Epoch, first: Page, second: Page)
    requires ttl > 0
    ensures EpochOk(e) && e.log == [Change(1, state, 1), Change(2, state, 1), Deletion(2)] && e.retained == {1, 2, 3}
    ensures var f, b := Filter(None, None, None), Budget(i => 1, (a, b, c, d) => 0, now, ttl);
            var rows := map[1 := Row(x, state, 1, 1)];
            && ListChanges(e, name, f, FromCheckpoint(1, name), 1, b) == Ok(first) && first.nextCursor.Some?
            && Authentic(e, name, Continue(first.nextCursor.value))
            && ListChanges(e, name, f, Continue(first.nextCursor.value), 1, b) == Ok(second)
            && OrderedEvents(first) == Ok(first.records) && OrderedEvents(second) == Ok(second.records)
            && first.checkpoint == 2 && second.checkpoint == 3 && !second.hasMore
            && Exact(e, f, rows, 1) && !Exact(e, f, Apply(rows, first.records), 2)
            && Exact(e, f, Apply(Apply(rows, first.records), second.records), 3)
  {
    hide ListChanges, OrderedEvents, Exact;
    var f, b := Filter(None, None, None), Budget(i => 1, (a, b, c, d) => 0, now, ttl);
    e := Epoch([Change(1, state, 1), Change(2, state, 1), Deletion(2)], map[1 := x, 2 := x], {1, 2, 3});
    first := Page([], Some(Cursor(name, Changes, f, 3, At(2), now + ttl)), 2, true, 3, name);
    second := Page([Removal(2, 3)], None, 3, false, 3, name);
    FirstRead(e, x, state, name, b);
    SecondRead(e, x, state, name, b);
    OmittedRows(e, x, state);
    CaughtUp(e, x, state);
    NothingToOrder(first);
    OneToOrder(second);
  }

  lemma FirstRead(e: Epoch, x: Content, state: string, name: string, b: Budget)
    requires e == Epoch([Change(1, state, 1), Change(2, state, 1), Deletion(2)], map[1 := x, 2 := x], {1, 2, 3})
    requires forall a, f, w, p :: b.overheadOf(a, f, w, p) == 0
    ensures EpochOk(e)
    ensures var f := Filter(None, None, None);
            ListChanges(e, name, f, FromCheckpoint(1, name), 1, b)
            == Ok(Page([], Some(Cursor(name, Changes, f, 3, At(2), b.now + b.ttl)), 2, true, 3, name))
  {
    var f, w := Filter(None, None, None), Window(3, 1, name, true);
    assert Select(e.retained, 1, 3, 1) == [2] + Select(e.retained, 2, 3, 0);
    assert LatestDelete(e, 2, 3) == Some(3);
    assert Version(e, 3, 2) == None;
    assert Collect(e, f, 3, [2]) == [];
    var cursor := Cursor(name, Changes, f, 3, At(2), b.now + b.ttl);
    assert ReadWindow(e, f, w, 1, b) == Ok(Page([], Some(cursor), 2, true, 3, name));
  }

  lemma SecondRead(e: Epoch, x: Content, state: string, name: string, b: Budget)
    requires e == Epoch([Change(1, state, 1), Change(2, state, 1), Deletion(2)], map[1 := x, 2 := x], {1, 2, 3})
    requires (forall a, f, w, p :: b.overheadOf(a, f, w, p) == 0) && (forall i :: b.sizeOf(i) == 1) && b.ttl > 0
    ensures EpochOk(e)
    ensures var f := Filter(None, None, None);
            var req := Continue(Cursor(name, Changes, f, 3, At(2), b.now + b.ttl));
            && Authentic(e, name, req)
            && ListChanges(e, name, f, req, 1, b) == Ok(Page([Removal(2, 3)], None, 3, false, 3, name))
  {
    var f, w := Filter(None, None, None), Window(3, 2, name, false);
    assert Select(e.retained, 2, 3, 1) == [3] + Select(e.retained, 3, 3, 0);
    var cs := [Candidate(Removal(2, 3), 3)];
    assert CandidateAt(e, f, 3, 3) == Some(cs[0]);
    assert Collect(e, f, 3, []) == [] && [3][..0] == [];
    assert Collect(e, f, 3, [3]) == cs;
    OneFits(ItemSizes(cs, b.sizeOf));
    assert ItemsOf(cs) == [Removal(2, 3)];
    assert ReadWindow(e, f, w, 1, b) == Ok(Page([Removal(2, 3)], None, 3, false, 3, name));
  }

  lemma CaughtUp(e: Epoch, x: Content, state: string)
    requires e == Epoch([Change(1, state, 1), Change(2, state, 1), Deletion(2)], map[1 := x, 2 := x], {1, 2, 3})
    ensures var f, rows := Filter(None, None, None), map[1 := Row(x, state, 1, 1)];
            Exact(e, f, Apply(Apply(rows, []), [Removal(2, 3)]), 3)
  {
    var rows := map[1 := Row(x, state, 1, 1)];
    assert [Removal(2, 3)][..0] == [];
    assert Apply(Apply(rows, []), [Removal(2, 3)]) == rows;
    assert Version(e, 3, 1) == Version(e, 2, 1) == Version(e, 1, 1) == Some(Row(x, state, 1, 1));
    assert Version(e, 3, 2) == None;
  }

  lemma OneToOrder(page: Page)
    requires |page.records| == 1 && SequenceOf(page.records[0]) <= page.checkpoint
    ensures OrderedEvents(page) == Ok(page.records)
  {
    SortOfOrdered(page.records);
  }


  /** It happens: a record written in the range, deleted after the pass began, with the deletion
      already purged. The page is served, passes every check, and omits the record. */
  lemma HiddenRecordServed(x: Content, state: string, name: string, sizeOf: Item -> nat, now: int, ttl: nat)
    returns (e: Epoch, page: Page)
    ensures EpochOk(e) && e.log == [Change(1, state, 1), Change(2, state, 1), Deletion(2)] && e.retained == {1, 2}
    ensures var f := Filter(None, None, None);
            var cursor := Cursor(name, Changes, f, 2, At(1), now + 1);
            var rows := map[1 := Row(x, state, 1, 1)];
            && Authentic(e, name, Continue(cursor))
            && ListChanges(e, name, f, Continue(cursor), 1, Budget(sizeOf, (a, b, c, d) => 0, now, ttl)) == Ok(page)
            && PageShape(page) && OrderedEvents(page).Ok? && !page.hasMore && page.checkpoint == 2
            && Exact(e, f, rows, 1) && !Exact(e, f, Apply(rows, OrderedEvents(page).value), 2)
  {
    hide ListChanges, OrderedEvents, Exact;
    e := Epoch([Change(1, state, 1), Change(2, state, 1), Deletion(2)], map[1 := x, 2 := x], {1, 2});
    page := Page([], None, 2, false, 2, name);
    OmittedRead(e, x, state, name, Budget(sizeOf, (a, b, c, d) => 0, now, ttl));
    OmittedRows(e, x, state);
    NothingToOrder(page);
  }

  lemma NothingToOrder(page: Page)
    requires page.records == []
    ensures OrderedEvents(page) == Ok([])
  {
  }

  lemma OmittedRead(e: Epoch, x: Content, state: string, name: string, b: Budget)
    requires e == Epoch([Change(1, state, 1), Change(2, state, 1), Deletion(2)], map[1 := x, 2 := x], {1, 2})
    requires forall a, f, w, p :: b.overheadOf(a, f, w, p) == 0
    ensures EpochOk(e)
    ensures var f := Filter(None, None, None);
            var req := Continue(Cursor(name, Changes, f, 2, At(1), b.now + 1));
            Authentic(e, name, req) && ListChanges(e, name, f, req, 1, b) == Ok(Page([], None, 2, false, 2, name))
  {
    var f, w := Filter(None, None, None), Window(2, 1, name, false);
    assert Select(e.retained, 1, 2, 1) == [2];
    LatestDeleteIs(e, 2, 3);
    assert Version(e, 3, 2) == None;
    assert Collect(e, f, 2, [2]) == [];
    assert ReadWindow(e, f, w, 1, b) == Ok(Page([], None, 2, false, 2, name));
  }

  lemma OmittedRows(e: Epoch, x: Content, state: string)
    requires e.log == [Change(1, state, 1), Change(2, state, 1), Deletion(2)] && e.content == map[1 := x, 2 := x]
    ensures var f, rows := Filter(None, None, None), map[1 := Row(x, state, 1, 1)];
            Exact(e, f, rows, 1) && !Exact(e, f, Apply(rows, []), 2)
  {
    var f, rows := Filter(None, None, None), map[1 := Row(x, state, 1, 1)];
    assert Version(e, 1, 1) == Some(Row(x, state, 1, 1)) && Version(e, 1, 2) == None;
    assert RowOf(rows, 2) == None && View(e, f, 2, 2) == Some(Row(x, state, 1, 2));
  }
}
