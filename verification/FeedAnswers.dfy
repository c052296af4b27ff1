/** When a read of the change feed or of a snapshot is answered, and with which error it is refused
    otherwise: for every request, every code exactly. */
module FeedAnswers {
  import opened Wrappers
  import opened History
  import opened Feeds
  import opened FeedSafety
  import opened SnapshotFeed
  import Decimals
  import Paging

  /** A change row is retained, and none at or before the one after p. */
  predicate LostBehind(retained: set<nat>, p: nat) {
    (exists s :: s in retained) && forall s | s in retained :: s > p + 1
  }

  lemma {:induction false} EarliestIs(retained: set<nat>, lo: nat, hi: nat)
    ensures match Earliest(retained, lo, hi)
            case Some(s) => s in retained && lo <= s && forall q | lo <= q < s :: q !in retained
            case None => forall q | lo <= q <= hi :: q !in retained
    decreases hi - lo
  {
    if lo !in retained && lo < hi { EarliestIs(retained, lo + 1, hi); }
  }

  /** The least retained sequence, as far as the retention check looks at it. */
  lemma EarliestMeans(e: Epoch, p: nat)
    requires EpochOk(e)
    ensures Earliest(e.retained, 1, |e.log|).None? <==> e.retained == {}
    ensures Earliest(e.retained, 1, |e.log|).Some? && Earliest(e.retained, 1, |e.log|).value > p + 1
            <==> LostBehind(e.retained, p)
  {
    EarliestIs(e.retained, 1, |e.log|);
    match Earliest(e.retained, 1, |e.log|)
    case Some(s) =>
      assert s in e.retained;
      forall q | q in e.retained ensures q >= s { assert 1 <= q <= |e.log|; }
    case None =>
      if q :| q in e.retained { assert false; }
  }

  /** A position that is checked is given up when a sequence its page would answer for is gone, when
      it lies beyond the watermark, or, at the watermark, when the log has been purged past it. */
  predicate Lost(e: Epoch, p: nat, w: nat, limit: nat) {
    || p > w
    || (p < w && !Whole(e.retained, p, Least(w, p + limit)))
    || (p == w && LostBehind(e.retained, p))
  }

  lemma SelectEmptyAt(retained: set<nat>, p: nat, w: nat, limit: nat)
    requires p >= w
    ensures Select(retained, p, w, limit) == []
  {
  }

  /** The read proper: which error, if any. */
  lemma WindowAnswered(e: Epoch, f: Filter, w: Window, limit: nat, b: Budget)
    requires EpochOk(e) && w.watermark <= |e.log| && limit >= 1
    ensures var r := ReadWindow(e, f, w, limit, b);
            var checked := w.position > 0 || w.explicitCheckpoint;
            && (r == Err(Internal) <==> checked && w.position >= Decimals.UINT64_MAX && e.retained != {})
            && (r == Err(CursorExpired) <==>
                  checked && !(w.position >= Decimals.UINT64_MAX && e.retained != {}) && Lost(e, w.position, w.watermark, limit))
            && (r.Err? ==> r.error in {Internal, CursorExpired, RequestTooLarge})
  {
    hide Earliest, Select, LostBehind, Whole, AssembleChangePage, Collect;
    EarliestMeans(e, w.position);
    SelectSound(e.retained, w.position, w.watermark, limit);
    AssemblyErrors(e, f, w, limit, b);
    if w.position > 0 || w.explicitCheckpoint {
      if w.position >= w.watermark { SelectEmptyAt(e.retained, w.position, w.watermark, limit); }
      else { GapCheck(e, w, limit); }
    }
  }

  lemma GapCheck(e: Epoch, w: Window, limit: nat)
    requires EpochOk(e) && w.position < w.watermark && limit >= 1 && (w.position > 0 || w.explicitCheckpoint)
    ensures GapFree(w, Select(e.retained, w.position, w.watermark, limit), limit)
            <==> Whole(e.retained, w.position, Least(w.watermark, w.position + limit))
    ensures e.retained == {} || LostBehind(e.retained, w.position) ==>
              !Whole(e.retained, w.position, Least(w.watermark, w.position + limit))
  {
    GapFreeIffRetained(e.retained, w, limit);
    if Whole(e.retained, w.position, Least(w.watermark, w.position + limit)) {
      assert w.position + 1 in e.retained;
    }
  }

  lemma AssemblyErrors(e: Epoch, f: Filter, w: Window, limit: nat, b: Budget)
    requires EpochOk(e) && w.watermark <= |e.log|
    ensures var rows := Select(e.retained, w.position, w.watermark, limit);
            (forall s | s in rows :: s in e.retained && w.position < s <= w.watermark)
    ensures forall cs, last :: var r := AssembleChangePage(cs, w.position, last, limit, w.epoch, f, w.watermark, b);
                               r.Err? ==> r.error == RequestTooLarge
  {
    SelectSound(e.retained, w.position, w.watermark, limit);
  }

  /** A read from a checkpoint. */
  lemma CheckpointAnswered(e: Epoch, current: string, f: Filter, c: nat, epoch: string, limit: nat, b: Budget)
    requires EpochOk(e) && |e.log| < Decimals.UINT64_MAX && 1 <= limit <= Paging.MAX_PAGE_RECORDS
    ensures var r := ListChanges(e, current, f, FromCheckpoint(c, epoch), limit, b);
            && (r == Err(InvalidCursor) <==> c > Decimals.UINT64_MAX || (epoch == current && c > |e.log|))
            && (r == Err(EpochChanged) <==> c <= Decimals.UINT64_MAX && epoch != current)
            && (r == Err(CursorExpired) <==>
                  epoch == current && c < |e.log| && !Whole(e.retained, c, Least(|e.log|, c + limit)))
            && (r.Err? ==> r.error in {InvalidCursor, EpochChanged, CursorExpired, RequestTooLarge})
  {
    hide ReadWindow, Whole;
    if c <= |e.log| {
      WindowAnswered(e, f, Window(|e.log|, c, current, true), limit, b);
      if c == |e.log| { assert !LostBehind(e.retained, c); }
    }
  }

  /** A continuation, whatever its cursor holds. */
  lemma ContinuationAnswered(e: Epoch, current: string, f: Filter, cursor: Cursor, limit: nat, b: Budget)
    requires EpochOk(e) && |e.log| < Decimals.UINT64_MAX && 1 <= limit <= Paging.MAX_PAGE_RECORDS
    requires Authentic(e, current, Continue(cursor))
    ensures var r := ListChanges(e, current, f, Continue(cursor), limit, b);
            var timely := cursor.expiry > b.now;
            var ours := cursor.feed == Changes && cursor.filter == f
                        && cursor.position.At? && cursor.position.sequence <= Decimals.UINT64_MAX;
            var p := if cursor.position.At? then cursor.position.sequence else 0;
            && (r == Err(EpochChanged) <==> timely && cursor.epoch != current)
            && (r == Err(InvalidCursor) <==> timely && cursor.epoch == current && !ours)
            && (r == Err(Internal) <==>
                  timely && cursor.epoch == current && ours && p == Decimals.UINT64_MAX && e.retained != {})
            && (r == Err(CursorExpired) <==>
                  !timely || (cursor.epoch == current && ours && p > 0 && !(p == Decimals.UINT64_MAX && e.retained != {})
                              && Lost(e, p, cursor.watermark, limit)))
            && (r.Err? ==> r.error in {EpochChanged, InvalidCursor, Internal, CursorExpired, RequestTooLarge})
  {
    hide ReadWindow, Lost;
    if cursor.epoch == current && cursor.position.At? {
      WindowAnswered(e, f, Window(cursor.watermark, cursor.position.sequence, cursor.epoch, false), limit, b);
    }
  }

  /** A read from the start. */
  lemma StartAnswered(e: Epoch, current: string, f: Filter, limit: nat, b: Budget)
    requires EpochOk(e) && 1 <= limit <= Paging.MAX_PAGE_RECORDS
    ensures var r := ListChanges(e, current, f, FromStart, limit, b); r.Err? ==> r.error == RequestTooLarge
  {
    hide ReadWindow, Lost;
    WindowAnswered(e, f, Window(|e.log|, 0, current, false), limit, b);
  }

  /** The page fits as far as some candidate that, with the rest of a page, is more than 8 MiB alone. */
  ghost predicate LooksAtOversized(cs: seq<Candidate>, sizeOf: Item -> nat, overhead: nat, limit: nat) {
    exists i :: 0 <= i < |cs| && Paging.Fits(ItemSizes(cs, sizeOf), overhead, Paging.MAX_PAGE_BYTES, limit, i)
                && sizeOf(cs[i].item) + overhead + 2 > 8 * 1024 * 1024
  }

  /** Of the reads that are not refused, exactly those are too large that look at a record too large
      for a page of its own: one of those that fit the page, or the first one past them. */
  lemma TooLargeIff(e: Epoch, f: Filter, w: Window, limit: nat, b: Budget)
    requires EpochOk(e) && w.watermark <= |e.log| && 1 <= limit <= Paging.MAX_PAGE_RECORDS
    requires ValidRows(e, Select(e.retained, w.position, w.watermark, limit))
    requires ReadWindow(e, f, w, limit, b) !in {Err(Internal), Err(CursorExpired)}
    ensures var cs := Collect(e, f, w.watermark, Select(e.retained, w.position, w.watermark, limit));
            var overhead := b.overheadOf(w.epoch, f, w.watermark, Some(At(w.watermark)));
            ReadWindow(e, f, w, limit, b) == Err(RequestTooLarge) <==> LooksAtOversized(cs, b.sizeOf, overhead, limit)
  {
    hide Earliest, GapFree, AssembleChangePage, Paging.FitCount, Collect, Select, LooksAtOversized;
    var rows := Select(e.retained, w.position, w.watermark, limit);
    var cs := Collect(e, f, w.watermark, rows);
    AssembledIff(cs, w.position, if rows == [] then None else Some(rows[|rows| - 1]), limit, w.epoch, f, w.watermark, b);
    OversizeIff(cs, b.sizeOf, b.overheadOf(w.epoch, f, w.watermark, Some(At(w.watermark))), limit);
  }

  lemma AssembledIff(cs: seq<Candidate>, previous: nat, last: Option<nat>, limit: nat, epoch: string, f: Filter, watermark: nat,
                     b: Budget)
    requires 1 <= limit <= Paging.MAX_PAGE_RECORDS
    ensures AssembleChangePage(cs, previous, last, limit, epoch, f, watermark, b) == Err(RequestTooLarge)
            <==> Paging.FitCount(ItemSizes(cs, b.sizeOf), limit, b.overheadOf(epoch, f, watermark, Some(At(watermark))),
                                 Paging.MAX_PAGE_BYTES, 0).Err?
    ensures AssembleChangePage(cs, previous, last, limit, epoch, f, watermark, b) !in {Err(Internal), Err(CursorExpired)}
  {
    hide Paging.FitCount;
  }

  lemma OversizeIff(cs: seq<Candidate>, sizeOf: Item -> nat, overhead: nat, limit: nat)
    ensures Paging.FitCount(ItemSizes(cs, sizeOf), limit, overhead, Paging.MAX_PAGE_BYTES, 0).Err?
            <==> LooksAtOversized(cs, sizeOf, overhead, limit)
  {
    var sizes := ItemSizes(cs, sizeOf);
    Paging.FitCountRejects(sizes, limit, overhead, Paging.MAX_PAGE_BYTES, 0);
    forall i | 0 <= i < |cs|
      ensures Paging.Oversize(sizes[i], overhead, Paging.MAX_PAGE_BYTES)
              <==> sizeOf(cs[i].item) + overhead + 2 > Paging.MAX_PAGE_BYTES
    {
    }
  }

  /** A page is as full as it may be: of the candidates its scan yields it takes the longest prefix within
      the limit and the byte bound, whatever they cost. */
  lemma FullestPage(e: Epoch, f: Filter, w: Window, limit: nat, b: Budget, page: Page, m: nat)
    requires EpochOk(e) && w.watermark <= |e.log| && 1 <= limit <= Paging.MAX_PAGE_RECORDS
    requires ValidRows(e, Select(e.retained, w.position, w.watermark, limit)) && ReadWindow(e, f, w, limit, b) == Ok(page)
    ensures var cs := Collect(e, f, w.watermark, Select(e.retained, w.position, w.watermark, limit));
            var overhead := b.overheadOf(w.epoch, f, w.watermark, Some(At(w.watermark)));
            var n := |page.records|;
            && n <= |cs| && page.records == ItemsOf(cs[..n])
            && Paging.Fits(ItemSizes(cs, b.sizeOf), overhead, 8 * 1024 * 1024, limit, n)
            && (Paging.Fits(ItemSizes(cs, b.sizeOf), overhead, 8 * 1024 * 1024, limit, m) ==> m <= n)
  {
    hide Earliest, GapFree, Paging.FitCount;
    var cs := Collect(e, f, w.watermark, Select(e.retained, w.position, w.watermark, limit));
    var overhead := b.overheadOf(w.epoch, f, w.watermark, Some(At(w.watermark)));
    Paging.FitCountLongest(ItemSizes(cs, b.sizeOf), limit, overhead, Paging.MAX_PAGE_BYTES, 0, m);
    assert cs[..|cs|] == cs;
  }

  /** The poll of a replica that has caught up gets an empty last page. */
  lemma CaughtUpIsAnswered(e: Epoch, current: string, f: Filter, limit: nat, b: Budget)
    requires EpochOk(e) && |e.log| < Decimals.UINT64_MAX && 1 <= limit <= Paging.MAX_PAGE_RECORDS
    ensures ListChanges(e, current, f, FromCheckpoint(|e.log|, current), limit, b)
            == Ok(Page([], None, |e.log|, false, |e.log|, current))
  {
    var n := |e.log|;
    EarliestMeans(e, n);
    assert !LostBehind(e.retained, n);
    SelectEmptyAt(e.retained, n, n, limit);
    assert Collect(e, f, n, []) == [];
    assert ReadWindow(e, f, Window(n, n, current, true), limit, b) == Ok(Page([], None, n, false, n, current));
  }

  // ---------------------------------------------------------------- snapshots

  /** What is served may be served: the snapshot is in force, and every record on the page still
      lives. */
  lemma ServedMembersLive(e: Epoch, s: Snapshot, cursor: Option<Cursor>, limit: nat, b: Budget, page: Page)
    requires limit >= 1 && ListSnapshotPage(e, s, cursor, limit, b) == Ok(page)
    ensures s.active && b.now < s.expiry
    ensures forall i | 0 <= i < |page.records| ::
              page.records[i].Body? && page.records[i].key in e.content && Version(e, |e.log|, page.records[i].key).Some?
  {
    hide Paging.FitCount, MembersAfter;
    var window := WindowOf(Remaining(s, cursor), limit);
    SnapshotWindow(s, window, b, limit, page);
  }

  /** A snapshot page, too, is as full as it may be, and continues exactly where it ends. */
  lemma FullestSnapshotPage(e: Epoch, s: Snapshot, cursor: Option<Cursor>, limit: nat, b: Budget, page: Page, m: nat)
    requires 1 <= limit <= Paging.MAX_PAGE_RECORDS && ListSnapshotPage(e, s, cursor, limit, b) == Ok(page)
    ensures var rest := if cursor.Some? then MembersAfter(s.members, cursor.value.position) else s.members;
            var window := if |rest| > limit then rest[..limit + 1] else rest;
            var sizes, n := MemberSizes(window, b.sizeOf), |page.records|;
            && n <= |window| && page.records == Bodies(window[..n])
            && Paging.Fits(sizes, OverheadOf(s, window, b), 8 * 1024 * 1024, limit, n)
            && (Paging.Fits(sizes, OverheadOf(s, window, b), 8 * 1024 * 1024, limit, m) ==> m <= n)
            && (page.hasMore <==> n < |rest|)
  {
    hide Paging.FitCount, MembersAfter, Live;
    var window := WindowOf(Remaining(s, cursor), limit);
    Paging.FitCountLongest(MemberSizes(window, b.sizeOf), limit, OverheadOf(s, window, b), Paging.MAX_PAGE_BYTES, 0, m);
  }

  /** A cursor this snapshot handed out, or could have. */
  predicate Fitting(s: Snapshot, c: Cursor) {
    && c.feed == Snapshots && c.filter == s.filter && c.watermark == s.watermark
    && (c.position.At? ==> c.position.sequence == 0)
  }

  /** One of the members the page would look at has been deleted. */
  predicate MemberLost(e: Epoch, s: Snapshot, cursor: Option<Cursor>, limit: nat) {
    var rest := if cursor.Some? then MembersAfter(s.members, cursor.value.position) else s.members;
    exists i :: 0 <= i < |rest| && i <= limit && !(rest[i].key in e.content && Version(e, |e.log|, rest[i].key).Some?)
  }

  /** A request for a snapshot page: every error exactly, and no other. */
  lemma SnapshotAnswered(e: Epoch, s: Snapshot, cursor: Option<Cursor>, limit: nat, b: Budget)
    requires 1 <= limit <= Paging.MAX_PAGE_RECORDS
    ensures var r := ListSnapshotPage(e, s, cursor, limit, b);
            var timely := cursor.Some? ==> cursor.value.expiry > b.now;
            var known := cursor.Some? ==> cursor.value.epoch == s.epoch;
            var fits := cursor.Some? ==> Fitting(s, cursor.value);
            && (r == Err(EpochChanged) <==> timely && !known)
            && (r == Err(InvalidCursor) <==> timely && known && !fits)
            && (r == Err(CursorExpired) <==>
                  !timely || (known && fits && (!s.active || s.expiry <= b.now || MemberLost(e, s, cursor, limit))))
            && (r.Err? ==> r.error in {EpochChanged, InvalidCursor, CursorExpired, RequestTooLarge})
  {
    hide Paging.FitCount, MembersAfter, Live, AssembleSnapshotPage;
    var window := WindowOf(Remaining(s, cursor), limit);
    LostInWindow(e, s, cursor, limit);
    SnapshotAssembled(s, window, MemberSizes(window, b.sizeOf), OverheadOf(s, window, b), limit, b.now + b.ttl);
  }

  lemma LostInWindow(e: Epoch, s: Snapshot, cursor: Option<Cursor>, limit: nat)
    ensures var window := WindowOf(Remaining(s, cursor), limit);
            MemberLost(e, s, cursor, limit) <==> exists i :: 0 <= i < |window| && !Live(e, window[i].key)
  {
    var rest := Remaining(s, cursor);
    var window := WindowOf(rest, limit);
    if i :| 0 <= i < |window| && !Live(e, window[i].key) {
      assert window[i] == rest[i] && i <= limit;
      assert MemberLost(e, s, cursor, limit);
    }
    if MemberLost(e, s, cursor, limit) {
      var i :| 0 <= i < |rest| && i <= limit && !(rest[i].key in e.content && Version(e, |e.log|, rest[i].key).Some?);
      assert window[i] == rest[i] && !Live(e, window[i].key);
    }
  }

  /** A page can only be too large: there is always a record to continue after. */
  lemma SnapshotAssembled(s: Snapshot, window: seq<Member>, sizes: seq<nat>, overhead: nat, limit: nat, expiry: int)
    requires |sizes| == |window|
    ensures var r := AssembleSnapshotPage(s, window, sizes, overhead, limit, expiry);
            r.Err? ==> r.error == RequestTooLarge
  {
    hide Paging.FitCount;
    var count := Paging.BoundedCount(limit, Paging.MAX_PAGE_RECORDS);
    if window != [] && Paging.FitCount(sizes, count, overhead, Paging.MAX_PAGE_BYTES, 0).Ok? {
      Paging.FitCountNonEmpty(sizes, count, overhead, Paging.MAX_PAGE_BYTES);
    }
  }
}
