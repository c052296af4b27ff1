/** The feeds' pages as bytes: the costs the protocol admits records by are those of the real
    serialization, and no page goes out above the limit. */
module PageBytes {
  import opened Wrappers
  import opened History
  import opened Feeds
  import opened FeedSafety
  import opened SnapshotFeed
  import Json
  import Paging
  import Cursors

  /** How pages are spelled: the clock, time text, the marker overheads are measured with, the
      cursor token for an epoch, filter, watermark and position, and each item's JSON. */
  datatype Wire = Wire(now: int, ttl: nat, serverTime: string, marker: string,
                       token: (string, Filter, nat, Position) -> string, itemJson: Item -> Json.Json)

  /** No cursor of a pass is longer than the one at its watermark, and the cursors of a snapshot
      are all of one length. */
  ghost predicate TokensBudgeted(wire: Wire) {
    && (forall epoch, f, w, p: nat | p <= w ::
          Cursors.Budgeted(wire.token(epoch, f, w, At(p)), wire.token(epoch, f, w, At(w))))
    && (forall epoch, f, w, t, k, u, l ::
          Cursors.Budgeted(wire.token(epoch, f, w, After(t, k)), wire.token(epoch, f, w, After(u, l))))
  }

  function ItemJsons(items: seq<Item>, wire: Wire): (js: seq<Json.Json>)
    ensures |js| == |items|
    ensures forall i | 0 <= i < |items| :: js[i] == wire.itemJson(items[i])
  {
    seq(|items|, i requires 0 <= i < |items| => wire.itemJson(items[i]))
  }

  function TokenAt(epoch: string, f: Filter, watermark: nat, at: Option<Position>, wire: Wire): Option<string> {
    if at.Some? then Some(wire.token(epoch, f, watermark, at.value)) else None
  }

  /** The overhead a page is budgeted with: at the watermark, with a cursor at a position and more
      to come, or with neither. */
  function Overhead(epoch: string, f: Filter, watermark: nat, at: Option<Position>, wire: Wire): (bytes: nat) {
    var token := TokenAt(epoch, f, watermark, at, wire);
    Paging.OverheadExact(wire.marker, Json.Null, token, watermark, at.Some?, watermark, epoch, wire.serverTime);
    Paging.OverheadWith(wire.marker, token, watermark, at.Some?, watermark, epoch, wire.serverTime)
  }

  /** The costs assembleChangePage and assembleSnapshotPage work with. */
  function Costs(wire: Wire): Budget {
    Budget(i => Json.JsonBytes(wire.itemJson(i)), (epoch, f, w, at) => Overhead(epoch, f, w, at, wire), wire.now, wire.ttl)
  }

  /** A page as it is sent. */
  function PageText(page: Page, f: Filter, wire: Wire): Json.Json {
    Paging.PageJson(Json.Arr(ItemJsons(page.records, wire)),
                    TokenAt(page.epoch, f, page.watermark,
                            if page.nextCursor.Some? then Some(page.nextCursor.value.position) else None, wire),
                    page.checkpoint, page.hasMore, page.watermark, page.epoch, wire.serverTime)
  }

  /** The cursor a page goes out with, if any, is no longer than the one it was budgeted with. */
  ghost predicate WithinBudget(page: Page, f: Filter, budget: Position, wire: Wire) {
    && page.checkpoint <= page.watermark && (page.hasMore <==> page.nextCursor.Some?)
    && var token := wire.token(page.epoch, f, page.watermark, budget);
       Cursors.Budgeted(token, token)
       && (page.nextCursor.Some? ==>
             Cursors.Budgeted(wire.token(page.epoch, f, page.watermark, page.nextCursor.value.position), token))
  }

  /** Whatever cursor, checkpoint and continuation flag a page goes out with, its text is no
      longer than the budget its records were admitted against. */
  lemma EmittedWithinBudget(page: Page, f: Filter, budget: Position, wire: Wire)
    requires WithinBudget(page, f, budget, wire)
    ensures Json.JsonBytes(PageText(page, f, wire))
            <= Paging.Total(Json.Sizes(ItemJsons(page.records, wire)),
                            Overhead(page.epoch, f, page.watermark, Some(budget), wire))
  {
    var at := if page.nextCursor.Some? then Some(page.nextCursor.value.position) else None;
    Paging.SentWithinBudget(wire.marker, ItemJsons(page.records, wire), wire.token(page.epoch, f, page.watermark, budget),
                            TokenAt(page.epoch, f, page.watermark, at, wire),
                            page.checkpoint, page.watermark, page.epoch, wire.serverTime);
  }

  /** A page whose records were admitted against its budget is within the limit. */
  lemma AdmittedWithinLimit(page: Page, f: Filter, budget: Position, wire: Wire)
    requires WithinBudget(page, f, budget, wire)
    requires var overhead := Overhead(page.epoch, f, page.watermark, Some(budget), wire);
             if page.records == [] then overhead + 2 <= Paging.MAX_PAGE_BYTES
             else Paging.Total(Json.Sizes(ItemJsons(page.records, wire)), overhead) <= Paging.MAX_PAGE_BYTES
    ensures Json.JsonBytes(PageText(page, f, wire)) <= Paging.MAX_PAGE_BYTES
  {
    hide Overhead, PageText, WithinBudget;
    EmittedWithinBudget(page, f, budget, wire);
  }

  // ---------------------------------------------------------------- changes

  /** The records a page was assembled with fit the budget it was assembled against. */
  lemma AssembledFits(cs: seq<Candidate>, sizes: seq<nat>, overhead: nat, previous: nat, last: Option<nat>, limit: int,
                      epoch: string, f: Filter, watermark: nat, expiry: int, page: Page)
    requires |sizes| == |cs|
    requires AssembleSized(cs, sizes, overhead, previous, last, limit, epoch, f, watermark, expiry) == Ok(page)
    ensures page.watermark == watermark && page.epoch == epoch
    ensures |page.records| <= |cs| && page.records == ItemsOf(cs[..|page.records|])
    ensures page.records == [] || Paging.Total(sizes[..|page.records|], overhead) <= Paging.MAX_PAGE_BYTES
  {
    var count := Paging.BoundedCount(limit, Paging.MAX_PAGE_RECORDS);
    Paging.FitCountLongest(sizes, count, overhead, Paging.MAX_PAGE_BYTES, 0, 0);
    assert cs[..|cs|] == cs;
  }

  lemma PrefixSizes(cs: seq<Candidate>, n: nat, wire: Wire)
    requires n <= |cs|
    ensures Json.Sizes(ItemJsons(ItemsOf(cs[..n]), wire)) == ItemSizes(cs, i => Json.JsonBytes(wire.itemJson(i)))[..n]
  {
  }

  lemma AssembledWithinLimit(cs: seq<Candidate>, previous: nat, last: Option<nat>, limit: int, epoch: string, f: Filter,
                             watermark: nat, wire: Wire, page: Page)
    requires AssembleChangePage(cs, previous, last, limit, epoch, f, watermark, Costs(wire)) == Ok(page)
    requires WithinBudget(page, f, At(page.watermark), wire)
    requires page.records != [] || Overhead(epoch, f, watermark, Some(At(watermark)), wire) + 2 <= Paging.MAX_PAGE_BYTES
    ensures Json.JsonBytes(PageText(page, f, wire)) <= Paging.MAX_PAGE_BYTES
  {
    hide Overhead, PageText, WithinBudget;
    var overhead := Overhead(epoch, f, watermark, Some(At(watermark)), wire);
    var sizes := ItemSizes(cs, i => Json.JsonBytes(wire.itemJson(i)));
    AssembledFits(cs, sizes, overhead, previous, last, limit, epoch, f, watermark, wire.now + wire.ttl, page);
    PrefixSizes(cs, |page.records|, wire);
    AdmittedWithinLimit(page, f, At(watermark), wire);
  }

  lemma ContinuedWithinBudget(page: Page, f: Filter, c: nat, wire: Wire)
    requires TokensBudgeted(wire) && Continues(f, c, page)
    ensures WithinBudget(page, f, At(page.watermark), wire)
  {
  }

  /** Whatever is asked of the feed, with real costs: a page with records is within the byte limit
      as sent, and one without is no larger than its envelope. */
  lemma PageWithinLimit(e: Epoch, current: string, f: Filter, req: Request, limit: nat, wire: Wire, page: Page)
    requires EpochOk(e) && Authentic(e, current, req) && 1 <= limit <= Paging.MAX_PAGE_RECORDS
    requires TokensBudgeted(wire) && ListChanges(e, current, f, req, limit, Costs(wire)) == Ok(page)
    requires page.records != []
             || Overhead(page.epoch, f, page.watermark, Some(At(page.watermark)), wire) + 2 <= Paging.MAX_PAGE_BYTES
    ensures Json.JsonBytes(PageText(page, f, wire)) <= Paging.MAX_PAGE_BYTES
  {
    hide PageText, Overhead, AssembleChangePage, Costs, TokensBudgeted, WithinBudget, PageScans, PageExact, PageSound,
      Continues, Earliest, GapFree, Collect, Select;
    ServedPage(e, current, f, req, limit, Costs(wire), page);
    ContinuedWithinBudget(page, f, StartOf(req), wire);
    var w := PrepareChangesRead(req, current, |e.log|, f, Costs(wire).now).value;
    SelectSound(e.retained, w.position, w.watermark, limit);
    var rows := Select(e.retained, w.position, w.watermark, limit);
    assert forall i | 0 <= i < |rows| :: rows[i] in rows;
    AssembledWithinLimit(Collect(e, f, w.watermark, rows), w.position,
                         if rows == [] then None else Some(rows[|rows| - 1]), limit, w.epoch, f, w.watermark, wire, page);
  }

  // ---------------------------------------------------------------- snapshots

  /** A snapshot page is budgeted with the position of the last member looked at and sent with that
      of the last one admitted; it is within the limit all the same. */
  lemma SnapshotPageWithinLimit(e: Epoch, s: Snapshot, cursor: Option<Cursor>, limit: nat, wire: Wire, page: Page)
    requires limit >= 1 && TokensBudgeted(wire) && ListSnapshotPage(e, s, cursor, limit, Costs(wire)) == Ok(page)
    requires forall at: Option<Position> :: at.None? || at.value.After? ==>
                            Overhead(s.epoch, s.filter, s.watermark, at, wire) + 2 <= Paging.MAX_PAGE_BYTES
    ensures Json.JsonBytes(PageText(page, s.filter, wire)) <= Paging.MAX_PAGE_BYTES
  {
    hide PageText, Overhead, TokensBudgeted, WithinBudget, Live, MembersAfter, Refusal, Costs, OverheadOf, MemberSizes,
      AssembleSnapshotPage, Remaining;
    var window := WindowOf(Remaining(s, cursor), limit);
    SnapshotWindow(s, window, Costs(wire), limit, page);
    SnapshotFits(s, window, limit, wire, page);
    OverheadOfCosts(s, window, wire);
    if window == [] {
      EmptySnapshotText(s, page, wire);
    } else {
      SnapshotWithinBudget(s, window, page, wire);
      AdmittedWithinLimit(page, s.filter, PositionOf(window[|window| - 1]), wire);
    }
  }

  lemma OverheadOfCosts(s: Snapshot, window: seq<Member>, wire: Wire)
    ensures OverheadOf(s, window, Costs(wire))
            == Overhead(s.epoch, s.filter, s.watermark, if window == [] then None else Some(PositionOf(window[|window| - 1])),
                        wire)
  {
  }

  /** The records a snapshot page was assembled with fit its budget. */
  lemma SnapshotFits(s: Snapshot, window: seq<Member>, limit: nat, wire: Wire, page: Page)
    requires limit >= 1 && |window| <= limit + 1
    requires AssembleSnapshotPage(s, window, MemberSizes(window, Costs(wire).sizeOf), OverheadOf(s, window, Costs(wire)), limit,
                                  Costs(wire).now + Costs(wire).ttl) == Ok(page)
    ensures page.records == []
            || Paging.Total(Json.Sizes(ItemJsons(page.records, wire)), OverheadOf(s, window, Costs(wire)))
               <= Paging.MAX_PAGE_BYTES
  {
    hide Overhead;
    var sizes := MemberSizes(window, Costs(wire).sizeOf);
    var count := Paging.BoundedCount(limit, Paging.MAX_PAGE_RECORDS);
    var overhead := OverheadOf(s, window, Costs(wire));
    Paging.FitCountLongest(sizes, count, overhead, Paging.MAX_PAGE_BYTES, 0, 0);
    var n := Paging.FitCount(sizes, count, overhead, Paging.MAX_PAGE_BYTES, 0).value;
    MemberPrefix(window, n, wire);
  }

  lemma MemberPrefix(window: seq<Member>, n: nat, wire: Wire)
    requires n <= |window|
    ensures Json.Sizes(ItemJsons(Bodies(window[..n]), wire)) == MemberSizes(window, Costs(wire).sizeOf)[..n]
  {
  }

  lemma SnapshotWithinBudget(s: Snapshot, window: seq<Member>, page: Page, wire: Wire)
    requires TokensBudgeted(wire) && window != [] && page.epoch == s.epoch && page.watermark == s.watermark == page.checkpoint
    requires page.hasMore <==> page.nextCursor.Some?
    requires page.nextCursor.Some? ==> page.nextCursor.value.position.After?
    ensures WithinBudget(page, s.filter, PositionOf(window[|window| - 1]), wire)
  {
  }

  lemma EmptySnapshotText(s: Snapshot, page: Page, wire: Wire)
    requires page.records == [] && page.nextCursor.None? && !page.hasMore
    requires page.epoch == s.epoch && page.watermark == s.watermark == page.checkpoint
    ensures Json.JsonBytes(PageText(page, s.filter, wire)) == Overhead(s.epoch, s.filter, s.watermark, None, wire) + 2
  {
    assert ItemJsons([], wire) == [];
    Paging.OverheadExact(wire.marker, Json.Arr([]), None, s.watermark, false, s.watermark, s.epoch, wire.serverTime);
    Json.ArrBytes([]);
  }
}
