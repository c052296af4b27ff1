/** One bounded reconciliation cycle of a replica with its server. */
module Sync {
  import opened Wrappers
  import opened History
  import opened Feeds
  import opened FeedSafety
  import opened SnapshotFeed
  import opened Replica
  import opened Exactness
  import opened World

  datatype Status = Complete | Partial | Cancelled

  datatype Mode = FromSnapshot | Incremental

  datatype SyncResult = SyncResult(status: Status, mode: Mode, pages: nat, records: nat, coverage: Option<Coverage>)

  /** The copy held is the log folded to c's checkpoint if and only if every record hidden by a page
      applied since its snapshot is gone at the checkpoint. */
  ghost predicate ExactUnlessMissed(w: World, c: Coverage)
    reads w
  {
    && c.epoch in w.server.epochs && c.checkpoint <= |w.server.epochs[c.epoch].log|
    && (Exact(w.server.epochs[c.epoch], w.filter, w.rows, c.checkpoint)
        <==> forall k :: Missed(w.filter, w.lineage.trail, k) ==>
                           View(w.server.epochs[c.epoch], w.filter, c.checkpoint, k).None?)
  }

  /** The replica, right now, holds c and is what c says. */
  ghost predicate Synced(w: World, c: Option<Coverage>)
    reads w
  {
    && w.Valid()
    && w.coverage == c && c.Some? && c.value.continuation.None?
    && Faithful(w.server.epochs[c.value.epoch], w.filter, w.rows, c.value.checkpoint, c.value.checkpoint)
    && ExactUnlessMissed(w, c.value)
  }

  /** At every moment of every run, in the middle of a pass or not, the copy held is exact under that
      condition and no other. */
  lemma HeldIsExactIff(w: World, c: Coverage)
    requires w.Valid() && w.coverage == Some(c)
    ensures ExactUnlessMissed(w, c)
  {
    hide Exact, Missed;
    PassExactIff(w.server.epochs[c.epoch], w.filter, w.lineage.rows, w.lineage.checkpoint, w.lineage.trail, c.checkpoint);
  }

  /** A completed synchronization is exact, as long as no deletion newer than its checkpoint has
      already dropped out of the change feed. */
  lemma CompleteIsExact(w: World, c: Coverage)
    requires Synced(w, Some(c)) && DeletionsRetained(w.server.epochs[c.epoch], c.checkpoint)
    ensures Exact(w.server.epochs[c.epoch], w.filter, w.rows, c.checkpoint)
  {
    FaithfulAtEndIsExact(w.server.epochs[c.epoch], w.filter, w.rows, c.checkpoint);
  }

  /** One request of applyChanges with every check made on its answer; against this server only
      the event check can fail. */
  method FetchEvents(w: World, coverage: Coverage, fixedWatermark: Option<nat>) returns (r: Result<(Page, seq<Item>), Code>)
    requires w.Valid() && CoverageShape(w.server, w.filter, coverage) && InForce(coverage, w.coverage, w.issued)
    requires fixedWatermark == if coverage.continuation.Some? then Some(coverage.continuation.value.watermark) else None
    modifies w`server, w`clock, w`coverage, w`issued, w`rows, w`lineage, w`readings, w`staged, w`aborted, w`fetches, w`journal
    ensures w.Valid() && CoverageShape(w.server, w.filter, coverage) && w.fetches == old(w.fetches) + 1
    ensures Evolves(old(w.server), w.server) && InForce(coverage, w.coverage, w.issued) && w.clock >= old(w.clock)
    ensures r.Ok? ==> Received(w.readings, coverage, r.value.0) && OrderedEvents(r.value.0) == Ok(r.value.1)
    ensures r.Ok? && fixedWatermark.Some? ==> r.value.0.watermark == fixedWatermark.value
    ensures r.Ok? && coverage.continuation.None? ==>
              r.value.0.watermark >= HeadOf(old(w.server), coverage.epoch)
    ensures r.Ok? ==> NoGap(old(w.server), coverage.epoch, coverage.checkpoint, r.value.0.checkpoint)
    ensures Expired(coverage, old(w.clock)) ==> r.Err?
    ensures if r.Err? then Explained(old(w.journal), w.journal, r.error, Unordered(w.readings)) else w.journal == old(w.journal)
  {
    hide World.Valid, CoverageShape, Evolves, OrderedEvents, Received, NoGap, Feeds.ListChanges;
    var fetched := w.ListChanges(coverage);
    if fetched.Err? { return Err(fetched.error); }
    var page := fetched.value;
    ReceivedPasses(w, coverage, page);
    if !PageShape(page) { assert false; }
    if page.epoch != coverage.epoch { assert false; }
    var expectedWatermark := if fixedWatermark.Some? then fixedWatermark.value else page.watermark;
    if page.watermark != expectedWatermark { assert false; }
    var ordered := OrderedEvents(page);
    if ordered.Err? {
      FoundUnordered(w.readings, coverage, page);
      return Err(ordered.error);
    }
    return Ok((page, ordered.value));
  }

  /** Some page a client of the scope has received does not pass the event check. */
  ghost predicate Unordered(readings: seq<Reading>) {
    exists i :: 0 <= i < |readings| && OrderedEvents(readings[i].page).Err?
  }

  lemma FoundUnordered(readings: seq<Reading>, c: Coverage, page: Page)
    requires Received(readings, c, page) && OrderedEvents(page).Err?
    ensures Unordered(readings) && OrderedEvents(page) == Err(PageInconsistent)
  {
  }

  /** Of a pass that put some pages in place and then failed: the error is the one its last call failed
      with, no other having failed; or it is the client's own finding, and the finding is right. */
  ghost predicate Explained(was: Journal, now: Journal, error: Code, finding: bool) {
    && now == was.(failures := now.failures, outages := now.outages, pages := now.pages, records := now.records,
                   since := now.since, mine := now.mine)
    && if now.failures == was.failures then error == PageInconsistent && finding
       else now.failures == was.failures + [error]
  }

  /** What the client's checks on a received page find. */
  lemma ReceivedPasses(w: World, c: Coverage, page: Page)
    requires w.Valid() && Received(w.readings, c, page)
    ensures PageShape(page) && page.epoch == c.epoch
    ensures c.continuation.Some? ==> page.watermark == c.continuation.value.watermark
  {
    hide PageSound, Follows, PageExact, CoverageShape;
    var i :| 0 <= i < |w.readings| && w.readings[i].expected == c && w.readings[i].page == page;
    assert Usable(w.server, w.filter, w.coverage, w.issued, w.lineage, w.readings[i]);
    ReadingShape(w.server.epochs[c.epoch], w.filter, c.checkpoint, page);
  }

  lemma ReadingShape(e: Epoch, f: Filter, c: nat, page: Page)
    requires EpochOk(e) && PageSound(e, f, c, page) && Continues(f, c, page)
    ensures PageShape(page)
  {
    ServedPagePassesChecks(e, f, c, page);
  }

  /** How far a pass from start has come, with s0 the server when it began and s the server now: in one
      epoch, towards one watermark, and over nothing that had been purged by then. */
  ghost predicate Underway(s0: Server, s: Server, start: Coverage, coverage: Coverage, fixedWatermark: Option<nat>) {
    && Evolves(s0, s) && coverage.epoch == start.epoch
    && InPass(s0, start, coverage, fixedWatermark)
    && NoGap(s0, start.epoch, start.checkpoint, coverage.checkpoint)
  }

  /** The first half of an iteration of applyChanges: check the signal and fetch the next events. */
  method FetchNext(w: World, start: Coverage, coverage: Coverage, fixedWatermark: Option<nat>, ghost s0: Server)
    returns (stop: bool, answer: Result<(Page, seq<Item>), Code>)
    requires w.Valid() && !w.observed && CoverageShape(w.server, w.filter, coverage)
    requires InForce(coverage, w.coverage, w.issued) && Underway(s0, w.server, start, coverage, fixedWatermark)
    modifies w`server, w`clock, w`coverage, w`issued, w`rows, w`lineage, w`readings, w`staged, w`aborted, w`observed,
             w`fetches, w`journal
    ensures w.Valid() && w.observed == stop && Evolves(s0, w.server) && w.clock >= old(w.clock)
    ensures w.fetches <= old(w.fetches) + 1
    ensures !stop && answer.Ok? ==>
              var page := answer.value.0;
              && Received(w.readings, coverage, page) && OrderedEvents(page) == Ok(answer.value.1)
              && (fixedWatermark.Some? ==> page.watermark == fixedWatermark.value) && page.watermark >= Owed(s0, start)
              && NoGap(s0, start.epoch, start.checkpoint, page.checkpoint)
    ensures !stop && Expired(coverage, old(w.clock)) ==> answer.Err?
    ensures if !stop && answer.Err? then Explained(old(w.journal), w.journal, answer.error, Unordered(w.readings))
            else w.journal == old(w.journal)
  {
    hide World.Valid, CoverageShape, Evolves, Received, OrderedEvents, NoGap;
    answer := Err(Unavailable);
    ghost var was := w.server;
    stop := w.AwaitCoverage(coverage);
    EvolvesTransitive(s0, was, w.server);
    if stop { return; }
    was := w.server;
    HeadsGrow(s0, was, coverage.epoch);
    answer := FetchEvents(w, coverage, fixedWatermark);
    EvolvesTransitive(s0, was, w.server);
    if answer.Ok? { PassedOn(s0, was, start, coverage, answer.value.0.checkpoint); }
  }

  /** applyChanges: replay pages of one fixed-watermark pass, each in one transaction. */
  method ApplyChanges(w: World, start: Coverage, maxPages: nat) returns (r: Result<SyncResult, Code>)
    requires w.Valid() && !w.observed && CoverageShape(w.server, w.filter, start) && InForce(start, w.coverage, w.issued)
    modifies w`server, w`clock, w`coverage, w`issued, w`rows, w`lineage, w`readings, w`staged, w`aborted, w`observed,
             w`fetches, w`journal
    ensures w.Valid() && Evolves(old(w.server), w.server)
    ensures w.fetches <= old(w.fetches) + maxPages
    ensures r.Ok? ==> r.value.pages <= maxPages && r.value.mode == Incremental && r.value.coverage.Some?
    ensures r.Ok? && r.value.status == Complete ==> Synced(w, r.value.coverage) && r.value.coverage.value.epoch == start.epoch
    ensures r.Ok? && r.value.status == Complete ==> r.value.coverage.value.checkpoint >= Owed(old(w.server), start)
    ensures w.observed ==> r.Ok? && r.value.status == Cancelled
    ensures maxPages > 0 && Expired(start, old(w.clock)) && r.Ok? ==> r.value.status == Cancelled
    ensures r.Ok? ==> NoGap(old(w.server), start.epoch, start.checkpoint, r.value.coverage.value.checkpoint)
    ensures r.Ok? && r.value.status == Complete && old(w.coverage) == Some(start) && start.continuation.None? ==>
              old(Exact(w.server.epochs[start.epoch], w.filter, w.rows, start.checkpoint))
    ensures r.Ok? ==> Tallied(old(w.journal), w.journal, r.value, Some(start)) && Stepped(old(w.journal), w.journal)
    ensures r.Ok? && r.value.status == Partial ==> r.value.pages == maxPages
    ensures r.Ok? && r.value.status == Cancelled ==> w.observed
    ensures r.Ok? && r.value.status == Complete ==> r.value.pages > 0
    ensures r.Err? ==> Explained(old(w.journal), w.journal, r.error, Unordered(w.readings))
  {
    hide World.Valid, CoverageShape, Evolves, Received, OrderedEvents, Synced, NoGap, Exact, ServerOk, CoverageOk;
    hide Unordered;
    ServerReflexive(w);
    NothingPassed(w.server, start.epoch, start.checkpoint);
    ghost var begun, rows := w.coverage, w.rows;
    ValidHolds(w);
    var coverage := start;
    var pages: nat, records: nat := 0, 0;
    var fixedWatermark := if start.continuation.Some? then Some(start.continuation.value.watermark) else None;
    while pages < maxPages
      invariant w.Valid() && !w.observed && CoverageShape(w.server, w.filter, coverage) && InForce(coverage, w.coverage, w.issued)
      invariant pages <= maxPages && w.fetches <= old(w.fetches) + pages
      invariant Underway(old(w.server), w.server, start, coverage, fixedWatermark) && w.clock >= old(w.clock)
      invariant Expired(start, old(w.clock)) ==> pages == 0 && coverage == start
      invariant Stepped(old(w.journal), w.journal)
      invariant Tallied(old(w.journal), w.journal, SyncResult(Partial, Incremental, pages, records, Some(coverage)), Some(start))
    {
      var stop, answer := FetchNext(w, start, coverage, fixedWatermark, old(w.server));
      if stop { return Ok(SyncResult(Cancelled, Incremental, pages, records, Some(coverage))); }
      if answer.Err? { return Err(answer.error); }
      var page, ordered := answer.value.0, answer.value.1;
      ghost var before := w.journal;
      fixedWatermark := Some(page.watermark);
      stop := w.Cancelled();
      if stop { return Ok(SyncResult(Cancelled, Incremental, pages, records, Some(coverage))); }
      var applied := ApplyPage(w, coverage, page, ordered);
      if applied.Err? { return Err(applied.error); }
      coverage := applied.value;
      pages := pages + 1;
      records := records + |ordered|;
      if !page.hasMore {
        if begun == Some(start) && start.continuation.None? {
          CarriedWasExact(old(w.server), w.filter, rows, start, coverage.checkpoint);
        }
        return Ok(SyncResult(Complete, Incremental, pages, records, Some(coverage)));
      }
    }
    return Ok(SyncResult(Partial, Incremental, pages, records, Some(coverage)));
  }

  /** Pages have been put in place and nothing has failed. */
  ghost predicate Stepped(was: Journal, now: Journal) {
    now == was.(pages := now.pages, records := now.records, since := now.since, mine := now.mine)
  }

  /** A result counts the pages and records that were put in place meanwhile, and its coverage is the
      last one put in force, or what there was before. */
  ghost predicate Tallied(was: Journal, now: Journal, r: SyncResult, before: Option<Coverage>) {
    && r.pages == now.pages - was.pages == now.since - was.since && r.records == now.records - was.records
    && if r.pages == 0 then r.coverage == before && now.mine == was.mine else r.coverage == now.mine
  }

  lemma ValidHolds(w: World)
    requires w.Valid()
    ensures ServerOk(w.server) && CoverageOk(w.server, w.filter, w.coverage, w.rows)
  {
  }

  lemma NothingPassed(s: Server, epoch: string, at: nat)
    ensures NoGap(s, epoch, at, at)
  {
  }

  /** One more page without a gap. */
  lemma PassedOn(s: Server, was: Server, start: Coverage, coverage: Coverage, to: nat)
    requires Evolves(s, was) && coverage.epoch == start.epoch
    requires NoGap(s, start.epoch, start.checkpoint, coverage.checkpoint)
    requires NoGap(was, start.epoch, coverage.checkpoint, to)
    ensures NoGap(s, start.epoch, start.checkpoint, to)
  {
    NoGapEarlier(s, was, start.epoch, coverage.checkpoint, to);
  }

  /** A finished copy that incremental pages have carried to the head of its log lacked nothing. */
  lemma CarriedWasExact(s: Server, f: Filter, rows: map<Key, Row>, start: Coverage, to: nat)
    requires ServerOk(s) && CoverageOk(s, f, Some(start), rows) && start.continuation.None?
    requires NoGap(s, start.epoch, start.checkpoint, to) && to >= HeadOf(s, start.epoch)
    ensures Exact(s.epochs[start.epoch], f, rows, start.checkpoint)
  {
    FaithfulAtEndIsExact(s.epochs[start.epoch], f, rows, start.checkpoint);
  }

  /** The least a completed pass from this coverage must reach: the end of the pass it is in, or
      everything the server held when the pass began. */
  function Owed(s: Server, start: Coverage): nat {
    if start.continuation.Some? then GoalOf(start) else HeadOf(s, start.epoch)
  }

  ghost predicate InPass(s: Server, start: Coverage, coverage: Coverage, fixedWatermark: Option<nat>) {
    match fixedWatermark
    case Some(v) => coverage.continuation.Some? && coverage.continuation.value.watermark == v && v >= Owed(s, start)
    case None => coverage == start && start.continuation.None?
  }

  /** One page enters the replica, checkpoint and continuation with it. */
  method ApplyPage(w: World, coverage: Coverage, page: Page, ordered: seq<Item>) returns (r: Result<Coverage, Code>)
    requires w.Valid() && !w.observed && Received(w.readings, coverage, page) && OrderedEvents(page) == Ok(ordered)
    modifies w`coverage, w`issued, w`rows, w`lineage, w`journal
    ensures w.Valid() && Later(old(w.coverage), old(w.issued), w.coverage, w.issued)
    ensures r.Ok? ==> r.value == Advanced(coverage, page) && r.value.epoch == coverage.epoch
                      && CoverageShape(w.server, w.filter, r.value) && w.coverage == Some(r.value)
                      && InForce(r.value, w.coverage, w.issued)
                      && (if page.hasMore then
                            r.value.continuation.Some? && r.value.continuation.value.watermark == page.watermark
                          else Synced(w, Some(r.value)) && page.checkpoint == page.watermark)
                      && w.journal == Moved(old(w.journal), |ordered|, r.value)
    ensures r.Err? ==> Explained(old(w.journal), w.journal, r.error, false)
  {
    hide World.Valid, OrderedEvents, CoverageShape;
    ReceivedPasses(w, coverage, page);
    ghost var i :| 0 <= i < |w.readings| && w.readings[i].expected == coverage && w.readings[i].page == page;
    r := w.ApplyIncrementalPage(page.epoch, ordered, page.checkpoint, ContinuationOf(page), coverage, w.readings[i]);
    if r.Ok? {
      HeldShape(w);
      if !page.hasMore { HeldIsSynced(w); }
    }
  }

  lemma HeldIsSynced(w: World)
    requires w.Valid() && w.coverage.Some? && w.coverage.value.continuation.None?
    ensures Synced(w, w.coverage)
  {
    hide ExactUnlessMissed;
    HeldIsExactIff(w, w.coverage.value);
  }

  lemma {:induction false} ApplyConcat(rows: map<Key, Row>, a: seq<Item>, b: seq<Item>)
    ensures Apply(rows, a + b) == Apply(Apply(rows, a), b)
  {
    if b == [] {
      assert a + b == a;
    } else {
      ApplyConcat(rows, a, b[..|b| - 1]);
      assert (a + b)[..|a + b| - 1] == a + b[..|b| - 1];
    }
  }

  function FirstRows(members: seq<Member>, i: nat): map<Key, Row>
    requires i <= |members|
  {
    Apply(map[], Bodies(members[..i]))
  }

  lemma StagedMore(members: seq<Member>, i: nat, n: nat)
    requires i + n <= |members|
    ensures Apply(FirstRows(members, i), Bodies(members[i..i + n])) == FirstRows(members, i + n)
  {
    ApplyConcat(map[], Bodies(members[..i]), Bodies(members[i..i + n]));
    assert Bodies(members[..i + n]) == Bodies(members[..i]) + Bodies(members[i..i + n]);
  }

  /** These rows, and nothing else, are staged over this coverage - unless the stage is gone. */
  ghost predicate Staging(staged: map<Ref, Staged>, ref: Ref, expected: Option<Coverage>, rows: map<Key, Row>) {
    ref in staged ==> staged[ref] == Staged(expected, rows)
  }

  /** How part of an iteration of the paging loop ends: the signal was seen, something failed,
      or a page is in hand. */
  datatype Step = Stopped | Failed(code: Code) | Got(page: Page)

  /** An iteration's first half: check the signal, ask for a page, and make every check on the
      answer; against this server none of those fails. */
  method FetchMembers(w: World, created: Created, cursor: Option<Cursor>, ghost members: seq<Member>, ghost i: nat, ref: Ref)
    returns (step: Step)
    requires w.Valid() && !w.observed && Captured(w.server, w.filter, created, members) && Resumes(members, cursor, i)
    modifies w`server, w`clock, w`coverage, w`issued, w`rows, w`lineage, w`readings, w`staged, w`aborted, w`observed,
             w`fetches, w`journal
    ensures w.Valid() && Captured(w.server, w.filter, created, members) && (w.observed <==> step.Stopped?)
    ensures Kept(Some(ref), old(w.staged), w.staged) && w.fetches <= old(w.fetches) + 1
    ensures step.Got? ==> NextMembers(members, i, step.page)
    ensures if step.Failed? then Explained(old(w.journal), w.journal, step.code, false) else w.journal == old(w.journal)
  {
    hide SnapshotFeed.ListSnapshotPage;
    var stop := w.AwaitStage(created, members, ref);
    if stop { return Stopped; }
    var r := w.ListSnapshotPage(created, cursor, members, i, ref);
    if r.Err? { return Failed(r.error); }
    var page := r.value;
    if !PageShape(page) { assert false; }
    if page.epoch != created.epoch || page.watermark != created.watermark || page.checkpoint != created.watermark {
      assert false;
    }
    if exists j | 0 <= j < |page.records| :: page.records[j].Removal? { assert false; }
    return Got(page);
  }

  /** The second half: check the signal again and stage the page. rows is what was staged. */
  method StageMembers(w: World, ref: Ref, page: Page, ghost expected: Option<Coverage>, ghost rows: map<Key, Row>)
    returns (step: Step)
    requires w.Valid() && !w.observed && Staging(w.staged, ref, expected, rows)
    modifies w`staged, w`observed, w`journal
    ensures w.Valid() && (w.observed <==> step.Stopped?)
    ensures step.Got? ==> step.page == page && Staging(w.staged, ref, expected, Apply(rows, page.records))
    ensures match step
            case Stopped => w.journal == old(w.journal)
            case Failed(code) => Explained(old(w.journal), w.journal, code, false)
            case Got(_) => w.journal == old(w.journal).(pages := old(w.journal).pages + 1,
                                                        records := old(w.journal).records + |page.records|)
  {
    var stop := w.Cancelled();
    if stop { return Stopped; }
    var staged := w.StageSnapshotPage(ref, page.records);
    return if staged.Ok? then Got(page) else Failed(staged.error);
  }

  /** Both halves: the next members are fetched and staged, or nothing more is done. */
  method StageNext(w: World, created: Created, cursor: Option<Cursor>, ghost members: seq<Member>, ghost i: nat, ref: Ref,
                   ghost expected: Option<Coverage>)
    returns (step: Step)
    requires w.Valid() && !w.observed && Captured(w.server, w.filter, created, members) && Resumes(members, cursor, i)
    requires Staging(w.staged, ref, expected, FirstRows(members, i))
    modifies w`server, w`clock, w`coverage, w`issued, w`rows, w`lineage, w`readings, w`staged, w`aborted, w`observed,
             w`fetches, w`journal
    ensures w.Valid() && Captured(w.server, w.filter, created, members) && (w.observed <==> step.Stopped?)
    ensures w.fetches <= old(w.fetches) + 1
    ensures step.Got? ==> NextMembers(members, i, step.page)
                          && Staging(w.staged, ref, expected, FirstRows(members, i + |step.page.records|))
    ensures match step
            case Stopped => w.journal == old(w.journal)
            case Failed(code) => Explained(old(w.journal), w.journal, code, false)
            case Got(page) => w.journal == old(w.journal).(pages := old(w.journal).pages + 1,
                                                           records := old(w.journal).records + |page.records|)
  {
    hide World.Valid, Captured, Resumes, FirstRows, Explained;
    step := FetchMembers(w, created, cursor, members, i, ref);
    if step.Got? {
      StagedMore(members, i, |step.page.records|);
      step := StageMembers(w, ref, step.page, expected, FirstRows(members, i));
    }
  }

  /** How the paging loop ends: with a result, or with everything staged. */
  datatype Paged = Ended(result: Result<SyncResult, Code>) | Everything(pages: nat, records: nat)

  ghost predicate EndedEarly(w: World, r: Result<SyncResult, Code>, maxPages: nat)
    reads w
  {
    && (w.observed ==> r.Err? || r.value.status == Cancelled)
    && (r.Ok? ==> r.value.status != Complete && r.value.pages <= maxPages
                  && r.value.mode == FromSnapshot && r.value.coverage.None?)
  }

  /** The paging loop of stageSnapshot. */
  method StagePages(w: World, created: Created, ghost members: seq<Member>, ref: Ref, ghost expected: Option<Coverage>,
                    maxPages: nat)
    returns (r: Paged)
    requires w.Valid() && !w.observed && Captured(w.server, w.filter, created, members)
    requires Staging(w.staged, ref, expected, FirstRows(members, 0))
    modifies w`server, w`clock, w`coverage, w`issued, w`rows, w`lineage, w`readings, w`staged, w`aborted, w`observed,
             w`fetches, w`journal
    ensures w.Valid() && Captured(w.server, w.filter, created, members)
    ensures w.fetches <= old(w.fetches) + maxPages
    ensures r.Ended? ==> EndedEarly(w, r.result, maxPages)
    ensures r.Everything? ==> !w.observed && r.pages <= maxPages && r.records == |members|
                              && w.fetches <= old(w.fetches) + r.pages
                              && Staging(w.staged, ref, expected, FirstRows(members, r.records))
                              && Counted(old(w.journal), w.journal, r.pages, r.records)
    ensures r.Ended? ==> StageEnd(old(w.journal), w.journal, r.result, expected, w.observed, maxPages)
  {
    hide World.Valid, Captured, FirstRows;
    var cursor: Option<Cursor> := None;
    var pages: nat, records: nat := 0, 0;
    while pages < maxPages
      invariant w.Valid() && !w.observed && Captured(w.server, w.filter, created, members)
      invariant pages <= maxPages && w.fetches <= old(w.fetches) + pages
      invariant Counted(old(w.journal), w.journal, pages, records)
      invariant Resumes(members, cursor, records) && Staging(w.staged, ref, expected, FirstRows(members, records))
    {
      var step := StageNext(w, created, cursor, members, records, ref, expected);
      if step.Stopped? { return Ended(Ok(SyncResult(Cancelled, FromSnapshot, pages, records, None))); }
      if step.Failed? { return Ended(Err(step.code)); }
      pages := pages + 1;
      records := records + |step.page.records|;
      if !step.page.hasMore { return Everything(pages, records); }
      cursor := step.page.nextCursor;
    }
    return Ended(Ok(SyncResult(Partial, FromSnapshot, pages, records, None)));
  }

  /** So many pages and records have been staged, and nothing else was done. */
  ghost predicate Counted(was: Journal, now: Journal, pages: nat, records: nat) {
    now == was.(pages := was.pages + pages, records := was.records + records)
  }

  /** How staging ends: an error is the last that occurred; a result counts what was staged, and says
      complete with the coverage committed in place of the expected one, partial only when the budget
      is spent, and cancelled only when the signal was seen. */
  ghost predicate StageEnd(was: Journal, now: Journal, r: Result<SyncResult, Code>, expected: Option<Coverage>,
                           observed: bool, maxPages: nat)
  {
    && now.requested == was.requested && now.created == was.created && now.looks == was.looks && now.seen == was.seen
    && was.failures <= now.failures
    && match r
       case Err(error) => |was.failures| < |now.failures| && now.failures[|now.failures| - 1] == error
       case Ok(result) => now.failures == was.failures && Fair(was, now, result, expected, observed, maxPages)
  }

  ghost predicate Fair(was: Journal, now: Journal, result: SyncResult, expected: Option<Coverage>, observed: bool,
                       maxPages: nat)
  {
    && result.pages == now.pages - was.pages && result.records == now.records - was.records
    && (result.status == Complete ==> result.coverage == now.mine && now.over == expected)
    && (result.status == Partial ==> result.pages == maxPages)
    && (result.status == Cancelled ==> observed)
  }

  lemma StageEndDiscarded(was: Journal, mid: Journal, now: Journal, r: Result<SyncResult, Code>, expected: Option<Coverage>,
                          observed: bool, maxPages: nat, discarded: Result<(), Code>)
    requires StageEnd(was, mid, r, expected, observed, maxPages) && Logged(mid, now, ErrorOf(discarded))
    ensures discarded.Ok? ==> StageEnd(was, now, r, expected, observed, maxPages)
    ensures discarded.Err? ==> StageEnd(was, now, Err(discarded.error), expected, observed, maxPages)
  {
  }

  lemma StageEndRefused(was: Journal, now: Journal, error: Code, expected: Option<Coverage>, observed: bool, maxPages: nat)
    requires Logged(was, now, Some(error))
    ensures StageEnd(was, now, Err(error), expected, observed, maxPages)
  {
  }

  /** The commit that follows the last staged page. */
  method Commit(w: World, created: Created, ghost members: seq<Member>, ref: Ref, ghost expected: Option<Coverage>, pages: nat,
                records: nat, ghost was: Journal, ghost maxPages: nat)
    returns (r: Result<SyncResult, Code>)
    requires w.Valid() && !w.observed && Captured(w.server, w.filter, created, members)
    requires ref == Ref(created.epoch, created.snapshotId)
    requires Staging(w.staged, ref, expected, FirstRows(members, |members|)) && Counted(was, w.journal, pages, records)
    modifies w`server, w`clock, w`coverage, w`issued, w`rows, w`lineage, w`readings, w`staged, w`aborted, w`observed,
             w`committed, w`journal
    ensures w.Valid()
    ensures StageOutcome(w, r, pages, w.committed - old(w.committed))
    ensures r.Ok? ==> r.value.pages == pages
    ensures r.Ok? && r.value.status == Complete ==> r.value.coverage.value.checkpoint == created.watermark
                                                    && r.value.coverage.value.epoch == created.epoch
    ensures StageEnd(was, w.journal, r, expected, w.observed, maxPages)
  {
    hide ServerOk, SnapshotOk, Faithful, Apply, Bodies, Exact, Answers, PageExact, Follows;
    var stop := w.AwaitStage(created, members, ref);
    if stop { return Ok(SyncResult(Cancelled, FromSnapshot, pages, records, None)); }
    assert members[..|members|] == members;
    CapturedExact(w.server, w.filter, created, members);
    var coverage := w.CommitSnapshot(ref, created.watermark);
    if coverage.Err? { return Err(coverage.error); }
    HeldIsSynced(w);
    return Ok(SyncResult(Complete, FromSnapshot, pages, records, Some(coverage.value)));
  }

  /** stageSnapshot: a snapshot this client began ends in exactly one commit or one discard. */
  method StageSnapshot(w: World, expected: Option<Coverage>, maxPages: nat) returns (r: Result<SyncResult, Code>)
    requires w.Valid() && !w.observed
    modifies w
    ensures w.Valid()
    ensures w.fetches <= old(w.fetches) + (if r.Ok? && r.value.status == Complete then r.value.pages else maxPages)
    ensures Accounted(old(w.begun), old(w.committed), old(w.discards), w.begun, w.committed, w.discards)
    ensures StageOutcome(w, r, maxPages, w.committed - old(w.committed))
    ensures r.Ok? && r.value.status == Complete ==>
              r.value.coverage.value.checkpoint >= HeadOf(old(w.server), r.value.coverage.value.epoch)
    ensures RefreshEnd(old(w.journal), w.journal, r, expected, w.observed, maxPages, Amiss(w))
  {
    hide World.Valid, Captured, Synced, StageEnd, Evolves, Unordered, RefreshEnd;
    var stop := w.Cancelled();
    EndedUnstaged(old(w.journal), w.journal, None, stop, expected, maxPages, Amiss(w));
    if stop { return Ok(SyncResult(Cancelled, FromSnapshot, 0, 0, None)); }
    var answer;
    ghost var members;
    answer, members := w.CreateSnapshot();
    EndedUnstaged(old(w.journal), w.journal, Some(answer), stop, expected, maxPages, Amiss(w));
    if answer.Err? { return Err(answer.error); }
    var created := answer.value;
    if !created.active { return Err(PageInconsistent); }
    var ref := Ref(created.epoch, created.snapshotId);
    stop := w.Cancelled();
    EndedUnstaged(old(w.journal), w.journal, Some(answer), stop, expected, maxPages, Amiss(w));
    if stop { return Ok(SyncResult(Cancelled, FromSnapshot, 0, 0, None)); }
    ghost var asked := w.journal;
    r := StageFrom(w, created, members, ref, expected, maxPages);
    RefreshedBy(old(w.journal), asked, w.journal, r, expected, w.observed, maxPages, Amiss(w));
  }

  /** An error is the last that occurred, or, none having occurred, the client's own finding. */
  predicate Raised(before: seq<Code>, failures: seq<Code>, error: Code, finding: bool)
    requires before <= failures
  {
    if failures == before then error == PageInconsistent && finding else failures[|failures| - 1] == error
  }

  /** One snapshot has been asked for, and one that is not active is not staged; or the signal came
      first. */
  predicate OneSnapshot(was: Journal, now: Journal, r: Result<SyncResult, Code>, stopped: bool) {
    || (now.requested == was.requested + 1 && (r.Ok? ==> now.created.Some? && now.created.value.active))
    || (now.requested == was.requested && stopped && r.Ok? && r.value.status == Cancelled && r.value.pages == 0)
  }

  /** How a refresh ends: as staging does, having asked for one snapshot, unless it was stopped before
      that; or with the client's own finding, nothing having failed. */
  ghost predicate RefreshEnd(was: Journal, now: Journal, r: Result<SyncResult, Code>, expected: Option<Coverage>,
                             observed: bool, maxPages: nat, finding: bool)
  {
    && now.looks == was.looks && now.seen == was.seen && was.failures <= now.failures
    && OneSnapshot(was, now, r, observed)
    && match r
       case Err(error) =>
         Raised(was.failures, now.failures, error, finding)
       case Ok(result) => now.failures == was.failures && Fair(was, now, result, expected, observed, maxPages)
  }

  /** Before anything is staged. */
  lemma EndedUnstaged(was: Journal, now: Journal, answer: Option<Result<Created, Code>>, stop: bool, expected: Option<Coverage>,
                      maxPages: nat, finding: bool)
    requires match answer
             case None => now == was
             case Some(created) =>
               now == Noted(was, ErrorOf(created)).(requested := was.requested + 1, outages := now.outages,
                                                    created := if created.Ok? then Some(created.value) else was.created)
               && (created.Ok? && !created.value.active ==> finding)
    ensures stop && (answer.None? || (answer.value.Ok? && answer.value.value.active)) ==>
              RefreshEnd(was, now, Ok(SyncResult(Cancelled, FromSnapshot, 0, 0, None)), expected, true, maxPages, finding)
    ensures answer.Some? && answer.value.Err? ==>
              forall observed :: RefreshEnd(was, now, Err(answer.value.error), expected, observed, maxPages, finding)
    ensures answer.Some? && answer.value.Ok? && !answer.value.value.active ==>
              forall observed :: RefreshEnd(was, now, Err(PageInconsistent), expected, observed, maxPages, finding)
  {
  }

  lemma RefreshedBy(was: Journal, asked: Journal, now: Journal, r: Result<SyncResult, Code>, expected: Option<Coverage>,
                    observed: bool, maxPages: nat, finding: bool)
    requires asked == was.(requested := was.requested + 1, created := asked.created)
    requires asked.created.Some? && asked.created.value.active
    requires StageEnd(asked, now, r, expected, observed, maxPages)
    ensures RefreshEnd(was, now, r, expected, observed, maxPages, finding)
  {
  }

  /** A snapshot that was committed, and an incremental pass after it. */
  lemma RefreshedFurther(was: Journal, mid: Journal, now: Journal, first: SyncResult, r: Result<SyncResult, Code>,
                         expected: Option<Coverage>, observed: bool, pages: nat, maxPages: nat, unordered: bool,
                         finding: bool)
    requires RefreshEnd(was, mid, Ok(first), expected, false, maxPages, false) && first.status == Complete
    requires first.pages <= maxPages && pages == maxPages - first.pages
    requires match r
             case Err(error) => Explained(mid, now, error, unordered) && (unordered ==> finding)
             case Ok(next) => Stepped(mid, now) && Tallied(mid, now, next, first.coverage)
                              && (next.status == Partial ==> next.pages == pages)
                              && (next.status == Cancelled ==> observed)
    ensures RefreshEnd(was, now, if r.Err? then r else Ok(Sum(first, r.value)), expected, observed, maxPages, finding)
  {
  }

  /** What the two report together. */
  function Sum(first: SyncResult, next: SyncResult): SyncResult {
    SyncResult(next.status, FromSnapshot, first.pages + next.pages, first.records + next.records, next.coverage)
  }

  /** From beginSnapshot to the end. */
  method StageFrom(w: World, created: Created, ghost members: seq<Member>, ref: Ref, expected: Option<Coverage>, maxPages: nat)
    returns (r: Result<SyncResult, Code>)
    requires w.Valid() && !w.observed && Captured(w.server, w.filter, created, members)
    requires ref == Ref(created.epoch, created.snapshotId)
    modifies w
    ensures w.Valid()
    ensures w.fetches <= old(w.fetches) + (if r.Ok? && r.value.status == Complete then r.value.pages else maxPages)
    ensures Accounted(old(w.begun), old(w.committed), old(w.discards), w.begun, w.committed, w.discards)
    ensures StageOutcome(w, r, maxPages, w.committed - old(w.committed))
    ensures r.Ok? && r.value.status == Complete ==> r.value.coverage.value.checkpoint == created.watermark
                                                    && r.value.coverage.value.epoch == created.epoch
    ensures StageEnd(old(w.journal), w.journal, r, expected, w.observed, maxPages)
  {
    hide World.Valid, Captured, Synced, Evolves, Kept, Later, InForce, StageEnd, Logged;
    var begun := w.BeginSnapshot(ref, expected);
    BegunLogged(old(w.journal), w.journal, begun);
    if begun.Err? {
      StageEndRefused(old(w.journal), w.journal, begun.error, expected, w.observed, maxPages);
      return Err(begun.error);
    }
    r := StageAndCommit(w, created, members, ref, expected, maxPages);
    if r.Err? || r.value.status != Complete {
      w.Interfere(Some(ref));
      ghost var mid := w.journal;
      var discarded := w.DiscardSnapshot(ref);
      StageEndDiscarded(old(w.journal), mid, w.journal, r, expected, w.observed, maxPages, discarded);
      if discarded.Err? { return Err(discarded.error); }
    }
  }

  /** What is tried once a stage is begun. */
  method StageAndCommit(w: World, created: Created, ghost members: seq<Member>, ref: Ref, ghost expected: Option<Coverage>,
                        maxPages: nat)
    returns (r: Result<SyncResult, Code>)
    requires w.Valid() && !w.observed && Captured(w.server, w.filter, created, members)
    requires ref == Ref(created.epoch, created.snapshotId) && ref in w.staged && w.staged[ref] == Staged(expected, map[])
    modifies w`server, w`clock, w`coverage, w`issued, w`rows, w`lineage, w`readings, w`staged, w`aborted, w`observed,
             w`fetches, w`committed, w`journal
    ensures w.Valid()
    ensures w.fetches <= old(w.fetches) + (if r.Ok? && r.value.status == Complete then r.value.pages else maxPages)
    ensures StageOutcome(w, r, maxPages, w.committed - old(w.committed))
    ensures r.Ok? && r.value.status == Complete ==> r.value.coverage.value.checkpoint == created.watermark
                                                    && r.value.coverage.value.epoch == created.epoch
    ensures StageEnd(old(w.journal), w.journal, r, expected, w.observed, maxPages)
  {
    hide World.Valid, Captured, Synced, StageEnd, Counted;
    assert members[..0] == [];
    var paged := StagePages(w, created, members, ref, expected, maxPages);
    if paged.Ended? { return paged.result; }
    r := Commit(w, created, members, ref, expected, paged.pages, paged.records, old(w.journal), maxPages);
  }

  lemma BegunLogged(was: Journal, now: Journal, begun: Result<(), Code>)
    requires Logged(was, now, ErrorOf(begun))
    ensures begun.Ok? ==> now == was
  {
  }

  lemma HeldShape(w: World)
    requires w.Valid() && w.coverage.Some?
    ensures CoverageShape(w.server, w.filter, w.coverage.value) && InForce(w.coverage.value, w.coverage, w.issued)
  {
  }

  lemma SyncedHead(w: World, c: Coverage)
    requires Synced(w, Some(c))
    ensures CoverageShape(w.server, w.filter, c) && c.continuation.None? && c.checkpoint <= HeadOf(w.server, c.epoch)
    ensures InForce(c, w.coverage, w.issued)
  {
  }

  /** The second half of syncHistory: a fresh snapshot, and what has happened since. */
  method Refresh(w: World, expected: Option<Coverage>, maxPages: nat) returns (r: Result<SyncResult, Code>)
    requires w.Valid() && !w.observed
    modifies w
    ensures w.Valid()
    ensures w.fetches <= old(w.fetches) + maxPages
    ensures Accounted(old(w.begun), old(w.committed), old(w.discards), w.begun, w.committed, w.discards)
    ensures w.observed ==> r.Err? || r.value.status == Cancelled
    ensures r.Ok? ==> r.value.pages <= maxPages && r.value.mode == FromSnapshot
    ensures r.Ok? && r.value.status == Complete ==>
              r.value.coverage.Some? && Synced(w, r.value.coverage)
              && r.value.coverage.value.checkpoint >= HeadOf(old(w.server), r.value.coverage.value.epoch)
    ensures RefreshEnd(old(w.journal), w.journal, r, expected, w.observed, maxPages, Amiss(w))
    ensures r.Ok? ==> Pursued(w.journal, r.value, maxPages)
  {
    hide World.Valid, CoverageShape, Evolves, Unordered, RefreshEnd, Explained, Stepped, Tallied;
    r := StageSnapshot(w, expected, maxPages);
    if r.Err? || r.value.status != Complete || r.value.pages >= maxPages { return; }
    var snapshot := r.value;
    var coverage := snapshot.coverage.value;
    SyncedHead(w, coverage);
    ghost var mid := w.journal;
    SoundComplete(old(w.journal), mid, snapshot, expected, w.observed, maxPages, Amiss(w));
    r := ApplyChanges(w, coverage, maxPages - snapshot.pages);
    AppliedSince(mid, w.journal, r, Some(coverage));
    RefreshedFurther(old(w.journal), mid, w.journal, snapshot, r, expected, w.observed, maxPages - snapshot.pages,
                     maxPages, Unordered(w.readings), Amiss(w));
    if r.Ok? { r := Ok(Sum(snapshot, r.value)); }
  }

  /** With budget left, a committed snapshot is followed up by changes: a refresh that stops right after
      the commit has spent its pages on the snapshot, and says complete. */
  predicate Pursued(now: Journal, result: SyncResult, maxPages: nat) {
    && (result.status == Complete ==> result.pages == maxPages || now.since > 0)
    && (result.status == Partial ==> result.coverage.None? || now.since > 0)
  }

  lemma AppliedSince(was: Journal, now: Journal, r: Result<SyncResult, Code>, before: Option<Coverage>)
    requires r.Ok? ==> Tallied(was, now, r.value, before)
    ensures r.Ok? ==> now.since >= r.value.pages
  {
  }

  /** The client has found something wrong with what it was given: a page out of order, or a snapshot
      no longer active. */
  ghost predicate Amiss(w: World)
    reads w
  {
    Unordered(w.readings) || (w.journal.created.Some? && !w.journal.created.value.active)
  }

  lemma SoundComplete(was: Journal, now: Journal, result: SyncResult, expected: Option<Coverage>, observed: bool,
                      maxPages: nat, finding: bool)
    requires result.status == Complete && RefreshEnd(was, now, Ok(result), expected, observed, maxPages, finding)
    ensures RefreshEnd(was, now, Ok(result), expected, false, maxPages, false)
  {
  }

  predicate Resnapshot(code: Code) { code == CursorExpired || code == EpochChanged }

  /** syncHistory. start is the coverage the run read first. A complete result is a faithful copy
      at the checkpoint it reports, which covers everything the server held when the run began,
      or the end of the pass the run resumed. A run that finds itself in a pass whose cursor has
      expired takes a snapshot. */
  method SyncHistory(w: World, maxPages: nat) returns (r: Result<SyncResult, Code>, ghost start: Option<Coverage>)
    requires w.Valid() && !w.observed && maxPages >= 1
    modifies w
    ensures w.Valid()
    ensures w.fetches <= old(w.fetches) + 2 * maxPages
    ensures Accounted(old(w.begun), old(w.committed), old(w.discards), w.begun, w.committed, w.discards)
    ensures w.observed ==> r.Err? || r.value.status == Cancelled
    ensures r.Ok? ==> r.value.pages <= maxPages
    ensures r.Ok? && r.value.status == Complete ==> r.value.coverage.Some? && Synced(w, r.value.coverage)
    ensures r.Ok? && r.value.status == Complete ==>
              || r.value.coverage.value.checkpoint >= HeadOf(old(w.server), r.value.coverage.value.epoch)
              || (r.value.mode == Incremental && start.Some? && r.value.coverage.value.epoch == start.value.epoch
                  && start.value.continuation.Some? && r.value.coverage.value.checkpoint >= GoalOf(start.value))
    ensures start.Some? && Expired(start.value, old(w.clock)) && r.Ok? ==>
              r.value.status == Cancelled || r.value.mode == FromSnapshot
    ensures start.None? || (r.Ok? && r.value.mode == Incremental) ==> w.fetches <= old(w.fetches) + maxPages
    ensures r.Ok? && r.value.mode == Incremental && start.Some? && r.value.coverage.Some? ==>
              NoGap(old(w.server), start.value.epoch, start.value.checkpoint, r.value.coverage.value.checkpoint)
    ensures Answered(old(w.journal), w.journal, r, start, w.observed, Amiss(w))
    ensures Truthful(old(w.journal), w.journal, r, start, maxPages, w.observed)
    ensures r.Ok? && r.value.mode == FromSnapshot ==> Pursued(w.journal, r.value, maxPages)
  {
    hide World.Valid, CoverageShape, Evolves, Synced, NoGap, Unordered, Answered, Truthful, RefreshEnd, Explained;
    hide Stepped, Tallied, Amiss;
    var coverage := w.ReadCoverage();
    start := coverage;
    ghost var looked, was := w.journal, w.server;
    var stop := w.Cancelled();
    if stop {
      if coverage.Some? { NothingPassed(old(w.server), coverage.value.epoch, coverage.value.checkpoint); }
      StoppedAtOnce(old(w.journal), w.journal, start, maxPages, Amiss(w));
      return Ok(SyncResult(Cancelled, if coverage.None? then FromSnapshot else Incremental, 0, 0, coverage)), start;
    }
    if coverage.Some? {
      HeldShape(w);
      r := ApplyChanges(w, coverage.value, maxPages);
      PassAnswers(old(w.journal), looked, w.journal, r, start, w.observed, maxPages, w);
      HeadsGrow(old(w.server), was, coverage.value.epoch);
      EvolvesTransitive(old(w.server), was, w.server);
      if r.Ok? {
        NoGapEarlier(old(w.server), was, coverage.value.epoch, coverage.value.checkpoint, r.value.coverage.value.checkpoint);
      }
      if r.Ok? || !Resnapshot(r.error) { return; }
      ghost var failed, finding := w.journal, Unordered(w.readings);
      was := w.server;
      coverage := w.ReadCoverage();
      PassFailed(old(w.journal), looked, failed, w.journal, r.error, finding);
      EvolvesTransitive(old(w.server), was, w.server);
      was, looked := w.server, w.journal;
    }
    r := Refresh(w, coverage, maxPages);
    RefreshAnswers(old(w.journal), looked, w.journal, r, start, coverage, w.observed, maxPages, Amiss(w));
    if r.Ok? && r.value.status == Complete { HeadsGrow(old(w.server), was, r.value.coverage.value.epoch); }
  }

  lemma StoppedAtOnce(was: Journal, now: Journal, start: Option<Coverage>, maxPages: nat, finding: bool)
    requires now == was.(looks := was.looks + 1, seen := start)
    ensures var r := Ok(SyncResult(Cancelled, if start.None? then FromSnapshot else Incremental, 0, 0, start));
            Answered(was, now, r, start, true, finding) && Truthful(was, now, r, start, maxPages, true)
  {
  }

  /** The incremental pass settles the answer, unless it failed in one of two ways. */
  lemma PassAnswers(was: Journal, looked: Journal, now: Journal, r: Result<SyncResult, Code>, start: Option<Coverage>,
                    observed: bool, maxPages: nat, w: World)
    requires looked == was.(looks := was.looks + 1, seen := start) && start.Some?
    requires match r
             case Err(error) => Explained(looked, now, error, Unordered(w.readings)) && !observed
             case Ok(result) => Stepped(looked, now) && Tallied(looked, now, result, start) && result.mode == Incremental
                                && (result.status == Partial ==> result.pages == maxPages)
                                && (result.status == Cancelled ==> observed)
                                && (result.status == Complete ==> result.pages > 0)
    ensures (r.Err? && (r.error == CursorExpired || r.error == EpochChanged))
            || (Answered(was, now, r, start, observed, Amiss(w)) && Truthful(was, now, r, start, maxPages, observed))
  {
    hide Unordered;
  }

  /** The pass has failed in one of those, and the coverage has been read again. */
  lemma PassFailed(was: Journal, looked: Journal, failed: Journal, now: Journal, error: Code, finding: bool)
    requires looked == was.(looks := was.looks + 1, seen := looked.seen)
    requires Explained(looked, failed, error, finding) && error != PageInconsistent
    requires now == failed.(looks := failed.looks + 1, seen := now.seen)
    ensures now.failures == was.failures + [error] && now.looks == was.looks + 2 && now.requested == was.requested
  {
  }

  /** The answer is the refresh's. */
  lemma RefreshAnswers(was: Journal, from: Journal, now: Journal, r: Result<SyncResult, Code>, start: Option<Coverage>,
                       expected: Option<Coverage>, observed: bool, maxPages: nat, finding: bool)
    requires RefreshEnd(from, now, r, expected, observed, maxPages, finding) && from.requested == was.requested
    requires r.Ok? ==> r.value.mode == FromSnapshot
    requires from.seen == expected
    requires if start.None? then from.looks == was.looks + 1 && from.failures == was.failures && from.pages == was.pages
                                 && from.records == was.records
             else from.looks == was.looks + 2 && exists code :: (code == CursorExpired || code == EpochChanged)
                                                                && from.failures == was.failures + [code]
    ensures Answered(was, now, r, start, observed, finding)
    ensures Truthful(was, now, r, start, maxPages, observed)
  {
    if start.Some? { assert now.failures[..|from.failures|] == from.failures; }
  }

  /** What a run's result says is what was done: its counts are the pages and records put in place, a
      complete run reports the coverage it put in force, a snapshot's in place of the coverage read last,
      a partial one has spent its budget, and a cancelled one has seen the signal. */
  ghost predicate Truthful(was: Journal, now: Journal, r: Result<SyncResult, Code>, start: Option<Coverage>, maxPages: nat,
                           observed: bool)
  {
    r.Ok? ==>
      && (start.None? || r.value.mode == Incremental ==>
            r.value.pages == now.pages - was.pages && r.value.records == now.records - was.records)
      && (r.value.status == Complete ==>
            r.value.coverage == now.mine && (r.value.mode == FromSnapshot ==> now.over == now.seen))
      && (r.value.status == Partial ==> r.value.pages == maxPages)
      && (r.value.status == Cancelled ==> observed)
  }

  /** How a run answers for what its calls came to. Without coverage it asks for one snapshot, and for
      none if there is coverage and no call of the incremental pass fails; a pass that fails because the
      cursor has expired or the epoch has changed is followed by a new look at the coverage and one
      request for a snapshot, unless the signal stops it; any other failure of the pass is returned as
      it is. */
  ghost predicate Answered(was: Journal, now: Journal, r: Result<SyncResult, Code>, start: Option<Coverage>, stopped: bool,
                           finding: bool)
  {
    var n := |was.failures|;
    && was.failures <= now.failures
    && if start.None? then
         && now.looks == was.looks + 1 && OneSnapshot(was, now, r, stopped)
         && (r.Err? ==> Raised(was.failures, now.failures, r.error, finding))
         && (r.Ok? ==> r.value.mode == FromSnapshot && now.failures == was.failures)
       else if |now.failures| == n then
         && now.looks == was.looks + 1 && now.requested == was.requested
         && (r.Err? ==> r.error == PageInconsistent && finding)
         && (r.Ok? ==> r.value.mode == Incremental)
       else if now.failures[n] == CursorExpired || now.failures[n] == EpochChanged then
         && now.looks == was.looks + 2 && OneSnapshot(was, now, r, stopped)
         && (r.Err? ==> Raised(now.failures[..n + 1], now.failures, r.error, finding))
         && (r.Ok? ==> r.value.mode == FromSnapshot && |now.failures| == n + 1)
       else
         now.looks == was.looks + 1 && now.requested == was.requested && r == Err(now.failures[n]) && |now.failures| == n + 1
  }

  /** Every snapshot begun meanwhile was committed once or discarded once, not both. */
  predicate Accounted(begun0: nat, committed0: nat, discards0: nat, begun: nat, committed: nat, discards: nat) {
    && begun0 <= begun <= begun0 + 1 && committed0 <= committed && discards0 <= discards
    && (committed - committed0) + (discards - discards0) == begun - begun0
  }

  /** What stageSnapshot's result says about the replica. */
  ghost predicate StageOutcome(w: World, r: Result<SyncResult, Code>, maxPages: nat, commits: int)
    reads w
  {
    && (w.observed ==> r.Err? || r.value.status == Cancelled)
    && (r.Ok? ==>
          && r.value.pages <= maxPages && r.value.mode == FromSnapshot
          && (r.value.status == Complete ==> r.value.coverage.Some? && Synced(w, r.value.coverage) && commits == 1)
          && (r.value.status != Complete ==> r.value.coverage.None? && commits == 0))
    && (r.Err? ==> commits == 0)
  }
}
