/** One client's view of the running system: a server other parties use, a replica other clients
    of the same scope may also commit to, and a cancellation signal. Every await in the source
    is a call of Interfere; what lies between two of them is atomic, as it is in the source. */
module World {
  import opened Wrappers
  import opened History
  import opened Feeds
  import opened FeedSafety
  import opened SnapshotFeed
  import opened Replica
  import opened Exactness
  import Decimals
  import Paging

  class World {
    const filter: Filter
    /** The server's page limit and byte costs. */
    const limit: nat
    const sizeOf: Item -> nat
    const overheadOf: (string, Filter, nat, Option<Position>) -> nat
    const ttl: nat

    var server: Server
    var clock: int
    var coverage: Option<Coverage>
    /** The last generation given out; it is never given out again. */
    var issued: nat
    var rows: map<Key, Row>
    var staged: map<Ref, Staged>
    var aborted: bool

    /** Every change page any client of the scope has received. */
    var readings: seq<Reading>

    /** The snapshot the visible rows come from, and the pages applied to it since. */
    ghost var lineage: Lineage
    /** What this client's own calls have come to. */
    ghost var journal: Journal
    /** This client has seen the signal. */
    ghost var observed: bool
    /** Page requests this client has made, and its calls on the snapshot stage. */
    ghost var fetches: nat
    ghost var begun: nat
    ghost var committed: nat
    ghost var discards: nat

    constructor (filter: Filter, limit: nat, sizeOf: Item -> nat,
                 overheadOf: (string, Filter, nat, Option<Position>) -> nat, ttl: nat, server: Server)
      requires 1 <= limit <= Paging.MAX_PAGE_RECORDS && ServerOk(server)
      ensures Valid() && coverage == None && this.filter == filter && this.server == server && !aborted && !observed
      ensures fetches == begun == committed == discards == 0 && rows == map[] && staged == map[] && readings == []
    {
      this.filter, this.limit, this.sizeOf, this.overheadOf, this.ttl := filter, limit, sizeOf, overheadOf, ttl;
      this.server := server;
      clock, coverage, issued, rows, readings, staged, aborted := 0, None, 0, map[], [], map[], false;
      lineage, observed, journal := Lineage(map[], 0, []), false, Journal([], 0, 0, None, 0, 0, 0, None, None, 0, None);
      fetches, begun, committed, discards := 0, 0, 0, 0;
    }

    /** Holds at every await of every run: above all, the replica is a faithful copy, and what it
        holds is a snapshot with every page applied since. */
    ghost predicate Valid()
      reads this`server, this`coverage, this`issued, this`rows, this`lineage, this`readings
    {
      && 1 <= limit <= Paging.MAX_PAGE_RECORDS
      && ServerOk(server)
      && CoverageOk(server, filter, coverage, rows)
      && (coverage.Some? ==> coverage.value.generation == issued)
      && Descends(server, filter, coverage, rows, lineage)
      && forall i | 0 <= i < |readings| :: Usable(server, filter, coverage, issued, lineage, readings[i])
    }

    function Budget(): Budget
      reads this
    {
      Feeds.Budget(sizeOf, overheadOf, clock, ttl)
    }

    /** Any number of steps of anyone else: writers append, the purger drops change rows, epochs
        rotate, snapshots come and are invalidated, other clients of the same scope commit
        snapshots, read and apply pages, or drop staged snapshots, a commit of another scope
        invalidates what another epoch left, the signal is raised. */
    method Interfere(mine: Option<Ref>)
      requires Valid()
      modifies this`server, this`clock, this`coverage, this`issued, this`rows, this`lineage, this`readings,
               this`staged, this`aborted
      ensures Valid()
      ensures Evolves(old(server), server) && clock >= old(clock) && Later(old(coverage), old(issued), coverage, issued)
      ensures old(readings) <= readings
      ensures old(aborted) ==> aborted
      ensures Kept(mine, old(staged), staged)
    {
      hide Valid, Evolves;
      ServerReflexive(this);
      var steps: nat := *;
      while steps > 0
        invariant Valid() && Evolves(old(server), server) && clock >= old(clock) && (old(aborted) ==> aborted)
        invariant Later(old(coverage), old(issued), coverage, issued) && old(readings) <= readings
        invariant Kept(mine, old(staged), staged)
      {
        ghost var was := server;
        Step(mine);
        EvolvesTransitive(old(server), was, server);
        steps := steps - 1;
      }
    }

    /** One step of anyone else. */
    method Step(mine: Option<Ref>)
      requires Valid()
      modifies this`server, this`clock, this`coverage, this`issued, this`rows, this`lineage, this`readings,
               this`staged, this`aborted
      ensures Valid() && Evolves(old(server), server) && clock >= old(clock) && (old(aborted) ==> aborted)
      ensures Later(old(coverage), old(issued), coverage, issued) && old(readings) <= readings
      ensures Kept(mine, old(staged), staged)
    {
      hide Valid, Evolves;
      ServerReflexive(this);
      var kind: int := *;
      if kind == 0 {
        var event: Event := *;
        var text: Content := *;
        Write(event, text);
      } else if kind == 1 {
        var dropped: set<nat> := *;
        Purge(dropped);
      } else if kind == 2 {
        var name: string := *;
        var begin: Epoch := *;
        Rotate(name, begin);
      } else if kind == 3 {
        var id: string := *;
        Invalidate(id);
      } else if kind == 4 {
        var id: string := *;
        OtherCommits(id);
      } else if kind == 5 {
        var pageLimit: nat := *;
        OtherReads(pageLimit);
      } else if kind == 6 {
        var i: nat := *;
        OtherApplies(i);
      } else if kind == 7 {
        var dropped: set<Ref> := *;
        staged := staged - dropped;
      } else if kind == 8 {
        var epoch: string := *;
        OtherScope(epoch);
      } else if kind == 9 {
        var later: int := *;
        if later > clock { clock := later; }
      } else {
        aborted := true;
      }
    }

    /** Another writer's event in the current epoch: a new record, a state change of a record
        never deleted, or a deletion, perhaps not the first. */
    method Write(event: Event, text: Content)
      requires Valid()
      modifies this`server
      ensures Valid() && Evolves(old(server), server)
    {
      var e := server.epochs[server.current];
      var content := if event.key in e.content then e.content else e.content[event.key := text];
      if if event.Deletion? then event.key in e.content
         else forall i | 0 <= i < |e.log| :: e.log[i] != Deletion(event.key) {
        var e' := Epoch(e.log + [event], content, e.retained + {|e.log| + 1});
        Replace(e');
      }
    }

    method Purge(dropped: set<nat>)
      requires Valid()
      modifies this`server
      ensures Valid() && Evolves(old(server), server)
    {
      var e := server.epochs[server.current];
      Replace(Epoch(e.log, e.content, e.retained - dropped));
    }

    /** Put a grown history in place of the current one. */
    method Replace(e: Epoch)
      requires Valid() && Grows(server.epochs[server.current], e)
      modifies this`server
      ensures Valid() && Evolves(old(server), server)
    {
      ghost var was := server;
      server := server.(epochs := server.epochs[server.current := e]);
      forall id | id in server.snapshots
        ensures SnapshotOk(server.epochs[server.snapshots[id].epoch], server.snapshots[id])
      {
        var s := server.snapshots[id];
        if s.epoch == server.current { SnapshotStable(was.epochs[s.epoch], e, s); }
      }
      HeldStable(was, server, filter, coverage, issued, rows, lineage, readings);
    }

    /** Delete-all or recovery: a new epoch, which may begin with any history - an allocator that
        goes on where it was, surviving records, change rows kept or gone - and every snapshot
        invalidated. */
    method Rotate(name: string, begin: Epoch)
      requires Valid()
      modifies this`server
      ensures Valid() && Evolves(old(server), server)
    {
      if name !in server.epochs && EpochOk(begin) {
        ghost var was := server;
        server := Server(name, server.epochs[name := begin],
                         map id | id in server.snapshots :: server.snapshots[id].(active := false));
        HeldStable(was, server, filter, coverage, issued, rows, lineage, readings);
      }
    }

    method Invalidate(id: string)
      requires Valid()
      modifies this`server
      ensures Valid() && Evolves(old(server), server)
    {
      if id in server.snapshots {
        ghost var was := server;
        server := server.(snapshots := server.snapshots[id := server.snapshots[id].(active := false)]);
        HeldStable(was, server, filter, coverage, issued, rows, lineage, readings);
      }
    }

    /** Another synchronization of the same scope commits a snapshot it has staged whole. */
    method OtherCommits(id: string)
      requires Valid()
      modifies this`coverage, this`issued, this`rows, this`lineage
      ensures Valid() && Later(old(coverage), old(issued), coverage, issued)
    {
      if id in server.snapshots && server.snapshots[id].filter == filter && issued < Decimals.UINT64_MAX {
        var s := server.snapshots[id];
        StagedIsExact(server.epochs[s.epoch], s);
        Install(s.epoch, s.watermark, Apply(map[], Bodies(s.members)));
      }
    }

    /** Another scope of the owner commits a snapshot of some epoch: coverage and stages of other
        epochs go, and with the coverage what is visible under it. */
    method OtherScope(epoch: string)
      requires Valid()
      modifies this`coverage, this`issued, this`rows, this`staged
      ensures Valid() && Later(old(coverage), old(issued), coverage, issued)
      ensures coverage == if old(coverage).Some? && old(coverage).value.epoch == epoch then old(coverage) else None
      ensures forall r | r in staged :: r in old(staged) && staged[r] == old(staged)[r] && r.epoch == epoch
    {
      hide Faithful, ServerOk, Answers, PageExact, Follows, Exact;
      staged := map r | r in staged && r.epoch == epoch :: staged[r];
      if coverage.Some? && coverage.value.epoch != epoch {
        UsableAll(server, filter, coverage, issued, lineage, None, issued + 1, lineage, readings);
        coverage, issued, rows := None, issued + 1, map[];
      }
    }

    /** A snapshot's rows become the visible ones, under the next generation. */
    method Install(epoch: string, checkpoint: nat, whole: map<Key, Row>)
      requires Valid() && epoch in server.epochs
      requires Faithful(server.epochs[epoch], filter, whole, checkpoint, checkpoint)
      requires Exact(server.epochs[epoch], filter, whole, checkpoint)
      modifies this`coverage, this`issued, this`rows, this`lineage
      ensures Valid() && Later(old(coverage), old(issued), coverage, issued) && lineage == Lineage(whole, checkpoint, [])
      ensures rows == whole
      ensures coverage == Some(Coverage(epoch, checkpoint, old(issued) + 1, None))
    {
      hide Faithful, ServerOk, Answers, PageExact, Follows, Exact;
      ghost var was, version, before := coverage, issued, lineage;
      issued := issued + 1;
      coverage := Some(Coverage(epoch, checkpoint, issued, None));
      rows, lineage := whole, Lineage(whole, checkpoint, []);
      InstalledOk(server, filter, coverage.value, whole);
      UsableAll(server, filter, was, version, before, coverage, issued, lineage, readings);
    }

    /** Another synchronization asks for the page after the coverage in force, and gets it. */
    method OtherReads(pageLimit: nat)
      requires Valid()
      modifies this`readings
      ensures Valid() && old(readings) <= readings
    {
      if coverage.Some? && 1 <= pageLimit <= Paging.MAX_PAGE_RECORDS {
        var answer := Serve(coverage.value, pageLimit);
      }
    }

    /** The server's answer to a request for what follows c; a page is noted as received. */
    method Serve(c: Coverage, pageLimit: nat) returns (r: Result<Page, Code>)
      requires Valid() && CoverageShape(server, filter, c) && InForce(c, coverage, issued)
      requires 1 <= pageLimit <= Paging.MAX_PAGE_RECORDS
      modifies this`readings
      ensures Valid() && old(readings) <= readings
      ensures r.Ok? ==> Received(readings, c, r.value)
      ensures r.Ok? && c.continuation.None? ==> r.value.watermark == HeadOf(server, c.epoch)
      ensures r.Ok? ==> NoGap(server, c.epoch, c.checkpoint, r.value.checkpoint)
      ensures Expired(c, clock) ==> r == Err(CursorExpired)
      ensures r == Feeds.ListChanges(server.epochs[server.current], server.current, filter, RequestFor(c), pageLimit, Budget())
    {
      hide Usable, CoverageOk, Descends, CoverageShape, EpochOk;
      RequestAuthentic(server, filter, c);
      var e := server.epochs[server.current];
      r := Feeds.ListChanges(e, server.current, filter, RequestFor(c), pageLimit, Budget());
      if Expired(c, clock) { StallEndsAtExpiry(e, server.current, filter, c, pageLimit, Budget()); }
      if r.Ok? {
        ServedUsable(server, filter, coverage, issued, rows, lineage, c, pageLimit, Budget(), r.value);
        readings := readings + [Reading(c, r.value, e)];
        assert readings[|readings| - 1] == Reading(c, r.value, e);
      }
    }

    /** Another synchronization applies a page it has received. */
    method OtherApplies(i: nat)
      requires Valid()
      modifies this`coverage, this`issued, this`rows, this`lineage
      ensures Valid() && Later(old(coverage), old(issued), coverage, issued)
    {
      if i < |readings| && OrderedEvents(readings[i].page).Ok? && coverage == Some(readings[i].expected)
         && issued < Decimals.UINT64_MAX {
        Take(readings[i]);
      }
    }

    /** A received page enters the replica: rows, checkpoint and continuation move together. */
    method Take(reading: Reading)
      requires Valid() && reading in readings && OrderedEvents(reading.page).Ok? && coverage == Some(reading.expected)
      modifies this`coverage, this`issued, this`rows, this`lineage
      ensures Valid() && Later(old(coverage), old(issued), coverage, issued)
      ensures coverage == Some(Advanced(reading.expected, reading.page))
      ensures rows == Apply(old(rows), OrderedEvents(reading.page).value)
      ensures lineage == Extended(old(lineage), reading)
      ensures CoverageShape(server, filter, coverage.value)
    {
      hide Faithful, ServerOk, Answers, PageExact, Follows, Exact, Apply, OrderedEvents, Replay;
      ghost var was, version, before := coverage, issued, lineage;
      TakenOk(server, filter, coverage, issued, rows, lineage, reading);
      coverage, rows := Some(Advanced(reading.expected, reading.page)), Apply(rows, OrderedEvents(reading.page).value);
      issued, lineage := issued + 1, Extended(lineage, reading);
      UsableAll(server, filter, was, version, before, coverage, issued, lineage, readings);
    }

    /** A call may fail on the way, or in the adapter itself, for no reason this model knows. */
    method Outage() returns (code: Option<Code>)
      modifies this`journal
      ensures journal == old(journal).(outages := old(journal).outages + (if code.Some? then 1 else 0))
    {
      code := *;
      if code.Some? { journal := journal.(outages := journal.outages + 1); }
    }

    /** The end of a call, its failure noted. */
    ghost method Note(error: Option<Code>)
      modifies this`journal
      ensures journal == Noted(old(journal), error)
    {
      journal := Noted(journal, error);
    }

    // -------------------------------------------------------------- requests to the server

    /** One change request for a coverage this replica has held. The answer is the server's, as the
        history was when the request was served; what it says stays true. */
    method ListChanges(c: Coverage) returns (r: Result<Page, Code>)
      requires Valid() && CoverageShape(server, filter, c) && InForce(c, coverage, issued)
      modifies this`server, this`clock, this`coverage, this`issued, this`rows, this`lineage, this`readings,
               this`staged, this`aborted, this`fetches, this`journal
      ensures Valid() && CoverageShape(server, filter, c) && InForce(c, coverage, issued) && Evolves(old(server), server)
      ensures fetches == old(fetches) + 1 && clock >= old(clock)
      ensures Logged(old(journal), journal, ErrorOf(r))
      ensures journal.outages == old(journal).outages ==>
                r == old(Feeds.ListChanges(server.epochs[server.current], server.current, filter, RequestFor(c), limit, Budget()))
      ensures r.Ok? ==> Received(readings, c, r.value)
      ensures r.Ok? && c.continuation.None? ==> r.value.watermark >= HeadOf(old(server), c.epoch)
      ensures r.Ok? ==> NoGap(old(server), c.epoch, c.checkpoint, r.value.checkpoint)
      ensures Expired(c, old(clock)) ==> r.Err?
    {
      hide Valid, CoverageShape, Evolves, Feeds.ListChanges;
      fetches := fetches + 1;
      CurrentKnown(this);
      r := ServeChanges(c);
      Note(ErrorOf(r));
      ghost var served, held := server, readings;
      Interfere(None);
      CoverageShapeStable(served, server, filter, c);
    }

    /** The server's side of one change request, or a failure on the way. */
    method ServeChanges(c: Coverage) returns (r: Result<Page, Code>)
      requires Valid() && CoverageShape(server, filter, c) && InForce(c, coverage, issued)
      modifies this`readings, this`journal
      ensures Valid()
      ensures journal == old(journal).(outages := journal.outages) && old(journal).outages <= journal.outages
      ensures journal.outages <= old(journal).outages + (if r.Err? then 1 else 0)
      ensures journal.outages == old(journal).outages ==>
                r == Feeds.ListChanges(server.epochs[server.current], server.current, filter, RequestFor(c), limit, Budget())
      ensures r.Ok? ==> Received(readings, c, r.value)
      ensures r.Ok? && c.continuation.None? ==> r.value.watermark == HeadOf(server, c.epoch)
      ensures r.Ok? ==> NoGap(server, c.epoch, c.checkpoint, r.value.checkpoint)
      ensures Expired(c, clock) ==> r.Err?
    {
      var outage := Outage();
      if outage.Some? { return Err(outage.value); }
      LimitInRange(this);
      r := Serve(c, limit);
    }

    /** The server captures its current view; a quota or the network may make it fail. */
    method CreateSnapshot() returns (r: Result<Created, Code>, ghost members: seq<Member>)
      requires Valid()
      modifies this`server, this`clock, this`coverage, this`issued, this`rows, this`lineage, this`readings,
               this`staged, this`aborted, this`journal
      ensures Valid()
      ensures journal == Noted(old(journal), ErrorOf(r)).(requested := old(journal).requested + 1, outages := journal.outages,
                                                          created := if r.Ok? then Some(r.value) else old(journal).created)
      ensures r.Err? ==> journal.outages == old(journal).outages + 1
      ensures r.Ok? ==> journal.outages == old(journal).outages
      ensures r.Ok? ==> Captured(server, filter, r.value, members)
                        && r.value.watermark >= HeadOf(old(server), r.value.epoch)
    {
      hide ServerOk, CoverageOk, Captured, Evolves;
      r, members := Capture();
      Note(ErrorOf(r));
      journal := journal.(requested := journal.requested + 1, created := if r.Ok? then Some(r.value) else journal.created);
      ghost var before := server;
      Interfere(None);
      if r.Ok? { CapturedStable(before, server, filter, r.value, members); }
    }

    /** An id nobody has been given. */
    method NewId() returns (id: string)
      ensures id !in server.snapshots
    {
      id := *;
      ghost var tried: set<string> := {};
      while id in server.snapshots
        invariant tried <= server.snapshots.Keys && forall t | t in tried :: |t| < |id|
        decreases |server.snapshots.Keys - tried|
      {
        tried := tried + {id};
        assert server.snapshots.Keys - tried < server.snapshots.Keys - (tried - {id});
        id := id + "-";
      }
    }

    method Capture() returns (r: Result<Created, Code>, ghost members: seq<Member>)
      requires Valid()
      modifies this`server, this`journal
      ensures Valid() && Evolves(old(server), server)
      ensures journal == old(journal).(outages := old(journal).outages + (if r.Err? then 1 else 0))
      ensures r.Ok? ==> Captured(server, filter, r.value, members)
                        && r.value.watermark == HeadOf(old(server), r.value.epoch)
    {
      members := [];
      var outage := Outage();
      if outage.Some? {
        ServerReflexive(this);
        return Err(outage.value), [];
      }
      var id := NewId();
      var e := server.epochs[server.current];
      var taken := TakeSnapshot(e, filter);
      members := taken;
      var lifetime: nat := *;
      var active: bool := *;
      ghost var before := server;
      var s := Snapshot(server.current, filter, |e.log|, taken, true, clock + lifetime);
      server := server.(snapshots := server.snapshots[id := s]);
      HeldStable(before, server, filter, coverage, issued, rows, lineage, readings);
      r := Ok(Created(id, s.epoch, s.watermark, active));
    }

    /** One page of a snapshot this client created and has read the first i members of. */
    method ListSnapshotPage(created: Created, cursor: Option<Cursor>, ghost members: seq<Member>, ghost i: nat, mine: Ref)
      returns (r: Result<Page, Code>)
      requires Valid() && Captured(server, filter, created, members) && Resumes(members, cursor, i)
      modifies this`server, this`clock, this`coverage, this`issued, this`rows, this`lineage, this`readings,
               this`staged, this`aborted, this`fetches, this`journal
      ensures Valid() && Captured(server, filter, created, members)
      ensures Kept(Some(mine), old(staged), staged)
      ensures fetches == old(fetches) + 1
      ensures Logged(old(journal), journal, ErrorOf(r))
      ensures journal.outages == old(journal).outages ==>
                r == old(SnapshotFeed.ListSnapshotPage(server.epochs[server.current], server.snapshots[created.snapshotId], cursor,
                                                       limit, Budget()))
      ensures r.Ok? ==> NextMembers(members, i, r.value) && r.value.epoch == created.epoch
                        && r.value.watermark == created.watermark == r.value.checkpoint
    {
      hide ServerOk, CoverageOk, Captured, NextMembers, Resumes, Evolves, SnapshotFeed.ListSnapshotPage;
      fetches := fetches + 1;
      CurrentKnown(this);
      CapturedKnown(server, filter, created, members);
      r := ServeSnapshotPage(created, cursor, members, i);
      Note(ErrorOf(r));
      ghost var before := server;
      Interfere(Some(mine));
      CapturedStable(before, server, filter, created, members);
    }

    method ServeSnapshotPage(created: Created, cursor: Option<Cursor>, ghost members: seq<Member>, ghost i: nat)
      returns (r: Result<Page, Code>)
      requires Valid() && Captured(server, filter, created, members) && Resumes(members, cursor, i)
      modifies this`journal
      ensures Valid()
      ensures journal == old(journal).(outages := journal.outages) && old(journal).outages <= journal.outages
      ensures journal.outages <= old(journal).outages + (if r.Err? then 1 else 0)
      ensures journal.outages == old(journal).outages ==>
                r == SnapshotFeed.ListSnapshotPage(server.epochs[server.current], server.snapshots[created.snapshotId], cursor,
                                                   limit, Budget())
      ensures r.Ok? ==> NextMembers(members, i, r.value) && r.value.epoch == created.epoch
                        && r.value.watermark == created.watermark == r.value.checkpoint
    {
      var outage := Outage();
      if outage.Some? { return Err(outage.value); }
      var s := server.snapshots[created.snapshotId];
      r := SnapshotFeed.ListSnapshotPage(server.epochs[server.current], s, cursor, limit, Budget());
      if r.Ok? {
        ServedSnapshotPage(server.epochs[server.current], s, cursor, i, limit, Budget(), r.value);
      }
    }

    /** An await while a coverage is in hand, and the check of the signal after it. */
    method AwaitCoverage(c: Coverage) returns (stop: bool)
      requires Valid() && CoverageShape(server, filter, c) && InForce(c, coverage, issued)
      modifies this`server, this`clock, this`coverage, this`issued, this`rows, this`lineage, this`readings,
               this`staged, this`aborted,
               this`observed
      ensures Valid() && CoverageShape(server, filter, c) && observed == (old(observed) || stop)
      ensures Evolves(old(server), server) && InForce(c, coverage, issued) && clock >= old(clock)
    {
      hide Valid, CoverageShape, Evolves;
      ghost var before := server;
      Interfere(None);
      CoverageShapeStable(before, server, filter, c);
      stop := Cancelled();
    }

    /** An await while a snapshot is being staged, and the check of the signal after it. */
    method AwaitStage(created: Created, ghost members: seq<Member>, mine: Ref) returns (stop: bool)
      requires Valid() && Captured(server, filter, created, members)
      modifies this`server, this`clock, this`coverage, this`issued, this`rows, this`lineage, this`readings,
               this`staged, this`aborted,
               this`observed
      ensures Valid() && Captured(server, filter, created, members) && observed == (old(observed) || stop)
      ensures Kept(Some(mine), old(staged), staged)
    {
      hide Valid, Captured, Evolves;
      ghost var before := server;
      Interfere(Some(mine));
      CapturedStable(before, server, filter, created, members);
      stop := Cancelled();
    }

    // -------------------------------------------------------------- the local replica

    /** Rows, checkpoint and continuation move together, and only from the expected version. */
    method ApplyIncrementalPage(epoch: string, records: seq<Item>, checkpoint: nat, continuation: Option<Continuation>,
                                expected: Coverage, ghost reading: Reading) returns (r: Result<Coverage, Code>)
      requires Valid() && !observed
      requires reading in readings && expected == reading.expected && OrderedEvents(reading.page) == Ok(records)
      requires epoch == reading.page.epoch && checkpoint == reading.page.checkpoint
      requires continuation == ContinuationOf(reading.page)
      modifies this`coverage, this`issued, this`rows, this`lineage, this`journal
      ensures Valid() && Later(old(coverage), old(issued), coverage, issued)
      ensures r.Ok? ==> old(coverage) == Some(expected) && coverage == Some(r.value)
                        && r.value == Coverage(epoch, checkpoint, expected.generation + 1, continuation)
                        && CoverageShape(server, filter, r.value)
                        && rows == Apply(old(rows), records) && lineage == Extended(old(lineage), reading)
                        && journal == Moved(old(journal), |records|, r.value)
      ensures r.Err? ==> coverage == old(coverage) && rows == old(rows) && lineage == old(lineage)
                         && Logged(old(journal), journal, Some(r.error))
      ensures journal.outages == old(journal).outages ==>
                && (r == Err(ReplicaConflict) <==> old(coverage) != Some(expected))
                && (r == Err(GenerationExhausted) <==>
                      old(coverage) == Some(expected) && expected.generation >= Decimals.UINT64_MAX)
                && (r.Err? ==> r.error in {ReplicaConflict, GenerationExhausted})
    {
      hide Faithful, ServerOk, Answers, PageExact, Follows, Exact, Apply, OrderedEvents, Replay;
      var outage := Outage();
      r := if outage.Some? then Err(outage.value)
           else if coverage != Some(expected) then Err(ReplicaConflict)
           else if expected.generation >= Decimals.UINT64_MAX then Err(GenerationExhausted)
           else Ok(Coverage(epoch, checkpoint, expected.generation + 1, continuation));
      if r.Err? {
        Note(Some(r.error));
        return;
      }
      ghost var was, version, before := coverage, issued, lineage;
      TakenOk(server, filter, coverage, issued, rows, lineage, reading);
      coverage, issued, rows, lineage := Some(r.value), issued + 1, Apply(rows, records), Extended(lineage, reading);
      journal := Moved(journal, |records|, r.value);
      UsableAll(server, filter, was, version, before, coverage, issued, lineage, readings);
    }

    /** readCoverage. */
    method ReadCoverage() returns (c: Option<Coverage>)
      requires Valid()
      modifies this`server, this`clock, this`coverage, this`issued, this`rows, this`lineage, this`readings,
               this`staged, this`aborted, this`journal
      ensures Valid() && Evolves(old(server), server) && clock >= old(clock) && c == coverage
      ensures journal == old(journal).(looks := old(journal).looks + 1, seen := c)
    {
      hide Valid, Evolves;
      Interfere(None);
      c := coverage;
      journal := journal.(looks := journal.looks + 1, seen := c);
    }

    method BeginSnapshot(ref: Ref, expected: Option<Coverage>) returns (r: Result<(), Code>)
      requires Valid() && !observed
      modifies this`staged, this`begun, this`journal
      ensures Valid() && Logged(old(journal), journal, ErrorOf(r))
      ensures r.Ok? ==> ref !in old(staged) && staged == old(staged)[ref := Staged(expected, map[])] && begun == old(begun) + 1
      ensures r.Err? ==> staged == old(staged) && begun == old(begun)
      ensures journal.outages == old(journal).outages ==>
                && (r == Err(ReplicaConflict) <==> coverage != expected || ref in old(staged))
                && (r.Err? ==> r.error == ReplicaConflict)
    {
      var outage := Outage();
      r := if outage.Some? then Err(outage.value)
           else if coverage != expected || ref in staged then Err(ReplicaConflict) else Ok(());
      Note(ErrorOf(r));
      if r.Err? { return; }
      staged := staged[ref := Staged(expected, map[])];
      begun := begun + 1;
    }

    /** Staged rows stay out of sight: rows and coverage are not in the frame. */
    method StageSnapshotPage(ref: Ref, records: seq<Item>) returns (r: Result<(), Code>)
      requires Valid() && !observed
      modifies this`staged, this`journal
      ensures Valid()
      ensures r.Ok? ==> ref in old(staged)
                        && staged == old(staged)[ref := Staged(old(staged)[ref].expected, Apply(old(staged)[ref].rows, records))]
                        && journal == old(journal).(pages := old(journal).pages + 1,
                                                    records := old(journal).records + |records|)
      ensures r.Err? ==> staged == old(staged) && Logged(old(journal), journal, Some(r.error))
      ensures journal.outages == old(journal).outages ==>
                (r.Err? <==> ref !in old(staged)) && (r.Err? ==> r.error == ReplicaConflict)
    {
      var outage := Outage();
      r := if outage.Some? then Err(outage.value) else if ref !in staged then Err(ReplicaConflict) else Ok(());
      Note(ErrorOf(r));
      if r.Err? { return; }
      staged := staged[ref := Staged(staged[ref].expected, Apply(staged[ref].rows, records))];
      journal := journal.(pages := journal.pages + 1, records := journal.records + |records|);
    }

    /** The staged rows replace the visible ones in one step, if nothing was committed since the
        stage began; stages of other epochs go. */
    method CommitSnapshot(ref: Ref, checkpoint: nat) returns (r: Result<Coverage, Code>)
      requires Valid() && !observed
      requires ref.epoch in server.epochs
      requires ref in staged ==> Faithful(server.epochs[ref.epoch], filter, staged[ref].rows, checkpoint, checkpoint)
                                 && Exact(server.epochs[ref.epoch], filter, staged[ref].rows, checkpoint)
      modifies this`coverage, this`issued, this`rows, this`lineage, this`staged, this`committed, this`journal
      ensures Valid() && Later(old(coverage), old(issued), coverage, issued)
      ensures r.Ok? ==> ref in old(staged) && old(coverage) == old(staged)[ref].expected
                        && coverage == Some(r.value) && rows == old(staged)[ref].rows
                        && r.value == Coverage(ref.epoch, checkpoint, old(issued) + 1, None)
                        && lineage == Lineage(rows, checkpoint, [])
                        && staged == (map x | x in old(staged) && x.epoch == ref.epoch && x != ref :: old(staged)[x])
                        && committed == old(committed) + 1
                        && journal == old(journal).(mine := Some(r.value), over := old(coverage), since := 0)
      ensures r.Err? ==> coverage == old(coverage) && rows == old(rows) && lineage == old(lineage)
                         && staged == old(staged) && committed == old(committed)
                         && Logged(old(journal), journal, Some(r.error))
      ensures journal.outages == old(journal).outages ==>
                && (r == Err(ReplicaConflict) <==> ref !in old(staged) || old(coverage) != old(staged)[ref].expected)
                && (r.Err? && r.error != ReplicaConflict ==> r.error == GenerationExhausted && issued >= Decimals.UINT64_MAX)
    {
      hide Valid, Faithful, Exact;
      var outage := Outage();
      var refused := if outage.Some? then outage
                     else if ref !in staged || coverage != staged[ref].expected then Some(ReplicaConflict)
                     else if issued >= Decimals.UINT64_MAX then Some(GenerationExhausted) else None;
      Note(refused);
      if refused.Some? { return Err(refused.value); }
      ghost var replaced := coverage;
      Install(ref.epoch, checkpoint, staged[ref].rows);
      staged := Outstanding(staged, ref);
      committed := committed + 1;
      journal := journal.(mine := coverage, over := replaced, since := 0);
      r := Ok(coverage.value);
    }

    method DiscardSnapshot(ref: Ref) returns (r: Result<(), Code>)
      requires Valid()
      modifies this`staged, this`discards, this`journal
      ensures Valid() && discards == old(discards) + 1 && Logged(old(journal), journal, ErrorOf(r))
      ensures r.Ok? ==> staged == old(staged) - {ref}
      ensures r.Err? ==> staged == old(staged) && journal.outages == old(journal).outages + 1
    {
      discards := discards + 1;
      var outage := Outage();
      r := if outage.Some? then Err(outage.value) else Ok(());
      Note(outage);
      if r.Ok? { staged := staged - {ref}; }
    }

    /** cancelled(signal). */
    method Cancelled() returns (yes: bool)
      requires Valid()
      modifies this`observed
      ensures Valid() && yes == aborted && observed == (old(observed) || yes)
    {
      yes := aborted;
      observed := observed || yes;
    }
  }

  /** The codes this client's calls have failed with, in order, and how many of them for no reason of
      the server's or the replica's; snapshots it has asked for and the last it was given; pages and
      records it has put into the replica or a stage, and pages into the replica since its last commit;
      the last coverage it has put in force, and the one its last commit replaced; how often it has read
      the coverage, and what it read last. */
  datatype Journal = Journal(failures: seq<Code>, outages: nat, requested: nat, created: Option<Created>, pages: nat,
                             records: nat, since: nat, mine: Option<Coverage>, over: Option<Coverage>, looks: nat,
                             seen: Option<Coverage>)

  function ErrorOf<T>(r: Result<T, Code>): Option<Code> {
    if r.Err? then Some(r.error) else None
  }

  function Noted(j: Journal, error: Option<Code>): Journal {
    if error.Some? then j.(failures := j.failures + [error.value]) else j
  }

  /** A call that changed nothing else in the journal has ended, failing with error if it failed. */
  predicate Logged(was: Journal, now: Journal, error: Option<Code>) {
    && now == Noted(was, error).(outages := now.outages)
    && was.outages <= now.outages <= was.outages + (if error.Some? then 1 else 0)
  }

  /** One more page has been applied. */
  function Moved(j: Journal, records: nat, c: Coverage): Journal {
    j.(pages := j.pages + 1, records := j.records + records, since := j.since + 1, mine := Some(c))
  }

  /** The snapshot the visible rows were installed from, with its checkpoint, and the pages applied
      to them since. */
  datatype Lineage = Lineage(rows: map<Key, Row>, checkpoint: nat, trail: seq<Served>)

  /** A page as a client of the scope received it: the coverage it asked for, and the history the
      page was served from. */
  datatype Reading = Reading(expected: Coverage, page: Page, past: Epoch)

  /** Versions only move on: as long as no generation was given out or taken away, the coverage is
      the same. */
  predicate Later(was: Option<Coverage>, before: nat, now: Option<Coverage>, issued: nat) {
    before <= issued && (before == issued ==> now == was)
  }

  /** c is the version in force, or one that will never be again. */
  predicate InForce(c: Coverage, now: Option<Coverage>, issued: nat) {
    (now == Some(c) && c.generation == issued) || c.generation < issued
  }

  function ContinuationOf(page: Page): Option<Continuation> {
    if page.hasMore && page.nextCursor.Some? then Some(Continuation(page.nextCursor.value, page.watermark)) else None
  }

  /** The coverage that applying page makes of c. */
  function Advanced(c: Coverage, page: Page): Coverage {
    Coverage(page.epoch, page.checkpoint, c.generation + 1, ContinuationOf(page))
  }

  function Extended(l: Lineage, r: Reading): Lineage {
    l.(trail := l.trail + [Served(r.past, r.expected.checkpoint, r.page)])
  }

  /** The stages a commit of ref leaves. */
  function Outstanding(staged: map<Ref, Staged>, ref: Ref): map<Ref, Staged> {
    map r | r in staged && r != ref && r.epoch == ref.epoch :: staged[r]
  }

  /** Some client asked for what follows c and received this page. */
  predicate Received(readings: seq<Reading>, c: Coverage, page: Page) {
    exists i :: 0 <= i < |readings| && readings[i].expected == c && readings[i].page == page
  }

  /** c is in the middle of a pass whose cursor is no longer honoured. */
  predicate Expired(c: Coverage, clock: int) {
    c.continuation.Some? && c.continuation.value.cursor.expiry <= clock
  }

  /** Of the sequences in (from, to] that an epoch had, none had been purged. */
  predicate NoGap(s: Server, epoch: string, from: nat, to: nat) {
    epoch in s.epochs ==>
      forall q | from < q <= to && q <= |s.epochs[epoch].log| :: q in s.epochs[epoch].retained
  }

  /** What is retained now was retained before. */
  lemma NoGapEarlier(a: Server, b: Server, epoch: string, from: nat, to: nat)
    requires Evolves(a, b) && NoGap(b, epoch, from, to)
    ensures NoGap(a, epoch, from, to)
  {
  }

  /** The visible rows are an exact snapshot with the pages of the trail applied in turn. */
  ghost predicate Descends(s: Server, f: Filter, c: Option<Coverage>, rows: map<Key, Row>, l: Lineage) {
    c.Some? ==>
      && c.value.epoch in s.epochs
      && Exact(s.epochs[c.value.epoch], f, l.rows, l.checkpoint)
      && Follows(s.epochs[c.value.epoch], f, l.checkpoint, l.trail, c.value.checkpoint)
      && rows == Replay(l.rows, l.trail)
  }

  /** A page that answers for what follows c, and whose continuation follows on from it. */
  ghost predicate Answers(s: Server, f: Filter, c: Coverage, page: Page)
    requires ServerOk(s)
  {
    && c.epoch in s.epochs && page.epoch == c.epoch
    && PageSound(s.epochs[c.epoch], f, c.checkpoint, page)
    && Continues(f, c.checkpoint, page)
    && (c.continuation.Some? ==> page.watermark == c.continuation.value.watermark)
    && page.watermark >= GoalOf(c)
  }

  /** What a received page is good for: it answers for what follows the coverage it was asked for,
      and as long as that coverage is in force, it follows on from everything applied so far. */
  ghost predicate Usable(s: Server, f: Filter, c: Option<Coverage>, issued: nat, l: Lineage, r: Reading)
    requires ServerOk(s)
  {
    && CoverageShape(s, f, r.expected) && Answers(s, f, r.expected, r.page)
    && EpochOk(r.past) && Grows(r.past, s.epochs[r.expected.epoch])
    && r.page.watermark <= |r.past.log| && PageExact(r.past, f, r.expected.checkpoint, r.page)
    && InForce(r.expected, c, issued)
    && (c == Some(r.expected) ==> Follows(r.past, f, l.checkpoint, l.trail, r.expected.checkpoint))
  }

  ghost predicate Captured(s: Server, f: Filter, c: Created, members: seq<Member>) {
    && c.snapshotId in s.snapshots
    && var snap := s.snapshots[c.snapshotId];
       snap.epoch == c.epoch && snap.watermark == c.watermark && snap.filter == f && snap.members == members
  }

  lemma ServerReflexive(w: World)
    requires w.Valid()
    ensures Evolves(w.server, w.server)
  {
  }

  lemma CurrentKnown(w: World)
    requires w.Valid()
    ensures w.server.current in w.server.epochs && EpochOk(w.server.epochs[w.server.current])
    ensures 1 <= w.limit <= Paging.MAX_PAGE_RECORDS
  {
  }

  lemma CapturedKnown(s: Server, f: Filter, c: Created, members: seq<Member>)
    requires Captured(s, f, c, members)
    ensures c.snapshotId in s.snapshots
  {
  }

  lemma LimitInRange(w: World)
    requires w.Valid()
    ensures 1 <= w.limit <= Paging.MAX_PAGE_RECORDS
  {
  }

  lemma RequestAuthentic(s: Server, f: Filter, c: Coverage)
    requires ServerOk(s) && CoverageShape(s, f, c)
    ensures Authentic(s.epochs[s.current], s.current, RequestFor(c)) && Checked(RequestFor(c))
    ensures StartOf(RequestFor(c)) == c.checkpoint
  {
  }

  /** Whatever the server answers to a coverage's request, it answers for that coverage. */
  lemma ServedAnswers(s: Server, f: Filter, c: Coverage, limit: nat, b: Budget, page: Page)
    requires ServerOk(s) && CoverageShape(s, f, c) && 1 <= limit <= Paging.MAX_PAGE_RECORDS
    requires Authentic(s.epochs[s.current], s.current, RequestFor(c))
    requires Feeds.ListChanges(s.epochs[s.current], s.current, f, RequestFor(c), limit, b) == Ok(page)
    ensures c.epoch == s.current && Answers(s, f, c, page)
    ensures page.watermark <= |s.epochs[c.epoch].log| && PageExact(s.epochs[c.epoch], f, c.checkpoint, page)
    ensures c.continuation.None? ==> page.watermark == |s.epochs[c.epoch].log|
    ensures NoGap(s, c.epoch, c.checkpoint, page.checkpoint)
  {
    RequestAuthentic(s, f, c);
    ServedPage(s.epochs[s.current], s.current, f, RequestFor(c), limit, b, page);
    assert c.epoch == s.current;
  }

  lemma ServedUsable(s: Server, f: Filter, held: Option<Coverage>, issued: nat, rows: map<Key, Row>, l: Lineage, c: Coverage,
                     limit: nat, b: Budget, page: Page)
    requires ServerOk(s) && CoverageShape(s, f, c) && 1 <= limit <= Paging.MAX_PAGE_RECORDS
    requires Authentic(s.epochs[s.current], s.current, RequestFor(c))
    requires Feeds.ListChanges(s.epochs[s.current], s.current, f, RequestFor(c), limit, b) == Ok(page)
    requires InForce(c, held, issued) && Descends(s, f, held, rows, l)
    ensures Usable(s, f, held, issued, l, Reading(c, page, s.epochs[s.current]))
    ensures c.continuation.None? ==> page.watermark == HeadOf(s, c.epoch)
    ensures NoGap(s, c.epoch, c.checkpoint, page.checkpoint)
  {
    hide Feeds.ListChanges, Answers, PageExact, Follows, Exact, NoGap;
    ServedAnswers(s, f, c, limit, b, page);
  }

  lemma AnswersStable(a: Server, b: Server, f: Filter, c: Coverage, page: Page)
    requires ServerOk(a) && Evolves(a, b) && Answers(a, f, c, page)
    ensures Answers(b, f, c, page)
  {
    PageSoundStable(a.epochs[c.epoch], b.epochs[c.epoch], f, c.checkpoint, page);
  }

  lemma UsableStable(a: Server, b: Server, f: Filter, c: Option<Coverage>, issued: nat, l: Lineage, r: Reading)
    requires ServerOk(a) && Evolves(a, b) && Usable(a, f, c, issued, l, r)
    ensures Usable(b, f, c, issued, l, r)
  {
    hide Answers, PageExact, Follows, EpochOk, Grows;
    CoverageShapeStable(a, b, f, r.expected);
    AnswersStable(a, b, f, r.expected, r.page);
    GrowsTransitive(r.past, a.epochs[r.expected.epoch], b.epochs[r.expected.epoch]);
  }

  lemma DescendsStable(a: Server, b: Server, f: Filter, c: Option<Coverage>, rows: map<Key, Row>, l: Lineage)
    requires ServerOk(a) && Evolves(a, b) && Descends(a, f, c, rows, l)
    ensures Descends(b, f, c, rows, l)
  {
    if c.Some? {
      var was, e := a.epochs[c.value.epoch], b.epochs[c.value.epoch];
      ExactStable(was, e, f, l.rows, l.checkpoint);
      FollowsStable(was, e, f, l.checkpoint, l.trail, c.value.checkpoint);
    }
  }

  /** Nothing that happens to the server touches what the replica holds or its clients received. */
  lemma HeldStable(a: Server, b: Server, f: Filter, c: Option<Coverage>, issued: nat, rows: map<Key, Row>, l: Lineage,
                   readings: seq<Reading>)
    requires ServerOk(a) && Evolves(a, b) && CoverageOk(a, f, c, rows) && Descends(a, f, c, rows, l)
    requires forall i | 0 <= i < |readings| :: Usable(a, f, c, issued, l, readings[i])
    ensures CoverageOk(b, f, c, rows) && Descends(b, f, c, rows, l)
    ensures forall i | 0 <= i < |readings| :: Usable(b, f, c, issued, l, readings[i])
  {
    hide Usable, CoverageOk, Descends;
    CoverageStable(a, b, f, c, rows);
    DescendsStable(a, b, f, c, rows, l);
    forall i | 0 <= i < |readings| ensures Usable(b, f, c, issued, l, readings[i]) {
      UsableStable(a, b, f, c, issued, l, readings[i]);
    }
  }

  /** Once the version has moved on, a page received before can do no harm. */
  lemma UsableAll(s: Server, f: Filter, was: Option<Coverage>, before: nat, trailing: Lineage, now: Option<Coverage>, issued: nat,
                  l: Lineage, readings: seq<Reading>)
    requires ServerOk(s) && before < issued
    requires was.Some? ==> was.value.generation == before
    requires now.Some? ==> now.value.generation == issued
    requires forall i | 0 <= i < |readings| :: Usable(s, f, was, before, trailing, readings[i])
    ensures forall i | 0 <= i < |readings| :: Usable(s, f, now, issued, l, readings[i])
  {
    hide Answers, PageExact, Follows, EpochOk, Grows, CoverageShape;
    forall i | 0 <= i < |readings| ensures Usable(s, f, now, issued, l, readings[i]) {
      assert Usable(s, f, was, before, trailing, readings[i]);
    }
  }

  lemma InstalledOk(s: Server, f: Filter, c: Coverage, whole: map<Key, Row>)
    requires ServerOk(s) && c.epoch in s.epochs && c.continuation.None?
    requires Faithful(s.epochs[c.epoch], f, whole, c.checkpoint, c.checkpoint)
    requires Exact(s.epochs[c.epoch], f, whole, c.checkpoint)
    ensures CoverageOk(s, f, Some(c), whole) && Descends(s, f, Some(c), whole, Lineage(whole, c.checkpoint, []))
  {
  }

  /** A usable page, applied to the coverage it was asked for. */
  lemma TakenOk(s: Server, f: Filter, c: Option<Coverage>, issued: nat, rows: map<Key, Row>, l: Lineage, r: Reading)
    requires ServerOk(s) && CoverageOk(s, f, c, rows) && Descends(s, f, c, rows, l) && Usable(s, f, c, issued, l, r)
    requires c == Some(r.expected) && OrderedEvents(r.page).Ok?
    ensures CoverageShape(s, f, Advanced(r.expected, r.page))
    ensures CoverageOk(s, f, Some(Advanced(r.expected, r.page)), Apply(rows, OrderedEvents(r.page).value))
    ensures Descends(s, f, Some(Advanced(r.expected, r.page)), Apply(rows, OrderedEvents(r.page).value), Extended(l, r))
  {
    hide EpochOk, Grows, Exact;
    var e, page, p := s.epochs[r.expected.epoch], r.page, r.expected.checkpoint;
    ServedPagePassesChecks(e, f, p, page);
    TakenFaithful(e, f, rows, p, GoalOf(r.expected), page);
    TakenFollows(e, f, l, p, r);
  }

  lemma TakenFaithful(e: Epoch, f: Filter, rows: map<Key, Row>, p: nat, goal: nat, page: Page)
    requires EpochOk(e) && Faithful(e, f, rows, p, goal) && goal <= page.watermark <= |e.log|
    requires p <= page.checkpoint <= page.watermark && Covers(e, f, p, page.checkpoint, page.watermark, page.records)
    ensures Faithful(e, f, Apply(rows, page.records), page.checkpoint, page.watermark)
  {
    FaithfulWiden(e, f, rows, p, goal, page.watermark);
    ApplyCovers(e, f, rows, p, page.checkpoint, page.watermark, page.records);
  }

  lemma TakenFollows(e: Epoch, f: Filter, l: Lineage, p: nat, r: Reading)
    requires EpochOk(e) && EpochOk(r.past) && Grows(r.past, e) && p == r.expected.checkpoint
    requires p <= r.page.checkpoint <= r.page.watermark <= |r.past.log| && PageExact(r.past, f, p, r.page)
    requires OrderedEvents(r.page).Ok? && Follows(r.past, f, l.checkpoint, l.trail, p)
    ensures Follows(e, f, l.checkpoint, Extended(l, r).trail, r.page.checkpoint)
    ensures Replay(l.rows, Extended(l, r).trail) == Apply(Replay(l.rows, l.trail), r.page.records)
  {
    var trail := Extended(l, r).trail;
    assert trail[..|trail| - 1] == l.trail;
  }

  lemma CapturedStable(a: Server, b: Server, f: Filter, c: Created, members: seq<Member>)
    requires Evolves(a, b) && Captured(a, f, c, members)
    ensures Captured(b, f, c, members)
  {
  }

  lemma CapturedExact(s: Server, f: Filter, c: Created, members: seq<Member>)
    requires ServerOk(s) && Captured(s, f, c, members)
    ensures c.epoch in s.epochs
    ensures Faithful(s.epochs[c.epoch], f, Apply(map[], Bodies(members)), c.watermark, c.watermark)
    ensures Exact(s.epochs[c.epoch], f, Apply(map[], Bodies(members)), c.watermark)
  {
    StagedIsExact(s.epochs[c.epoch], s.snapshots[c.snapshotId]);
  }

  lemma CoverageShapeStable(a: Server, b: Server, f: Filter, c: Coverage)
    requires Evolves(a, b) && CoverageShape(a, f, c)
    ensures CoverageShape(b, f, c)
  {
  }

  /** Nobody else writes into this client's own stage; it may only disappear. */
  predicate Kept(mine: Option<Ref>, was: map<Ref, Staged>, now: map<Ref, Staged>) {
    mine.Some? && mine.value in now ==> mine.value in was && now[mine.value] == was[mine.value]
  }
}
