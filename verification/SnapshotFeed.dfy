/** Materialized snapshots and their pages. */
module SnapshotFeed {
  import opened Wrappers
  import opened History
  import opened Feeds
  import Paging

  datatype Member = Member(key: Key, row: Row)

  datatype Snapshot = Snapshot(epoch: string, filter: Filter, watermark: nat, members: seq<Member>, active: bool, expiry: int)

  /** Keyset order: creation time, then record key. */
  predicate Before(a: Member, b: Member) {
    a.row.content.createdAt < b.row.content.createdAt
    || (a.row.content.createdAt == b.row.content.createdAt && a.key < b.key)
  }

  ghost predicate Ascending(ms: seq<Member>) {
    forall i, j | 0 <= i < j < |ms| :: Before(ms[i], ms[j])
  }

  /** The members are the view at the watermark, each once, in keyset order. */
  ghost predicate SnapshotOk(e: Epoch, s: Snapshot) {
    && s.watermark <= |e.log|
    && Ascending(s.members)
    && forall k, row {:trigger Member(k, row)} :: Member(k, row) in s.members <==> View(e, s.filter, s.watermark, k) == Some(row)
  }

  function PositionOf(m: Member): Position { After(m.row.content.createdAt, m.key) }

  predicate Beyond(m: Member, p: Position) {
    match p
    case At(_) => true
    case After(c, k) => m.row.content.createdAt > c || (m.row.content.createdAt == c && m.key > k)
  }

  /** Members after a position, in order. */
  function MembersAfter(ms: seq<Member>, p: Position): seq<Member> {
    if ms == [] then []
    else (if Beyond(ms[0], p) then [ms[0]] else []) + MembersAfter(ms[1..], p)
  }

  function Bodies(ms: seq<Member>): (items: seq<Item>)
    ensures |items| == |ms|
    ensures forall i | 0 <= i < |ms| :: items[i] == Body(ms[i].key, ms[i].row)
  {
    seq(|ms|, i requires 0 <= i < |ms| => Body(ms[i].key, ms[i].row))
  }

  function MemberSizes(ms: seq<Member>, sizeOf: Item -> nat): (sizes: seq<nat>)
    ensures |sizes| == |ms|
  {
    seq<nat>(|ms|, i requires 0 <= i < |ms| => sizeOf(Body(ms[i].key, ms[i].row)))
  }

  /** assembleSnapshotPage over the remaining members, of which one more than the limit is seen. */
  function AssembleSnapshotPage(s: Snapshot, window: seq<Member>, sizes: seq<nat>, overhead: nat, limit: nat, expiry: int)
    : Result<Page, Code>
    requires |sizes| == |window|
  {
    match Paging.FitCount(sizes, Paging.BoundedCount(limit, Paging.MAX_PAGE_RECORDS), overhead, Paging.MAX_PAGE_BYTES, 0)
    case Err(_) => Err(RequestTooLarge)
    case Ok(n) =>
      var hasMore := n < |window|;
      if hasMore && n == 0 then Err(Internal)
      else
        Ok(Page(Bodies(window[..n]),
                if hasMore then Some(Cursor(s.epoch, Snapshots, s.filter, s.watermark, PositionOf(window[n - 1]), expiry))
                else None,
                s.watermark, hasMore, s.watermark, s.epoch))
  }

  /** What the page's envelope is taken to cost: with a cursor after the window's last member, if it
      has one. */
  function OverheadOf(s: Snapshot, window: seq<Member>, b: Budget): nat {
    b.overheadOf(s.epoch, s.filter, s.watermark, if window == [] then None else Some(PositionOf(window[|window| - 1])))
  }

  /** Why a snapshot page is refused, if it is: the cursor's authenticity first, then status
      and expiry. */
  function Refusal(s: Snapshot, cursor: Option<Cursor>, now: int): Option<Code> {
    var refused := if cursor.Some? then VerifyCursor(cursor.value, s.epoch, Snapshots, s.filter, now) else None;
    if refused.Some? then refused
    else if cursor.Some? && cursor.value.watermark != s.watermark then Some(InvalidCursor)
    else if cursor.Some? && cursor.value.position.At? && cursor.value.position.sequence != 0 then Some(InvalidCursor)
    else if !s.active || s.expiry <= now then Some(CursorExpired)
    else None
  }

  function Remaining(s: Snapshot, cursor: Option<Cursor>): seq<Member> {
    if cursor.Some? then MembersAfter(s.members, cursor.value.position) else s.members
  }

  /** At most one member past the limit is looked at. */
  function WindowOf(rest: seq<Member>, limit: nat): seq<Member> {
    if |rest| > limit then rest[..limit + 1] else rest
  }

  /** listSnapshotPage: a member whose record is gone expires the whole snapshot. */
  function ListSnapshotPage(e: Epoch, s: Snapshot, cursor: Option<Cursor>, limit: nat, b: Budget): Result<Page, Code> {
    var refused := Refusal(s, cursor, b.now);
    if refused.Some? then Err(refused.value)
    else
      var window := WindowOf(Remaining(s, cursor), limit);
      if exists i | 0 <= i < |window| :: !Live(e, window[i].key) then Err(CursorExpired)
      else
        AssembleSnapshotPage(s, window, MemberSizes(window, b.sizeOf), OverheadOf(s, window, b),
                             limit, b.now + b.ttl)
  }

  lemma {:induction false} NothingBeyond(ms: seq<Member>, p: Position)
    requires forall i | 0 <= i < |ms| :: !Beyond(ms[i], p)
    ensures MembersAfter(ms, p) == []
  {
    if ms != [] {
      forall i | 0 <= i < |ms[1..]| ensures !Beyond(ms[1..][i], p) { assert ms[1..][i] == ms[i + 1]; }
      NothingBeyond(ms[1..], p);
    }
  }

  lemma {:induction false} AllBeyond(ms: seq<Member>, p: Position)
    requires forall i | 0 <= i < |ms| :: Beyond(ms[i], p)
    ensures MembersAfter(ms, p) == ms
  {
    if ms != [] {
      forall i | 0 <= i < |ms[1..]| ensures Beyond(ms[1..][i], p) { assert ms[1..][i] == ms[i + 1]; }
      AllBeyond(ms[1..], p);
      assert ms == [ms[0]] + ms[1..];
    }
  }

  /** Resuming after the i-th member served yields exactly the members that follow it. */
  lemma {:induction false} ResumeAfter(ms: seq<Member>, i: nat)
    requires Ascending(ms) && i < |ms|
    ensures MembersAfter(ms, PositionOf(ms[i])) == ms[i + 1..]
    decreases ms
  {
    var p, tail := PositionOf(ms[i]), ms[1..];
    if i == 0 {
      forall j | 0 <= j < |tail| ensures Beyond(tail[j], p) { assert Before(ms[0], ms[j + 1]); }
      AllBeyond(tail, p);
    } else {
      forall j, k | 0 <= j < k < |tail| ensures Before(tail[j], tail[k]) { assert Before(ms[j + 1], ms[k + 1]); }
      assert Before(ms[0], ms[i]);
      assert tail[i - 1] == ms[i];
      ResumeAfter(tail, i - 1);
      assert tail[i..] == ms[i + 1..];
    }
  }

  /** A cursor at the start is as good as none. */
  lemma {:induction false} FromTheStart(ms: seq<Member>, sequence: nat)
    ensures MembersAfter(ms, At(sequence)) == ms
  {
    if ms != [] {
      FromTheStart(ms[1..], sequence);
      assert ms == [ms[0]] + ms[1..];
    }
  }

  /** The cursor a reader that has received the first i members holds. */
  ghost predicate Resumes(ms: seq<Member>, cursor: Option<Cursor>, i: nat) {
    && i <= |ms|
    && if i == 0 then cursor.None?
       else cursor.Some? && cursor.value.feed == Snapshots && cursor.value.position == PositionOf(ms[i - 1])
  }

  /** The page holds the members after the first i, and knows whether there are more. */
  ghost predicate NextMembers(ms: seq<Member>, i: nat, page: Page) {
    var n := |page.records|;
    && i + n <= |ms| && page.records == Bodies(ms[i..i + n])
    && (page.hasMore <==> i + n < |ms|)
    && (page.hasMore <==> page.nextCursor.Some?)
    && (page.hasMore ==> n > 0 && Resumes(ms, page.nextCursor, i + n))
  }

  /** A served snapshot page is the next members in order; it says there are more exactly when
      there are, and then hands out the position of its own last member. */
  lemma ServedSnapshotPage(e: Epoch, s: Snapshot, cursor: Option<Cursor>, i: nat, limit: nat, b: Budget, page: Page)
    requires Ascending(s.members) && Resumes(s.members, cursor, i) && limit >= 1
    requires ListSnapshotPage(e, s, cursor, limit, b) == Ok(page)
    ensures NextMembers(s.members, i, page)
    ensures page.epoch == s.epoch && page.watermark == s.watermark == page.checkpoint
  {
    hide Ascending, MembersAfter, Paging.FitCount, VerifyCursor, Live;
    var window := WindowOf(Remaining(s, cursor), limit);
    RemainingFrom(s, cursor, i, limit);
    SnapshotWindow(s, window, b, limit, page);
    var n := |page.records|;
    assert window[..n] == s.members[i..i + n];
  }

  lemma RemainingFrom(s: Snapshot, cursor: Option<Cursor>, i: nat, limit: nat)
    requires Ascending(s.members) && Resumes(s.members, cursor, i)
    ensures var window := WindowOf(Remaining(s, cursor), limit);
            && |window| <= limit + 1 && i + |window| <= |s.members|
            && window == s.members[i..i + |window|]
            && (|window| <= limit ==> i + |window| == |s.members|)
  {
    if i > 0 { ResumeAfter(s.members, i - 1); }
    assert Remaining(s, cursor) == s.members[i..];
  }

  lemma SnapshotWindow(s: Snapshot, window: seq<Member>, b: Budget, limit: nat, page: Page)
    requires limit >= 1 && |window| <= limit + 1
    requires AssembleSnapshotPage(s, window, MemberSizes(window, b.sizeOf), OverheadOf(s, window, b),
                                  limit, b.now + b.ttl) == Ok(page)
    ensures var n := |page.records|;
            && n <= |window| && n <= limit && page.records == Bodies(window[..n])
            && (page.hasMore <==> n < |window|) && (page.hasMore ==> n > 0)
            && page.nextCursor == (if page.hasMore then
                                     Some(Cursor(s.epoch, Snapshots, s.filter, s.watermark, PositionOf(window[n - 1]),
                                                 b.now + b.ttl))
                                   else None)
            && page.epoch == s.epoch && page.watermark == s.watermark == page.checkpoint
  {
    var sizes := MemberSizes(window, b.sizeOf);
    Paging.FitCountLongest(sizes, Paging.BoundedCount(limit, Paging.MAX_PAGE_RECORDS),
                           OverheadOf(s, window, b), Paging.MAX_PAGE_BYTES, 0, 0);
  }

  // ---------------------------------------------------------------- taking a snapshot

  function Insert(ms: seq<Member>, m: Member): seq<Member> {
    if ms == [] || Before(m, ms[0]) then [m] + ms else [ms[0]] + Insert(ms[1..], m)
  }

  lemma {:induction false} InsertKeepsOrder(ms: seq<Member>, m: Member)
    requires Ascending(ms) && forall i | 0 <= i < |ms| :: ms[i].key != m.key
    ensures Ascending(Insert(ms, m))
    ensures forall x :: x in Insert(ms, m) <==> x == m || x in ms
  {
    var r := Insert(ms, m);
    if ms == [] || Before(m, ms[0]) {
      assert r == [m] + ms;
      forall x ensures x in r <==> x == m || x in ms {}
    } else {
      var tail := ms[1..];
      assert ms == [ms[0]] + tail;
      forall i, j | 0 <= i < j < |tail| ensures Before(tail[i], tail[j]) { assert Before(ms[i + 1], ms[j + 1]); }
      InsertKeepsOrder(tail, m);
      var it := Insert(tail, m);
      forall x ensures x in r <==> x == m || x in ms {}
      forall i, j | 0 <= i < j < |r| ensures Before(r[i], r[j]) {
        assert r[j] == it[j - 1];
        if i == 0 { assert it[j - 1] in it; SmallestStaysFirst(ms, m, it[j - 1]); }
        else { assert r[i] == it[i - 1]; }
      }
    }
  }

  lemma SmallestStaysFirst(ms: seq<Member>, m: Member, x: Member)
    requires Ascending(ms) && ms != [] && !Before(m, ms[0]) && m.key != ms[0].key
    requires x == m || x in ms[1..]
    ensures Before(ms[0], x)
  {
    if x != m {
      var i :| 0 <= i < |ms[1..]| && ms[1..][i] == x;
      assert ms[i + 1] == x;
    }
  }

  /** createSnapshot's member list: the live, matching records in keyset order. */
  method TakeSnapshot(e: Epoch, f: Filter) returns (members: seq<Member>)
    requires EpochOk(e)
    ensures forall expiry, epoch, active :: SnapshotOk(e, Snapshot(epoch, f, |e.log|, members, active, expiry))
  {
    members := [];
    var w := |e.log|;
    var todo := e.content.Keys;
    while todo != {}
      invariant todo <= e.content.Keys
      invariant Ascending(members)
      invariant forall i | 0 <= i < |members| :: members[i].key in e.content && members[i].key !in todo
      invariant forall k, row {:trigger Member(k, row)} ::
                  Member(k, row) in members <==> k !in todo && View(e, f, w, k) == Some(row)
    {
      var k :| k in todo;
      todo := todo - {k};
      var v := View(e, f, w, k);
      if v.Some? {
        InsertKeepsOrder(members, Member(k, v.value));
        ghost var before := members;
        members := Insert(members, Member(k, v.value));
        forall i | 0 <= i < |members| ensures members[i].key in e.content && members[i].key !in todo {
          assert members[i] in members;
          assert members[i] == Member(k, v.value) || members[i] in before;
        }
      }
    }
  }

  lemma SnapshotStable(was: Epoch, e: Epoch, s: Snapshot)
    requires EpochOk(was) && Grows(was, e) && SnapshotOk(was, s)
    ensures SnapshotOk(e, s)
  {
    forall k, row {:trigger Member(k, row)}
      ensures Member(k, row) in s.members <==> View(e, s.filter, s.watermark, k) == Some(row)
    {
      ViewStable(was, e, s.filter, s.watermark, k);
    }
  }

  /** Everything a reader has staged once it holds the whole membership. */
  lemma {:induction false} StagedRows(ms: seq<Member>, k: Key)
    requires forall i, j | 0 <= i < j < |ms| :: ms[i].key != ms[j].key
    ensures k in Apply(map[], Bodies(ms)) <==> exists i :: 0 <= i < |ms| && ms[i].key == k
    ensures forall i | 0 <= i < |ms| && ms[i].key == k ::
              k in Apply(map[], Bodies(ms)) && Apply(map[], Bodies(ms))[k] == ms[i].row
  {
    if ms != [] {
      var front := ms[..|ms| - 1];
      StagedRows(front, k);
      assert Bodies(ms)[..|ms| - 1] == Bodies(front);
      var last := ms[|ms| - 1];
      assert forall i | 0 <= i < |front| :: front[i] == ms[i];
    }
  }

  /** A fully staged snapshot is the log folded to its watermark. */
  lemma StagedIsExact(e: Epoch, s: Snapshot)
    requires EpochOk(e) && SnapshotOk(e, s)
    ensures Faithful(e, s.filter, Apply(map[], Bodies(s.members)), s.watermark, s.watermark)
    ensures Exact(e, s.filter, Apply(map[], Bodies(s.members)), s.watermark)
  {
    var ms, rows := s.members, Apply(map[], Bodies(s.members));
    forall i, j | 0 <= i < j < |ms| ensures ms[i].key != ms[j].key {
      MemberView(e, s, i);
      MemberView(e, s, j);
      assert Before(ms[i], ms[j]);
    }
    forall k ensures RowOf(rows, k) == View(e, s.filter, s.watermark, k) {
      StagedRows(ms, k);
      if k in rows {
        var i :| 0 <= i < |ms| && ms[i].key == k;
        MemberView(e, s, i);
      } else {
        NotListed(e, s, k);
      }
    }
    forall k | k in rows
      ensures rows[k].sequence <= s.watermark && View(e, s.filter, rows[k].sequence, k) == Some(rows[k])
    {
      assert RowOf(rows, k) == View(e, s.filter, s.watermark, k);
      VersionNamesItself(e, s.watermark, k);
    }
  }

  lemma NotListed(e: Epoch, s: Snapshot, k: Key)
    requires SnapshotOk(e, s) && forall i | 0 <= i < |s.members| :: s.members[i].key != k
    ensures View(e, s.filter, s.watermark, k).None?
  {
    match View(e, s.filter, s.watermark, k)
    case None =>
    case Some(row) =>
      NotMember(s.members, k, row);
      assert false;
  }

  lemma NotMember(ms: seq<Member>, k: Key, row: Row)
    requires forall i | 0 <= i < |ms| :: ms[i].key != k
    ensures Member(k, row) !in ms
  {
  }

  lemma MemberView(e: Epoch, s: Snapshot, i: nat)
    requires SnapshotOk(e, s) && i < |s.members|
    ensures View(e, s.filter, s.watermark, s.members[i].key) == Some(s.members[i].row)
  {
    var m := s.members[i];
    assert m == Member(m.key, m.row);
    assert Member(m.key, m.row) in s.members;
  }
}
