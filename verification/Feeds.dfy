/** The server's side of the change feed: a fixed watermark, retention checks, candidate
    selection, byte-bounded pages and continuation positions. */
module Feeds {
  import opened Wrappers
  import opened History
  import Decimals
  import Paging

  datatype Code =
    | InvalidCursor | CursorExpired | EpochChanged | RequestTooLarge | NotFound
    | Unavailable | Internal | PageInconsistent | ReplicaConflict | GenerationExhausted

  datatype Feed = Changes | Snapshots

  /** At(0) is FEED_START. After names the last snapshot member served. */
  datatype Position = At(sequence: nat) | After(createdAt: nat, key: Key)

  /** A cursor is its authenticated payload; the filter stands for its digest. */
  datatype Cursor = Cursor(epoch: string, feed: Feed, filter: Filter, watermark: nat, position: Position, expiry: int)

  datatype Page = Page(records: seq<Item>, nextCursor: Option<Cursor>, checkpoint: nat, hasMore: bool,
                       watermark: nat, epoch: string)

  /** How a change read says where it starts. */
  datatype Request =
    | FromStart
    | FromCheckpoint(afterSequence: nat, epoch: string)
    | Continue(cursor: Cursor)

  datatype Window = Window(watermark: nat, position: nat, epoch: string, explicitCheckpoint: bool)

  /** verifyCursor, after authentication: expiry, then epoch, feed and filter. */
  function VerifyCursor(c: Cursor, epoch: string, feed: Feed, filter: Filter, now: int): Option<Code> {
    if c.expiry <= now then Some(CursorExpired)
    else if c.epoch != epoch then Some(EpochChanged)
    else if c.feed != feed || c.filter != filter then Some(InvalidCursor)
    else None
  }

  /** prepareChangesRead. A request here names exactly one start, so the two "supplied
      together" and "mutually exclusive" rejections have no counterpart. */
  function PrepareChangesRead(req: Request, current: string, head: nat, filter: Filter, now: int): Result<Window, Code> {
    match req
    case FromCheckpoint(c, epoch) =>
      if c > Decimals.UINT64_MAX then Err(InvalidCursor)
      else if epoch != current then Err(EpochChanged)
      else if c > head then Err(InvalidCursor)
      else Ok(Window(head, c, current, true))
    case Continue(cursor) =>
      var refused := VerifyCursor(cursor, current, Changes, filter, now);
      if refused.Some? then Err(refused.value)
      else if !cursor.position.At? || cursor.position.sequence > Decimals.UINT64_MAX then Err(InvalidCursor)
      else Ok(Window(cursor.watermark, cursor.position.sequence, cursor.epoch, false))
    case FromStart => Ok(Window(head, 0, current, false))
  }

  // ---------------------------------------------------------------- retention

  /** assertRetainedChanges over the least retained sequence. */
  function RetainedCode(w: Window, earliest: Option<nat>): Option<Code> {
    if w.position == 0 && !w.explicitCheckpoint then None
    else if earliest.Some? && w.position + 1 > Decimals.UINT64_MAX then Some(Internal)
    else if earliest.Some? && w.position + 1 < earliest.value then Some(CursorExpired)
    else if earliest.None? && w.position != w.watermark then Some(CursorExpired)
    else None
  }

  function Earliest(retained: set<nat>, from: nat, to: nat): Option<nat>
    decreases to - from
  {
    if from in retained then Some(from) else if from >= to then None else Earliest(retained, from + 1, to)
  }

  function Range(lo: nat, hi: nat): (r: seq<nat>)
    ensures |r| == if lo <= hi then hi - lo else 0
    ensures forall i | 0 <= i < |r| :: r[i] == lo + 1 + i
  {
    if lo <= hi then seq(hi - lo, i requires 0 <= i < hi - lo => lo + 1 + i) else []
  }

  /** Retained rows with sequence in (c, w], ascending, cut at limit. */
  function Select(retained: set<nat>, c: nat, w: nat, limit: nat): seq<nat>
    decreases w - c
  {
    if c >= w || limit == 0 then []
    else if c + 1 in retained then [c + 1] + Select(retained, c + 1, w, limit - 1)
    else Select(retained, c + 1, w, limit)
  }

  /** Every retained sequence in (lo, hi], ascending. */
  function RowsIn(retained: set<nat>, lo: nat, hi: nat): (rows: seq<nat>)
    ensures forall i | 0 <= i < |rows| :: rows[i] in retained && lo < rows[i] <= hi
    decreases hi - lo
  {
    if lo >= hi then [] else (if lo + 1 in retained then [lo + 1] else []) + RowsIn(retained, lo + 1, hi)
  }

  /** What assertNoInternalRetentionGap accepts. */
  predicate GapFree(w: Window, sequences: seq<nat>, bounded: nat) {
    || (w.position == 0 && !w.explicitCheckpoint)
    || (w.position == w.watermark && sequences == [])
    || (&& w.position != w.watermark && sequences != []
        && (forall i | 0 <= i < |sequences| :: sequences[i] == w.position + 1 + i)
        && (|sequences| < bounded ==> sequences[|sequences| - 1] == w.watermark))
  }

  method AssertNoInternalRetentionGap(w: Window, sequences: seq<nat>, bounded: nat) returns (ok: bool)
    ensures ok <==> GapFree(w, sequences, bounded)
  {
    if w.position == 0 && !w.explicitCheckpoint { return true; }
    if w.position == w.watermark { return |sequences| == 0; }
    if |sequences| == 0 { return false; }
    var expected := w.position + 1;
    for i := 0 to |sequences|
      invariant expected == w.position + 1 + i
      invariant forall j | 0 <= j < i :: sequences[j] == w.position + 1 + j
    {
      if sequences[i] != expected { return false; }
      expected := expected + 1;
    }
    if |sequences| < bounded {
      if sequences[|sequences| - 1] != w.watermark { return false; }
    }
    return true;
  }

  function Least(a: nat, b: nat): nat { if a <= b then a else b }

  lemma {:induction false} SelectAll(retained: set<nat>, c: nat, w: nat, limit: nat)
    requires c <= w && forall s | c < s <= Least(w, c + limit) :: s in retained
    ensures Select(retained, c, w, limit) == Range(c, Least(w, c + limit))
    decreases w - c
  {
    if c < w && limit > 0 {
      SelectAll(retained, c + 1, w, limit - 1);
      assert [c + 1] + Range(c + 1, Least(w, c + limit)) == Range(c, Least(w, c + limit));
    }
  }

  lemma {:induction false} SelectSound(retained: set<nat>, c: nat, w: nat, limit: nat)
    ensures |Select(retained, c, w, limit)| <= limit
    ensures forall s | s in Select(retained, c, w, limit) :: s in retained && c < s <= w
    decreases w - c
  {
    if c < w && limit > 0 {
      SelectSound(retained, c + 1, w, if c + 1 in retained then limit - 1 else limit);
    }
  }

  /** The check sees only the rows a page scans, and that is enough: it passes exactly when
      none of the sequences such a page answers for has been purged. */
  lemma GapFreeIffRetained(retained: set<nat>, w: Window, bounded: nat)
    requires w.position <= w.watermark && bounded >= 1
    requires w.position > 0 || w.explicitCheckpoint
    ensures var rows := Select(retained, w.position, w.watermark, bounded);
            GapFree(w, rows, bounded) <==>
              forall s | w.position < s <= Least(w.watermark, w.position + bounded) :: s in retained
  {
    var c, m := w.position, Least(w.watermark, w.position + bounded);
    var rows := Select(retained, c, w.watermark, bounded);
    SelectSound(retained, c, w.watermark, bounded);
    if forall s | c < s <= m :: s in retained {
      SelectAll(retained, c, w.watermark, bounded);
    }
    if GapFree(w, rows, bounded) {
      forall s | c < s <= m ensures s in retained {
        assert rows[s - c - 1] == s;
      }
    }
  }

  // ---------------------------------------------------------------- candidates

  /** A page entry together with the scanned sequence it answers for. */
  datatype Candidate = Candidate(item: Item, sequence: nat)

  /** findLatestDelete among the retained rows. */
  function LatestDelete(e: Epoch, k: Key, n: nat): Option<nat>
    requires n <= |e.log|
  {
    if n == 0 then None
    else if n in e.retained && e.log[n - 1] == Deletion(k) then Some(n)
    else LatestDelete(e, k, n - 1)
  }

  /** A deletion is sent as such. A change is sent at its own version while its record lives;
      once the record is gone, a deletion beyond the watermark is sent early in its place and
      any other superseded change is left out. */
  function CandidateAt(e: Epoch, f: Filter, w: nat, s: nat): (c: Option<Candidate>)
    requires 1 <= s <= |e.log| && e.log[s - 1].key in e.content
    ensures c.Some? ==> c.value.sequence == s
  {
    match e.log[s - 1]
    case Deletion(k) => Some(Candidate(Removal(k, s), s))
    case Change(k, state, revision) =>
      if Live(e, k) then
        if Matches(e.content[k], f) then Some(Candidate(Body(k, Row(e.content[k], state, revision, s)), s))
        else None
      else
        match LatestDelete(e, k, |e.log|)
        case Some(d) => if d > w then Some(Candidate(Removal(k, d), s)) else None
        case None => None
  }

  /** Candidates of the scanned rows, in scan order. */
  function Collect(e: Epoch, f: Filter, w: nat, rows: seq<nat>): seq<Candidate>
    requires forall i | 0 <= i < |rows| :: 1 <= rows[i] <= |e.log| && e.log[rows[i] - 1].key in e.content
  {
    if rows == [] then []
    else
      var last := CandidateAt(e, f, w, rows[|rows| - 1]);
      Collect(e, f, w, rows[..|rows| - 1]) + (if last.Some? then [last.value] else [])
  }

  function ItemsOf(cs: seq<Candidate>): (items: seq<Item>)
    ensures |items| == |cs|
    ensures forall i | 0 <= i < |cs| :: items[i] == cs[i].item
  {
    seq(|cs|, i requires 0 <= i < |cs| => cs[i].item)
  }

  // ---------------------------------------------------------------- one page

  /** The clock, and what each item and the rest of a page cost in bytes, the rest with a cursor
      at some position or none. Nothing in the protocol depends on the costs; PageBytes instantiates
      them with the real serialization. */
  datatype Budget = Budget(sizeOf: Item -> nat, overheadOf: (string, Filter, nat, Option<Position>) -> nat, now: int,
                           ttl: nat)

  /** A changes page, given what each candidate and the rest of the page cost in bytes. */
  function AssembleSized(cs: seq<Candidate>, sizes: seq<nat>, overhead: nat, previous: nat, lastScanned: Option<nat>,
                         limit: int, epoch: string, f: Filter, watermark: nat, expiry: int): Result<Page, Code>
    requires |sizes| == |cs|
  {
    match Paging.FitCount(sizes, Paging.BoundedCount(limit, Paging.MAX_PAGE_RECORDS), overhead, Paging.MAX_PAGE_BYTES, 0)
    case Err(_) => Err(RequestTooLarge)
    case Ok(n) =>
      if n < |cs| then
        var checkpoint := if n > 0 then cs[n - 1].sequence else previous;
        Ok(Page(ItemsOf(cs[..n]), Some(ChangesCursor(epoch, f, watermark, checkpoint, expiry)), checkpoint, true,
                watermark, epoch))
      else if lastScanned.None? then
        Ok(Page(ItemsOf(cs), None, watermark, false, watermark, epoch))
      else
        var hasMore := lastScanned.value < watermark;
        Ok(Page(ItemsOf(cs),
                if hasMore then Some(ChangesCursor(epoch, f, watermark, lastScanned.value, expiry)) else None,
                if hasMore then lastScanned.value else watermark, hasMore, watermark, epoch))
  }

  function ItemSizes(cs: seq<Candidate>, sizeOf: Item -> nat): (sizes: seq<nat>)
    ensures |sizes| == |cs|
    ensures forall i | 0 <= i < |cs| :: sizes[i] == sizeOf(cs[i].item)
  {
    seq<nat>(|cs|, i requires 0 <= i < |cs| => sizeOf(cs[i].item))
  }

  /** assembleChangePage. */
  function AssembleChangePage(cs: seq<Candidate>, previous: nat, lastScanned: Option<nat>, limit: int,
                              epoch: string, f: Filter, watermark: nat, b: Budget): Result<Page, Code>
  {
    AssembleSized(cs, ItemSizes(cs, b.sizeOf), b.overheadOf(epoch, f, watermark, Some(At(watermark))), previous,
                  lastScanned, limit, epoch, f, watermark, b.now + b.ttl)
  }

  function ChangesCursor(epoch: string, f: Filter, watermark: nat, position: nat, expiry: int): Cursor {
    Cursor(epoch, Changes, f, watermark, At(position), expiry)
  }

  /** A cursor that authenticates for the current epoch was issued in it, so its watermark is
      one this log has reached. */
  predicate Authentic(e: Epoch, current: string, req: Request) {
    req.Continue? && req.cursor.epoch == current ==> req.cursor.watermark <= |e.log|
  }

  /** The read proper, once its window is fixed. */
  function ReadWindow(e: Epoch, f: Filter, w: Window, limit: nat, b: Budget): Result<Page, Code>
    requires EpochOk(e) && w.watermark <= |e.log|
  {
    var refused := RetainedCode(w, Earliest(e.retained, 1, |e.log|));
    if refused.Some? then Err(refused.value)
    else
      var rows := Select(e.retained, w.position, w.watermark, limit);
      if !GapFree(w, rows, limit) then Err(CursorExpired)
      else
        SelectSound(e.retained, w.position, w.watermark, limit);
        assert forall i | 0 <= i < |rows| :: rows[i] in rows;
        AssembleChangePage(Collect(e, f, w.watermark, rows), w.position,
                           if rows == [] then None else Some(rows[|rows| - 1]), limit, w.epoch, f, w.watermark, b)
  }

  /** listChangesPage of the in-memory adapter. limit is already clamped to 1..1000. */
  function ListChanges(e: Epoch, current: string, f: Filter, req: Request, limit: nat, b: Budget): Result<Page, Code>
    requires EpochOk(e) && Authentic(e, current, req)
    requires 1 <= limit <= Paging.MAX_PAGE_RECORDS
  {
    match PrepareChangesRead(req, current, |e.log|, f, b.now)
    case Err(code) => Err(code)
    case Ok(w) => ReadWindow(e, f, w, limit, b)
  }
}
