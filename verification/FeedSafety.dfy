/** What the pages of the change feed are worth to a reader: they account for every sequence of
    the range they claim to cover, in order, whatever is written and purged between requests. */
module FeedSafety {
  import opened Wrappers
  import opened History
  import opened Feeds
  import Decimals
  import Paging

  /** Rows the log has. */
  predicate ValidRows(e: Epoch, rows: seq<nat>) {
    forall i | 0 <= i < |rows| :: 1 <= rows[i] <= |e.log| && e.log[rows[i] - 1].key in e.content
  }

  predicate Rising(rows: seq<nat>) {
    forall i, j | 0 <= i < j < |rows| :: rows[i] < rows[j]
  }

  /** Candidates of the sequences lo+1..hi. */
  function CandidatesIn(e: Epoch, f: Filter, w: nat, lo: nat, hi: nat): seq<Candidate>
    requires EpochOk(e) && hi <= |e.log|
    decreases hi
  {
    if hi <= lo then []
    else
      assert e.log[hi - 1].key in e.content;
      var last := CandidateAt(e, f, w, hi);
      CandidatesIn(e, f, w, lo, hi - 1) + (if last.Some? then [last.value] else [])
  }

  lemma RangeValid(e: Epoch, lo: nat, hi: nat)
    requires EpochOk(e) && hi <= |e.log|
    ensures ValidRows(e, Range(lo, hi))
  {
  }

  lemma {:induction false} CollectRange(e: Epoch, f: Filter, w: nat, lo: nat, hi: nat)
    requires EpochOk(e) && lo <= hi <= |e.log|
    ensures ValidRows(e, Range(lo, hi)) && Collect(e, f, w, Range(lo, hi)) == CandidatesIn(e, f, w, lo, hi)
    decreases hi
  {
    hide CandidateAt, EpochOk;
    RangeValid(e, lo, hi);
    if lo < hi {
      CollectRange(e, f, w, lo, hi - 1);
      assert Range(lo, hi)[..|Range(lo, hi)| - 1] == Range(lo, hi - 1);
    }
  }

  /** Candidates stand in the strict order of the rows they answer for. */
  lemma {:induction false} CollectOrdered(e: Epoch, f: Filter, w: nat, rows: seq<nat>)
    requires ValidRows(e, rows) && Rising(rows)
    ensures forall i | 0 <= i < |Collect(e, f, w, rows)| :: Collect(e, f, w, rows)[i].sequence in rows
    ensures forall i, j | 0 <= i < j < |Collect(e, f, w, rows)| ::
              Collect(e, f, w, rows)[i].sequence < Collect(e, f, w, rows)[j].sequence
  {
    if rows != [] {
      var cs, front, last := Collect(e, f, w, rows), rows[..|rows| - 1], rows[|rows| - 1];
      CollectOrdered(e, f, w, front);
      forall i | 0 <= i < |cs| ensures cs[i].sequence in rows && (i < |cs| - 1 ==> cs[i].sequence < last) {
        if i < |Collect(e, f, w, front)| {
          assert cs[i] == Collect(e, f, w, front)[i];
          var j :| 0 <= j < |front| && front[j] == cs[i].sequence;
          assert rows[j] == front[j];
        }
      }
    }
  }

  /** Cutting a candidate list after its n-th entry is the same as scanning no further than
      the row that entry answers for. */
  lemma {:induction false} CollectCut(e: Epoch, f: Filter, w: nat, rows: seq<nat>, n: nat) returns (m: nat)
    requires ValidRows(e, rows) && 1 <= n <= |Collect(e, f, w, rows)|
    ensures 1 <= m <= |rows| && Collect(e, f, w, rows)[n - 1].sequence == rows[m - 1]
    ensures Collect(e, f, w, rows)[..n] == Collect(e, f, w, rows[..m])
  {
    var cs, front := Collect(e, f, w, rows), Collect(e, f, w, rows[..|rows| - 1]);
    if n <= |front| {
      m := CollectCut(e, f, w, rows[..|rows| - 1], n);
      assert rows[..|rows| - 1][..m] == rows[..m];
      assert cs[..n] == front[..n];
    } else {
      m := |rows|;
      assert cs[..n] == cs && rows[..m] == rows;
    }
  }

  lemma {:induction false} LatestDeleteIs(e: Epoch, k: Key, n: nat)
    requires n <= |e.log|
    ensures match LatestDelete(e, k, n)
            case Some(d) => d <= n && DeletedAt(e, k, d) && d in e.retained
                            && forall d': nat | d < d' <= n && DeletedAt(e, k, d') :: d' !in e.retained
            case None => forall d: nat | d <= n && DeletedAt(e, k, d) :: d !in e.retained
  {
    if n > 0 { LatestDeleteIs(e, k, n - 1); }
  }

  /** A change that yields no candidate is one a reader may miss; one that yields a candidate
      of its own sequence is sent as it happened. */
  lemma CandidateMeaning(e: Epoch, f: Filter, w: nat, s: nat)
    requires EpochOk(e) && 1 <= s <= w <= |e.log| && e.log[s - 1].key in e.content
    ensures match CandidateAt(e, f, w, s)
            case None => Skippable(e, f, s, w)
            case Some(c) => if SequenceOf(c.item) <= w then Emits(e, f, s, c.item) else c.item.Removal?
  {
    var k := e.log[s - 1].key;
    if e.log[s - 1].Change? && !Live(e, k) {
      assert Version(e, s, k).Some?;
      var d := GoneWasDeleted(e, s, |e.log|, k);
      LatestDeleteIs(e, k, |e.log|);
    }
  }

  lemma {:induction false} CandidatesCover(e: Epoch, f: Filter, w: nat, lo: nat, hi: nat)
    requires EpochOk(e) && hi <= w <= |e.log|
    requires forall i | 0 <= i < |CandidatesIn(e, f, w, lo, hi)| :: SequenceOf(CandidatesIn(e, f, w, lo, hi)[i].item) <= w
    ensures Covers(e, f, lo, hi, w, ItemsOf(CandidatesIn(e, f, w, lo, hi)))
    decreases hi
  {
    if lo < hi {
      var cs, front := CandidatesIn(e, f, w, lo, hi), CandidatesIn(e, f, w, lo, hi - 1);
      assert e.log[hi - 1].key in e.content;
      assert forall i | 0 <= i < |front| :: front[i] == cs[i];
      CandidatesCover(e, f, w, lo, hi - 1);
      CandidateMeaning(e, f, w, hi);
      if |cs| > |front| { assert ItemsOf(cs)[..|cs| - 1] == ItemsOf(front); }
      else { assert cs == front; }
    }
  }

  // ---------------------------------------------------------------- one page

  /** The position a request starts from. */
  function StartOf(req: Request): nat {
    match req
    case FromStart => 0
    case FromCheckpoint(c, _) => c
    case Continue(cursor) => if cursor.position.At? then cursor.position.sequence else 0
  }

  /** A read no retention check exempts: a checkpoint, or a continuation past the start. */
  predicate Checked(req: Request) {
    match req
    case FromStart => false
    case FromCheckpoint(_, _) => true
    case Continue(cursor) => cursor.position.At? && cursor.position.sequence > 0
                             && cursor.position.sequence <= cursor.watermark
  }

  /** The watermark a request reads to. */
  function WatermarkOf(e: Epoch, req: Request): nat {
    if req.Continue? then req.cursor.watermark else |e.log|
  }

  /** Early deletion notices aside, page accounts for everything from c to its checkpoint. */
  ghost predicate PageSound(e: Epoch, f: Filter, c: nat, page: Page)
    requires EpochOk(e)
  {
    && c <= page.checkpoint <= page.watermark <= |e.log|
    && ((forall i | 0 <= i < |page.records| :: SequenceOf(page.records[i]) <= page.checkpoint) ==>
          Covers(e, f, c, page.checkpoint, page.watermark, page.records))
  }

  /** page carries exactly the candidates of the sequences from c to its checkpoint. */
  predicate PageExact(e: Epoch, f: Filter, c: nat, page: Page)
    requires EpochOk(e)
  {
    page.checkpoint <= |e.log| && page.records == ItemsOf(CandidatesIn(e, f, page.watermark, c, page.checkpoint))
  }

  /** page carries exactly the candidates of those sequences from c to its checkpoint that are
      still retained. */
  predicate PageScans(e: Epoch, f: Filter, c: nat, page: Page)
    requires EpochOk(e)
  {
    RetainedValid(e, c, page.checkpoint);
    page.records == ItemsOf(Collect(e, f, page.watermark, RowsIn(e.retained, c, page.checkpoint)))
  }

  lemma RetainedValid(e: Epoch, lo: nat, hi: nat)
    requires EpochOk(e)
    ensures ValidRows(e, RowsIn(e.retained, lo, hi))
  {
    var rows := RowsIn(e.retained, lo, hi);
    forall i | 0 <= i < |rows| ensures 1 <= rows[i] <= |e.log| && e.log[rows[i] - 1].key in e.content {
      assert rows[i] in e.retained;
    }
  }

  /** No sequence in (lo, hi] has been purged. */
  predicate Whole(retained: set<nat>, lo: nat, hi: nat) {
    forall s | lo < s <= hi :: s in retained
  }

  /** The continuation fields of a served page: a position strictly past c and short of the
      watermark, or the end. */
  ghost predicate Continues(f: Filter, c: nat, page: Page) {
    if page.hasMore then
      && c < page.checkpoint < page.watermark
      && page.nextCursor.Some?
      && page.nextCursor.value
         == Cursor(page.epoch, Changes, f, page.watermark, At(page.checkpoint), page.nextCursor.value.expiry)
    else page.checkpoint == page.watermark && page.nextCursor.None?
  }

  /** The rows a page has scanned once it has reached its m-th row. */
  lemma {:induction false} SelectPrefix(retained: set<nat>, c: nat, w: nat, limit: nat, m: nat)
    requires 1 <= m <= |Select(retained, c, w, limit)|
    ensures var rows := Select(retained, c, w, limit);
            c < rows[m - 1] <= w && rows[..m] == RowsIn(retained, c, rows[m - 1])
    decreases w - c
  {
    var rows := Select(retained, c, w, limit);
    if c + 1 in retained {
      var tail := Select(retained, c + 1, w, limit - 1);
      if m == 1 {
        assert rows[..1] == [c + 1] + [];
      } else {
        SelectPrefix(retained, c + 1, w, limit - 1, m - 1);
        assert rows[..m] == [c + 1] + tail[..m - 1];
      }
    } else {
      SelectPrefix(retained, c + 1, w, limit, m);
    }
  }

  lemma {:induction false} SelectRising(retained: set<nat>, c: nat, w: nat, limit: nat)
    ensures Rising(Select(retained, c, w, limit))
    decreases w - c
  {
    if c < w && limit > 0 {
      var next := if c + 1 in retained then limit - 1 else limit;
      SelectRising(retained, c + 1, w, next);
      SelectSound(retained, c + 1, w, next);
      var tail := Select(retained, c + 1, w, next);
      forall i | 0 <= i < |tail| ensures c + 1 < tail[i] { assert tail[i] in tail; }
    }
  }

  lemma {:induction false} SelectNone(retained: set<nat>, c: nat, w: nat, limit: nat)
    requires limit >= 1 && Select(retained, c, w, limit) == []
    ensures RowsIn(retained, c, w) == []
    decreases w - c
  {
    if c < w { SelectNone(retained, c + 1, w, limit); }
  }

  lemma {:induction false} RowsInWhole(retained: set<nat>, lo: nat, hi: nat)
    requires lo <= hi && Whole(retained, lo, hi)
    ensures RowsIn(retained, lo, hi) == Range(lo, hi)
    decreases hi - lo
  {
    if lo < hi {
      RowsInWhole(retained, lo + 1, hi);
      assert [lo + 1] + Range(lo + 1, hi) == Range(lo, hi);
    }
  }

  function LastOf(rows: seq<nat>): Option<nat> {
    if rows == [] then None else Some(rows[|rows| - 1])
  }

  /** A page is one of three: cut short by size, ended by the scan limit, or final. Whichever it
      is, it carries the scan up to its own checkpoint. */
  lemma AssembledPage(e: Epoch, f: Filter, c: nat, w: nat, scan: nat, sizes: seq<nat>, overhead: nat, limit: int,
                      epoch: string, expiry: int, page: Page)
    requires EpochOk(e) && c <= w <= |e.log| && scan >= 1 && ValidRows(e, Select(e.retained, c, w, scan))
    requires var rows := Select(e.retained, c, w, scan);
             && |sizes| == |Collect(e, f, w, rows)|
             && AssembleSized(Collect(e, f, w, rows), sizes, overhead, c, LastOf(rows), limit, epoch, f, w, expiry) == Ok(page)
    ensures page.watermark == w && page.epoch == epoch
    ensures PageScans(e, f, c, page) && Continues(f, c, page)
    ensures LastOf(Select(e.retained, c, w, scan)).Some? ==>
              page.checkpoint <= LastOf(Select(e.retained, c, w, scan)).value
    ensures page.nextCursor.Some? ==> page.nextCursor.value.expiry == expiry
  {
    hide Collect, RowsIn, Select, Paging.FitCount;
    var rows := Select(e.retained, c, w, scan);
    var cs := Collect(e, f, w, rows);
    var count := Paging.BoundedCount(limit, Paging.MAX_PAGE_RECORDS);
    if cs != [] { Paging.FitCountNonEmpty(sizes, count, overhead, Paging.MAX_PAGE_BYTES); }
    var n := Paging.FitCount(sizes, count, overhead, Paging.MAX_PAGE_BYTES, 0).value;
    if n < |cs| {
      var m := CollectCut(e, f, w, rows, n);
      SelectPrefix(e.retained, c, w, scan, m);
      SelectPrefix(e.retained, c, w, scan, |rows|);
      assert rows[..|rows|] == rows;
      SelectRising(e.retained, c, w, scan);
      assert m < |rows|;
    } else if rows == [] {
      SelectNone(e.retained, c, w, scan);
    } else {
      SelectPrefix(e.retained, c, w, scan, |rows|);
      assert rows[..|rows|] == rows;
    }
  }

  /** What a page that carries a whole range is worth. */
  lemma ExactIsSound(e: Epoch, f: Filter, c: nat, page: Page)
    requires EpochOk(e) && c <= page.checkpoint <= page.watermark <= |e.log| && PageExact(e, f, c, page)
    ensures PageSound(e, f, c, page)
  {
    var cs := CandidatesIn(e, f, page.watermark, c, page.checkpoint);
    if forall i | 0 <= i < |page.records| :: SequenceOf(page.records[i]) <= page.checkpoint {
      forall i | 0 <= i < |cs| ensures SequenceOf(cs[i].item) <= page.watermark {
        assert page.records[i] == cs[i].item;
      }
      CandidatesCover(e, f, page.watermark, c, page.checkpoint);
    }
  }

  lemma WholeIsExact(e: Epoch, f: Filter, c: nat, page: Page)
    requires EpochOk(e) && c <= page.checkpoint <= page.watermark <= |e.log|
    requires PageScans(e, f, c, page) && Whole(e.retained, c, page.checkpoint)
    ensures PageExact(e, f, c, page) && PageSound(e, f, c, page)
  {
    hide PageSound;
    RowsInWhole(e.retained, c, page.checkpoint);
    CollectRange(e, f, page.watermark, c, page.checkpoint);
    ExactIsSound(e, f, c, page);
  }

  /** What a checked read has scanned by the time it has passed the retention checks. */
  lemma ScannedWhole(retained: set<nat>, w: Window, limit: nat)
    requires w.position <= w.watermark && limit >= 1 && (w.position > 0 || w.explicitCheckpoint)
    requires GapFree(w, Select(retained, w.position, w.watermark, limit), limit)
    ensures match LastOf(Select(retained, w.position, w.watermark, limit))
            case Some(last) => Whole(retained, w.position, last)
            case None => w.position == w.watermark
  {
    GapFreeIffRetained(retained, w, limit);
    SelectAll(retained, w.position, w.watermark, limit);
  }

  lemma WindowPage(e: Epoch, f: Filter, w: Window, limit: nat, b: Budget, page: Page)
    requires EpochOk(e) && w.watermark <= |e.log| && limit >= 1
    requires ReadWindow(e, f, w, limit, b) == Ok(page)
    ensures page.epoch == w.epoch && page.watermark == w.watermark
    ensures PageScans(e, f, w.position, page) && Continues(f, w.position, page)
    ensures w.position <= page.checkpoint <= w.watermark
    ensures w.position > 0 || w.explicitCheckpoint ==> Whole(e.retained, w.position, page.checkpoint)
    ensures page.nextCursor.Some? ==> page.nextCursor.value.expiry == b.now + b.ttl
  {
    hide Collect, PageScans, Earliest;
    var rows := Select(e.retained, w.position, w.watermark, limit);
    SelectSound(e.retained, w.position, w.watermark, limit);
    assert forall i | 0 <= i < |rows| :: rows[i] in rows;
    var cs := Collect(e, f, w.watermark, rows);
    AssembledPage(e, f, w.position, w.watermark, limit, ItemSizes(cs, b.sizeOf),
                  b.overheadOf(w.epoch, f, w.watermark, Some(At(w.watermark))), limit, w.epoch, b.now + b.ttl, page);
    if w.position > 0 || w.explicitCheckpoint { ScannedWhole(e.retained, w, limit); }
  }

  /** Every page of every read carries the scan of what is retained up to its checkpoint, and
      continues, if at all, from a strictly later position short of the watermark - so what is
      handed out is never the start position, which is exempt from gap checks. A checked read's
      page moreover accounts for every sequence of its range; so does any other whose range
      happens to be whole. */
  lemma ServedPage(e: Epoch, current: string, f: Filter, req: Request, limit: nat, b: Budget, page: Page)
    requires EpochOk(e) && Authentic(e, current, req)
    requires 1 <= limit <= Paging.MAX_PAGE_RECORDS
    requires ListChanges(e, current, f, req, limit, b) == Ok(page)
    ensures page.epoch == current && page.watermark == WatermarkOf(e, req) <= |e.log|
    ensures StartOf(req) <= page.checkpoint <= page.watermark
    ensures PageScans(e, f, StartOf(req), page) && Continues(f, StartOf(req), page)
    ensures page.hasMore ==> Checked(Continue(page.nextCursor.value))
                             && page.nextCursor.value.expiry == b.now + b.ttl
    ensures Checked(req) ==> Whole(e.retained, StartOf(req), page.checkpoint)
    ensures Whole(e.retained, StartOf(req), page.checkpoint) ==>
              PageExact(e, f, StartOf(req), page) && PageSound(e, f, StartOf(req), page)
  {
    hide ReadWindow, PageScans, PageExact, PageSound;
    var w := PrepareChangesRead(req, current, |e.log|, f, b.now).value;
    WindowPage(e, f, w, limit, b, page);
    if Whole(e.retained, StartOf(req), page.checkpoint) { WholeIsExact(e, f, StartOf(req), page); }
  }

  lemma {:induction false} EarliestBelow(retained: set<nat>, lo: nat, hi: nat, s: nat)
    requires lo <= s <= hi && s in retained
    ensures Earliest(retained, lo, hi).Some? && Earliest(retained, lo, hi).value <= s
    decreases hi - lo
  {
    if lo !in retained { EarliestBelow(retained, lo + 1, hi, s); }
  }

  /** A checked read with something left to read expires exactly when a sequence its page would
      answer for has been purged: a gap is never passed over, and nothing else expires it. */
  lemma ExpiresIffGap(e: Epoch, f: Filter, w: Window, limit: nat, b: Budget)
    requires EpochOk(e) && w.position < w.watermark <= |e.log| <= Decimals.UINT64_MAX && limit >= 1
    requires w.position > 0 || w.explicitCheckpoint
    ensures ReadWindow(e, f, w, limit, b) == Err(CursorExpired)
            <==> exists s :: w.position < s <= Least(w.watermark, w.position + limit) && s !in e.retained
  {
    GapFreeIffRetained(e.retained, w, limit);
    if forall s | w.position < s <= Least(w.watermark, w.position + limit) :: s in e.retained {
      EarliestBelow(e.retained, 1, |e.log|, w.position + 1);
    }
  }

  // ---------------------------------------------------------------- early deletions

  lemma {:induction false} CandidateListed(e: Epoch, f: Filter, w: nat, lo: nat, hi: nat, s: nat) returns (i: nat)
    requires EpochOk(e) && lo < s <= hi <= |e.log| && e.log[s - 1].key in e.content
    requires CandidateAt(e, f, w, s).Some?
    ensures i < |CandidatesIn(e, f, w, lo, hi)| && CandidatesIn(e, f, w, lo, hi)[i] == CandidateAt(e, f, w, s).value
    decreases hi
  {
    assert e.log[hi - 1].key in e.content;
    if hi == s { i := |CandidatesIn(e, f, w, lo, hi - 1)|; }
    else { i := CandidateListed(e, f, w, lo, hi - 1, s); }
  }

  /** A page that reaches a change whose record was deleted after the pass's watermark, with the
      deletion retained, carries the notice of the record's last deletion - under its own sequence. */
  lemma EarlyDeletionSent(e: Epoch, f: Filter, c: nat, page: Page, s: nat, d: nat) returns (i: nat, last: nat)
    requires EpochOk(e) && PageExact(e, f, c, page)
    requires c < s <= page.checkpoint <= page.watermark < d && d in e.retained
    requires e.log[s - 1].Change? && DeletedAt(e, e.log[s - 1].key, d)
    ensures i < |page.records| && page.records[i] == Removal(e.log[s - 1].key, last) && last >= d
  {
    var k := e.log[s - 1].key;
    assert e.log[s - 1].key in e.content;
    DeletedStaysGone(e, d, |e.log|, k);
    LatestDeleteIs(e, k, |e.log|);
    i := CandidateListed(e, f, page.watermark, c, page.checkpoint, s);
    last := LatestDelete(e, k, |e.log|).value;
  }

  // ---------------------------------------------------------------- chains of pages

  lemma {:induction false} CoversConcat(e: Epoch, f: Filter, p: nat, q: nat, r: nat, w: nat, a: seq<Item>, b: seq<Item>)
    requires EpochOk(e) && p <= q <= r <= |e.log|
    requires Covers(e, f, p, q, w, a) && Covers(e, f, q, r, w, b)
    ensures Covers(e, f, p, r, w, a + b)
    decreases r
  {
    if r == q {
      assert a + b == a;
    } else if Skippable(e, f, r, w) && Covers(e, f, q, r - 1, w, b) {
      CoversConcat(e, f, p, q, r - 1, w, a, b);
    } else {
      CoversConcat(e, f, p, q, r - 1, w, a, b[..|b| - 1]);
      assert (a + b)[..|a + b| - 1] == a + b[..|b| - 1];
    }
  }

  /** Pages a reader received one after another: each sound, as of now, for the position the
      one before it handed out. */
  ghost predicate Chain(e: Epoch, f: Filter, c: nat, w: nat, pages: seq<Page>)
    requires EpochOk(e)
    decreases pages
  {
    pages == []
    || (&& PageSound(e, f, c, pages[0]) && Continues(f, c, pages[0]) && pages[0].watermark == w
        && (forall i | 0 <= i < |pages[0].records| :: SequenceOf(pages[0].records[i]) <= pages[0].checkpoint)
        && (if pages[0].hasMore then Chain(e, f, pages[0].checkpoint, w, pages[1..]) else |pages| == 1))
  }

  /** A read that was answered: the history it was served from, what was asked, and the page. */
  datatype Answer = Answer(epoch: Epoch, current: string, req: Request, limit: nat, budget: Budget, page: Page)

  ghost predicate Answered(f: Filter, a: Answer) {
    && EpochOk(a.epoch) && Authentic(a.epoch, a.current, a.req) && 1 <= a.limit <= Paging.MAX_PAGE_RECORDS
    && ListChanges(a.epoch, a.current, f, a.req, a.limit, a.budget) == Ok(a.page)
  }

  /** b was asked for with the cursor a handed out. */
  ghost predicate Continued(a: Answer, b: Answer) {
    a.page.nextCursor.Some? && b.req == Continue(a.page.nextCursor.value)
  }

  /** The answers of one pass: the first read starts anywhere, each further one continues the one
      before it. The history may do anything in between. */
  ghost predicate Pass(f: Filter, answers: seq<Answer>) {
    answers == []
    || (&& Answered(f, answers[|answers| - 1]) && Pass(f, answers[..|answers| - 1])
        && (|answers| > 1 ==> Continued(answers[|answers| - 2], answers[|answers| - 1])))
  }

  /** A page that was handed on: it, and the read it was continued by, are checked and go from
      where it ended, with the watermark it had. */
  lemma ContinuedFrom(f: Filter, a: Answer, b: Answer)
    requires Answered(f, a) && Answered(f, b) && Continued(a, b)
    ensures a.page.hasMore && StartOf(a.req) < a.page.checkpoint < a.page.watermark
    ensures StartOf(b.req) == a.page.checkpoint && Checked(b.req) && b.page.watermark == a.page.watermark
  {
    hide ListChanges, PageScans, PageExact, PageSound;
    ServedPage(a.epoch, a.current, f, a.req, a.limit, a.budget, a.page);
    ServedPage(b.epoch, b.current, f, b.req, b.limit, b.budget, b.page);
  }

  /** Every pass, one from the start included, keeps its watermark, moves strictly forward and
      ends: from c to w it takes at most w - c pages (one, if there is nothing to read). */
  lemma {:induction false} PassEnds(f: Filter, answers: seq<Answer>)
    requires Pass(f, answers) && answers != []
    ensures var c, w, n, last := StartOf(answers[0].req), answers[0].page.watermark, |answers|, answers[|answers| - 1].page;
            && c <= w && last.watermark == w && (n <= w - c || (n == 1 && w == c))
            && (if last.hasMore then c + n <= last.checkpoint < w else last.checkpoint == w)
  {
    hide Answered, ListChanges;
    var n := |answers|;
    var front, last := answers[..n - 1], answers[n - 1];
    AnsweredPage(f, last);
    if n > 1 {
      PassEnds(f, front);
      ContinuedFrom(f, answers[n - 2], last);
    }
  }

  lemma AnsweredPage(f: Filter, a: Answer)
    requires Answered(f, a)
    ensures StartOf(a.req) <= a.page.checkpoint <= a.page.watermark && Continues(f, StartOf(a.req), a.page)
  {
    hide ListChanges, PageScans, PageExact, PageSound;
    ServedPage(a.epoch, a.current, f, a.req, a.limit, a.budget, a.page);
  }

  function Records(pages: seq<Page>): seq<Item> {
    if pages == [] then [] else pages[0].records + Records(pages[1..])
  }

  function EndOf(c: nat, pages: seq<Page>): nat {
    if pages == [] then c else pages[|pages| - 1].checkpoint
  }

  /** The pages of a pass, laid end to end, account for every sequence exactly once and in
      order; a pass from c to w takes at most w - c pages (one, if there is nothing to read). */
  lemma {:induction false} ChainCovers(e: Epoch, f: Filter, c: nat, w: nat, pages: seq<Page>)
    requires EpochOk(e) && c <= w <= |e.log| && Chain(e, f, c, w, pages)
    ensures c <= EndOf(c, pages) <= w && Covers(e, f, c, EndOf(c, pages), w, Records(pages))
    ensures |pages| <= w - c || (|pages| <= 1 && w == c)
    ensures pages != [] && !pages[|pages| - 1].hasMore ==> EndOf(c, pages) == w
    decreases pages
  {
    if pages != [] {
      var p, rest := pages[0], pages[1..];
      if p.hasMore {
        ChainCovers(e, f, p.checkpoint, w, rest);
        assert EndOf(c, pages) == EndOf(p.checkpoint, rest);
        CoversConcat(e, f, c, p.checkpoint, EndOf(c, pages), w, p.records, Records(rest));
      } else {
        assert Records(rest) == [];
        assert p.records + [] == p.records;
      }
    }
  }

  lemma PageSoundStable(was: Epoch, e: Epoch, f: Filter, c: nat, page: Page)
    requires EpochOk(was) && Grows(was, e) && PageSound(was, f, c, page)
    ensures PageSound(e, f, c, page)
  {
    if forall i | 0 <= i < |page.records| :: SequenceOf(page.records[i]) <= page.checkpoint {
      CoversStable(was, e, f, c, page.checkpoint, page.watermark, page.records);
    }
  }
}
