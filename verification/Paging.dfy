/** Byte-bounded pages: which records are admitted, and that what is sent never exceeds the
    byte limit although the budget is computed before the final cursor is known. */
module Paging {
  import opened Wrappers
  import opened Json
  import Decimals

  const MAX_PAGE_RECORDS: nat := 1000
  const MAX_PAGE_BYTES: nat := 8 * 1024 * 1024

  datatype FitError = SingleTooLarge | CountTooLarge | BytesTooLarge

  /** Bytes of a page holding records of these sizes. */
  function Total(sizes: seq<nat>, overhead: nat): nat { overhead + ArrayBytes(sizes) }

  predicate Oversize(size: nat, overhead: nat, maxBytes: nat) { size + overhead + 2 > maxBytes }

  predicate Fits(sizes: seq<nat>, overhead: nat, maxBytes: nat, count: nat, n: nat) {
    n <= |sizes| && n <= count && (n == 0 || Total(sizes[..n], overhead) <= maxBytes)
  }

  /** Math.max(1, Math.min(Number(limit) || 100, maxRecords)). */
  function BoundedCount(limit: int, maxRecords: nat): (count: nat)
    ensures count >= 1 && (maxRecords >= 1 ==> count <= maxRecords)
  {
    var wanted := if limit == 0 then 100 else limit;
    var capped := if wanted < maxRecords then wanted else maxRecords;
    if capped < 1 then 1 else capped
  }

  /** A count of 0 means 100, a negative one 1, and none is more than 1000. */
  lemma CountIs(limit: int)
    ensures BoundedCount(limit, MAX_PAGE_RECORDS)
            == if limit == 0 then 100 else if limit < 1 then 1 else if limit > 1000 then 1000 else limit
  {
  }

  /** How many records a page takes, n of them already admitted. */
  function FitCount(sizes: seq<nat>, count: nat, overhead: nat, maxBytes: nat, n: nat): (fit: Result<nat, FitError>)
    requires n <= |sizes|
    ensures fit.Ok? ==> fit.value <= |sizes|
    decreases |sizes| - n
  {
    if n == |sizes| then Ok(n)
    else if Oversize(sizes[n], overhead, maxBytes) then Err(SingleTooLarge)
    else if n >= count || Total(sizes[..n + 1], overhead) > maxBytes then Ok(n)
    else FitCount(sizes, count, overhead, maxBytes, n + 1)
  }

  lemma TotalStep(sizes: seq<nat>, overhead: nat, n: nat)
    requires n < |sizes|
    ensures Total(sizes[..n + 1], overhead) == Total(sizes[..n], overhead) + sizes[n] + (if n > 0 then 1 else 0)
  {
    assert sizes[..n + 1][..n] == sizes[..n];
  }

  lemma {:induction false} TotalMonotone(sizes: seq<nat>, overhead: nat, m: nat, n: nat)
    requires m <= n <= |sizes|
    ensures Total(sizes[..m], overhead) <= Total(sizes[..n], overhead)
  {
    if m < n {
      TotalMonotone(sizes, overhead, m, n - 1);
      TotalStep(sizes, overhead, n - 1);
    }
  }

  /** Whatever FitCount returns is a fitting prefix, and no longer prefix fits. */
  lemma {:induction false} FitCountLongest(sizes: seq<nat>, count: nat, overhead: nat, maxBytes: nat, n: nat, m: nat)
    requires Fits(sizes, overhead, maxBytes, count, n)
    requires FitCount(sizes, count, overhead, maxBytes, n).Ok?
    ensures var k := FitCount(sizes, count, overhead, maxBytes, n).value;
            && n <= k && Fits(sizes, overhead, maxBytes, count, k)
            && (Fits(sizes, overhead, maxBytes, count, m) ==> m <= k)
    decreases |sizes| - n
  {
    if n < |sizes| {
      if n < count && Total(sizes[..n + 1], overhead) <= maxBytes {
        FitCountLongest(sizes, count, overhead, maxBytes, n + 1, m);
      } else if n < m <= |sizes| {
        TotalMonotone(sizes, overhead, n + 1, m);
      }
    }
  }

  /** Rejection, exactly: some record that the page would reach - one of those that fit, or the
      first one past them - cannot fit even a page of its own. */
  lemma {:induction false} FitCountRejects(sizes: seq<nat>, count: nat, overhead: nat, maxBytes: nat, n: nat)
    requires Fits(sizes, overhead, maxBytes, count, n)
    ensures FitCount(sizes, count, overhead, maxBytes, n).Err? <==>
              exists i :: n <= i < |sizes| && Fits(sizes, overhead, maxBytes, count, i)
                          && Oversize(sizes[i], overhead, maxBytes)
    decreases |sizes| - n
  {
    if n < |sizes| && !Oversize(sizes[n], overhead, maxBytes) {
      if n < count && Total(sizes[..n + 1], overhead) <= maxBytes {
        FitCountRejects(sizes, count, overhead, maxBytes, n + 1);
      } else {
        forall i | n < i < |sizes| ensures !Fits(sizes, overhead, maxBytes, count, i) {
          TotalMonotone(sizes, overhead, n + 1, i);
        }
      }
    }
  }

  /** When every record fits a page of its own there is no rejection, and a page of a
      non-empty list is never empty: no empty continuation loop. */
  lemma FitCountProgress(sizes: seq<nat>, count: nat, overhead: nat, maxBytes: nat)
    requires count >= 1
    requires forall i | 0 <= i < |sizes| :: !Oversize(sizes[i], overhead, maxBytes)
    ensures FitCount(sizes, count, overhead, maxBytes, 0).Ok?
    ensures sizes != [] ==> FitCount(sizes, count, overhead, maxBytes, 0).value >= 1
  {
    FitCountRejects(sizes, count, overhead, maxBytes, 0);
    if sizes != [] {
      TotalStep(sizes, overhead, 0);
      FitCountLongest(sizes, count, overhead, maxBytes, 0, 1);
    }
  }

  /** An admitted list is never empty unless there was nothing to admit, rejection aside. */
  lemma FitCountNonEmpty(sizes: seq<nat>, count: nat, overhead: nat, maxBytes: nat)
    requires count >= 1 && sizes != [] && FitCount(sizes, count, overhead, maxBytes, 0).Ok?
    ensures 1 <= FitCount(sizes, count, overhead, maxBytes, 0).value <= |sizes|
  {
    TotalStep(sizes, overhead, 0);
    FitCountLongest(sizes, count, overhead, maxBytes, 0, 1);
  }

  // ---------------------------------------------------------------- the source's loops

  /** checkPageFits: accepts exactly the lists within both bounds. */
  method CheckPageFits(records: seq<Json>, overheadBytes: nat, maxBytes: nat, maxRecords: nat)
    returns (check: Result<nat, FitError>)
    ensures check.Ok? <==> |records| <= maxRecords
                           && (records == [] || Total(Sizes(records), overheadBytes) <= maxBytes)
    ensures check.Ok? ==> check.value == Total(Sizes(records), overheadBytes)
    ensures check == Err(CountTooLarge) <==> |records| > maxRecords
    ensures check == Err(SingleTooLarge) <==>
              && |records| <= maxRecords
              && exists i :: 0 <= i < |records| && Fits(Sizes(records), overheadBytes, maxBytes, i, i)
                             && Oversize(Sizes(records)[i], overheadBytes, maxBytes)
  {
    hide JsonBytes, ArrayBytes;
    if |records| > maxRecords { return Err(CountTooLarge); }
    ghost var sizes := Sizes(records);
    var total := overheadBytes + 2;
    var i := 0;
    TotalAtLeast(sizes[..0], overheadBytes);
    while i < |records|
      invariant 0 <= i <= |records|
      invariant total == Total(sizes[..i], overheadBytes) >= overheadBytes + 2
      invariant i > 0 ==> total <= maxBytes
      invariant forall j | 0 <= j < i :: !Oversize(sizes[j], overheadBytes, maxBytes)
    {
      assert Fits(sizes, overheadBytes, maxBytes, i, i);
      var bytes := JsonBytes(records[i]);
      TotalStep(sizes, overheadBytes, i);
      TotalMonotone(sizes, overheadBytes, i + 1, |sizes|);
      assert sizes[..|sizes|] == sizes;
      if bytes + overheadBytes + 2 > maxBytes { return Err(SingleTooLarge); }
      total := total + bytes + (if i > 0 then 1 else 0);
      if total > maxBytes {
        PastLimit(sizes, overheadBytes, maxBytes, i);
        return Err(BytesTooLarge);
      }
      i := i + 1;
    }
    assert sizes[..|sizes|] == sizes;
    return Ok(total);
  }

  lemma TotalAtLeast(sizes: seq<nat>, overhead: nat)
    ensures Total(sizes, overhead) >= overhead + 2 && (sizes == [] ==> Total(sizes, overhead) == overhead + 2)
  {
  }

  lemma PastLimit(sizes: seq<nat>, overhead: nat, maxBytes: nat, i: nat)
    requires i < |sizes| && Total(sizes[..i + 1], overhead) > maxBytes
    ensures forall j | i < j < |sizes| :: !Fits(sizes, overhead, maxBytes, j, j)
  {
    forall j | i < j < |sizes| ensures Total(sizes[..j], overhead) > maxBytes { TotalMonotone(sizes, overhead, i + 1, j); }
  }

  /** fitRecordsToPage, with its closing re-check; the only error it can return is the one of
      a record too large for any page. */
  method FitRecordsToPage(records: seq<Json>, limit: int, overheadBytes: nat, maxBytes: nat, maxRecords: nat)
    returns (fit: Result<(seq<Json>, nat), FitError>)
    requires maxRecords >= 1
    ensures var n := FitCount(Sizes(records), BoundedCount(limit, maxRecords), overheadBytes, maxBytes, 0);
            match fit
            case Err(e) => n.Err? && e == SingleTooLarge
            case Ok(page) => n.Ok? && n.value <= |records| && page.0 == records[..n.value]
                             && page.1 == Total(Sizes(page.0), overheadBytes)
  {
    hide BoundedCount, JsonBytes;
    var boundedCount := BoundedCount(limit, maxRecords);
    var admitted: seq<Json> := [];
    var total := overheadBytes + 2;
    ghost var sizes := Sizes(records);
    var i := 0;
    while i < |records|
      invariant 0 <= i <= |records| && admitted == records[..i]
      invariant total == Total(sizes[..i], overheadBytes)
      invariant Fits(sizes, overheadBytes, maxBytes, boundedCount, i)
      invariant FitCount(sizes, boundedCount, overheadBytes, maxBytes, 0)
                == FitCount(sizes, boundedCount, overheadBytes, maxBytes, i)
    {
      var bytes := JsonBytes(records[i]);
      TotalStep(sizes, overheadBytes, i);
      if bytes + overheadBytes + 2 > maxBytes { return Err(SingleTooLarge); }
      if |admitted| >= boundedCount || total + bytes + (if |admitted| > 0 then 1 else 0) > maxBytes {
        break;
      }
      total := total + bytes + (if |admitted| > 0 then 1 else 0);
      admitted := admitted + [records[i]];
      i := i + 1;
    }
    assert Sizes(admitted) == sizes[..i];
    var check := CheckPageFits(admitted, overheadBytes, maxBytes, maxRecords);
    if check.Err? { assert false; }
    return Ok((admitted, total));
  }

  // ---------------------------------------------------------------- the page on the wire

  /** A HistoryPage as serialized, with whatever stands in the records place. */
  function PageJson(records: Json, nextCursor: Option<string>, checkpoint: nat, hasMore: bool,
                    watermark: nat, epoch: string, serverTime: string): Json
  {
    Obj([Member("records", records),
         Member("nextCursor", CursorJson(nextCursor)),
         Member("checkpoint", Str(Decimals.Spell(checkpoint))),
         Member("hasMore", Bool(hasMore)),
         Member("watermark", Str(Decimals.Spell(watermark))),
         Member("epoch", Str(epoch)),
         Member("serverTime", Str(serverTime))])
  }

  /** historyPageOverheadBytes: the page with a marker for its records, less the marker. */
  function OverheadWith(marker: string, nextCursor: Option<string>, checkpoint: nat, hasMore: bool,
                        watermark: nat, epoch: string, serverTime: string): int
  {
    JsonBytes(PageJson(Str(marker), nextCursor, checkpoint, hasMore, watermark, epoch, serverTime))
    - JsonBytes(Str(marker))
  }

  /** Quotes, colons and commas of an object with these member names, and the names. */
  function FrameBytes(names: seq<string>): nat {
    if names == [] then 0
    else Bytes(Quote(names[0])) + 1 + (if |names| == 1 then 0 else 1 + FrameBytes(names[1..]))
  }

  function ValueBytes(values: seq<Json>): nat {
    if values == [] then 0 else JsonBytes(values[0]) + ValueBytes(values[1..])
  }

  function Names(members: seq<Member>): (names: seq<string>)
    ensures |names| == |members|
  {
    seq(|members|, i requires 0 <= i < |members| => members[i].name)
  }

  function Values(members: seq<Member>): (values: seq<Json>)
    ensures |values| == |members|
  {
    seq(|members|, i requires 0 <= i < |members| => members[i].value)
  }

  lemma {:induction false} MembersSplit(members: seq<Member>)
    ensures MembersBytes(members) == FrameBytes(Names(members)) + ValueBytes(Values(members))
  {
    if members != [] {
      MembersSplit(members[1..]);
      assert Names(members)[1..] == Names(members[1..]);
      assert Values(members)[1..] == Values(members[1..]);
    }
  }

  function CursorJson(nextCursor: Option<string>): Json {
    if nextCursor.Some? then Str(nextCursor.value) else Null
  }

  function CursorBytes(nextCursor: Option<string>): nat { JsonBytes(CursorJson(nextCursor)) }

  lemma SevenValues(v: seq<Json>)
    requires |v| == 7
    ensures ValueBytes(v) == JsonBytes(v[0]) + JsonBytes(v[1]) + JsonBytes(v[2]) + JsonBytes(v[3])
                             + JsonBytes(v[4]) + JsonBytes(v[5]) + JsonBytes(v[6])
  {
    ValueStep(v, 0); ValueStep(v, 1); ValueStep(v, 2); ValueStep(v, 3);
    ValueStep(v, 4); ValueStep(v, 5); ValueStep(v, 6);
    assert v[0..] == v && v[7..] == [];
  }

  lemma ValueStep(v: seq<Json>, i: nat)
    requires i < |v|
    ensures ValueBytes(v[i..]) == JsonBytes(v[i]) + ValueBytes(v[i + 1..])
  {
    assert v[i..][1..] == v[i + 1..];
  }

  lemma SevenMembers(m: seq<Member>)
    requires |m| == 7
    ensures JsonBytes(Obj(m)) == 2 + FrameBytes(Names(m)) + JsonBytes(m[0].value) + JsonBytes(m[1].value)
                                 + JsonBytes(m[2].value) + JsonBytes(m[3].value) + JsonBytes(m[4].value)
                                 + JsonBytes(m[5].value) + JsonBytes(m[6].value)
  {
    ObjBytes(m);
    MembersSplit(m);
    SevenValues(Values(m));
  }

  /** Two pages differ in size by what their values differ. */
  lemma PageDifference(p: seq<Member>, q: seq<Member>)
    requires |p| == |q| == 7 && Names(p) == Names(q)
    ensures JsonBytes(Obj(p)) - JsonBytes(Obj(q))
            == JsonBytes(p[0].value) - JsonBytes(q[0].value) + JsonBytes(p[1].value) - JsonBytes(q[1].value)
               + JsonBytes(p[2].value) - JsonBytes(q[2].value) + JsonBytes(p[3].value) - JsonBytes(q[3].value)
               + JsonBytes(p[4].value) - JsonBytes(q[4].value) + JsonBytes(p[5].value) - JsonBytes(q[5].value)
               + JsonBytes(p[6].value) - JsonBytes(q[6].value)
  {
    SevenMembers(p);
    SevenMembers(q);
  }

  /** The marker trick is exact: page bytes are overhead plus the bytes of the records array,
      whatever the records and the marker are. */
  lemma OverheadExact(marker: string, records: Json, nextCursor: Option<string>, checkpoint: nat,
                      hasMore: bool, watermark: nat, epoch: string, serverTime: string)
    ensures JsonBytes(PageJson(records, nextCursor, checkpoint, hasMore, watermark, epoch, serverTime))
            == OverheadWith(marker, nextCursor, checkpoint, hasMore, watermark, epoch, serverTime)
               + JsonBytes(records)
    ensures OverheadWith(marker, nextCursor, checkpoint, hasMore, watermark, epoch, serverTime) >= 0
  {
    hide JsonBytes, FrameBytes;
    var p := PageJson(records, nextCursor, checkpoint, hasMore, watermark, epoch, serverTime).members;
    var q := PageJson(Str(marker), nextCursor, checkpoint, hasMore, watermark, epoch, serverTime).members;
    assert Names(p) == Names(q);
    PageDifference(p, q);
    SevenMembers(q);
  }

  lemma FlagBytes(flag: bool)
    ensures JsonBytes(Bool(flag)) == if flag then 4 else 5
  {
    AsciiBytes(Stringify(Bool(flag)));
  }

  lemma CursorCost(budget: string, nextCursor: Option<string>)
    requires Plain(budget) && |budget| >= 3
    requires nextCursor.Some? ==> Plain(nextCursor.value) && |nextCursor.value| <= |budget|
    ensures CursorBytes(nextCursor) + JsonBytes(Bool(nextCursor.Some?)) <= CursorBytes(Some(budget)) + JsonBytes(Bool(true))
  {
    FlagBytes(true); FlagBytes(false);
    PlainQuoteBytes(budget);
    if nextCursor.Some? { PlainQuoteBytes(nextCursor.value); }
    else { AsciiBytes("null"); }
  }

  lemma CheckpointCost(checkpoint: nat, watermark: nat)
    requires checkpoint <= watermark
    ensures JsonBytes(Str(Decimals.Spell(checkpoint))) <= JsonBytes(Str(Decimals.Spell(watermark)))
  {
    Decimals.SpellLengthMonotone(checkpoint, watermark);
    SpellIsPlain(checkpoint); SpellIsPlain(watermark);
    PlainQuoteBytes(Decimals.Spell(checkpoint)); PlainQuoteBytes(Decimals.Spell(watermark));
  }

  /** Emitting a page never costs more than its budget did, when the cursor sent is no longer
      than the budget's, the checkpoint no larger than the watermark, and a page without
      continuation drops a cursor of at least three characters: false is one byte longer than
      true, and null is shorter than any such cursor. */
  lemma EmissionWithinBudget(marker: string, budget: string, nextCursor: Option<string>, checkpoint: nat,
                             watermark: nat, epoch: string, serverTime: string)
    requires checkpoint <= watermark
    requires Plain(budget) && |budget| >= 3
    requires nextCursor.Some? ==> Plain(nextCursor.value) && |nextCursor.value| <= |budget|
    ensures OverheadWith(marker, nextCursor, checkpoint, nextCursor.Some?, watermark, epoch, serverTime)
            <= OverheadWith(marker, Some(budget), watermark, true, watermark, epoch, serverTime)
  {
    var p := PageJson(Str(marker), nextCursor, checkpoint, nextCursor.Some?, watermark, epoch, serverTime).members;
    var q := PageJson(Str(marker), Some(budget), watermark, true, watermark, epoch, serverTime).members;
    assert Names(p) == Names(q);
    PageDifference(p, q);
    CursorCost(budget, nextCursor);
    CheckpointCost(checkpoint, watermark);
  }

  /** So a page carrying records js is no longer than the total its budget counted. */
  lemma SentWithinBudget(marker: string, js: seq<Json>, budget: string, nextCursor: Option<string>, checkpoint: nat,
                         watermark: nat, epoch: string, serverTime: string)
    requires checkpoint <= watermark
    requires Plain(budget) && |budget| >= 3
    requires nextCursor.Some? ==> Plain(nextCursor.value) && |nextCursor.value| <= |budget|
    ensures OverheadWith(marker, Some(budget), watermark, true, watermark, epoch, serverTime) >= 0
    ensures JsonBytes(PageJson(Arr(js), nextCursor, checkpoint, nextCursor.Some?, watermark, epoch, serverTime))
            <= Total(Sizes(js), OverheadWith(marker, Some(budget), watermark, true, watermark, epoch, serverTime))
  {
    EmissionWithinBudget(marker, budget, nextCursor, checkpoint, watermark, epoch, serverTime);
    OverheadExact(marker, Arr(js), nextCursor, checkpoint, nextCursor.Some?, watermark, epoch, serverTime);
    OverheadExact(marker, Arr(js), Some(budget), watermark, true, watermark, epoch, serverTime);
    ArrBytes(js);
  }
}
