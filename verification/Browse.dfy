/** The byte-aware builder of live browse pages. */
module Browse {
  import opened Wrappers
  import opened Json

  datatype Record = Record(json: Json, createdAt: string, recordKey: string)

  datatype Browsed = Browsed(items: seq<Record>, nextAfter: Option<Record>)

  function Jsons(items: seq<Record>): (js: seq<Json>)
    ensures |js| == |items|
  {
    seq(|items|, i requires 0 <= i < |items| => items[i].json)
  }

  function After(last: Record): Json {
    Obj([Member("createdAt", Str(last.createdAt)), Member("recordKey", Str(last.recordKey))])
  }

  /** The page on the wire. */
  function Wire(records: seq<Json>, nextAfter: Json): Json {
    Obj([Member("records", Arr(records)), Member("nextAfter", nextAfter)])
  }

  lemma TwoMembers(m: seq<Member>)
    requires |m| == 2
    ensures JsonBytes(Obj(m)) == 5 + Bytes(Quote(m[0].name)) + JsonBytes(m[0].value)
                                 + Bytes(Quote(m[1].name)) + JsonBytes(m[1].value)
  {
    ObjBytes(m);
    assert m[1..] == [m[1]];
  }

  lemma TwoDifference(p: seq<Member>, q: seq<Member>)
    requires |p| == |q| == 2 && p[0].name == q[0].name && p[1].name == q[1].name
    ensures JsonBytes(Obj(p)) - JsonBytes(p[0].value) - JsonBytes(p[1].value)
            == JsonBytes(Obj(q)) - JsonBytes(q[0].value) - JsonBytes(q[1].value)
    ensures JsonBytes(Obj(p)) >= 5
  {
    TwoMembers(p);
    TwoMembers(q);
  }

  /** Records add exactly their own bytes and one comma each after the first. */
  lemma WireBytes(records: seq<Json>, nextAfter: Json)
    ensures JsonBytes(Wire(records, nextAfter))
            == JsonBytes(Wire([], nextAfter)) + Sum(Sizes(records)) + (if records == [] then 0 else |records| - 1)
  {
    TwoDifference(Wire(records, nextAfter).members, Wire([], nextAfter).members);
    ArrBytes(records);
    ArrBytes([]);
    assert Sizes([]) == [];
  }

  lemma CursorDropped(records: seq<Json>, last: Record)
    ensures JsonBytes(Wire(records, Null)) <= JsonBytes(Wire(records, After(last)))
  {
    TwoDifference(Wire(records, Null).members, Wire(records, After(last)).members);
    TwoDifference(After(last).members, After(last).members);
    AsciiBytes("null");
  }

  /** The total the builder compares is the size of the page with the record on it. */
  lemma TotalIsTrue(items: seq<Record>, record: Record, recordBytes: nat)
    requires recordBytes == Sum(Sizes(Jsons(items)))
    ensures var bytes, next := JsonBytes(record.json), items + [record];
            && JsonBytes(Wire(Jsons(next), After(record)))
               == JsonBytes(Wire([], After(record))) + recordBytes + bytes + |items|
            && recordBytes + bytes == Sum(Sizes(Jsons(next)))
  {
    hide After;
    var bytes, next := JsonBytes(record.json), items + [record];
    assert Jsons(next) == Jsons(items) + [record.json];
    assert Sizes(Jsons(next)) == Sizes(Jsons(items)) + [bytes];
    assert Sizes(Jsons(next))[..|items|] == Sizes(Jsons(items));
    WireBytes(Jsons(next), After(record));
  }

  class PageBuilder {
    const limit: nat
    const maxBytes: nat
    var items: seq<Record>
    var recordBytes: nat

    /** The running total is the sum of the admitted records, and the page as it would be sent
        with a continuation after its last record is within the limit. */
    ghost predicate Valid()
      reads this
    {
      && |items| <= limit
      && recordBytes == Sum(Sizes(Jsons(items)))
      && (items != [] ==> JsonBytes(Wire(Jsons(items), After(items[|items| - 1]))) <= maxBytes)
    }

    constructor (limit: nat, maxBytes: nat)
      ensures Valid() && items == [] && this.limit == limit && this.maxBytes == maxBytes
    {
      this.limit := limit;
      this.maxBytes := maxBytes;
      items := [];
      recordBytes := 0;
    }

    /** A record is taken exactly when there is room for it by count and by the true size of
        the page ending with it; only a first record can be an error. */
    method Add(record: Record) returns (added: Result<bool, ()>)
      requires Valid()
      modifies this
      ensures Valid()
      ensures var fits := JsonBytes(Wire(Jsons(old(items) + [record]), After(record))) <= maxBytes;
              && (added == Ok(true) <==> |old(items)| < limit && fits)
              && (added.Err? <==> old(items) == [] && limit > 0 && !fits)
      ensures items == if added == Ok(true) then old(items) + [record] else old(items)
    {
      hide Jsons, Sizes, Wire, After, JsonBytes, Sum;
      if |items| >= limit { return Ok(false); }
      var bytes := JsonBytes(record.json);
      var overhead := JsonBytes(Wire([], After(record)));
      var total := overhead + recordBytes + bytes + |items|;
      TotalIsTrue(items, record, recordBytes);
      if total > maxBytes {
        if |items| == 0 { return Err(()); }
        return Ok(false);
      }
      recordBytes := recordBytes + bytes;
      items := items + [record];
      return Ok(true);
    }

    /** What is sent, with or without a continuation, is within the limit. */
    method Finish(hasMore: bool) returns (page: Browsed)
      requires Valid()
      ensures page.items == items
      ensures page.nextAfter == if hasMore && items != [] then Some(items[|items| - 1]) else None
      ensures items != [] ==>
                JsonBytes(Wire(Jsons(items), if page.nextAfter.Some? then After(page.nextAfter.value) else Null))
                <= maxBytes
    {
      if |items| > 0 {
        CursorDropped(Jsons(items), items[|items| - 1]);
      }
      page := Browsed(items, if hasMore && |items| > 0 then Some(items[|items| - 1]) else None);
    }
  }
}
