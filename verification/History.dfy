/** One owner's history: the log of sequenced changes, the contents it refers to, and what a
    reader who has applied the log up to some sequence should hold. */
module History {
  import opened Wrappers

  /** A record key: sixty-four lowercase hexadecimal digits, read (and ordered) as a number. */
  type Key = nat

  datatype Direction = Inbound | Outbound

  /** The immutable part of a record; members stands for its remaining fields on the wire. */
  datatype Content = Content(direction: Direction, messageBox: string, sender: string, recipient: string,
                             createdAt: nat, body: string)

  datatype Filter = Filter(direction: Option<Direction>, messageBox: Option<string>, participant: Option<string>)

  /** matchesSnapshotFilter. */
  predicate Matches(c: Content, f: Filter) {
    && (f.direction.Some? ==> c.direction == f.direction.value)
    && (f.messageBox.Some? ==> c.messageBox == f.messageBox.value)
    && (f.participant.Some? ==> c.sender == f.participant.value || c.recipient == f.participant.value)
  }

  /** A filter turns away what has another direction, another box, or neither end of the conversation
      it asks for, and nothing else. */
  lemma MatchesIff(c: Content, f: Filter)
    ensures !Matches(c, f) <==> || (f.direction.Some? && f.direction.value != c.direction)
                                || (f.messageBox.Some? && f.messageBox.value != c.messageBox)
                                || (f.participant.Some? && f.participant.value !in {c.sender, c.recipient})
  {
  }

  /** Event number s of a log is log[s - 1]. */
  datatype Event =
    | Change(key: Key, state: string, revision: nat)
    | Deletion(key: Key)

  /** A record as served at one of its versions. */
  datatype Row = Row(content: Content, state: string, revision: nat, sequence: nat)

  /** retained: the sequences whose change rows have not been purged. */
  datatype Epoch = Epoch(log: seq<Event>, content: map<Key, Content>, retained: set<nat>)

  /** A deleted key is never written again within an epoch (its tombstone is permanent), though
      it may be deleted again; contents are kept, as a mathematical record, even for deleted keys. */
  predicate EpochOk(e: Epoch) {
    && (forall i | 0 <= i < |e.log| :: e.log[i].key in e.content)
    && (forall i, j | 0 <= i < j < |e.log| :: e.log[i].Deletion? && e.log[j].Change? ==> e.log[j].key != e.log[i].key)
    && (forall s | s in e.retained :: 1 <= s <= |e.log|)
  }

  /** The version of k after the first p events. */
  function Version(e: Epoch, p: nat, k: Key): Option<Row>
    requires p <= |e.log|
    requires k in e.content
  {
    if p == 0 then None
    else if e.log[p - 1].key != k then Version(e, p - 1, k)
    else match e.log[p - 1]
      case Deletion(_) => None
      case Change(_, state, revision) => Some(Row(e.content[k], state, revision, p))
  }

  /** The log folded to p: what a faithful copy under filter f holds for k. */
  function View(e: Epoch, f: Filter, p: nat, k: Key): Option<Row>
    requires p <= |e.log|
  {
    if k in e.content && Matches(e.content[k], f) then Version(e, p, k) else None
  }

  predicate Live(e: Epoch, k: Key) {
    k in e.content && Version(e, |e.log|, k).Some?
  }

  /** From was to e: events appended, change rows purged, contents added. */
  ghost predicate Grows(was: Epoch, e: Epoch) {
    && EpochOk(e)
    && was.log <= e.log
    && was.content.Keys <= e.content.Keys
    && (forall k | k in was.content :: e.content[k] == was.content[k])
    && (forall s | 1 <= s <= |was.log| :: s in e.retained ==> s in was.retained)
  }

  lemma GrowsTransitive(a: Epoch, b: Epoch, c: Epoch)
    requires Grows(a, b) && Grows(b, c)
    ensures Grows(a, c)
  {
  }

  lemma {:induction false} VersionStable(was: Epoch, e: Epoch, p: nat, k: Key)
    requires Grows(was, e) && p <= |was.log| && k in was.content
    ensures Version(e, p, k) == Version(was, p, k)
  {
    if p > 0 { VersionStable(was, e, p - 1, k); }
  }

  /** The fold to a fixed sequence never changes again. */
  lemma ViewStable(was: Epoch, e: Epoch, f: Filter, p: nat, k: Key)
    requires EpochOk(was) && Grows(was, e) && p <= |was.log|
    ensures View(e, f, p, k) == View(was, f, p, k)
  {
    if k in was.content { VersionStable(was, e, p, k); }
    else if k in e.content { NeverWritten(was, e, p, k); }
  }

  lemma {:induction false} NeverWritten(was: Epoch, e: Epoch, p: nat, k: Key)
    requires EpochOk(was) && Grows(was, e) && p <= |was.log| && k in e.content && k !in was.content
    ensures Version(e, p, k) == None
  {
    if p > 0 {
      assert was.log[p - 1].key in was.content;
      NeverWritten(was, e, p - 1, k);
    }
  }

  lemma {:induction false} VersionNamesItself(e: Epoch, p: nat, k: Key)
    requires p <= |e.log| && k in e.content && Version(e, p, k).Some?
    ensures var r := Version(e, p, k).value;
            1 <= r.sequence <= p && Version(e, r.sequence, k) == Some(r)
  {
    if e.log[p - 1].key != k { VersionNamesItself(e, p - 1, k); }
  }

  /** A key with a version at p and none now was deleted in between. */
  lemma {:induction false} GoneWasDeleted(e: Epoch, p: nat, q: nat, k: Key) returns (d: nat)
    requires p <= q <= |e.log| && k in e.content && Version(e, p, k).Some? && Version(e, q, k).None?
    ensures p < d <= q && DeletedAt(e, k, d)
  {
    if e.log[q - 1].key == k { d := q; } else { d := GoneWasDeleted(e, p, q - 1, k); }
  }

  /** A deletion is final: nothing is live after it. */
  lemma {:induction false} DeletedStaysGone(e: Epoch, d: nat, q: nat, k: Key)
    requires EpochOk(e) && DeletedAt(e, k, d) && d <= q <= |e.log|
    ensures k in e.content && Version(e, q, k).None?
  {
    assert e.log[d - 1].key in e.content;
    if d < q {
      assert e.log[q - 1].Change? ==> e.log[q - 1].key != k;
      DeletedStaysGone(e, d, q - 1, k);
    }
  }

  // ---------------------------------------------------------------- a replica's faithfulness

  function RowOf(rows: map<Key, Row>, k: Key): Option<Row> {
    if k in rows then Some(rows[k]) else None
  }

  /** Event d deletes k. */
  predicate DeletedAt(e: Epoch, k: Key, d: nat) {
    1 <= d <= |e.log| && e.log[d - 1] == Deletion(k)
  }

  /** k is deleted somewhere after p: within the pass that ends at w, or later but with the
      deletion's change row purged by now. */
  ghost predicate Excused(e: Epoch, k: Key, p: nat, w: nat) {
    exists d: nat :: DeletedAt(e, k, d) && p < d && (d <= w || d !in e.retained)
  }

  /** rows is a copy of the log folded to p, in a pass that will end at w: every row is a true
      version no newer than p, and every key is as the fold to p has it, except keys whose
      deletion is still ahead. */
  ghost predicate Faithful(e: Epoch, f: Filter, rows: map<Key, Row>, p: nat, w: nat) {
    && p <= w <= |e.log|
    && (forall k | k in rows :: rows[k].sequence <= p && View(e, f, rows[k].sequence, k) == Some(rows[k]))
    && (forall k {:trigger RowOf(rows, k)} :: RowOf(rows, k) == View(e, f, p, k) || Excused(e, k, p, w))
  }

  /** rows is the log folded to p, key for key. */
  ghost predicate Exact(e: Epoch, f: Filter, rows: map<Key, Row>, p: nat) {
    p <= |e.log| && forall k {:trigger RowOf(rows, k)} :: RowOf(rows, k) == View(e, f, p, k)
  }

  /** No deletion after p has lost its change row. */
  ghost predicate DeletionsRetained(e: Epoch, p: nat) {
    forall k, d: nat | DeletedAt(e, k, d) && p < d :: d in e.retained
  }

  /** At the end of a pass nothing is excused, unless deletions were purged behind its back. */
  lemma FaithfulAtEndIsExact(e: Epoch, f: Filter, rows: map<Key, Row>, w: nat)
    requires Faithful(e, f, rows, w, w) && DeletionsRetained(e, w)
    ensures Exact(e, f, rows, w)
  {
    forall k ensures RowOf(rows, k) == View(e, f, w, k) {
      assert !Excused(e, k, w, w);
    }
  }

  lemma ExcusedStable(was: Epoch, e: Epoch, k: Key, p: nat, w: nat)
    requires Grows(was, e) && w <= |was.log| && Excused(was, k, p, w)
    ensures Excused(e, k, p, w)
  {
    var d: nat :| DeletedAt(was, k, d) && p < d && (d <= w || d !in was.retained);
    assert DeletedAt(e, k, d);
  }

  /** Other writers and the purger never turn a faithful copy into an unfaithful one. */
  lemma FaithfulStable(was: Epoch, e: Epoch, f: Filter, rows: map<Key, Row>, p: nat, w: nat)
    requires EpochOk(was) && Grows(was, e) && Faithful(was, f, rows, p, w)
    ensures Faithful(e, f, rows, p, w)
  {
    forall k | k in rows ensures rows[k].sequence <= p && View(e, f, rows[k].sequence, k) == Some(rows[k]) {
      ViewStable(was, e, f, rows[k].sequence, k);
    }
    forall k ensures RowOf(rows, k) == View(e, f, p, k) || Excused(e, k, p, w) {
      ViewStable(was, e, f, p, k);
      if RowOf(rows, k) != View(was, f, p, k) { ExcusedStable(was, e, k, p, w); }
    }
  }

  /** A finished pass is a good start for a pass to any later watermark. */
  lemma FaithfulWiden(e: Epoch, f: Filter, rows: map<Key, Row>, p: nat, v: nat, w: nat)
    requires Faithful(e, f, rows, p, v) && v <= w <= |e.log|
    ensures Faithful(e, f, rows, p, w)
  {
    forall k | Excused(e, k, p, v) ensures Excused(e, k, p, w) {
      var d: nat :| DeletedAt(e, k, d) && p < d && (d <= v || d !in e.retained);
    }
  }

  // ---------------------------------------------------------------- items and their effect

  /** What a page carries: a record at some version, or a body-free deletion notice. */
  datatype Item = Body(key: Key, row: Row) | Removal(key: Key, sequence: nat)

  function SequenceOf(i: Item): nat { if i.Body? then i.row.sequence else i.sequence }

  function ApplyItem(rows: map<Key, Row>, i: Item): map<Key, Row> {
    match i
    case Body(k, row) => rows[k := row]
    case Removal(k, _) => rows - {k}
  }

  function Apply(rows: map<Key, Row>, items: seq<Item>): map<Key, Row> {
    if items == [] then rows
    else ApplyItem(Apply(rows, items[..|items| - 1]), items[|items| - 1])
  }

  /** Event s, sent as it happened. */
  ghost predicate Emits(e: Epoch, f: Filter, s: nat, i: Item)
    requires EpochOk(e) && 1 <= s <= |e.log|
  {
    match e.log[s - 1]
    case Deletion(k) => i == Removal(k, s)
    case Change(k, state, revision) =>
      assert e.log[s - 1].key in e.content;
      Matches(e.content[k], f) && i == Body(k, Row(e.content[k], state, revision, s))
  }

  /** Event s may be left out: it is outside the filter, or its record's deletion is ahead. */
  ghost predicate Skippable(e: Epoch, f: Filter, s: nat, w: nat)
    requires EpochOk(e) && 1 <= s <= |e.log|
  {
    match e.log[s - 1]
    case Deletion(k) => false
    case Change(k, _, _) =>
      assert e.log[s - 1].key in e.content;
      !Matches(e.content[k], f) || Excused(e, k, s, w)
  }

  /** items are the events p+1..q in order, skippable ones possibly left out. */
  ghost predicate Covers(e: Epoch, f: Filter, p: nat, q: nat, w: nat, items: seq<Item>)
    requires EpochOk(e) && q <= |e.log|
    decreases q
  {
    if q <= p then items == []
    else
      || (Skippable(e, f, q, w) && Covers(e, f, p, q - 1, w, items))
      || (items != [] && Emits(e, f, q, items[|items| - 1]) && Covers(e, f, p, q - 1, w, items[..|items| - 1]))
  }

  lemma EmitStep(e: Epoch, f: Filter, rows: map<Key, Row>, s: nat, w: nat, i: Item)
    requires EpochOk(e) && 1 <= s <= w <= |e.log| && Faithful(e, f, rows, s - 1, w) && Emits(e, f, s, i)
    ensures Faithful(e, f, ApplyItem(rows, i), s, w)
  {
    var rows' := ApplyItem(rows, i);
    assert e.log[s - 1].key in e.content;
    forall k | k in rows' ensures rows'[k].sequence <= s && View(e, f, rows'[k].sequence, k) == Some(rows'[k]) {
      if k != i.key { assert k in rows && rows[k] == rows'[k]; }
    }
    forall k ensures RowOf(rows', k) == View(e, f, s, k) || Excused(e, k, s, w) {
      if k != i.key {
        assert RowOf(rows', k) == RowOf(rows, k);
        OtherKeyStep(e, f, s, w, k);
      }
    }
  }

  lemma OtherKeyStep(e: Epoch, f: Filter, s: nat, w: nat, k: Key)
    requires EpochOk(e) && 1 <= s <= w <= |e.log| && e.log[s - 1].key != k
    ensures View(e, f, s, k) == View(e, f, s - 1, k)
    ensures Excused(e, k, s - 1, w) ==> Excused(e, k, s, w)
  {
    if Excused(e, k, s - 1, w) {
      var d: nat :| DeletedAt(e, k, d) && s - 1 < d && (d <= w || d !in e.retained);
      assert d != s;
    }
  }

  lemma SkipStep(e: Epoch, f: Filter, rows: map<Key, Row>, s: nat, w: nat)
    requires EpochOk(e) && 1 <= s <= w <= |e.log| && Faithful(e, f, rows, s - 1, w) && Skippable(e, f, s, w)
    ensures Faithful(e, f, rows, s, w)
  {
    var c := e.log[s - 1].key;
    assert e.log[s - 1].key in e.content;
    forall k ensures RowOf(rows, k) == View(e, f, s, k) || Excused(e, k, s, w) {
      if k != c { OtherKeyStep(e, f, s, w, k); }
    }
  }

  /** Applying a covering list of items carries a faithful copy from p to q. */
  lemma {:induction false} ApplyCovers(e: Epoch, f: Filter, rows: map<Key, Row>, p: nat, q: nat, w: nat, items: seq<Item>)
    requires EpochOk(e) && p <= q <= w <= |e.log| && Faithful(e, f, rows, p, w)
    requires Covers(e, f, p, q, w, items)
    ensures Faithful(e, f, Apply(rows, items), q, w)
    decreases q
  {
    if q > p {
      if Skippable(e, f, q, w) && Covers(e, f, p, q - 1, w, items) {
        ApplyCovers(e, f, rows, p, q - 1, w, items);
        SkipStep(e, f, Apply(rows, items), q, w);
      } else {
        var front := items[..|items| - 1];
        ApplyCovers(e, f, rows, p, q - 1, w, front);
        EmitStep(e, f, Apply(rows, front), q, w, items[|items| - 1]);
      }
    }
  }

  /** Coverage survives whatever else happens to the history. */
  lemma {:induction false} CoversStable(was: Epoch, e: Epoch, f: Filter, p: nat, q: nat, w: nat, items: seq<Item>)
    requires EpochOk(was) && Grows(was, e) && q <= w <= |was.log| && Covers(was, f, p, q, w, items)
    ensures Covers(e, f, p, q, w, items)
    decreases q
  {
    if q > p {
      assert was.log[q - 1].key in was.content;
      if Skippable(was, f, q, w) && Covers(was, f, p, q - 1, w, items) {
        CoversStable(was, e, f, p, q - 1, w, items);
        if Excused(was, was.log[q - 1].key, q, w) { ExcusedStable(was, e, was.log[q - 1].key, q, w); }
      } else {
        CoversStable(was, e, f, p, q - 1, w, items[..|items| - 1]);
      }
    }
  }

  /** A covering list is in strictly increasing sequence order, within (p, q]. */
  lemma {:induction false} CoversOrdered(e: Epoch, f: Filter, p: nat, q: nat, w: nat, items: seq<Item>)
    requires EpochOk(e) && q <= |e.log| && Covers(e, f, p, q, w, items)
    ensures forall i | 0 <= i < |items| :: p < SequenceOf(items[i]) <= q
    ensures forall i, j | 0 <= i < j < |items| :: SequenceOf(items[i]) < SequenceOf(items[j])
    decreases q
  {
    if q > p {
      if Skippable(e, f, q, w) && Covers(e, f, p, q - 1, w, items) {
        CoversOrdered(e, f, p, q - 1, w, items);
      } else {
        CoversOrdered(e, f, p, q - 1, w, items[..|items| - 1]);
        assert e.log[q - 1].key in e.content;
      }
    }
  }
}
