/** Fencing one owner after a database restore: deletions the backup has forgotten are made again,
    in a fresh epoch, in one transaction. */
module Restore {
  import opened Wrappers
  import Decimals
  import TextParts

  type Key = nat

  /** None is a value that is not a canonical instant, or not a record key. */
  datatype Receipt = Receipt(key: Option<Key>, deletedAt: Option<int>)

  /** The bundle as handed in. Instants are milliseconds. */
  datatype Bundle = Bundle(version: int, recoveryId: string, owner: string, restoredEpoch: string, recoveryEpoch: string,
                           receiptsComplete: bool, backupCreatedAt: Option<int>, receiptsThrough: Option<int>,
                           retentionUntil: Option<int>, deletions: seq<Receipt>)

  datatype Code = Manifest | ReceiptsIncomplete | BadState

  predicate IdChar(c: char) { 'A' <= c <= 'Z' || 'a' <= c <= 'z' || '0' <= c <= '9' || c == '_' || c == '-' }

  predicate Epoch(s: string) { 1 <= |s| <= 128 && forall i | 0 <= i < |s| :: IdChar(s[i]) || s[i] == ':' }

  /** The checks before the receipts, in order. */
  function HeaderError(b: Bundle): Option<Code> {
    if b.version != 1 then Some(Manifest)
    else if !(1 <= |b.recoveryId| <= 64 && forall i | 0 <= i < |b.recoveryId| :: IdChar(b.recoveryId[i])) then Some(Manifest)
    else if !TextParts.IdentityKey(b.owner) then Some(Manifest)
    else if !(Epoch(b.restoredEpoch) && Epoch(b.recoveryEpoch)) then Some(Manifest)
    else if b.restoredEpoch == b.recoveryEpoch then Some(Manifest)
    else if !b.receiptsComplete then Some(ReceiptsIncomplete)
    else if b.backupCreatedAt.None? || b.receiptsThrough.None? || b.retentionUntil.None? then Some(Manifest)
    else if b.receiptsThrough.value < b.backupCreatedAt.value then Some(Manifest)
    else if b.retentionUntil.value <= b.backupCreatedAt.value then Some(Manifest)
    else None
  }

  /** A receipt for a real key, within the time the bundle covers. */
  predicate Covered(b: Bundle, r: Receipt)
    requires b.backupCreatedAt.Some? && b.receiptsThrough.Some?
  {
    r.key.Some? && r.deletedAt.Some? && b.backupCreatedAt.value <= r.deletedAt.value <= b.receiptsThrough.value
  }

  /** A bundle that may be applied: complete, coherent, and with no key deleted twice. */
  predicate Accepted(b: Bundle) {
    && HeaderError(b).None?
    && (forall i | 0 <= i < |b.deletions| :: Covered(b, b.deletions[i]))
    && (forall i, j | 0 <= i < j < |b.deletions| :: b.deletions[i].key != b.deletions[j].key)
  }

  /** A text of 1 to max letters, digits, underscores and hyphens, and colons where they are allowed. */
  predicate Word(s: string, max: nat, colons: bool) {
    s != "" && |s| <= max
    && forall c | c in s ::
         var u := c as int;
         0x30 <= u <= 0x39 || 0x41 <= u <= 0x5A || 0x61 <= u <= 0x7A || u == 0x5F || u == 0x2D || (colons && u == 0x3A)
  }

  /** The bundle says what it is for. */
  predicate Addressed(b: Bundle) {
    && b.version == 1 && Word(b.recoveryId, 64, false) && TextParts.IdentityKey(b.owner)
    && Word(b.restoredEpoch, 128, true) && Word(b.recoveryEpoch, 128, true) && b.restoredEpoch != b.recoveryEpoch
  }

  /** A receipt for a record, of a time from the backup on, as far as receipts are complete. */
  predicate Dated(b: Bundle, r: Receipt) {
    && r.key.Some? && r.deletedAt.Some? && b.backupCreatedAt.Some? && b.receiptsThrough.Some?
    && r.deletedAt.value >= b.backupCreatedAt.value && r.deletedAt.value <= b.receiptsThrough.value
  }

  /** What a bundle must be to be accepted; and when it is refused for its receipts alone. */
  lemma AcceptedIff(b: Bundle)
    ensures Accepted(b) <==>
              && Addressed(b) && b.receiptsComplete
              && b.backupCreatedAt.Some? && b.receiptsThrough.Some? && b.retentionUntil.Some?
              && b.receiptsThrough.value >= b.backupCreatedAt.value && b.retentionUntil.value > b.backupCreatedAt.value
              && (forall i | 0 <= i < |b.deletions| :: Dated(b, b.deletions[i]))
              && (forall i, j | 0 <= i < j < |b.deletions| :: b.deletions[i].key != b.deletions[j].key)
    ensures HeaderError(b) == Some(ReceiptsIncomplete) <==> Addressed(b) && !b.receiptsComplete
    ensures HeaderError(b).Some? ==> HeaderError(b).value in {Manifest, ReceiptsIncomplete}
  {
    hide TextParts.IdentityKey;
    WordIff(b.restoredEpoch, 128, true);
    WordIff(b.recoveryEpoch, 128, true);
    WordIff(b.recoveryId, 64, false);
    if HeaderError(b).None? {
      assert forall i | 0 <= i < |b.deletions| :: Covered(b, b.deletions[i]) <==> Dated(b, b.deletions[i]);
    }
  }

  lemma WordIff(s: string, max: nat, colons: bool)
    ensures Word(s, max, colons) <==>
              1 <= |s| <= max && forall i | 0 <= i < |s| :: IdChar(s[i]) || (colons && s[i] == ':')
  {
    if forall i | 0 <= i < |s| :: IdChar(s[i]) || (colons && s[i] == ':') {
      forall c | c in s ensures IdChar(c) || (colons && c == ':') {
        var i :| 0 <= i < |s| && s[i] == c;
      }
    } else {
      var i :| 0 <= i < |s| && !(IdChar(s[i]) || (colons && s[i] == ':'));
      assert s[i] in s;
    }
  }

  /** validateRestoreRecoveryBundle. */
  method Validate(b: Bundle) returns (error: Option<Code>)
    ensures error.None? <==> Accepted(b)
    ensures HeaderError(b).Some? ==> error == HeaderError(b)
    ensures error.Some? ==> error.value == if Addressed(b) && !b.receiptsComplete then ReceiptsIncomplete else Manifest
  {
    AcceptedIff(b);
    error := HeaderError(b);
    if error.Some? { return; }
    var seen: set<Key> := {};
    for i := 0 to |b.deletions|
      invariant forall j | 0 <= j < i :: Covered(b, b.deletions[j]) && b.deletions[j].key.value in seen
      invariant forall j, k | 0 <= j < k < i :: b.deletions[j].key != b.deletions[k].key
      invariant forall k | k in seen :: exists j :: 0 <= j < i && b.deletions[j].key == Some(k)
    {
      var r := b.deletions[i];
      if r.key.None? { return Some(Manifest); }
      if r.key.value in seen { return Some(Manifest); }
      seen := seen + {r.key.value};
      if r.deletedAt.None? || !Covered(b, r) { return Some(Manifest); }
    }
  }

  // ---------------------------------------------------------------- the tables

  datatype Change = Change(key: Key, deletion: bool, at: int)

  datatype Tombstone = Tombstone(at: int, sequence: nat)

  datatype Marker = Marker(recoveryId: string, recoveryEpoch: string, digest: nat)

  datatype OwnerState = OwnerState(epoch: string, next: nat, recordCount: nat, byteCount: nat)

  /** One owner's rows: body bytes by record key, changes by sequence, tombstones by record key,
      snapshots (active or not) by id, idempotency rows, and audit markers, oldest first. */
  datatype Tables = Tables(records: map<Key, nat>, changes: map<nat, Change>, tombstones: map<Key, Tombstone>,
                           snapshots: map<string, bool>, replies: set<string>, markers: seq<Marker>, state: OwnerState)

  /** SUM(body_bytes). */
  ghost function Bytes(records: map<Key, nat>): nat
    decreases records.Keys
  {
    if records.Keys == {} then 0
    else
      var k :| k in records.Keys;
      records[k] + Bytes(records - {k})
  }

  lemma {:induction false} BytesWithout(records: map<Key, nat>, k: Key)
    requires k in records
    ensures Bytes(records) == records[k] + Bytes(records - {k})
    decreases records.Keys
  {
    var c :| c in records.Keys && Bytes(records) == records[c] + Bytes(records - {c});
    if c != k {
      BytesWithout(records - {c}, k);
      BytesWithout(records - {k}, c);
      assert records - {c} - {k} == records - {k} - {c};
    }
  }

  method CountRows(records: map<Key, nat>) returns (count: nat, bytes: nat)
    ensures count == |records| && bytes == Bytes(records)
  {
    count, bytes := 0, 0;
    var left := records;
    while left.Keys != {}
      invariant count + |left| == |records| && bytes + Bytes(left) == Bytes(records)
      decreases left.Keys
    {
      var k :| k in left.Keys;
      BytesWithout(left, k);
      assert left.Keys == (left - {k}).Keys + {k};
      count, bytes, left := count + 1, bytes + left[k], left - {k};
    }
  }

  function KeysUpTo(b: Bundle, n: nat): (s: set<Key>)
    requires n <= |b.deletions| && forall i | 0 <= i < n :: b.deletions[i].key.Some?
  {
    set i | 0 <= i < n :: b.deletions[i].key.value
  }

  /** Receipt i has its tombstone and its deletion, at the sequence given to it. */
  predicate MadeGood(t: Tables, r: Receipt, sequence: nat)
    requires r.key.Some? && r.deletedAt.Some?
  {
    && r.key.value in t.tombstones && t.tombstones[r.key.value] == Tombstone(r.deletedAt.value, sequence)
    && sequence in t.changes && t.changes[sequence] == Change(r.key.value, true, r.deletedAt.value)
  }

  ghost predicate ChangesKept(was: Tables, t: Tables, start: nat, n: nat) {
    && (forall s | s in was.changes :: s in t.changes && t.changes[s] == was.changes[s])
    && (forall s | s in t.changes :: s in was.changes || start <= s < start + n)
  }

  ghost predicate TombstonesKept(was: Tables, t: Tables, keys: set<Key>) {
    && (forall k | k in was.tombstones && k !in keys :: k in t.tombstones && t.tombstones[k] == was.tombstones[k])
    && (forall k | k in t.tombstones :: k in was.tombstones || k in keys)
  }

  /** The first n receipts have been made good, at sequences from start on. */
  ghost predicate Fenced(was: Tables, t: Tables, b: Bundle, start: nat, n: nat)
    requires Accepted(b) && n <= |b.deletions|
  {
    && t.records == was.records - KeysUpTo(b, n)
    && (forall i | 0 <= i < n :: MadeGood(t, b.deletions[i], start + i))
    && ChangesKept(was, t, start, n) && TombstonesKept(was, t, KeysUpTo(b, n))
  }

  /** One pass of the loop. */
  function Delete(t: Tables, r: Receipt, sequence: nat): Tables
    requires r.key.Some? && r.deletedAt.Some?
  {
    t.(records := t.records - {r.key.value},
       changes := t.changes[sequence := Change(r.key.value, true, r.deletedAt.value)],
       tombstones := t.tombstones[r.key.value := Tombstone(r.deletedAt.value, sequence)])
  }

  lemma StillGood(t: Tables, r: Receipt, sequence: nat, other: Receipt, at: nat)
    requires r.key.Some? && r.deletedAt.Some? && other.key.Some? && other.deletedAt.Some?
    requires MadeGood(t, other, at) && other.key != r.key && at != sequence
    ensures MadeGood(Delete(t, r, sequence), other, at)
  {
  }

  lemma DeleteKeeps(was: Tables, t: Tables, r: Receipt, keys: set<Key>, start: nat, n: nat)
    requires r.key.Some? && r.deletedAt.Some? && t.records == was.records - keys
    requires ChangesKept(was, t, start, n) && TombstonesKept(was, t, keys) && start + n !in was.changes
    ensures var u := Delete(t, r, start + n);
            && u.records == was.records - (keys + {r.key.value})
            && ChangesKept(was, u, start, n + 1) && TombstonesKept(was, u, keys + {r.key.value})
            && MadeGood(u, r, start + n)
  {
  }

  lemma NextKey(b: Bundle, n: nat)
    requires Accepted(b) && n < |b.deletions|
    ensures b.deletions[n].key.Some? && b.deletions[n].deletedAt.Some?
    ensures KeysUpTo(b, n + 1) == KeysUpTo(b, n) + {b.deletions[n].key.value}
    ensures forall i | 0 <= i < n :: b.deletions[i].key != b.deletions[n].key
  {
  }

  lemma DeleteFences(was: Tables, t: Tables, b: Bundle, start: nat, n: nat)
    requires Accepted(b) && n < |b.deletions| && Fenced(was, t, b, start, n)
    requires forall s | s in was.changes :: s < start
    ensures Fenced(was, Delete(t, b.deletions[n], start + n), b, start, n + 1)
  {
    hide ChangesKept, TombstonesKept, MadeGood, Delete, KeysUpTo, HeaderError, TextParts.IdentityKey;
    var r := b.deletions[n];
    NextKey(b, n);
    DeleteKeeps(was, t, r, KeysUpTo(b, n), start, n);
    forall i | 0 <= i < n ensures MadeGood(Delete(t, r, start + n), b.deletions[i], start + i) {
      StillGood(t, r, start + n, b.deletions[i], start + i);
    }
  }

  /** The owner's tables after recovery. */
  ghost predicate Recovered(was: Tables, t: Tables, b: Bundle, digest: nat)
    requires Accepted(b)
  {
    && Fenced(was, t, b, was.state.next, |b.deletions|)
    && (forall id | id in t.snapshots :: !t.snapshots[id]) && t.snapshots.Keys == was.snapshots.Keys
    && t.replies == {}
    && t.state == OwnerState(b.recoveryEpoch, was.state.next + |b.deletions|, |t.records|, Bytes(t.records))
    && t.markers == was.markers + [Marker(b.recoveryId, b.recoveryEpoch, digest)]
  }

  function FindMarker(markers: seq<Marker>, id: string, from: nat): (m: Option<Marker>)
    requires from <= |markers|
    ensures m.Some? ==> m.value in markers && m.value.recoveryId == id
    ensures m.None? ==> forall i | from <= i < |markers| :: markers[i].recoveryId != id
    decreases |markers| - from
  {
    if from == |markers| then None
    else if markers[from].recoveryId == id then Some(markers[from])
    else FindMarker(markers, id, from + 1)
  }

  lemma {:induction false} MarkerFound(markers: seq<Marker>, m: Marker, from: nat)
    requires from <= |markers| && FindMarker(markers, m.recoveryId, from).None?
    ensures FindMarker(markers + [m], m.recoveryId, from) == Some(m)
    decreases |markers| - from
  {
    if from < |markers| { MarkerFound(markers, m, from + 1); }
  }

  datatype Outcome = Outcome(deleted: nat, replayed: bool)

  class Database {
    var owners: map<string, Tables>

    constructor (owners: map<string, Tables>)
      ensures this.owners == owners
    {
      this.owners := owners;
    }

    /** applyMysqlRestoreRecovery. It succeeds for exactly the bundles that apply or were applied; a
        failure and a replay leave everything as it was; an application touches one owner only. */
    method Apply(b: Bundle, digest: nat) returns (r: Result<Outcome, Code>)
      modifies this
      ensures r.Ok? <==> Applies(old(owners), b, digest) || Replays(old(owners), b, digest)
      ensures r.Ok? ==> r.value == Outcome(|b.deletions|, Replays(old(owners), b, digest))
      ensures r.Err? || r.value.replayed ==> owners == old(owners)
      ensures r.Err? ==> r.error == if Accepted(b) then BadState
                                    else if Addressed(b) && !b.receiptsComplete then ReceiptsIncomplete else Manifest
      ensures r.Ok? && !r.value.replayed ==>
                && b.owner in owners && owners == old(owners)[b.owner := owners[b.owner]]
                && Recovered(old(owners)[b.owner], owners[b.owner], b, digest)
    {
      hide Fenced, HeaderError, Covered, Accepted, Bytes, KeysUpTo, Addressed;
      var error := Validate(b);
      if error.Some? { return Err(error.value); }
      if b.owner !in owners { return Err(BadState); }
      var was := owners[b.owner];
      var existing := FindMarker(was.markers, b.recoveryId, 0);
      if existing.Some? {
        if existing.value != Marker(b.recoveryId, b.recoveryEpoch, digest) { return Err(BadState); }
        if was.state.epoch != b.recoveryEpoch { return Err(BadState); }
        return Ok(Outcome(|b.deletions|, true));
      }
      if was.state.epoch != b.restoredEpoch { return Err(BadState); }
      if exists s | s in was.changes :: was.state.next <= s { return Err(BadState); }
      if was.state.next + |b.deletions| > Decimals.UINT64_MAX + 1 { return Err(BadState); }
      var fenced := FenceAll(was, b);
      var count, bytes := CountRows(fenced.records);
      var t := fenced.(snapshots := map id | id in fenced.snapshots :: false, replies := {},
                       state := OwnerState(b.recoveryEpoch, was.state.next + |b.deletions|, count, bytes),
                       markers := fenced.markers + [Marker(b.recoveryId, b.recoveryEpoch, digest)]);
      FencedRows(was, fenced, t, b, was.state.next, |b.deletions|);
      owners := owners[b.owner := t];
      r := Ok(Outcome(|b.deletions|, false));
    }

    /** Applying a bundle twice leaves what applying it once leaves. */
    method ApplyTwice(b: Bundle, digest: nat)
      returns (first: Result<Outcome, Code>, second: Result<Outcome, Code>, ghost once: map<string, Tables>)
      modifies this
      ensures owners == once
      ensures first.Ok? ==> second == Ok(Outcome(|b.deletions|, true))
      ensures first.Err? ==> second.Err?
    {
      first := Apply(b, digest);
      once := owners;
      if first.Ok? && !first.value.replayed { AppliedReplays(old(owners), once, b, digest); }
      second := Apply(b, digest);
    }
  }

  predicate Replays(owners: map<string, Tables>, b: Bundle, digest: nat) {
    && Accepted(b) && b.owner in owners
    && FindMarker(owners[b.owner].markers, b.recoveryId, 0) == Some(Marker(b.recoveryId, b.recoveryEpoch, digest))
    && owners[b.owner].state.epoch == b.recoveryEpoch
  }

  predicate Applies(owners: map<string, Tables>, b: Bundle, digest: nat) {
    && Accepted(b) && b.owner in owners
    && var t := owners[b.owner];
       && FindMarker(t.markers, b.recoveryId, 0).None?
       && t.state.epoch == b.restoredEpoch
       && (forall s | s in t.changes :: s < t.state.next)
       && t.state.next + |b.deletions| <= Decimals.UINT64_MAX + 1
  }

  lemma FencedRows(was: Tables, t: Tables, u: Tables, b: Bundle, start: nat, n: nat)
    requires Accepted(b) && n <= |b.deletions| && Fenced(was, t, b, start, n)
    requires u.records == t.records && u.changes == t.changes && u.tombstones == t.tombstones
    ensures Fenced(was, u, b, start, n)
  {
  }

  lemma AppliedReplays(was: map<string, Tables>, owners: map<string, Tables>, b: Bundle, digest: nat)
    requires Applies(was, b, digest) && b.owner in owners && Recovered(was[b.owner], owners[b.owner], b, digest)
    ensures Replays(owners, b, digest)
  {
    hide Fenced;
    MarkerFound(was[b.owner].markers, Marker(b.recoveryId, b.recoveryEpoch, digest), 0);
  }

  function Part(records: map<Key, nat>, keys: set<Key>): map<Key, nat> { map k | k in records && k in keys :: records[k] }

  /** No byte is lost or counted twice. */
  lemma {:induction false} BytesSplit(records: map<Key, nat>, keys: set<Key>)
    ensures Bytes(records) == Bytes(records - keys) + Bytes(Part(records, keys))
    decreases records.Keys
  {
    if records.Keys == {} {
      assert (records - keys).Keys == {} && Part(records, keys).Keys == {};
    } else {
      var k :| k in records.Keys;
      var rest := records - {k};
      BytesWithout(records, k);
      BytesSplit(rest, keys);
      if k in keys {
        BytesWithout(Part(records, keys), k);
        assert Part(records, keys) - {k} == Part(rest, keys);
        assert records - keys == rest - keys;
      } else {
        BytesWithout(records - keys, k);
        assert records - keys - {k} == rest - keys;
        assert Part(records, keys) == Part(rest, keys);
      }
    }
  }

  lemma GoodReceipt(was: Tables, t: Tables, b: Bundle, n: nat, k: Key) returns (i: nat)
    requires Accepted(b) && n <= |b.deletions| && Fenced(was, t, b, was.state.next, n) && k in KeysUpTo(b, n)
    ensures i < n && b.deletions[i].key == Some(k) && MadeGood(t, b.deletions[i], was.state.next + i)
    ensures k !in t.records
  {
    i :| 0 <= i < n && b.deletions[i].key.value == k;
  }

  /** What recovery is for: no receipt's record is live; each has a tombstone and a deletion of its
      own, at a fresh sequence above every earlier one and within 64 bits. */
  lemma ReceiptsAreFenced(was: map<string, Tables>, t: Tables, b: Bundle, digest: nat, k: Key)
    requires Applies(was, b, digest) && Recovered(was[b.owner], t, b, digest) && k in KeysUpTo(b, |b.deletions|)
    ensures k !in t.records && k in t.tombstones
    ensures var s := t.tombstones[k].sequence;
            && s in t.changes && t.changes[s] == Change(k, true, t.tombstones[k].at)
            && s <= Decimals.UINT64_MAX && s < t.state.next && forall e | e in was[b.owner].changes :: e < s
  {
    hide Fenced;
    var i := GoodReceipt(was[b.owner], t, b, |b.deletions|, k);
  }

  /** The counters are those of the surviving rows, and what they lost is what was deleted; the
      allocator is past every change; no snapshot is active. */
  lemma CountersAreTrue(was: map<string, Tables>, t: Tables, b: Bundle, digest: nat)
    requires Applies(was, b, digest) && Recovered(was[b.owner], t, b, digest)
    ensures t.state.recordCount == |t.records| && t.state.byteCount == Bytes(t.records)
    ensures Bytes(was[b.owner].records) == t.state.byteCount + Bytes(Part(was[b.owner].records, KeysUpTo(b, |b.deletions|)))
    ensures forall s | s in t.changes :: s < t.state.next <= Decimals.UINT64_MAX + 1
    ensures forall id | id in t.snapshots :: !t.snapshots[id]
  {
    BytesSplit(was[b.owner].records, KeysUpTo(b, |b.deletions|));
  }

  lemma NothingFenced(was: Tables, b: Bundle)
    requires Accepted(b)
    ensures Fenced(was, was, b, was.state.next, 0)
  {
    assert KeysUpTo(b, 0) == {};
    assert was.records - {} == was.records;
  }

  lemma ReceiptOk(b: Bundle, n: nat)
    requires Accepted(b) && n < |b.deletions|
    ensures b.deletions[n].key.Some? && b.deletions[n].deletedAt.Some?
  {
  }

  lemma OtherRows(t: Tables, r: Receipt, sequence: nat)
    requires r.key.Some? && r.deletedAt.Some?
    ensures Delete(t, r, sequence).markers == t.markers && Delete(t, r, sequence).snapshots == t.snapshots
  {
  }

  /** The loop over the receipts. */
  method FenceAll(was: Tables, b: Bundle) returns (t: Tables)
    requires Accepted(b) && forall s | s in was.changes :: s < was.state.next
    ensures Fenced(was, t, b, was.state.next, |b.deletions|)
    ensures t.markers == was.markers && t.snapshots == was.snapshots
  {
    hide Fenced, Accepted, Covered, Delete, HeaderError, TextParts.IdentityKey, KeysUpTo;
    NothingFenced(was, b);
    t := was;
    var sequence := was.state.next;
    for n := 0 to |b.deletions|
      invariant sequence == was.state.next + n
      invariant Fenced(was, t, b, was.state.next, n)
      invariant t.markers == was.markers && t.snapshots == was.snapshots
    {
      DeleteFences(was, t, b, was.state.next, n);
      ReceiptOk(b, n);
      OtherRows(t, b.deletions[n], sequence);
      t := Delete(t, b.deletions[n], sequence);
      sequence := sequence + 1;
    }
  }
}
