/** The bounded fixed-window limiter: what its map holds after any sequence of requests. */
module RateLimit {
  import opened Wrappers

  /** The map in insertion order. */
  datatype Entry = Entry(key: string, window: int, count: nat)

  datatype Admission = Admission(key: string, window: int)

  // ---------------------------------------------------------------- the map as a sequence

  predicate Distinct(es: seq<Entry>) { forall i, j | 0 <= i < j < |es| :: es[i].key != es[j].key }

  function IndexOf(es: seq<Entry>, key: string): (i: int)
    ensures -1 <= i < |es|
    ensures i >= 0 ==> es[i].key == key
    ensures i == -1 ==> forall j | 0 <= j < |es| :: es[j].key != key
  {
    if es == [] then -1
    else if es[|es| - 1].key == key then |es| - 1
    else IndexOf(es[..|es| - 1], key)
  }

  function Remove(es: seq<Entry>, i: nat): (r: seq<Entry>)
    requires i < |es|
    ensures |r| == |es| - 1
    ensures forall j | 0 <= j < |r| :: r[j] == if j < i then es[j] else es[j + 1]
  {
    es[..i] + es[i + 1..]
  }

  /** The entries of one window. */
  function InWindow(es: seq<Entry>, w: int): (r: seq<Entry>)
    ensures |r| <= |es|
  {
    if es == [] then []
    else InWindow(es[..|es| - 1], w) + (if es[|es| - 1].window == w then [es[|es| - 1]] else [])
  }

  /** What eviction leaves: entries of the current window, the least recently admitted dropped
      until there is room. */
  function Kept(es: seq<Entry>, w: int, maxKeys: nat): seq<Entry>
    requires maxKeys >= 1
  {
    var s := InWindow(es, w);
    if |s| >= maxKeys then s[|s| - maxKeys + 1..] else s
  }

  /** The entries after a request at window w; unchanged if it is denied. */
  function After(es: seq<Entry>, key: string, w: int, limit: nat, maxKeys: nat): seq<Entry>
    requires maxKeys >= 1
  {
    var i := IndexOf(es, key);
    if i >= 0 && es[i].window == w then
      if es[i].count >= limit then es else Remove(es, i) + [Entry(key, w, es[i].count + 1)]
    else if i >= 0 then Remove(es, i) + [Entry(key, w, 1)]
    else (if |es| >= maxKeys then Kept(es, w, maxKeys) else es) + [Entry(key, w, 1)]
  }

  predicate Denied(es: seq<Entry>, key: string, w: int, limit: nat) {
    var i := IndexOf(es, key);
    i >= 0 && es[i].window == w && es[i].count >= limit
  }

  // ---------------------------------------------------------------- against the history of admissions

  function Admissions(trace: seq<Admission>, key: string, w: int): nat {
    if trace == [] then 0
    else Admissions(trace[..|trace| - 1], key, w) + (if trace[|trace| - 1] == Admission(key, w) then 1 else 0)
  }

  function CountIn(es: seq<Entry>, key: string, w: int): nat {
    var i := IndexOf(es, key);
    if i >= 0 && es[i].window == w then es[i].count else 0
  }

  /** Position of a key's last admission, -1 if there is none. */
  function LastAt(trace: seq<Admission>, key: string): (p: int)
    ensures -1 <= p < |trace|
    ensures p >= 0 ==> trace[p].key == key
  {
    if trace == [] then -1
    else if trace[|trace| - 1].key == key then |trace| - 1
    else LastAt(trace[..|trace| - 1], key)
  }

  /** The other keys admitted in window w after position p. */
  function OthersAfter(trace: seq<Admission>, p: nat, key: string, w: int): set<string> {
    set i | p < i < |trace| && trace[i].window == w && trace[i].key != key :: trace[i].key
  }

  /** After one of the key's admissions in w, at least maxKeys other keys were admitted in w. */
  ghost predicate Crowded(trace: seq<Admission>, key: string, w: int, maxKeys: nat) {
    exists p :: 0 <= p < |trace| && trace[p] == Admission(key, w) && |OthersAfter(trace, p, key, w)| >= maxKeys
  }

  /** Entries stand in the order of their keys' last admissions, at that admission's window. */
  predicate Recent(es: seq<Entry>, trace: seq<Admission>) {
    && (forall i | 0 <= i < |es| :: LastAt(trace, es[i].key) >= 0 && trace[LastAt(trace, es[i].key)].window == es[i].window)
    && (forall i, j | 0 <= i < j < |es| :: LastAt(trace, es[i].key) < LastAt(trace, es[j].key))
  }

  predicate Bounded(es: seq<Entry>, limit: nat, maxKeys: nat) {
    && Distinct(es) && |es| <= maxKeys
    && forall i | 0 <= i < |es| :: 1 <= es[i].count <= limit
  }

  /** Of the current window every admission is still counted, unless the key was crowded out; of
      an earlier one no more than limit ever were. */
  ghost predicate Counted(es: seq<Entry>, trace: seq<Admission>, now: int, limit: nat, maxKeys: nat) {
    && (forall i | 0 <= i < |trace| :: trace[i].window <= now)
    && (forall k :: Admissions(trace, k, now) <= CountIn(es, k, now) || Crowded(trace, k, now, maxKeys))
    && (forall k, w :: Admissions(trace, k, w) <= limit || Crowded(trace, k, w, maxKeys))
  }

  ghost predicate Sound(es: seq<Entry>, trace: seq<Admission>, now: int, limit: nat, maxKeys: nat) {
    Bounded(es, limit, maxKeys) && Recent(es, trace) && Counted(es, trace, now, limit, maxKeys)
  }

  // ---------------------------------------------------------------- steps

  lemma AdmissionsStep(trace: seq<Admission>, a: Admission, key: string, w: int)
    ensures Admissions(trace + [a], key, w) == Admissions(trace, key, w) + (if a == Admission(key, w) then 1 else 0)
    ensures LastAt(trace + [a], key) == if a.key == key then |trace| else LastAt(trace, key)
  {
    assert (trace + [a])[..|trace|] == trace;
  }

  lemma {:induction false} NoneYet(trace: seq<Admission>, key: string, w: int)
    requires forall i | 0 <= i < |trace| :: trace[i].window < w
    ensures Admissions(trace, key, w) == 0
  {
    if trace != [] { NoneYet(trace[..|trace| - 1], key, w); }
  }

  /** The clock moves on to a later window. */
  lemma NextWindow(es: seq<Entry>, trace: seq<Admission>, now: int, later: int, limit: nat, maxKeys: nat)
    requires Sound(es, trace, now, limit, maxKeys) && now <= later
    ensures Sound(es, trace, later, limit, maxKeys)
  {
    if now < later {
      forall k ensures Admissions(trace, k, later) <= CountIn(es, k, later) { NoneYet(trace, k, later); }
    }
  }

  lemma CrowdedMore(trace: seq<Admission>, a: Admission, key: string, w: int, maxKeys: nat)
    requires Crowded(trace, key, w, maxKeys)
    ensures Crowded(trace + [a], key, w, maxKeys)
  {
    var p :| 0 <= p < |trace| && trace[p] == Admission(key, w) && |OthersAfter(trace, p, key, w)| >= maxKeys;
    var more := trace + [a];
    assert forall i | 0 <= i < |trace| :: more[i] == trace[i];
    assert OthersAfter(trace, p, key, w) <= OthersAfter(more, p, key, w);
    SubsetSize(OthersAfter(trace, p, key, w), OthersAfter(more, p, key, w));
  }

  lemma {:induction false} SubsetSize(a: set<string>, b: set<string>)
    requires a <= b
    ensures |a| <= |b|
    decreases a
  {
    if a != {} {
      var x :| x in a;
      SubsetSize(a - {x}, b - {x});
    }
  }

  function KeysOf(es: seq<Entry>): set<string> { set i | 0 <= i < |es| :: es[i].key }

  lemma {:induction false} KeyCount(es: seq<Entry>)
    requires Distinct(es)
    ensures |KeysOf(es)| == |es|
  {
    if es != [] {
      var front := es[..|es| - 1];
      KeyCount(front);
      assert forall i | 0 <= i < |front| :: front[i] == es[i];
      assert KeysOf(es) == KeysOf(front) + {es[|es| - 1].key};
    }
  }

  /** A full map whose entries are all of this window: admitting a new key crowds out the first. */
  lemma FirstCrowded(es: seq<Entry>, trace: seq<Admission>, w: int, limit: nat, maxKeys: nat, key: string)
    requires Bounded(es, limit, maxKeys) && Recent(es, trace) && |es| == maxKeys >= 1 && IndexOf(es, key) == -1
    requires forall i | 0 <= i < |es| :: es[i].window == w
    ensures Crowded(trace + [Admission(key, w)], es[0].key, w, maxKeys)
  {
    var more := trace + [Admission(key, w)];
    var k, p := es[0].key, LastAt(trace, es[0].key);
    var others := es[1..];
    forall x | x in KeysOf(others) + {key} ensures x in OthersAfter(more, p, k, w) {
      if x == key { assert more[|trace|].key == key; }
      else {
        var i :| 0 <= i < |others| && others[i].key == x;
        var q := LastAt(trace, x);
        assert es[i + 1].key == x && q > p && more[q] == trace[q];
      }
    }
    KeyCount(others);
    assert key !in KeysOf(others);
    SubsetSize(KeysOf(others) + {key}, OthersAfter(more, p, k, w));
    assert more[p] == trace[p];
  }

  predicate Has(es: seq<Entry>, key: string) { exists i :: 0 <= i < |es| && es[i].key == key }

  /** Looking a key up finds its one entry. */
  lemma Found(es: seq<Entry>, i: nat)
    requires Distinct(es) && i < |es|
    ensures IndexOf(es, es[i].key) == i
  {
  }

  lemma SameCount(es: seq<Entry>, fs: seq<Entry>, key: string, w: int)
    requires Distinct(es) && Distinct(fs)
    requires forall e: Entry | e.key == key && e.window == w :: e in es <==> e in fs
    ensures CountIn(es, key, w) == CountIn(fs, key, w)
  {
    var i, j := IndexOf(es, key), IndexOf(fs, key);
    if i >= 0 && es[i].window == w {
      assert es[i] in fs;
      var m :| 0 <= m < |fs| && fs[m] == es[i];
      Found(fs, m);
    }
    if j >= 0 && fs[j].window == w {
      assert fs[j] in es;
      var m :| 0 <= m < |es| && es[m] == fs[j];
      Found(es, m);
    }
  }

  /** The newly admitted key goes to the end. */
  lemma Appended(base: seq<Entry>, trace: seq<Admission>, e: Entry, limit: nat, maxKeys: nat)
    requires Bounded(base, limit, maxKeys) && Recent(base, trace) && |base| < maxKeys
    requires !Has(base, e.key) && 1 <= e.count <= limit
    ensures Bounded(base + [e], limit, maxKeys) && Recent(base + [e], trace + [Admission(e.key, e.window)])
    ensures CountIn(base + [e], e.key, e.window) == e.count
    ensures forall k | k != e.key :: CountIn(base + [e], k, e.window) == CountIn(base, k, e.window)
  {
    var es, a := base + [e], Admission(e.key, e.window);
    var more := trace + [a];
    forall i | 0 <= i < |base|
      ensures es[i] == base[i] && LastAt(more, es[i].key) == LastAt(trace, base[i].key)
      ensures LastAt(trace, base[i].key) >= 0 && more[LastAt(trace, base[i].key)] == trace[LastAt(trace, base[i].key)]
    {
      AdmissionsStep(trace, a, base[i].key, 0);
    }
    AdmissionsStep(trace, a, e.key, 0);
    Found(es, |base|);
    forall k | k != e.key ensures CountIn(es, k, e.window) == CountIn(base, k, e.window) {
      assert es[..|es| - 1] == base;
    }
  }

  /** The counts after admitting key, given those before and who was crowded out. */
  lemma CountedAfter(es: seq<Entry>, trace: seq<Admission>, next: seq<Entry>, key: string, now: int, limit: nat, maxKeys: nat)
    requires Counted(es, trace, now, limit, maxKeys)
    requires forall i | 0 <= i < |next| :: next[i].count <= limit
    requires var more := trace + [Admission(key, now)];
             && (forall k | k != key :: CountIn(next, k, now) == CountIn(es, k, now) || Crowded(more, k, now, maxKeys))
             && CountIn(next, key, now) == CountIn(es, key, now) + 1
    ensures Counted(next, trace + [Admission(key, now)], now, limit, maxKeys)
  {
    hide Crowded, CountIn;
    var a := Admission(key, now);
    var more := trace + [a];
    forall k ensures Admissions(more, k, now) <= CountIn(next, k, now) || Crowded(more, k, now, maxKeys) {
      AdmissionsStep(trace, a, k, now);
      if Crowded(trace, k, now, maxKeys) { CrowdedMore(trace, a, k, now, maxKeys); }
    }
    forall k, w ensures Admissions(more, k, w) <= limit || Crowded(more, k, w, maxKeys) {
      AdmissionsStep(trace, a, k, w);
      CountAtMost(next, k, w, limit);
      if Crowded(trace, k, w, maxKeys) { CrowdedMore(trace, a, k, w, maxKeys); }
    }
  }

  lemma CountAtMost(es: seq<Entry>, key: string, w: int, limit: nat)
    requires forall i | 0 <= i < |es| :: es[i].count <= limit
    ensures CountIn(es, key, w) <= limit
  {
  }

  lemma RemoveKeeps(es: seq<Entry>, trace: seq<Admission>, i: nat, limit: nat, maxKeys: nat)
    requires Bounded(es, limit, maxKeys) && Recent(es, trace) && i < |es|
    ensures Bounded(Remove(es, i), limit, maxKeys) && Recent(Remove(es, i), trace)
    ensures !Has(Remove(es, i), es[i].key)
  {
    hide LastAt;
    var base := Remove(es, i);
    forall j, m | 0 <= j < m < |base|
      ensures base[j].key != base[m].key && LastAt(trace, base[j].key) < LastAt(trace, base[m].key)
    {
      var j', m' := if j < i then j else j + 1, if m < i then m else m + 1;
      assert base[j] == es[j'] && base[m] == es[m'];
    }
  }

  lemma RemoveCounts(es: seq<Entry>, i: nat, k: string, w: int)
    requires i < |es| && Distinct(es) && Distinct(Remove(es, i)) && k != es[i].key
    ensures CountIn(Remove(es, i), k, w) == CountIn(es, k, w)
  {
    forall x: Entry | x.key == k && x.window == w ensures x in es <==> x in Remove(es, i) { RemovedIn(es, i, x); }
    SameCount(es, Remove(es, i), k, w);
  }

  /** A known key: its entry moves to the end with its new count. */
  lemma Moved(es: seq<Entry>, trace: seq<Admission>, key: string, now: int, limit: nat, maxKeys: nat)
    requires Sound(es, trace, now, limit, maxKeys) && IndexOf(es, key) >= 0 && !Denied(es, key, now, limit)
    requires limit >= 1 && maxKeys >= 1
    ensures Sound(After(es, key, now, limit, maxKeys), trace + [Admission(key, now)], now, limit, maxKeys)
  {
    hide Recent, Counted, IndexOf, LastAt, Has, Distinct;
    var i := IndexOf(es, key);
    var base := Remove(es, i);
    var e := Entry(key, now, if es[i].window == now then es[i].count + 1 else 1);
    RemoveKeeps(es, trace, i, limit, maxKeys);
    Appended(base, trace, e, limit, maxKeys);
    forall k | k != key ensures CountIn(base + [e], k, now) == CountIn(es, k, now) { RemoveCounts(es, i, k, now); }
    CountedAfter(es, trace, base + [e], key, now, limit, maxKeys);
  }

  lemma RemovedIn(es: seq<Entry>, i: nat, x: Entry)
    requires i < |es| && x != es[i]
    ensures x in es <==> x in Remove(es, i)
  {
    var base := Remove(es, i);
    if x in es {
      var m :| 0 <= m < |es| && es[m] == x;
      assert base[if m < i then m else m - 1] == x;
    }
  }

  lemma {:induction false} InWindowIs(es: seq<Entry>, w: int)
    ensures forall e :: e in InWindow(es, w) <==> e in es && e.window == w
    ensures |InWindow(es, w)| == |es| ==> InWindow(es, w) == es
  {
    if es != [] {
      var front, last := es[..|es| - 1], es[|es| - 1];
      InWindowIs(front, w);
      assert es == front + [last];
      var s := InWindow(front, w);
      assert InWindow(es, w) == if last.window == w then s + [last] else s;
      forall e ensures e in InWindow(es, w) <==> e in es && e.window == w {
        assert e in es <==> e in front || e == last;
        assert e in s + [last] <==> e in s || e == last;
      }
    }
  }

  lemma FrontKeeps(es: seq<Entry>, trace: seq<Admission>, limit: nat, maxKeys: nat)
    requires Bounded(es, limit, maxKeys) && Recent(es, trace) && es != []
    ensures Bounded(es[..|es| - 1], limit, maxKeys) && Recent(es[..|es| - 1], trace)
  {
    var front := es[..|es| - 1];
    assert forall i | 0 <= i < |front| :: front[i] == es[i];
  }

  lemma PushKeeps(s: seq<Entry>, e: Entry, trace: seq<Admission>, limit: nat, maxKeys: nat)
    requires Bounded(s, limit, maxKeys) && Recent(s, trace) && |s| < maxKeys && 1 <= e.count <= limit
    requires LastAt(trace, e.key) >= 0 && trace[LastAt(trace, e.key)].window == e.window
    requires forall i | 0 <= i < |s| :: s[i].key != e.key && LastAt(trace, s[i].key) < LastAt(trace, e.key)
    ensures Bounded(s + [e], limit, maxKeys) && Recent(s + [e], trace)
  {
    hide LastAt;
  }

  lemma BeforeLast(es: seq<Entry>, trace: seq<Admission>, x: Entry, limit: nat, maxKeys: nat)
    requires Bounded(es, limit, maxKeys) && Recent(es, trace) && es != [] && x in es[..|es| - 1]
    ensures x.key != es[|es| - 1].key && LastAt(trace, x.key) < LastAt(trace, es[|es| - 1].key)
  {
    hide LastAt;
    var front := es[..|es| - 1];
    var m :| 0 <= m < |front| && front[m] == x;
    assert es[m] == x;
  }

  lemma LastEntry(es: seq<Entry>, trace: seq<Admission>, limit: nat, maxKeys: nat)
    requires Bounded(es, limit, maxKeys) && Recent(es, trace) && es != []
    ensures var e := es[|es| - 1];
            && 1 <= e.count <= limit && |es| <= maxKeys
            && LastAt(trace, e.key) >= 0 && trace[LastAt(trace, e.key)].window == e.window
  {
    hide LastAt;
  }

  lemma EmptyKeeps(trace: seq<Admission>, limit: nat, maxKeys: nat)
    ensures Bounded([], limit, maxKeys) && Recent([], trace)
  {
  }

  lemma {:induction false} InWindowKeeps(es: seq<Entry>, trace: seq<Admission>, w: int, limit: nat, maxKeys: nat)
    requires Bounded(es, limit, maxKeys) && Recent(es, trace)
    ensures Bounded(InWindow(es, w), limit, maxKeys) && Recent(InWindow(es, w), trace)
  {
    hide LastAt, Bounded, Recent;
    if es == [] {
      EmptyKeeps(trace, limit, maxKeys);
    } else {
      var front, last := es[..|es| - 1], es[|es| - 1];
      FrontKeeps(es, trace, limit, maxKeys);
      LastEntry(es, trace, limit, maxKeys);
      InWindowKeeps(front, trace, w, limit, maxKeys);
      InWindowIs(front, w);
      var s := InWindow(front, w);
      if last.window == w {
        forall i | 0 <= i < |s| ensures s[i].key != last.key && LastAt(trace, s[i].key) < LastAt(trace, last.key) {
          assert s[i] in front;
          BeforeLast(es, trace, s[i], limit, maxKeys);
        }
        PushKeeps(s, last, trace, limit, maxKeys);
      } else {
        assert InWindow(es, w) == s;
      }
    }
  }

  /** A new key, into a map that holds base of what it held. */
  lemma InsertedInto(es: seq<Entry>, base: seq<Entry>, trace: seq<Admission>, key: string, now: int, limit: nat, maxKeys: nat)
    requires Counted(es, trace, now, limit, maxKeys) && IndexOf(es, key) == -1 && limit >= 1
    requires Bounded(base, limit, maxKeys) && Recent(base, trace) && |base| < maxKeys && !Has(base, key)
    requires forall k | k != key ::
               CountIn(base, k, now) == CountIn(es, k, now) || Crowded(trace + [Admission(key, now)], k, now, maxKeys)
    ensures Sound(base + [Entry(key, now, 1)], trace + [Admission(key, now)], now, limit, maxKeys)
  {
    hide Recent, Counted, Crowded, LastAt, Has, Distinct;
    var e := Entry(key, now, 1);
    Appended(base, trace, e, limit, maxKeys);
    CountedAfter(es, trace, base + [e], key, now, limit, maxKeys);
  }

  lemma NotAmong(es: seq<Entry>, base: seq<Entry>, key: string)
    requires IndexOf(es, key) == -1 && forall e | e in base :: e in es
    ensures !Has(base, key)
  {
    forall i | 0 <= i < |base| ensures base[i].key != key { assert base[i] in es; }
  }

  /** Into a map full of this window's keys. */
  lemma InsertedFull(es: seq<Entry>, trace: seq<Admission>, key: string, now: int, limit: nat, maxKeys: nat)
    requires Sound(es, trace, now, limit, maxKeys) && IndexOf(es, key) == -1 && limit >= 1
    requires |es| == maxKeys >= 1 && forall i | 0 <= i < |es| :: es[i].window == now
    ensures Sound(es[1..] + [Entry(key, now, 1)], trace + [Admission(key, now)], now, limit, maxKeys)
  {
    hide Recent, Counted, Crowded, LastAt, Has, CountIn;
    var base := Remove(es, 0);
    assert base == es[1..];
    FirstCrowded(es, trace, now, limit, maxKeys, key);
    RemoveKeeps(es, trace, 0, limit, maxKeys);
    NotAmong(es, base, key);
    forall k | k != es[0].key ensures CountIn(base, k, now) == CountIn(es, k, now) { RemoveCounts(es, 0, k, now); }
    InsertedInto(es, base, trace, key, now, limit, maxKeys);
  }

  /** Where dropping other windows' keys is enough. */
  lemma InsertedRoom(es: seq<Entry>, base: seq<Entry>, trace: seq<Admission>, key: string, now: int, limit: nat, maxKeys: nat)
    requires Sound(es, trace, now, limit, maxKeys) && IndexOf(es, key) == -1 && limit >= 1
    requires (base == es || base == InWindow(es, now)) && |base| < maxKeys
    ensures Sound(base + [Entry(key, now, 1)], trace + [Admission(key, now)], now, limit, maxKeys)
  {
    hide Recent, Counted, Crowded, LastAt, Has, CountIn, InWindow;
    InWindowKeeps(es, trace, now, limit, maxKeys);
    InWindowIs(es, now);
    NotAmong(es, base, key);
    forall k ensures CountIn(base, k, now) == CountIn(es, k, now) { SameCount(es, base, k, now); }
    InsertedInto(es, base, trace, key, now, limit, maxKeys);
  }

  /** A new key, with room or after eviction. */
  lemma Inserted(es: seq<Entry>, trace: seq<Admission>, key: string, now: int, limit: nat, maxKeys: nat)
    requires Sound(es, trace, now, limit, maxKeys) && IndexOf(es, key) == -1 && limit >= 1 && maxKeys >= 1
    ensures Sound(After(es, key, now, limit, maxKeys), trace + [Admission(key, now)], now, limit, maxKeys)
  {
    hide Sound, InWindow;
    var s := InWindow(es, now);
    InWindowIs(es, now);
    AtMostMax(es, trace, now, limit, maxKeys);
    if |es| >= maxKeys && |s| >= maxKeys {
      assert s == es;
      forall i | 0 <= i < |es| ensures es[i].window == now { assert es[i] in s; }
      InsertedFull(es, trace, key, now, limit, maxKeys);
    } else {
      InsertedRoom(es, if |es| >= maxKeys then s else es, trace, key, now, limit, maxKeys);
    }
  }

  lemma AtMostMax(es: seq<Entry>, trace: seq<Admission>, now: int, limit: nat, maxKeys: nat)
    requires Sound(es, trace, now, limit, maxKeys)
    ensures |es| <= maxKeys
  {
  }

  // ---------------------------------------------------------------- the limiter

  /** Whole seconds to wait: at least one, and none too few. */
  function RetryAfter(window: int, windowMs: nat, now: int): int
    requires windowMs >= 1
  {
    var remaining := (window + 1) * windowMs - now;
    var seconds := (remaining + 999) / 1000;
    if seconds < 1 then 1 else seconds
  }

  /** Waiting that long reaches the next window, and a second less would not (where more than the
      minimum is asked). */
  lemma RetryReachesNextWindow(window: int, windowMs: nat, now: int)
    requires windowMs >= 1
    ensures var r := RetryAfter(window, windowMs, now);
            && r >= 1 && now + 1000 * r >= (window + 1) * windowMs
            && (r > 1 ==> now + 1000 * (r - 1) < (window + 1) * windowMs)
  {
  }

  class Limiter {
    const limit: nat
    const windowMs: nat
    const maxKeys: nat
    var state: seq<Entry>
    ghost var trace: seq<Admission>
    ghost var now: int

    constructor (limit: nat, windowMs: nat, maxKeys: nat, start: int)
      requires limit >= 1 && windowMs >= 1 && maxKeys >= 1
      ensures Valid() && state == [] && trace == [] && this.limit == limit && this.maxKeys == maxKeys
      ensures this.windowMs == windowMs && now == start
    {
      this.limit, this.windowMs, this.maxKeys, state, trace, now := limit, windowMs, maxKeys, [], [], start;
    }

    /** What every run keeps, on a clock that does not go back. */
    ghost predicate Valid()
      reads this
    {
      limit >= 1 && windowMs >= 1 && maxKeys >= 1 && Sound(state, trace, now / windowMs, limit, maxKeys)
    }

    /** consume; later is the second reading of the clock, made only for a denial. */
    method Consume(key: string, timestamp: int, later: int) returns (allowed: bool, retryAfterSeconds: int)
      requires Valid() && now <= timestamp <= later
      modifies this
      ensures Valid() && now == timestamp
      ensures allowed <==> !Denied(old(state), key, timestamp / windowMs, limit)
      ensures state == After(old(state), key, timestamp / windowMs, limit, maxKeys)
      ensures trace == if allowed then old(trace) + [Admission(key, timestamp / windowMs)] else old(trace)
      ensures retryAfterSeconds == if allowed then 0 else RetryAfter(timestamp / windowMs, windowMs, later)
    {
      hide Sound, IndexOf, Kept, Distinct, RetryAfter;
      var window := timestamp / windowMs;
      assert now / windowMs <= window by { DivisionGrows(now, timestamp, windowMs); }
      NextWindow(state, trace, now / windowMs, window, limit, maxKeys);
      now := timestamp;
      retryAfterSeconds := 0;
      var i := IndexOf(state, key);
      if i >= 0 {
        if state[i].window == window {
          if state[i].count >= limit { return false, RetryAfter(window, windowMs, later); }
          Moved(state, trace, key, window, limit, maxKeys);
          state := Remove(state, i) + [Entry(key, window, state[i].count + 1)];
        } else {
          Moved(state, trace, key, window, limit, maxKeys);
          state := Remove(state, i) + [Entry(key, window, 1)];
        }
      } else {
        Inserted(state, trace, key, window, limit, maxKeys);
        var base := state;
        if |base| >= maxKeys { base := Evict(window); }
        state := base + [Entry(key, window, 1)];
      }
      trace := trace + [Admission(key, window)];
      allowed := true;
    }

    /** evict: drop other windows' entries, then the oldest until there is room. */
    method Evict(window: int) returns (kept: seq<Entry>)
      requires maxKeys >= 1
      ensures kept == Kept(state, window, maxKeys)
    {
      kept := [];
      for i := 0 to |state|
        invariant kept == InWindow(state[..i], window)
      {
        assert state[..i + 1][..i] == state[..i];
        if state[i].window == window { kept := kept + [state[i]]; }
      }
      assert state[..|state|] == state;
      ghost var s := kept;
      while |kept| >= maxKeys
        invariant |s| < maxKeys ==> kept == s
        invariant |s| >= maxKeys ==> maxKeys - 1 <= |kept| <= |s| && kept == s[|s| - |kept|..]
      {
        kept := kept[1..];
      }
    }

    /** So the map is bounded, and a key is admitted more than limit times in one window only if,
        after one of those admissions, at least maxKeys other keys were admitted in it. */
    lemma OverAdmissionIsCrowding(key: string, w: int)
      requires Valid()
      ensures |state| <= maxKeys && Distinct(state)
      ensures forall i | 0 <= i < |state| :: 1 <= state[i].count <= limit
      ensures Admissions(trace, key, w) > limit ==> Crowded(trace, key, w, maxKeys)
    {
    }
  }

  lemma DivisionGrows(a: int, b: int, d: nat)
    requires a <= b && d >= 1
    ensures a / d <= b / d
  {
    if a / d > b / d {
      ProductGrows(b / d + 1, a / d, d);
      assert false;
    }
  }

  lemma ProductGrows(x: int, y: int, d: nat)
    requires x <= y
    ensures x * d <= y * d
  {
  }
}
