/** createOwnerLocks: per-owner promise chains, with calls, settlements and callbacks in any order
    the language's job queue could run them. */
module OwnerLocks {
  import opened Wrappers

  /** A call waits for the one before it; runs; has settled, well or not; has run its finally
      callback; and has passed the baton on (its tracked promise has resolved). */
  datatype Phase = Waiting | Running | Settled(ok: bool) | Finalized | Passed

  /** before is the call whose tracked promise this one waits for, if it found one. */
  datatype Call = Call(owner: string, before: Option<nat>, phase: Phase)

  /** What may happen next: a call is made; one whose turn has come starts; one settles, runs its
      finally callback, passes the baton on. */
  datatype Move = Enters(owner: string) | Starts(id: nat) | Settles(id: nat, ok: bool) | Finishes(id: nat) | Passes(id: nat)

  predicate Over(p: Phase) { p.Finalized? || p.Passed? }

  predicate Started(p: Phase) { !p.Waiting? }

  class Locks {
    var chains: map<string, nat>
    var calls: seq<Call>

    constructor ()
      ensures Valid() && chains == map[] && calls == []
    {
      chains, calls := map[], [];
    }

    /** What every interleaving keeps. */
    ghost predicate Valid()
      reads this
    {
      Entries(chains, calls) && AllLinked(calls) && Exclusive(calls)
    }

    /** withOwnerLock(owner, fn). */
    method Enter(owner: string) returns (id: nat)
      requires Valid()
      modifies this
      ensures Valid() && id == |old(calls)|
      ensures calls == old(calls) + [Call(owner, if owner in old(chains) then Some(old(chains)[owner]) else None, Waiting)]
      ensures chains == old(chains)[owner := id]
    {
      hide Entries, AllLinked, Exclusive;
      id := |calls|;
      var c := Call(owner, if owner in chains then Some(chains[owner]) else None, Waiting);
      EnterEntries(chains, calls, c);
      EnterLinked(chains, calls, c);
      calls, chains := calls + [c], chains[owner := id];
    }

    /** The call's turn has come: fn is called. */
    method Start(id: nat)
      requires Valid() && id < |calls| && Ready(calls, id)
      modifies this`calls
      ensures Valid() && calls == old(calls)[id := old(calls)[id].(phase := Running)]
      ensures forall j | 0 <= j < |calls| && j != id && calls[j].owner == calls[id].owner :: !calls[j].phase.Running?
    {
      hide Entries, AllLinked, Exclusive;
      ReadyAlone(calls, id);
      Advance(chains, calls, id, Running);
      StartedAlone(calls[id := calls[id].(phase := Running)], id);
      calls := calls[id := calls[id].(phase := Running)];
    }

    /** fn's promise settles; how makes no difference to anything below. */
    method Settle(id: nat, ok: bool)
      requires Valid() && id < |calls| && calls[id].phase.Running?
      modifies this`calls
      ensures Valid() && calls == old(calls)[id := old(calls)[id].(phase := Settled(ok))]
    {
      hide Entries, AllLinked, Exclusive;
      Advance(chains, calls, id, Settled(ok));
      calls := calls[id := calls[id].(phase := Settled(ok))];
    }

    /** The finally callback: drop the entry, unless a later call has taken it over. */
    method Finish(id: nat)
      requires Valid() && id < |calls| && calls[id].phase.Settled?
      modifies this
      ensures Valid() && calls == old(calls)[id := old(calls)[id].(phase := Finalized)]
      ensures old(calls)[id].owner in old(chains)
      ensures chains == if old(chains)[old(calls)[id].owner] == id then old(chains) - {old(calls)[id].owner} else old(chains)
    {
      hide AllLinked, Exclusive;
      var owner := calls[id].owner;
      assert !Over(calls[id].phase);
      FinishKeeps(chains, calls, id);
      if chains[owner] == id { chains := chains - {owner}; }
      calls := calls[id := calls[id].(phase := Finalized)];
    }

    /** The tracked promise resolves. */
    method PassOn(id: nat)
      requires Valid() && id < |calls| && calls[id].phase.Finalized?
      modifies this`calls
      ensures Valid() && calls == old(calls)[id := old(calls)[id].(phase := Passed)]
    {
      hide Entries, AllLinked, Exclusive;
      Advance(chains, calls, id, Passed);
      calls := calls[id := calls[id].(phase := Passed)];
    }

    /** A move that can be made is made. */
    method Step(m: Move)
      requires Valid()
      modifies this
      ensures Valid() && |old(calls)| <= |calls|
      ensures match m
              case Enters(owner) => |calls| == |old(calls)| + 1 && calls[|old(calls)|].owner == owner
              case Starts(id) => id < |old(calls)| && Ready(old(calls), id) ==> calls[id].phase.Running?
              case Settles(id, ok) => id < |old(calls)| && old(calls)[id].phase.Running? ==> calls[id].phase == Settled(ok)
              case Finishes(id) => id < |old(calls)| && old(calls)[id].phase.Settled? ==> calls[id].phase.Finalized?
              case Passes(id) => id < |old(calls)| && old(calls)[id].phase.Finalized? ==> calls[id].phase.Passed?
    {
      hide Valid, Ready;
      match m {
        case Enters(owner) => var _ := Enter(owner);
        case Starts(id) => if id < |calls| && Ready(calls, id) { Start(id); }
        case Settles(id, ok) => if id < |calls| && calls[id].phase.Running? { Settle(id, ok); }
        case Finishes(id) => if id < |calls| && calls[id].phase.Settled? { Finish(id); }
        case Passes(id) => if id < |calls| && calls[id].phase.Finalized? { PassOn(id); }
      }
    }

    /** Any moves in any order. */
    method Anything(moves: seq<Move>)
      requires Valid()
      modifies this
      ensures Valid()
    {
      hide Valid;
      for n := 0 to |moves|
        invariant Valid()
      {
        Step(moves[n]);
      }
    }
  }

  /** An owner has an entry, the newest call's, exactly while that call is not over - and no other
      call is unfinished without one. */
  ghost predicate Entries(chains: map<string, nat>, calls: seq<Call>) {
    && (forall o | o in chains :: chains[o] < |calls| && calls[chains[o]].owner == o && !Over(calls[chains[o]].phase))
    && (forall o, j | o in chains && chains[o] < j < |calls| :: calls[j].owner != o)
    && (forall j | 0 <= j < |calls| && !Over(calls[j].phase) :: calls[j].owner in chains)
  }

  /** A call waits for the newest earlier call of its owner; it found none only if all were over. */
  ghost predicate Linked(calls: seq<Call>, j: nat)
    requires j < |calls|
  {
    match calls[j].before
    case Some(i) => i < j && calls[i].owner == calls[j].owner && forall k | i < k < j :: calls[k].owner != calls[j].owner
    case None => forall k | 0 <= k < j && calls[k].owner == calls[j].owner :: Over(calls[k].phase)
  }

  ghost predicate AllLinked(calls: seq<Call>) { forall j | 0 <= j < |calls| :: Linked(calls, j) }

  /** When a call has started, all earlier calls of its owner are over. */
  ghost predicate Exclusive(calls: seq<Call>) {
    forall i, j | 0 <= i < j < |calls| && calls[i].owner == calls[j].owner && Started(calls[j].phase) :: Over(calls[i].phase)
  }

  /** What the call waits for has happened. */
  predicate Ready(calls: seq<Call>, id: nat)
    requires id < |calls|
  {
    && calls[id].phase.Waiting?
    && (calls[id].before.Some? ==> calls[id].before.value < |calls| && calls[calls[id].before.value].phase.Passed?)
  }

  lemma EnterEntries(chains: map<string, nat>, calls: seq<Call>, c: Call)
    requires Entries(chains, calls) && c.phase.Waiting?
    ensures Entries(chains[c.owner := |calls|], calls + [c])
  {
  }

  lemma EnterLinked(chains: map<string, nat>, calls: seq<Call>, c: Call)
    requires Entries(chains, calls) && AllLinked(calls) && Exclusive(calls) && c.phase.Waiting?
    requires c.before == if c.owner in chains then Some(chains[c.owner]) else None
    ensures AllLinked(calls + [c]) && Exclusive(calls + [c])
  {
    var more := calls + [c];
    forall j | 0 <= j < |more| ensures Linked(more, j) {
      if j < |calls| { assert Linked(calls, j); }
    }
  }

  /** A ready call finds every earlier call of its owner over. */
  lemma ReadyAlone(calls: seq<Call>, id: nat)
    requires id < |calls| && Ready(calls, id) && Exclusive(calls) && AllLinked(calls)
    ensures forall i | 0 <= i < id && calls[i].owner == calls[id].owner :: Over(calls[i].phase)
  {
    assert Linked(calls, id);
    if calls[id].before.Some? {
      var b := calls[id].before.value;
      forall i | 0 <= i < id && calls[i].owner == calls[id].owner ensures Over(calls[i].phase) {
        if i < b { assert Started(calls[b].phase); }
      }
    }
  }

  /** And once it has, no other call of its owner runs. */
  lemma StartedAlone(calls: seq<Call>, id: nat)
    requires id < |calls| && Exclusive(calls) && calls[id].phase.Running?
    ensures forall j | 0 <= j < |calls| && j != id && calls[j].owner == calls[id].owner :: !calls[j].phase.Running?
  {
    forall j | 0 <= j < |calls| && j != id && calls[j].owner == calls[id].owner ensures !calls[j].phase.Running? {
      if j < id { assert Started(calls[id].phase); } else if calls[j].phase.Running? { assert Started(calls[j].phase); }
    }
  }

  lemma AdvanceLinked(calls: seq<Call>, id: nat, p: Phase)
    requires id < |calls| && AllLinked(calls) && (Over(calls[id].phase) ==> Over(p))
    ensures AllLinked(calls[id := calls[id].(phase := p)])
  {
    var next := calls[id := calls[id].(phase := p)];
    forall j | 0 <= j < |next| ensures Linked(next, j) { assert Linked(calls, j); }
  }

  lemma AdvanceExclusive(calls: seq<Call>, id: nat, p: Phase)
    requires id < |calls| && Exclusive(calls) && (Over(calls[id].phase) ==> Over(p))
    requires !Started(calls[id].phase) ==> forall i | 0 <= i < id && calls[i].owner == calls[id].owner :: Over(calls[i].phase)
    ensures Exclusive(calls[id := calls[id].(phase := p)])
  {
  }

  lemma AdvanceEntries(chains: map<string, nat>, calls: seq<Call>, id: nat, p: Phase)
    requires Entries(chains, calls) && id < |calls| && (Over(calls[id].phase) <==> Over(p))
    ensures Entries(chains, calls[id := calls[id].(phase := p)])
  {
  }

  /** A step within a call that neither ends nor revives it. */
  lemma Advance(chains: map<string, nat>, calls: seq<Call>, id: nat, p: Phase)
    requires Entries(chains, calls) && AllLinked(calls) && Exclusive(calls) && id < |calls|
    requires Over(calls[id].phase) <==> Over(p)
    requires !Started(calls[id].phase) ==> forall i | 0 <= i < id && calls[i].owner == calls[id].owner :: Over(calls[i].phase)
    ensures var next := calls[id := calls[id].(phase := p)];
            Entries(chains, next) && AllLinked(next) && Exclusive(next)
  {
    hide Entries, AllLinked, Exclusive;
    AdvanceEntries(chains, calls, id, p);
    AdvanceLinked(calls, id, p);
    AdvanceExclusive(calls, id, p);
  }

  lemma FinishKeeps(chains: map<string, nat>, calls: seq<Call>, id: nat)
    requires Entries(chains, calls) && AllLinked(calls) && Exclusive(calls)
    requires id < |calls| && calls[id].phase.Settled? && calls[id].owner in chains
    ensures var next := calls[id := calls[id].(phase := Finalized)];
            var left := if chains[calls[id].owner] == id then chains - {calls[id].owner} else chains;
            Entries(left, next) && AllLinked(next) && Exclusive(next)
  {
    hide AllLinked;
    AdvanceLinked(calls, id, Finalized);
    AdvanceExclusive(calls, id, Finalized);
    assert Started(calls[id].phase);
  }

  /** Calls of one owner never run together, and start in the order they were made, each only
      when the ones before it are over. */
  lemma OneAtATime(locks: Locks, i: nat, j: nat)
    requires locks.Valid() && i < j < |locks.calls| && locks.calls[i].owner == locks.calls[j].owner
    ensures !(locks.calls[i].phase.Running? && locks.calls[j].phase.Running?)
    ensures Started(locks.calls[j].phase) ==> Over(locks.calls[i].phase)
  {
  }

  /** An owner's entry is there exactly while one of its calls is not over; never a stale one. */
  lemma EntryIffQueued(locks: Locks, owner: string)
    requires locks.Valid()
    ensures owner in locks.chains <==>
              exists j :: 0 <= j < |locks.calls| && locks.calls[j].owner == owner && !Over(locks.calls[j].phase)
  {
    if owner in locks.chains { assert locks.calls[locks.chains[owner]].owner == owner; }
  }

  predicate Queued(calls: seq<Call>, owner: string, i: nat) {
    i < |calls| && calls[i].owner == owner && !calls[i].phase.Passed?
  }

  /** Nothing blocks a queue: the first unfinished call of an owner, if it has not started, is due
        to start - however the calls before it ended. */
  lemma FirstIsNeverBlocked(locks: Locks, owner: string, i: nat)
    requires locks.Valid() && Queued(locks.calls, owner, i) && locks.calls[i].phase.Waiting?
    requires forall k | 0 <= k < i :: !Queued(locks.calls, owner, k)
    ensures Ready(locks.calls, i)
  {
    assert Linked(locks.calls, i);
    if locks.calls[i].before.Some? { assert !Queued(locks.calls, owner, locks.calls[i].before.value); }
  }
}
