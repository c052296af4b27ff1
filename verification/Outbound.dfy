/** sendPreparedHttpOnce and the stores it runs against, as code: every step it takes is an action
    of OutboundProtocol, so what holds of every run holds of every call, with any others around. */
module Outbound {
  import opened Wrappers
  import opened OutboundProtocol
  import TextParts

  /** What every invocation shares: the store's contents and the network. */
  class Machine {
    const kind: Kind
    var state: State
    ghost var trace: seq<Action>

    constructor (kind: Kind)
      ensures Valid() && this.kind == kind && trace == []
    {
      this.kind, state, trace := kind, Initial(kind), [];
    }

    ghost predicate Valid()
      reads this
    {
      state == Run(Initial(kind), trace)
    }

    method Do(a: Action)
      requires Valid()
      modifies this
      ensures Valid() && state == Next(old(state), a) && trace == old(trace) + [a]
    {
      state, trace := Next(state, a), trace + [a];
      assert trace[..|trace| - 1] == old(trace);
    }

    /** Anything anyone but p does. */
    method Others(p: nat)
      requires Valid()
      modifies this
      ensures Valid() && SameProcess(old(state), state, p) && old(trace) <= trace
      ensures Dispatches(trace, p) == Dispatches(old(trace), p)
    {
      var steps: nat := *;
      while steps > 0
        invariant Valid() && SameProcess(old(state), state, p) && old(trace) <= trace
        invariant Dispatches(trace, p) == Dispatches(old(trace), p)
      {
        hide Next, SameProcess, Run, Valid;
        var a: Action := *;
        if !ActsFor(a, p) {
          ghost var was, before := state, trace;
          Untouched(state, a, p);
          Do(a);
          SameTransitive(old(state), was, state, p);
          assert trace[..|trace| - 1] == before;
        }
        steps := steps - 1;
      }
    }
  }

  predicate ActsFor(a: Action, p: nat) {
    (a.Begin? || a.Refuse? || a.TryClaim? || a.Dispatch? || a.Write? || a.Crash?) && a.p == p
  }

  predicate SameProcess(s: State, t: State, p: nat) {
    (p in s.procs <==> p in t.procs) && (p in s.procs ==> t.procs[p] == s.procs[p]) && t.kind == s.kind
  }

  lemma SameTransitive(a: State, b: State, c: State, p: nat)
    requires SameProcess(a, b, p) && SameProcess(b, c, p)
    ensures SameProcess(a, c, p)
  {
  }

  lemma Untouched(s: State, a: Action, p: nat)
    requires !ActsFor(a, p)
    ensures SameProcess(s, Next(s, a), p)
  {
    hide Writable, ClaimOf, AfterClaim, WriteConfirmed, Put, Written;
    match a
    case Begin(_, _) =>
    case Refuse(_, _, _, _) =>
    case TryClaim(_, _, _) =>
    case Dispatch(_, _) =>
    case Write(_, _, _) =>
    case Crash(_) =>
    case Patch(_, _) =>
    case Delete(_) =>
    case Wipe =>
    case Expire(_) =>
  }

  /** How often p has called the transport. */
  function Dispatches(trace: seq<Action>, p: nat): nat {
    if trace == [] then 0
    else Dispatches(trace[..|trace| - 1], p)
         + (if trace[|trace| - 1].Dispatch? && trace[|trace| - 1].p == p then 1 else 0)
  }

  lemma DispatchesStep(trace: seq<Action>, a: Action, p: nat)
    ensures Dispatches(trace + [a], p) == Dispatches(trace, p) + (if a.Dispatch? && a.p == p then 1 else 0)
  {
    assert (trace + [a])[..|trace|] == trace;
  }

  /** createRemoteAttemptStore's object; for the in-process store the reservation is not used. */
  class AttemptStore {
    const machine: Machine
    var reservation: Option<Key>
    /** State changes asked of the store. */
    var requests: nat

    constructor (machine: Machine)
      ensures this.machine == machine && reservation.None? && requests == 0
    {
      this.machine, reservation, requests := machine, None, 0;
    }

    /** claimPrepared: one atomic request, whose answer may not come back. */
    method ClaimPrepared(p: nat, a: Attempt) returns (r: Result<Claim, ()>)
      requires machine.Valid() && reservation.None?
      requires p in machine.state.procs && machine.state.procs[p] == Claiming(a)
      modifies machine, this`reservation
      ensures machine.Valid() && Dispatches(machine.trace, p) == Dispatches(old(machine.trace), p)
      ensures p in machine.state.procs && machine.state.kind == old(machine.state.kind)
      ensures r.Err? ==> machine.state.procs[p] == ClaimLost(a) && reservation.None?
      ensures r.Ok? ==> exists gen :: machine.state.procs[p] == AfterClaim(a, gen, r.value)
      ensures r.Ok? ==> reservation == if r.value.Created? && machine.state.kind == Remote then Some(a.key) else None
    {
      hide Next, Run, ClaimOf, Initial;
      machine.Others(p);
      var applied: bool, heard: bool := *, *;
      var claim := ClaimOf(machine.state, a);
      ghost var gen := machine.state.gen;
      ClaimMoves(machine.state, p, applied, heard);
      DispatchesStep(machine.trace, TryClaim(p, applied, heard), p);
      machine.Do(TryClaim(p, applied, heard));
      machine.Others(p);
      if !applied || !heard || claim == Rejected { return Err(()); }
      if claim.Created? && machine.state.kind == Remote { reservation := Some(a.key); }
      assert machine.state.procs[p] == AfterClaim(a, gen, claim);
      return Ok(claim);
    }

    /** setState: the reservation is given up before the request is made, so it is spent at most
        once, and without one nothing is asked of the archive. */
    method SetState(p: nat, key: Key, target: Delivery) returns (ok: bool)
      requires machine.Valid() && p in machine.state.procs
      requires machine.state.procs[p].Answered? || machine.state.procs[p].Leftover?
      requires machine.state.procs[p].attempt.key == key
      requires target == (if machine.state.procs[p].Answered? then TargetOf(machine.state.procs[p].outcome) else Unknown)
      requires machine.state.kind == Remote ==> (reservation == Some(key) <==> machine.state.procs[p].Answered?)
      modifies machine, this`reservation, this`requests
      ensures machine.Valid() && Dispatches(machine.trace, p) == Dispatches(old(machine.trace), p)
      ensures requests == old(requests) + (if old(machine.state.kind == Local || machine.state.procs[p].Answered?) then 1 else 0)
      ensures reservation.None? || machine.state.kind == Local
      ensures p in machine.state.procs && machine.state.procs[p] == Finished(old(machine.state.procs[p]), ok)
    {
      hide Next, Run;
      var owned := reservation;
      if machine.state.kind == Remote { reservation := None; }
      machine.Others(p);
      var applied: bool, heard: bool := false, false;
      if machine.state.kind == Local || owned == Some(key) {
        requests := requests + 1;
        applied, heard := *, *;
      }
      ok := applied && heard && WriteConfirmed(machine.state, key, target);
      WriteMoves(machine.state, p, applied, heard);
      DispatchesStep(machine.trace, Write(p, applied, heard), p);
      machine.Do(Write(p, applied, heard));
      machine.Others(p);
    }
  }

  function Finished(x: Process, persisted: bool): Process
    requires x.Answered? || x.Leftover?
  {
    if x.Answered? then Done(Some(x.attempt), Some(x.outcome), ResultOf(x.outcome, persisted))
    else Done(Some(x.attempt), None, SendResult(Unknown, false, None, persisted))
  }

  lemma ClaimMoves(s: State, p: nat, applied: bool, heard: bool)
    requires p in s.procs && s.procs[p].Claiming?
    ensures var t := Next(s, TryClaim(p, applied, heard));
            var x := s.procs[p].attempt;
            && p in t.procs && t.kind == s.kind
            && t.procs[p] == if applied && heard then AfterClaim(x, s.gen, ClaimOf(s, x)) else ClaimLost(x)
  {
  }

  lemma WriteMoves(s: State, p: nat, applied: bool, heard: bool)
    requires p in s.procs && (s.procs[p].Answered? || (s.procs[p].Leftover? && (s.kind == Local || !applied)))
    ensures var t := Next(s, Write(p, applied, heard));
            var x := s.procs[p];
            var target := if x.Answered? then TargetOf(x.outcome) else Unknown;
            && p in t.procs && t.kind == s.kind
            && t.procs[p] == Finished(x, applied && heard && WriteConfirmed(s, x.attempt.key, target))
  {
    hide Written, WriteConfirmed;
  }

  // ---------------------------------------------------------------- the caller's options

  /** None where the source meets a value that is not a string (or, last, not a boolean). */
  datatype Options = Options(owner: string, recipient: string, messageBox: string, messageId: string,
                             body: Option<string>, host: Option<string>, checkPermissions: Option<bool>)

  /** What is taken as given: the wallet's identity (None where asking for it fails, or answers with
      something else) and origin, the canonical key (None where computing it throws), the body hash,
      whether a text is an encrypted body, and whether the attempt store has the methods it needs. */
  datatype Platform = Platform(owner: Option<string>, origin: string, keyOf: (string, string, string, string) -> Option<Key>,
                               hash: string -> string, encrypted: string -> bool, storeUsable: bool)

  predicate NonBlank(s: string) { exists i :: 0 <= i < |s| && !TextParts.Space(s[i]) }

  /** canKey. */
  predicate Keyed(o: Options) {
    TextParts.IdentityKey(o.owner) && TextParts.IdentityKey(o.recipient) && NonBlank(o.messageBox) && NonBlank(o.messageId)
  }

  function KeyFor(o: Options, f: Platform): Option<Key> {
    if Keyed(o) then f.keyOf(o.owner, o.messageBox, o.recipient, o.messageId) else None
  }

  /** The first validation that fails; 0 stands for the demand to check permissions, 8 for a
      missing or malformed attempt store. */
  function Refusal(o: Options, f: Platform): Option<nat> {
    if o.checkPermissions == Some(true) then Some(0)
    else if !TextParts.IdentityKey(o.owner) then Some(1)
    else if !TextParts.IdentityKey(o.recipient) then Some(2)
    else if !NonBlank(o.messageBox) then Some(3)
    else if !NonBlank(o.messageId) then Some(4)
    else if o.body.None? then Some(5)
    else if o.host.None? || !NonBlank(o.host.value) then Some(6)
    else if o.checkPermissions.None? then Some(7)
    else if !f.encrypted(o.body.value) then Some(5)
    else if !f.storeUsable then Some(8)
    else None
  }

  predicate Blank(s: string) { TextParts.Trim(s, TextParts.Space) == "" }

  /** Which validation refuses a call: each if and only if those before it pass. The body is looked at
      twice, first for being there and, when all else but the store is well, for being encrypted. */
  lemma RefusalIff(o: Options, f: Platform)
    ensures var n := Refusal(o, f);
            var plain, sent := o.checkPermissions.None?, o.body.Some?;
            var free := plain || !o.checkPermissions.value;
            var owned, known := TextParts.IdentityKey(o.owner), TextParts.IdentityKey(o.recipient);
            var keyed := owned && known && !Blank(o.messageBox) && !Blank(o.messageId);
            var hosted := o.host.Some? && !Blank(o.host.value);
            && (n == Some(0) <==> !free)
            && (n == Some(1) <==> free && !owned)
            && (n == Some(2) <==> free && owned && !known)
            && (n == Some(3) <==> free && owned && known && Blank(o.messageBox))
            && (n == Some(4) <==> free && owned && known && !Blank(o.messageBox) && Blank(o.messageId))
            && (n == Some(5) <==> free && keyed && (!sent || (hosted && !plain && !f.encrypted(o.body.value))))
            && (n == Some(6) <==> free && keyed && sent && !hosted)
            && (n == Some(7) <==> free && keyed && sent && hosted && plain)
            && (n == Some(8) <==> free && keyed && sent && hosted && !plain && f.encrypted(o.body.value) && !f.storeUsable)
            && (n == None <==> free && keyed && sent && hosted && !plain && f.encrypted(o.body.value) && f.storeUsable)
  {
    hide TextParts.IdentityKey, TextParts.Trim;
    NonBlankIff(o.messageBox);
    NonBlankIff(o.messageId);
    if o.host.Some? { NonBlankIff(o.host.value); }
  }

  lemma NonBlankIff(s: string)
    ensures NonBlank(s) <==> !Blank(s)
  {
    hide TextParts.Space;
    TextParts.BlankIff(s, TextParts.Space);
  }

  /** What is thrown before anything is recorded: no wallet or the wrong one, the wrong origin, or
      fields that are there but no record key can be made of. */
  predicate Throws(o: Options, f: Platform) {
    || f.owner != Some(o.owner) || (o.host.Some? && o.host.value != f.origin)
    || (Keyed(o) && KeyFor(o, f).None?)
  }

  function AttemptFor(o: Options, f: Platform): Attempt
    requires Refusal(o, f).None? && !Throws(o, f)
  {
    Attempt(KeyFor(o, f).value, o.owner, o.messageBox, o.recipient, o.messageId, o.body.value, f.hash(o.body.value),
            o.host.value)
  }

  /** The call is one run of p in the shared system: p ends done, with the result returned, having
      called the transport once if the result says attempted and never otherwise. */
  method SendPreparedHttpOnce(store: AttemptStore, p: nat, o: Options, f: Platform) returns (r: Result<SendResult, ()>)
    requires store.machine.Valid() && store.reservation.None? && p !in store.machine.state.procs
    modifies store, store.machine
    ensures store.machine.Valid()
    ensures r.Err? <==> || f.owner != Some(o.owner) || (o.host.Some? && o.host.value != f.origin)
                        || (TextParts.IdentityKey(o.owner) && TextParts.IdentityKey(o.recipient) && NonBlank(o.messageBox)
                            && NonBlank(o.messageId) && f.keyOf(o.owner, o.messageBox, o.recipient, o.messageId).None?)
    ensures r.Err? ==> p !in store.machine.state.procs
    ensures r.Ok? ==> p in store.machine.state.procs && store.machine.state.procs[p].Done?
                      && store.machine.state.procs[p].result == r.value
    ensures r.Ok? && r.value.attempted ==>
              && o.body.Some? && f.encrypted(o.body.value) && f.storeUsable
              && o.checkPermissions.Some? && !o.checkPermissions.value
              && Refusal(o, f).None? && f.keyOf(o.owner, o.messageBox, o.recipient, o.messageId).Some?
              && store.machine.state.procs[p].about ==
                 Some(Attempt(f.keyOf(o.owner, o.messageBox, o.recipient, o.messageId).value, o.owner, o.messageBox,
                              o.recipient, o.messageId, o.body.value, f.hash(o.body.value), f.origin))
    ensures r.Ok? && Refusal(o, f).Some? ==>
              var n := Refusal(o, f).value;
              && r.value.state == Failed && !r.value.attempted
              && r.value.error == Some(if n == 0 then PaidTransport else ValidationFailed(n))
              && Preflight(store.machine.kind, store.machine.trace, p, if n == 0 then None else KeyFor(o, f), r.value)
    ensures Dispatches(store.machine.trace, p)
            == Dispatches(old(store.machine.trace), p) + (if r.Ok? && r.value.attempted then 1 else 0)
  {
    hide Next, Run;
    var m := store.machine;
    m.Others(p);
    if Throws(o, f) { return Err(()); }
    var refused := Refusal(o, f);
    if refused.Some? {
      var code := if refused.value == 0 then PaidTransport else ValidationFailed(refused.value);
      var result := SendResult(Failed, false, Some(code), false);
      r := Refused(m, p, if refused.value == 0 then None else KeyFor(o, f), result);
      return;
    }
    r := Attempted(store, p, AttemptFor(o, f));
  }

  /** From the reservation on. */
  method Attempted(store: AttemptStore, p: nat, a: Attempt) returns (r: Result<SendResult, ()>)
    requires store.machine.Valid() && store.reservation.None? && p !in store.machine.state.procs
    modifies store, store.machine
    ensures store.machine.Valid() && r.Ok? && p in store.machine.state.procs
    ensures var x := store.machine.state.procs[p]; x.Done? && x.result == r.value && x.about == Some(a)
    ensures Dispatches(store.machine.trace, p)
            == Dispatches(old(store.machine.trace), p) + (if r.value.attempted then 1 else 0)
  {
    hide Next, Run;
    var m := store.machine;
    BeginMoves(m.state, p, a);
    DispatchesStep(m.trace, Begin(p, a), p);
    m.Do(Begin(p, a));
    var claim := store.ClaimPrepared(p, a);
    if claim.Err? { return Ok(m.state.procs[p].result); }
    if !claim.value.Created? {
      if m.state.procs[p].Leftover? { var _ := store.SetState(p, a.key, Unknown); }
      return Ok(m.state.procs[p].result);
    }
    var outcome: Outcome := *;
    DispatchMoves(m.state, p, outcome);
    DispatchesStep(m.trace, Dispatch(p, outcome), p);
    m.Do(Dispatch(p, outcome));
    var persisted := store.SetState(p, a.key, TargetOf(outcome));
    return Ok(ResultOf(outcome, persisted));
  }

  /** A preflight failure of p is on record as having been offered to the store under this key; if it
      is reported persisted, it reached an in-process store that had nothing under the key. */
  ghost predicate Preflight(kind: Kind, trace: seq<Action>, p: nat, mark: Option<Key>, r: SendResult) {
    exists i, applied ::
      && 0 <= i < |trace| && trace[i] == Refuse(p, mark, r, applied)
      && (r.statePersisted ==> applied && kind == Local && mark.Some?
                               && mark.value !in Run(Initial(kind), trace[..i]).entries)
  }

  lemma {:induction false} RunKind(kind: Kind, actions: seq<Action>)
    ensures Run(Initial(kind), actions).kind == kind
  {
    if actions != [] {
      RunKind(kind, actions[..|actions| - 1]);
      NextKind(Run(Initial(kind), actions[..|actions| - 1]), actions[|actions| - 1]);
    }
  }

  lemma NextKind(s: State, a: Action)
    ensures Next(s, a).kind == s.kind
  {
    hide Writable, ClaimOf, AfterClaim, WriteConfirmed;
  }

  /** A preflight failure; an in-process store may record it, if the key is free. */
  method Refused(m: Machine, p: nat, mark: Option<Key>, refusal: SendResult) returns (r: Result<SendResult, ()>)
    requires m.Valid() && p !in m.state.procs && refusal.state == Failed && !refusal.attempted
    modifies m
    ensures m.Valid() && Dispatches(m.trace, p) == Dispatches(old(m.trace), p)
    ensures r.Ok? && p in m.state.procs && m.state.procs[p] == Done(None, None, r.value)
    ensures r.value == refusal.(statePersisted := r.value.statePersisted) && Preflight(m.kind, m.trace, p, mark, r.value)
  {
    hide Next, Run;
    var applied: bool, heard: bool := *, *;
    var persisted := m.state.kind == Local && applied && heard && mark.Some? && mark.value !in m.state.entries;
    var result := refusal.(statePersisted := persisted);
    RefuseMoves(m.state, p, mark, result, applied);
    DispatchesStep(m.trace, Refuse(p, mark, result, applied), p);
    ghost var before := m.trace;
    RunKind(m.kind, before);
    m.Do(Refuse(p, mark, result, applied));
    m.Others(p);
    assert m.trace[|before|] == Refuse(p, mark, result, applied) && m.trace[..|before|] == before;
    return Ok(result);
  }

  lemma BeginMoves(s: State, p: nat, a: Attempt)
    requires p !in s.procs
    ensures Next(s, Begin(p, a)) == At(s, p, Claiming(a))
  {
  }

  lemma DispatchMoves(s: State, p: nat, o: Outcome)
    requires p in s.procs && s.procs[p].Holding?
    ensures var t := Next(s, Dispatch(p, o));
            p in t.procs && t.kind == s.kind && t.procs[p] == Answered(s.procs[p].attempt, s.procs[p].slot, o)
  {
  }

  lemma RefuseMoves(s: State, p: nat, mark: Option<Key>, r: SendResult, applied: bool)
    requires p !in s.procs && !r.attempted && r.state == Failed
    ensures var t := Next(s, Refuse(p, mark, r, applied));
            p in t.procs && t.kind == s.kind && t.procs[p] == Done(None, None, r)
  {
  }

  /** The bounds of OutboundProtocol, at any moment of any machine. */
  lemma MachineSends(m: Machine, slot: Slot)
    requires m.Valid()
    ensures CountSlot(m.state.sends, slot) <= 1
    ensures m.kind == Local ==> CountKey(m.state.sends, slot.key) <= 1
    ensures forall p | p in m.state.procs && m.state.procs[p].Done? && m.state.procs[p].result.attempted ::
              m.state.procs[p].result.state == Failed <==> m.state.procs[p].answer == Some(Denied)
  {
    AtMostOneSend(m.kind, m.trace, slot);
    forall p | p in m.state.procs && m.state.procs[p].Done? && m.state.procs[p].result.attempted
      ensures m.state.procs[p].result.state == Failed <==> m.state.procs[p].answer == Some(Denied)
    {
      ResultsMeanWhatTheySay(m.kind, m.trace, p);
    }
  }
}
