/** Sending as a transition system: any number of invocations over one attempt store, each able
    to stop between any two of its steps, every message between them and the store able to be
    lost, and other parties patching, deleting and wiping records in between. */
module OutboundProtocol {
  import opened Wrappers

  type Key = nat

  datatype Attempt = Attempt(key: Key, owner: string, messageBox: string, recipient: string, messageId: string,
                             body: string, bodyHash: string, host: string)

  datatype Delivery = Prepared | Accepted | Unknown | Failed

  /** The in-process store hands an existing record back; the remote archive only says whether it
      holds the same content, and gives the creator a right to one state change. */
  datatype Kind = Local | Remote

  /** What a store holds for a key. A preflight failure is an entry without an attempt. */
  datatype Entry = Entry(attempt: Option<Attempt>, state: Delivery, revision: nat) | Deleted

  /** gen counts wipes (delete-all); a slot is one key in one generation. */
  datatype Slot = Slot(gen: nat, key: Key)

  datatype Send = Send(slot: Slot, attempt: Attempt)

  /** What the transport answered: success for this message; anything else; a demand for payment;
      any other failure. */
  datatype Outcome = Confirmed | Ambiguous | Denied | Broken

  datatype ErrorCode =
    | ValidationFailed(reason: nat) | ReservationFailed | ImmutableConflict | PersistenceFailed
    | AmbiguousResponse | PaidTransport | AmbiguousOutcome

  datatype SendResult = SendResult(state: Delivery, attempted: bool, error: Option<ErrorCode>, statePersisted: bool)

  /** Where an invocation stands. */
  datatype Process =
    | Claiming(attempt: Attempt)
    | Holding(attempt: Attempt, slot: Slot)
    | Answered(attempt: Attempt, slot: Slot, outcome: Outcome)
    | Leftover(attempt: Attempt)
    | Crashed
    | Done(about: Option<Attempt>, answer: Option<Outcome>, result: SendResult)

  /** reserved and acceptedIn are history: the attempt stored in each slot, and the slots whose
      record the store has moved to accepted. replies are the archive's idempotency rows. */
  datatype State = State(kind: Kind, gen: nat, entries: map<Key, Entry>, replies: map<Key, (Delivery, nat)>,
                         procs: map<nat, Process>, sends: seq<Send>, reserved: map<Slot, Attempt>,
                         acceptedIn: set<Slot>)

  function Initial(kind: Kind): State {
    State(kind, 0, map[], map[], map[], [], map[], {})
  }

  // ---------------------------------------------------------------- the store

  datatype Claim = Created | Existing(entry: Entry) | AlreadyPresent | Rejected

  /** sameImmutableRecord: the archive does not know the host. */
  predicate SameContent(a: Attempt, b: Attempt) {
    a.(host := b.host) == b
  }

  function ClaimOf(s: State, a: Attempt): Claim {
    if a.key !in s.entries then Created
    else
      match s.kind
      case Local => Existing(s.entries[a.key])
      case Remote =>
        var e := s.entries[a.key];
        if e.Entry? && e.attempt.Some? && SameContent(e.attempt.value, a) then AlreadyPresent else Rejected
  }

  function Claimed(s: State, a: Attempt): State {
    if a.key in s.entries then s
    else s.(entries := s.entries[a.key := Entry(Some(a), Prepared, 1)], reserved := s.reserved[Slot(s.gen, a.key) := a])
  }

  /** Whether a state change takes effect on the key's record now. */
  predicate Writable(s: State, key: Key, target: Delivery, expected: nat) {
    && key in s.entries && s.entries[key].Entry?
    && var e := s.entries[key];
       match s.kind
       case Local => target != Prepared && !(e.state == Accepted && target == Unknown)
                     && !(target == Failed && e.state != Prepared)
       case Remote => e.revision == expected && (e.state == Accepted ==> target == Accepted) && e.state != target
  }

  function Put(s: State, key: Key, target: Delivery): (t: State)
    requires key in s.entries && s.entries[key].Entry?
    ensures t.procs == s.procs && t.sends == s.sends && t.gen == s.gen && t.kind == s.kind && t.reserved == s.reserved
  {
    s.(entries := s.entries[key := s.entries[key].(state := target, revision := s.entries[key].revision + 1)],
       acceptedIn := if target == Accepted then s.acceptedIn + {Slot(s.gen, key)} else s.acceptedIn)
  }

  /** setState: at the archive, an idempotency row decides before the record does. */
  function Written(s: State, key: Key, target: Delivery): (t: State)
    ensures t.procs == s.procs && t.sends == s.sends && t.gen == s.gen && t.kind == s.kind && t.reserved == s.reserved
  {
    if s.kind == Remote && key in s.replies then s
    else if !Writable(s, key, target, 1) then s
    else Put(s, key, target).(replies := if s.kind == Remote then s.replies[key := (target, 2)] else s.replies)
  }

  predicate WriteConfirmed(s: State, key: Key, target: Delivery) {
    if s.kind == Remote && key in s.replies then s.replies[key] == (target, 2) else Writable(s, key, target, 1)
  }

  // ---------------------------------------------------------------- one invocation

  function AfterClaim(a: Attempt, gen: nat, c: Claim): Process {
    match c
    case Created => Holding(a, Slot(gen, a.key))
    case AlreadyPresent => Done(Some(a), None, SendResult(Unknown, false, None, false))
    case Rejected => ClaimLost(a)
    case Existing(e) =>
      if e.Deleted? || e.attempt != Some(a) then Done(Some(a), None, SendResult(Failed, false, Some(ImmutableConflict), false))
      else if e.state == Prepared then Leftover(a)
      else Done(Some(a), None, SendResult(e.state, false, None, true))
  }

  function ClaimLost(a: Attempt): Process {
    Done(Some(a), None, SendResult(Failed, false, Some(ReservationFailed), false))
  }

  function TargetOf(o: Outcome): Delivery {
    match o
    case Confirmed => Accepted
    case Denied => Failed
    case _ => Unknown
  }

  function ResultOf(o: Outcome, persisted: bool): SendResult {
    match o
    case Confirmed => if persisted then SendResult(Accepted, true, None, true)
                      else SendResult(Unknown, true, Some(PersistenceFailed), false)
    case Ambiguous => SendResult(Unknown, true, Some(AmbiguousResponse), persisted)
    case Denied => SendResult(Failed, true, Some(PaidTransport), persisted)
    case Broken => SendResult(Unknown, true, Some(AmbiguousOutcome), persisted)
  }

  /** p is the invocation acting. applied: the request reached the store; heard: its answer came
      back. The last four are other parties'. */
  datatype Action =
    | Begin(p: nat, attempt: Attempt)
    | Refuse(p: nat, mark: Option<Key>, result: SendResult, applied: bool)
    | TryClaim(p: nat, applied: bool, heard: bool)
    | Dispatch(p: nat, outcome: Outcome)
    | Write(p: nat, applied: bool, heard: bool)
    | Crash(p: nat)
    | Patch(key: Key, target: Delivery)
    | Delete(key: Key)
    | Wipe
    | Expire(key: Key)

  function At(s: State, p: nat, x: Process): State { s.(procs := s.procs[p := x]) }

  /** A step that cannot be taken changes nothing. */
  function Next(s: State, a: Action): State {
    match a
    case Begin(p, attempt) => if p in s.procs then s else At(s, p, Claiming(attempt))
    case Refuse(p, mark, result, applied) =>
      if p in s.procs || result.attempted || result.state != Failed then s
      else
        var s' := if s.kind == Local && applied && mark.Some? && mark.value !in s.entries
                  then s.(entries := s.entries[mark.value := Entry(None, Failed, 1)]) else s;
        At(s', p, Done(None, None, result))
    case TryClaim(p, applied, heard) =>
      if p !in s.procs || !s.procs[p].Claiming? then s
      else
        var x := s.procs[p].attempt;
        At(if applied then Claimed(s, x) else s, p,
           if applied && heard then AfterClaim(x, s.gen, ClaimOf(s, x)) else ClaimLost(x))
    case Dispatch(p, outcome) =>
      if p !in s.procs || !s.procs[p].Holding? then s
      else
        var h := s.procs[p];
        At(s.(sends := s.sends + [Send(h.slot, h.attempt)]), p, Answered(h.attempt, h.slot, outcome))
    case Write(p, applied, heard) =>
      if p !in s.procs then s
      else
        (match s.procs[p]
        case Answered(x, slot, o) =>
          At(if applied then Written(s, x.key, TargetOf(o)) else s, p,
             Done(Some(x), Some(o), ResultOf(o, applied && heard && WriteConfirmed(s, x.key, TargetOf(o)))))
        case Leftover(x) =>
          var sent := applied && s.kind == Local;
          At(if sent then Written(s, x.key, Unknown) else s, p,
             Done(Some(x), None, SendResult(Unknown, false, None, sent && heard && WriteConfirmed(s, x.key, Unknown))))
        case _ => s)
    case Crash(p) => if p in s.procs && !s.procs[p].Done? then At(s, p, Crashed) else s
    case Patch(key, target) =>
      if s.kind == Remote && key in s.entries && s.entries[key].Entry?
         && Writable(s, key, target, s.entries[key].revision) then Put(s, key, target) else s
    case Delete(key) =>
      if s.kind == Remote && key in s.entries then s.(entries := s.entries[key := Deleted]) else s
    case Wipe => if s.kind == Remote then s.(entries := map[], gen := s.gen + 1) else s
    case Expire(key) => s.(replies := s.replies - {key})
  }

  /** A run: actions applied one after another. */
  function Run(s: State, actions: seq<Action>): State {
    if actions == [] then s else Next(Run(s, actions[..|actions| - 1]), actions[|actions| - 1])
  }

  // ---------------------------------------------------------------- the right to send

  ghost predicate Dispatched(sends: seq<Send>, slot: Slot) {
    exists i :: 0 <= i < |sends| && sends[i].slot == slot
  }

  predicate Owns(reserved: map<Slot, Attempt>, slot: Slot, a: Attempt) {
    slot in reserved && reserved[slot] == a
  }

  /** A slot once reserved keeps its key occupied for the rest of its generation. */
  ghost predicate StoreRights(gen: nat, entries: map<Key, Entry>, reserved: map<Slot, Attempt>) {
    && (forall slot | slot in reserved :: slot.gen <= gen && reserved[slot].key == slot.key)
    && (forall slot | slot in reserved && slot.gen == gen :: slot.key in entries)
    && (forall k | k in entries && entries[k].Entry? && entries[k].attempt.Some? ::
          Owns(reserved, Slot(gen, k), entries[k].attempt.value))
  }

  /** A process that holds a slot is the only one, has stored its own attempt there, and has not
      sent. */
  ghost predicate ProcessRights(procs: map<nat, Process>, sends: seq<Send>, reserved: map<Slot, Attempt>) {
    && (forall p | p in procs && procs[p].Holding? ::
          Owns(reserved, procs[p].slot, procs[p].attempt) && !Dispatched(sends, procs[p].slot))
    && (forall p, q | p in procs && q in procs && p != q && procs[p].Holding? && procs[q].Holding? ::
          procs[p].slot != procs[q].slot)
    && (forall p | p in procs && procs[p].Answered? :: Owns(reserved, procs[p].slot, procs[p].attempt))
  }

  /** Every send carried exactly the attempt its slot holds, and no slot was used twice. */
  ghost predicate SendRights(sends: seq<Send>, reserved: map<Slot, Attempt>) {
    && (forall i | 0 <= i < |sends| :: Owns(reserved, sends[i].slot, sends[i].attempt))
    && (forall i, j | 0 <= i < j < |sends| :: sends[i].slot != sends[j].slot)
  }

  ghost predicate Rights(s: State) {
    && StoreRights(s.gen, s.entries, s.reserved)
    && ProcessRights(s.procs, s.sends, s.reserved)
    && SendRights(s.sends, s.reserved)
  }

  lemma QuietProcess(procs: map<nat, Process>, sends: seq<Send>, reserved: map<Slot, Attempt>, p: nat, x: Process)
    requires ProcessRights(procs, sends, reserved) && !x.Holding? && !x.Answered?
    ensures ProcessRights(procs[p := x], sends, reserved)
  {
  }

  /** A new reservation takes nothing from anyone. */
  lemma Reserve(procs: map<nat, Process>, sends: seq<Send>, reserved: map<Slot, Attempt>, slot: Slot, a: Attempt)
    requires slot !in reserved && ProcessRights(procs, sends, reserved) && SendRights(sends, reserved)
    ensures ProcessRights(procs, sends, reserved[slot := a]) && SendRights(sends, reserved[slot := a])
    ensures !Dispatched(sends, slot)
  {
    forall p | p in procs && procs[p].Holding? ensures procs[p].slot != slot {
      assert Owns(reserved, procs[p].slot, procs[p].attempt);
    }
  }

  lemma Hold(procs: map<nat, Process>, sends: seq<Send>, reserved: map<Slot, Attempt>, p: nat, slot: Slot, a: Attempt)
    requires ProcessRights(procs, sends, reserved) && Owns(reserved, slot, a) && !Dispatched(sends, slot)
    requires forall q | q in procs && procs[q].Holding? :: procs[q].slot != slot
    ensures ProcessRights(procs[p := Holding(a, slot)], sends, reserved)
  {
  }

  lemma StoreReserve(gen: nat, entries: map<Key, Entry>, reserved: map<Slot, Attempt>, a: Attempt)
    requires StoreRights(gen, entries, reserved) && a.key !in entries
    ensures Slot(gen, a.key) !in reserved
    ensures StoreRights(gen, entries[a.key := Entry(Some(a), Prepared, 1)], reserved[Slot(gen, a.key) := a])
  {
  }

  /** From s to t, p's claim of a's key: a free key is reserved for a as soon as the request arrives,
      any other claim reserves nothing; p holds the slot if it also hears so, nobody else comes to
      hold one, and nothing is sent. */
  ghost predicate Claims(s: State, t: State, p: nat, a: Attempt, applied: bool, heard: bool) {
    var won, slot := applied && a.key !in s.entries, Slot(s.gen, a.key);
    && t.reserved == (if won then s.reserved[slot := a] else s.reserved)
    && t.entries == (if won then s.entries[a.key := Entry(Some(a), Prepared, 1)] else s.entries)
    && p in t.procs && (t.procs[p].Holding? <==> won && heard) && (won && heard ==> t.procs[p] == Holding(a, slot))
    && (forall q | q != p :: q in t.procs <==> q in s.procs)
    && (forall q | q != p && q in s.procs :: t.procs[q] == s.procs[q])
    && t.sends == s.sends
  }

  lemma RightsClaim(s: State, p: nat, applied: bool, heard: bool)
    requires Rights(s) && p in s.procs && s.procs[p].Claiming?
    ensures Rights(Next(s, TryClaim(p, applied, heard)))
    ensures Claims(s, Next(s, TryClaim(p, applied, heard)), p, s.procs[p].attempt, applied, heard)
  {
    hide StoreRights, ProcessRights, SendRights;
    var a := s.procs[p].attempt;
    var x := if applied && heard then AfterClaim(a, s.gen, ClaimOf(s, a)) else ClaimLost(a);
    if applied && a.key !in s.entries {
      var slot := Slot(s.gen, a.key);
      StoreReserve(s.gen, s.entries, s.reserved, a);
      Reserve(s.procs, s.sends, s.reserved, slot, a);
      if heard {
        OthersElsewhere(s, slot);
        Hold(s.procs, s.sends, s.reserved[slot := a], p, slot, a);
      } else {
        QuietProcess(s.procs, s.sends, s.reserved[slot := a], p, x);
      }
    } else {
      QuietProcess(s.procs, s.sends, s.reserved, p, x);
    }
  }

  lemma OthersElsewhere(s: State, slot: Slot)
    requires Rights(s) && slot !in s.reserved
    ensures forall q | q in s.procs && s.procs[q].Holding? :: s.procs[q].slot != slot
  {
    forall q | q in s.procs && s.procs[q].Holding? ensures s.procs[q].slot != slot {
      assert Owns(s.reserved, s.procs[q].slot, s.procs[q].attempt);
    }
  }

  lemma SpendRight(procs: map<nat, Process>, sends: seq<Send>, reserved: map<Slot, Attempt>, p: nat, o: Outcome)
    requires ProcessRights(procs, sends, reserved) && p in procs && procs[p].Holding?
    ensures var h := procs[p];
            ProcessRights(procs[p := Answered(h.attempt, h.slot, o)], sends + [Send(h.slot, h.attempt)], reserved)
  {
    var h := procs[p];
    var sends' := sends + [Send(h.slot, h.attempt)];
    forall q | q in procs && q != p && procs[q].Holding? ensures !Dispatched(sends', procs[q].slot) {
      forall i | 0 <= i < |sends'| ensures sends'[i].slot != procs[q].slot {
        if i < |sends| { assert sends'[i] == sends[i]; }
      }
    }
  }

  lemma SendOnce(sends: seq<Send>, reserved: map<Slot, Attempt>, slot: Slot, a: Attempt)
    requires SendRights(sends, reserved) && Owns(reserved, slot, a) && !Dispatched(sends, slot)
    ensures SendRights(sends + [Send(slot, a)], reserved)
  {
  }

  lemma RightsDispatch(s: State, p: nat, outcome: Outcome)
    requires Rights(s) && p in s.procs && s.procs[p].Holding?
    ensures Rights(Next(s, Dispatch(p, outcome)))
  {
    SpendRight(s.procs, s.sends, s.reserved, p, outcome);
    SendOnce(s.sends, s.reserved, s.procs[p].slot, s.procs[p].attempt);
  }

  lemma StorePut(s: State, key: Key, target: Delivery)
    requires StoreRights(s.gen, s.entries, s.reserved) && key in s.entries && s.entries[key].Entry?
    ensures StoreRights(s.gen, Put(s, key, target).entries, s.reserved)
  {
  }

  lemma RightsWrite(s: State, p: nat, applied: bool, heard: bool)
    requires Rights(s) && p in s.procs && (s.procs[p].Answered? || s.procs[p].Leftover?)
    ensures Rights(Next(s, Write(p, applied, heard)))
  {
    hide StoreRights, ProcessRights, SendRights;
    var t := Next(s, Write(p, applied, heard));
    QuietProcess(s.procs, s.sends, s.reserved, p, t.procs[p]);
    var key := s.procs[p].attempt.key;
    var target := if s.procs[p].Answered? then TargetOf(s.procs[p].outcome) else Unknown;
    if Writable(s, key, target, 1) { StorePut(s, key, target); }
  }

  lemma StoreOthers(s: State, a: Action)
    requires Rights(s) && (a.Refuse? || a.Delete? || a.Wipe?)
    ensures StoreRights(Next(s, a).gen, Next(s, a).entries, s.reserved)
  {
  }

  /** Whatever happens next, rights stay unique. */
  lemma RightsKept(s: State, a: Action)
    requires Rights(s)
    ensures Rights(Next(s, a))
  {
    hide StoreRights, ProcessRights, SendRights;
    if Next(s, a) != s {
      match a
      case Begin(p, attempt) => QuietProcess(s.procs, s.sends, s.reserved, p, Claiming(attempt));
      case Refuse(p, _, result, _) =>
        QuietProcess(s.procs, s.sends, s.reserved, p, Done(None, None, result));
        StoreOthers(s, a);
      case TryClaim(p, applied, heard) => RightsClaim(s, p, applied, heard);
      case Dispatch(p, outcome) => RightsDispatch(s, p, outcome);
      case Write(p, applied, heard) => RightsWrite(s, p, applied, heard);
      case Crash(p) => QuietProcess(s.procs, s.sends, s.reserved, p, Crashed);
      case Patch(key, target) => StorePut(s, key, target);
      case Delete(_) => StoreOthers(s, a);
      case Wipe => StoreOthers(s, a);
      case Expire(_) =>
    }
  }

  lemma {:induction false} RunKeepsRights(s: State, actions: seq<Action>)
    requires Rights(s)
    ensures Rights(Run(s, actions))
  {
    if actions != [] {
      RunKeepsRights(s, actions[..|actions| - 1]);
      RightsKept(Run(s, actions[..|actions| - 1]), actions[|actions| - 1]);
    }
  }

  // ---------------------------------------------------------------- at most one send

  function CountSlot(sends: seq<Send>, slot: Slot): nat {
    if sends == [] then 0
    else CountSlot(sends[..|sends| - 1], slot) + (if sends[|sends| - 1].slot == slot then 1 else 0)
  }

  function CountKey(sends: seq<Send>, key: Key): nat {
    if sends == [] then 0
    else CountKey(sends[..|sends| - 1], key) + (if sends[|sends| - 1].slot.key == key then 1 else 0)
  }

  /** Sends for a key in generations below g. */
  function CountBelow(sends: seq<Send>, key: Key, g: nat): nat {
    if g == 0 then 0 else CountBelow(sends, key, g - 1) + CountSlot(sends, Slot(g - 1, key))
  }

  lemma {:induction false} DistinctCount(sends: seq<Send>, slot: Slot)
    requires forall i, j | 0 <= i < j < |sends| :: sends[i].slot != sends[j].slot
    ensures CountSlot(sends, slot) == if Dispatched(sends, slot) then 1 else 0
  {
    if sends != [] {
      var front := sends[..|sends| - 1];
      DistinctCount(front, slot);
      if Dispatched(front, slot) {
        var i :| 0 <= i < |front| && front[i].slot == slot;
        assert sends[i] == front[i];
      }
      if Dispatched(sends, slot) && sends[|sends| - 1].slot != slot {
        var i :| 0 <= i < |sends| && sends[i].slot == slot;
        assert front[i] == sends[i];
      }
    }
  }

  lemma {:induction false} CountBelowStep(sends: seq<Send>, key: Key, g: nat)
    requires sends != []
    ensures CountBelow(sends, key, g) == CountBelow(sends[..|sends| - 1], key, g)
              + (if sends[|sends| - 1].slot.key == key && sends[|sends| - 1].slot.gen < g then 1 else 0)
  {
    if g > 0 { CountBelowStep(sends, key, g - 1); }
  }

  lemma {:induction false} CountByGeneration(sends: seq<Send>, key: Key, g: nat)
    requires forall i | 0 <= i < |sends| :: sends[i].slot.gen < g
    ensures CountKey(sends, key) == CountBelow(sends, key, g)
  {
    if sends == [] { NoneBelow(key, g); }
    else {
      CountByGeneration(sends[..|sends| - 1], key, g);
      CountBelowStep(sends, key, g);
    }
  }

  lemma {:induction false} NoneBelow(key: Key, g: nat)
    ensures CountBelow([], key, g) == 0
  {
    if g > 0 { NoneBelow(key, g - 1); }
  }

  lemma {:induction false} OnePerGeneration(sends: seq<Send>, key: Key, g: nat)
    requires forall i, j | 0 <= i < j < |sends| :: sends[i].slot != sends[j].slot
    ensures CountBelow(sends, key, g) <= g
  {
    if g > 0 {
      OnePerGeneration(sends, key, g - 1);
      DistinctCount(sends, Slot(g - 1, key));
    }
  }

  function Wipes(actions: seq<Action>): nat {
    if actions == [] then 0
    else Wipes(actions[..|actions| - 1]) + (if actions[|actions| - 1].Wipe? then 1 else 0)
  }

  lemma GenerationStep(s: State, a: Action)
    ensures Next(s, a).kind == s.kind
    ensures Next(s, a).gen == if s.kind == Remote && a.Wipe? then s.gen + 1 else s.gen
  {
    hide Writable, ClaimOf, AfterClaim, WriteConfirmed;
    match a
    case Begin(_, _) =>
    case Refuse(_, _, _, _) =>
    case TryClaim(_, _, _) =>
    case Dispatch(_, _) =>
    case Write(_, _, _) =>
    case Crash(_) =>
    case Patch(_, _) =>
    case Delete(_) =>
    case Wipe =>
    case Expire(_) =>
  }

  lemma {:induction false} GenerationIsWipes(kind: Kind, actions: seq<Action>)
    ensures Run(Initial(kind), actions).kind == kind
    ensures Run(Initial(kind), actions).gen == if kind == Remote then Wipes(actions) else 0
  {
    hide Next;
    if actions != [] {
      GenerationIsWipes(kind, actions[..|actions| - 1]);
      GenerationStep(Run(Initial(kind), actions[..|actions| - 1]), actions[|actions| - 1]);
    }
  }

  /** Between two wipes a record key is sent at most once, whoever calls, crashes or repeats; over
      a whole run, at most once more than the store was wiped; and what was sent is exactly the
      body that was reserved. */
  lemma AtMostOneSend(kind: Kind, actions: seq<Action>, slot: Slot)
    ensures var s := Run(Initial(kind), actions);
            && CountSlot(s.sends, slot) <= 1
            && CountKey(s.sends, slot.key) <= 1 + (if kind == Remote then Wipes(actions) else 0)
            && forall i | 0 <= i < |s.sends| :: Owns(s.reserved, s.sends[i].slot, s.sends[i].attempt)
                                                && s.sends[i].attempt.key == s.sends[i].slot.key
  {
    RunKeepsRights(Initial(kind), actions);
    hide Run, Next, ProcessRights, CountSlot, CountKey, CountBelow;
    var s := Run(Initial(kind), actions);
    DistinctCount(s.sends, slot);
    GenerationIsWipes(kind, actions);
    forall i | 0 <= i < |s.sends|
      ensures s.sends[i].slot.gen < s.gen + 1 && s.sends[i].attempt.key == s.sends[i].slot.key
    {
      assert Owns(s.reserved, s.sends[i].slot, s.sends[i].attempt);
    }
    CountByGeneration(s.sends, slot.key, s.gen + 1);
    OnePerGeneration(s.sends, slot.key, s.gen + 1);
  }

  // ---------------------------------------------------------------- leftovers

  /** Reserved, and whoever reserved it has sent already, or never will. */
  ghost predicate Orphan(s: State, slot: Slot) {
    slot in s.reserved && forall p | p in s.procs && s.procs[p].Holding? :: s.procs[p].slot != slot
  }

  lemma OrphanProcess(s: State, a: Action, slot: Slot)
    requires Orphan(s, slot) && !a.TryClaim? && !a.Dispatch?
    ensures Orphan(Next(s, a), slot) && Next(s, a).sends == s.sends
  {
    hide Writable, ClaimOf, AfterClaim, WriteConfirmed;
    match a
    case Begin(_, _) =>
    case Refuse(_, _, _, _) =>
    case Write(_, _, _) =>
    case Crash(_) =>
    case Patch(_, _) =>
    case Delete(_) =>
    case Wipe =>
    case Expire(_) =>
  }

  lemma OrphanClaim(s: State, p: nat, applied: bool, heard: bool, slot: Slot)
    requires Rights(s) && Orphan(s, slot)
    ensures Orphan(Next(s, TryClaim(p, applied, heard)), slot) && Next(s, TryClaim(p, applied, heard)).sends == s.sends
  {
    hide ProcessRights, SendRights;
  }

  lemma OrphanDispatch(s: State, p: nat, o: Outcome, slot: Slot)
    requires Orphan(s, slot)
    ensures Orphan(Next(s, Dispatch(p, o)), slot)
    ensures CountSlot(Next(s, Dispatch(p, o)).sends, slot) == CountSlot(s.sends, slot)
  {
    var t := Next(s, Dispatch(p, o));
    if t != s { assert t.sends[..|t.sends| - 1] == s.sends; }
  }

  lemma OrphanStep(s: State, a: Action, slot: Slot)
    requires Rights(s) && Orphan(s, slot)
    ensures Orphan(Next(s, a), slot) && CountSlot(Next(s, a).sends, slot) == CountSlot(s.sends, slot)
  {
    hide Next, Rights, Orphan;
    match a
    case TryClaim(p, applied, heard) => OrphanClaim(s, p, applied, heard, slot);
    case Dispatch(p, o) => OrphanDispatch(s, p, o, slot);
    case _ => OrphanProcess(s, a, slot);
  }

  /** A prepared record whose sender is gone never leads to a send, whatever is called later. */
  lemma {:induction false} OrphanNeverSent(s: State, actions: seq<Action>, slot: Slot)
    requires Rights(s) && Orphan(s, slot)
    ensures Orphan(Run(s, actions), slot)
    ensures CountSlot(Run(s, actions).sends, slot) == CountSlot(s.sends, slot)
  {
    if actions != [] {
      OrphanNeverSent(s, actions[..|actions| - 1], slot);
      RunKeepsRights(s, actions[..|actions| - 1]);
      OrphanStep(Run(s, actions[..|actions| - 1]), actions[|actions| - 1], slot);
    }
  }

  // ---------------------------------------------------------------- what results mean

  ghost predicate EverAccepted(s: State, key: Key) {
    exists g :: Slot(g, key) in s.acceptedIn
  }

  /** An accepted record stays accepted (or is deleted) for the rest of its generation. */
  ghost predicate StoreAcceptance(s: State) {
    && (forall k | k in s.entries && s.entries[k].Entry? && s.entries[k].state == Accepted :: Slot(s.gen, k) in s.acceptedIn)
    && (forall slot | slot in s.acceptedIn && slot.gen == s.gen ::
          slot.key in s.entries && (s.entries[slot.key].Entry? ==> s.entries[slot.key].state == Accepted))
    && (forall slot | slot in s.acceptedIn :: slot.gen <= s.gen)
    && (forall k | k in s.replies && s.replies[k].0 == Accepted :: EverAccepted(s, k))
  }

  ghost predicate ResultTrue(s: State, x: Process)
    requires x.Done?
  {
    && (x.result.attempted <==> x.answer.Some?)
    && (x.result.state == Accepted ==> x.about.Some? && EverAccepted(s, x.about.value.key) && x.result.statePersisted
                                       && (x.result.attempted ==> x.answer == Some(Confirmed)))
    && (x.result.state == Failed && x.result.attempted ==> x.answer == Some(Denied))
    && (x.result.attempted && x.answer == Some(Denied) ==> x.result.state == Failed)
    && x.result.state != Prepared
  }

  ghost predicate Outcomes(s: State) {
    StoreAcceptance(s) && forall p | p in s.procs && s.procs[p].Done? :: ResultTrue(s, s.procs[p])
  }

  lemma PutAcceptance(s: State, key: Key, target: Delivery)
    requires StoreAcceptance(s) && key in s.entries && s.entries[key].Entry?
    requires s.entries[key].state == Accepted ==> target == Accepted
    ensures StoreAcceptance(Put(s, key, target))
  {
  }

  lemma WrittenAcceptance(s: State, key: Key, target: Delivery)
    requires StoreAcceptance(s)
    ensures StoreAcceptance(Written(s, key, target)) && s.acceptedIn <= Written(s, key, target).acceptedIn
    ensures target == Accepted && WriteConfirmed(s, key, target) ==> EverAccepted(Written(s, key, target), key)
  {
    if Writable(s, key, target, 1) {
      PutAcceptance(s, key, target);
      assert target == Accepted ==> Slot(s.gen, key) in Put(s, key, target).acceptedIn;
    }
  }

  /** Steps by an invocation; then everyone else's. */
  lemma AcceptanceWrite(s: State, p: nat, applied: bool, heard: bool)
    requires StoreAcceptance(s) && p in s.procs && (s.procs[p].Answered? || s.procs[p].Leftover?)
    ensures StoreAcceptance(Next(s, Write(p, applied, heard)))
    ensures s.acceptedIn <= Next(s, Write(p, applied, heard)).acceptedIn
    ensures ResultTrue(Next(s, Write(p, applied, heard)), Next(s, Write(p, applied, heard)).procs[p])
  {
    hide Writable;
    var key := s.procs[p].attempt.key;
    var target := if s.procs[p].Answered? then TargetOf(s.procs[p].outcome) else Unknown;
    WrittenAcceptance(s, key, target);
    var w := Written(s, key, target);
    hide Written, WriteConfirmed;
    var t := Next(s, Write(p, applied, heard));
    assert t.acceptedIn == s.acceptedIn || t.acceptedIn == w.acceptedIn;
  }

  lemma AcceptanceClaim(s: State, p: nat, applied: bool, heard: bool)
    requires StoreAcceptance(s) && p in s.procs && s.procs[p].Claiming?
    ensures var t := Next(s, TryClaim(p, applied, heard));
            && StoreAcceptance(t) && s.acceptedIn == t.acceptedIn
            && (t.procs[p].Done? ==> ResultTrue(t, t.procs[p]))
  {
  }

  lemma SameStore(s: State, t: State)
    requires StoreAcceptance(s) && t.gen == s.gen && t.entries == s.entries && t.replies == s.replies
    requires t.acceptedIn == s.acceptedIn
    ensures StoreAcceptance(t)
  {
  }

  lemma MarkAcceptance(s: State, key: Key)
    requires StoreAcceptance(s) && key !in s.entries
    ensures StoreAcceptance(s.(entries := s.entries[key := Entry(None, Failed, 1)]))
  {
  }

  lemma WipeAcceptance(s: State)
    requires StoreAcceptance(s)
    ensures StoreAcceptance(s.(entries := map[], gen := s.gen + 1))
  {
  }

  lemma DeleteAcceptance(s: State, key: Key)
    requires StoreAcceptance(s) && key in s.entries
    ensures StoreAcceptance(s.(entries := s.entries[key := Deleted]))
  {
  }

  lemma ExpireAcceptance(s: State, key: Key)
    requires StoreAcceptance(s)
    ensures StoreAcceptance(s.(replies := s.replies - {key}))
  {
  }

  lemma PatchAcceptance(s: State, key: Key, target: Delivery)
    requires StoreAcceptance(s)
    ensures var t := Next(s, Patch(key, target));
            StoreAcceptance(t) && s.acceptedIn <= t.acceptedIn
  {
    hide StoreAcceptance;
    if Next(s, Patch(key, target)) != s { PutAcceptance(s, key, target); }
  }

  lemma AcceptanceOthers(s: State, a: Action)
    requires StoreAcceptance(s) && !a.TryClaim? && !a.Write?
    ensures StoreAcceptance(Next(s, a)) && s.acceptedIn <= Next(s, a).acceptedIn
  {
    hide StoreAcceptance, Writable, Put, Written, WriteConfirmed, ClaimOf, Claimed, AfterClaim;
    var t := Next(s, a);
    match a
    case Begin(_, _) => SameStore(s, t);
    case Refuse(_, mark, _, _) =>
      if t.entries != s.entries {
        var marked := s.(entries := s.entries[mark.value := Entry(None, Failed, 1)]);
        MarkAcceptance(s, mark.value);
        SameStore(marked, t);
      } else {
        SameStore(s, t);
      }
    case Dispatch(_, _) => SameStore(s, t);
    case Crash(_) => SameStore(s, t);
    case Patch(key, target) => PatchAcceptance(s, key, target);
    case Delete(key) => if t != s { DeleteAcceptance(s, key); }
    case Wipe => WipeAcceptance(s);
    case Expire(key) => ExpireAcceptance(s, key);
  }

  /** Which processes an action can finish. */
  lemma OnlyActorMoves(s: State, a: Action, q: nat)
    requires q in Next(s, a).procs && Next(s, a).procs[q].Done?
    ensures || (q in s.procs && Next(s, a).procs[q] == s.procs[q])
            || (a.Refuse? && a.p == q && Next(s, a).procs[q] == Done(None, None, a.result)
                && !a.result.attempted && a.result.state == Failed)
            || (a.TryClaim? && a.p == q && q in s.procs && s.procs[q].Claiming?)
            || (a.Write? && a.p == q && q in s.procs && (s.procs[q].Answered? || s.procs[q].Leftover?))
  {
    hide Writable, Written, ClaimOf, AfterClaim, WriteConfirmed;
    match a
    case Begin(_, _) =>
    case Refuse(_, _, _, _) =>
    case TryClaim(_, _, _) =>
    case Dispatch(_, _) =>
    case Write(_, _, _) =>
    case Crash(_) =>
    case Patch(_, _) =>
    case Delete(_) =>
    case Wipe =>
    case Expire(_) =>
  }

  lemma AcceptanceStep(s: State, a: Action)
    requires StoreAcceptance(s)
    ensures StoreAcceptance(Next(s, a)) && s.acceptedIn <= Next(s, a).acceptedIn
  {
    hide StoreAcceptance, ResultTrue;
    if a.TryClaim? && a.p in s.procs && s.procs[a.p].Claiming? { AcceptanceClaim(s, a.p, a.applied, a.heard); }
    else if a.Write? && a.p in s.procs && (s.procs[a.p].Answered? || s.procs[a.p].Leftover?) {
      AcceptanceWrite(s, a.p, a.applied, a.heard);
    }
    else if a.TryClaim? || a.Write? { assert Next(s, a) == s; }
    else { AcceptanceOthers(s, a); }
  }

  lemma ResultStaysTrue(s: State, t: State, x: Process)
    requires x.Done? && ResultTrue(s, x) && s.acceptedIn <= t.acceptedIn
    ensures ResultTrue(t, x)
  {
    if x.result.state == Accepted {
      var g :| Slot(g, x.about.value.key) in s.acceptedIn;
    }
  }

  lemma OutcomesKept(s: State, a: Action)
    requires Outcomes(s)
    ensures Outcomes(Next(s, a))
  {
    hide Next, StoreAcceptance, ResultTrue;
    var t := Next(s, a);
    AcceptanceStep(s, a);
    forall q | q in t.procs && t.procs[q].Done? ensures ResultTrue(t, t.procs[q]) {
      OnlyActorMoves(s, a, q);
      if q in s.procs && t.procs[q] == s.procs[q] { ResultStaysTrue(s, t, s.procs[q]); }
      else if a.Refuse? { RefusalTrue(t, a.result); }
      else if a.TryClaim? { AcceptanceClaim(s, a.p, a.applied, a.heard); }
      else { AcceptanceWrite(s, a.p, a.applied, a.heard); }
    }
  }

  lemma RefusalTrue(t: State, r: SendResult)
    requires !r.attempted && r.state == Failed
    ensures ResultTrue(t, Done(None, None, r))
  {
  }

  lemma {:induction false} RunKeepsOutcomes(s: State, actions: seq<Action>)
    requires Outcomes(s)
    ensures Outcomes(Run(s, actions))
  {
    if actions != [] {
      RunKeepsOutcomes(s, actions[..|actions| - 1]);
      OutcomesKept(Run(s, actions[..|actions| - 1]), actions[|actions| - 1]);
    }
  }

  /** An accepted result means that the store moved this record to accepted - and, if it was not
      wiped since, that it still is, unless deleted. A failed result after an attempt means a
      demand for payment, and nothing else does. */
  lemma ResultsMeanWhatTheySay(kind: Kind, actions: seq<Action>, p: nat)
    requires p in Run(Initial(kind), actions).procs && Run(Initial(kind), actions).procs[p].Done?
    ensures var s := Run(Initial(kind), actions);
            var x := s.procs[p];
            && (x.result.state == Accepted ==>
                  && x.about.Some? && EverAccepted(s, x.about.value.key)
                  && (x.result.attempted ==> x.answer == Some(Confirmed))
                  && (kind == Local || Wipes(actions) == 0 ==>
                        && x.about.value.key in s.entries
                        && (s.entries[x.about.value.key].Deleted? || s.entries[x.about.value.key].state == Accepted)))
            && (x.result.attempted ==> (x.result.state == Failed <==> x.answer == Some(Denied)))
  {
    hide Next, Run;
    RunKeepsOutcomes(Initial(kind), actions);
    GenerationIsWipes(kind, actions);
    var s := Run(Initial(kind), actions);
    assert ResultTrue(s, s.procs[p]);
    if s.procs[p].result.state == Accepted {
      var g :| Slot(g, s.procs[p].about.value.key) in s.acceptedIn;
      assert Slot(g, s.procs[p].about.value.key).gen <= s.gen;
    }
  }

  // ---------------------------------------------------------------- what acceptance means after wipes

  /** The generation in which the idempotency row that answers for key was written. */
  function RepliedIn(kind: Kind, actions: seq<Action>, key: Key): nat {
    if actions == [] then 0
    else
      var front := actions[..|actions| - 1];
      var s, t := Run(Initial(kind), front), Run(Initial(kind), actions);
      if key !in s.replies && key in t.replies then t.gen else RepliedIn(kind, front, key)
  }

  /** The archive's record of key is accepted, or deleted. */
  predicate Settled(s: State, key: Key) {
    key in s.entries && (s.entries[key].Deleted? || s.entries[key].state == Accepted)
  }

  /** An idempotency row for acceptance written in this generation tells the truth. */
  predicate ReplyTrue(s: State, key: Key, gen: nat) {
    key in s.replies ==> gen <= s.gen && (gen == s.gen && s.replies[key].0 == Accepted ==> Settled(s, key))
  }

  /** While a row stands, nothing of its generation unsettles the record. */
  lemma SettledStays(s: State, a: Action, key: Key)
    requires s.kind == Remote && key in s.replies && Settled(s, key) && key in Next(s, a).replies
    ensures Next(s, a).gen == s.gen ==> Settled(Next(s, a), key) && Next(s, a).replies[key] == s.replies[key]
  {
  }

  lemma RowStays(s: State, a: Action, key: Key)
    requires key in s.replies && key in Next(s, a).replies
    ensures Next(s, a).replies[key] == s.replies[key] && s.gen <= Next(s, a).gen
  {
  }

  /** A row is only written together with the change it reports. */
  lemma RowWritten(s: State, a: Action, key: Key)
    requires key !in s.replies && key in Next(s, a).replies
    ensures Next(s, a).gen == s.gen && (Next(s, a).replies[key].0 == Accepted ==> Settled(Next(s, a), key))
  {
  }

  lemma KindStays(s: State, a: Action)
    ensures Next(s, a).kind == s.kind
  {
  }

  lemma {:induction false} RowsTrue(kind: Kind, actions: seq<Action>, key: Key)
    ensures Run(Initial(kind), actions).kind == kind
    ensures kind == Remote ==> ReplyTrue(Run(Initial(kind), actions), key, RepliedIn(kind, actions, key))
  {
    hide Next;
    if actions != [] {
      var front, a := actions[..|actions| - 1], actions[|actions| - 1];
      RowsTrue(kind, front, key);
      var s := Run(Initial(kind), front);
      KindStays(s, a);
      if kind == Remote && key in Next(s, a).replies {
        if key !in s.replies {
          RowWritten(s, a, key);
        } else {
          RowStays(s, a, key);
          if Settled(s, key) { SettledStays(s, a, key); }
        }
      }
    }
  }

  /** When an invocation at the archive reports accepted, the archive's record is accepted (or deleted)
      too, unless the answer is a row left by an earlier generation, for a record that is not. */
  lemma AcceptedIffNoStaleRow(actions: seq<Action>, p: nat)
    requires var s := Run(Initial(Remote), actions);
             && p in s.procs && s.procs[p].Answered?
             && Next(s, Write(p, true, true)).procs[p].Done?
             && Next(s, Write(p, true, true)).procs[p].result.state == Accepted
    ensures var s := Run(Initial(Remote), actions);
            var key := s.procs[p].attempt.key;
            Settled(Next(s, Write(p, true, true)), key)
            <==> !(key in s.replies && RepliedIn(Remote, actions, key) < s.gen && !Settled(s, key))
  {
    hide Run, RepliedIn;
    var s := Run(Initial(Remote), actions);
    RowsTrue(Remote, actions, s.procs[p].attempt.key);
    AcceptedWrite(s, p);
  }

  lemma AcceptedWrite(s: State, p: nat)
    requires s.kind == Remote && p in s.procs && s.procs[p].Answered?
    requires Next(s, Write(p, true, true)).procs[p].Done?
    requires Next(s, Write(p, true, true)).procs[p].result.state == Accepted
    ensures var key, t := s.procs[p].attempt.key, Next(s, Write(p, true, true));
            if key in s.replies then s.replies[key].0 == Accepted && t.entries == s.entries else Settled(t, key)
  {
  }

  /** One undisturbed invocation at an archive that does not hold the key. */
  function Undisturbed(p: nat, a: Attempt): seq<Action> {
    [Begin(p, a), TryClaim(p, true, true), Dispatch(p, Confirmed), Write(p, true, true)]
  }

  lemma UndisturbedRun(s: State, p: nat, a: Attempt)
    requires s.kind == Remote && p !in s.procs && a.key !in s.entries
    ensures var t := Run(s, Undisturbed(p, a));
            && t.sends == s.sends + [Send(Slot(s.gen, a.key), a)] && t.kind == Remote && t.gen == s.gen
            && t.procs == s.procs[p := Done(Some(a), Some(Confirmed),
                 ResultOf(Confirmed, a.key in s.replies ==> s.replies[a.key] == (Accepted, 2)))]
            && t.entries == s.entries[a.key := if a.key in s.replies then Entry(Some(a), Prepared, 1)
                                               else Entry(Some(a), Accepted, 2)]
            && t.replies == if a.key in s.replies then s.replies else s.replies[a.key := (Accepted, 2)]
  {
    hide Next, Written, WriteConfirmed, Writable;
    RunFour(s, Begin(p, a), TryClaim(p, true, true), Dispatch(p, Confirmed), Write(p, true, true));
    UndisturbedClaim(s, p, a);
    UndisturbedSend(Next(Next(s, Begin(p, a)), TryClaim(p, true, true)), p, a);
  }

  lemma UndisturbedClaim(s: State, p: nat, a: Attempt)
    requires s.kind == Remote && p !in s.procs && a.key !in s.entries
    ensures Next(Next(s, Begin(p, a)), TryClaim(p, true, true)) == At(Claimed(s, a), p, Holding(a, Slot(s.gen, a.key)))
  {
    assert s.procs[p := Claiming(a)][p := Holding(a, Slot(s.gen, a.key))] == s.procs[p := Holding(a, Slot(s.gen, a.key))];
  }

  lemma UndisturbedSend(s: State, p: nat, a: Attempt)
    requires s.kind == Remote && p in s.procs && s.procs[p] == Holding(a, Slot(s.gen, a.key))
    requires a.key in s.entries && s.entries[a.key] == Entry(Some(a), Prepared, 1)
    ensures var t := Next(Next(s, Dispatch(p, Confirmed)), Write(p, true, true));
            && t.sends == s.sends + [Send(Slot(s.gen, a.key), a)] && t.kind == Remote && t.gen == s.gen
            && t.procs == s.procs[p := Done(Some(a), Some(Confirmed),
                 ResultOf(Confirmed, a.key in s.replies ==> s.replies[a.key] == (Accepted, 2)))]
            && t.entries == (if a.key in s.replies then s.entries else s.entries[a.key := Entry(Some(a), Accepted, 2)])
            && t.replies == if a.key in s.replies then s.replies else s.replies[a.key := (Accepted, 2)]
  {
    var t := Next(s, Dispatch(p, Confirmed));
    assert t.procs[p] == Answered(a, Slot(s.gen, a.key), Confirmed) && t.entries == s.entries && t.replies == s.replies;
  }

  /** The qualification about wipes is needed: after one, the same message is sent again, and the
      answer to the first state change is replayed for the second. */
  lemma WipeForgets(a: Attempt)
    ensures var s := Run(Run(Initial(Remote), Undisturbed(0, a)), [Wipe] + Undisturbed(1, a));
            && CountKey(s.sends, a.key) == 2
            && 1 in s.procs && s.procs[1] == Done(Some(a), Some(Confirmed), SendResult(Accepted, true, None, true))
            && a.key in s.entries && s.entries[a.key] == Entry(Some(a), Prepared, 1)
  {
    var s0 := Initial(Remote);
    UndisturbedRun(s0, 0, a);
    var s1 := Run(s0, Undisturbed(0, a));
    var s2 := Next(s1, Wipe);
    RunFirst(s1, Wipe, Undisturbed(1, a));
    UndisturbedRun(s2, 1, a);
    hide Run, Next;
    TwoSends(Send(Slot(0, a.key), a), Send(Slot(1, a.key), a), a.key);
  }

  lemma TwoSends(x: Send, y: Send, key: Key)
    requires x.slot.key == key == y.slot.key
    ensures CountKey([] + [x] + [y], key) == 2
  {
    assert ([x] + [y])[..1] == [x];
    assert [x][..0] == [];
    assert [] + [x] + [y] == [x] + [y];
    assert CountKey([x], key) == 1;
  }

  lemma RunFour(s: State, a: Action, b: Action, c: Action, d: Action)
    ensures Run(s, [a, b, c, d]) == Next(Next(Next(Next(s, a), b), c), d)
  {
    hide Next;
    assert [a, b, c, d][..3] == [a, b, c] && [a, b, c][..2] == [a, b] && [a, b][..1] == [a] && [a][..0] == [];
    assert Run(s, []) == s;
    assert Run(s, [a]) == Next(s, a);
    assert Run(s, [a, b]) == Next(Next(s, a), b);
  }

  lemma {:induction false} RunFirst(s: State, a: Action, rest: seq<Action>)
    ensures Run(s, [a] + rest) == Run(Next(s, a), rest)
  {
    hide Next;
    if rest == [] {
      assert [a] + rest == [a] && [a][..0] == [];
      assert Run(s, []) == s;
    } else {
      RunFirst(s, a, rest[..|rest| - 1]);
      assert ([a] + rest)[..|rest|] == [a] + rest[..|rest| - 1];
    }
  }
}
