/** What a send leaves behind: which record state each answer of the transport leads to, what every
    call is told, and where an accepted record gets its acceptance from. */
module OutboundOutcomes {
  import opened Wrappers
  import opened OutboundProtocol

  // ---------------------------------------------------------------- one state change

  /** Whether the store makes the change that answer o of the transport asks for. */
  predicate TakesEffect(s: State, key: Key, o: Outcome) {
    && key in s.entries && s.entries[key].Entry?
    && match s.kind
       case Local => o == Confirmed || (o == Denied && s.entries[key].state == Prepared)
                     || (o in {Ambiguous, Broken} && s.entries[key].state != Accepted)
       case Remote => key !in s.replies && s.entries[key].revision == 1
                      && (o == Confirmed ==> s.entries[key].state != Accepted)
                      && (o == Denied ==> s.entries[key].state in {Prepared, Unknown})
                      && (o in {Ambiguous, Broken} ==> s.entries[key].state in {Prepared, Failed})
  }

  /** The state a record is in afterwards. */
  predicate Tells(o: Outcome, state: Delivery) {
    && (state == Accepted <==> o == Confirmed)
    && (state == Failed <==> o == Denied)
    && (state == Unknown <==> o in {Ambiguous, Broken})
  }

  /** A change takes effect on the key's record only, exactly when the store makes it, and leaves it
      accepted after a confirmation, failed after a demand for payment, and unknown otherwise. */
  lemma WriteTells(s: State, p: nat, applied: bool, heard: bool)
    requires p in s.procs && s.procs[p].Answered?
    ensures var x, t := s.procs[p], Next(s, Write(p, applied, heard));
            var key := x.attempt.key;
            && t.sends == s.sends && t.gen == s.gen && t.reserved == s.reserved
            && t.entries.Keys == s.entries.Keys && (forall k | k in s.entries && k != key :: t.entries[k] == s.entries[k])
            && (t.entries != s.entries <==> applied && TakesEffect(s, key, x.outcome))
            && (t.entries != s.entries ==>
                  && t.entries[key].Entry? && t.entries[key].attempt == s.entries[key].attempt
                  && t.entries[key].revision == s.entries[key].revision + 1 && Tells(x.outcome, t.entries[key].state))
  {
  }

  /** What the caller of that invocation is told. confirmed: it heard that the change was made. */
  predicate Reported(o: Outcome, r: SendResult, confirmed: bool) {
    && r.attempted && r.statePersisted == confirmed
    && (o == Confirmed ==> if confirmed then r.state == Accepted && r.error == None
                           else r.state == Unknown && r.error == Some(PersistenceFailed))
    && (o == Ambiguous ==> r.state == Unknown && r.error == Some(AmbiguousResponse))
    && (o == Denied ==> r.state == Failed && r.error == Some(PaidTransport))
    && (o == Broken ==> r.state == Unknown && r.error == Some(AmbiguousOutcome))
  }

  /** An idempotency row answers in the store's place: with yes, if it reports the same change. */
  predicate Replayed(s: State, key: Key, o: Outcome) {
    s.kind == Remote && key in s.replies && s.replies[key].1 == 2 && Tells(o, s.replies[key].0)
  }

  lemma WriteReports(s: State, p: nat, applied: bool, heard: bool)
    requires p in s.procs && s.procs[p].Answered?
    ensures var x, t := s.procs[p], Next(s, Write(p, applied, heard));
            && t.procs == s.procs[p := t.procs[p]] && t.procs[p].Done?
            && t.procs[p].about == Some(x.attempt) && t.procs[p].answer == Some(x.outcome)
            && Reported(x.outcome, t.procs[p].result,
                        applied && heard && (TakesEffect(s, x.attempt.key, x.outcome) || Replayed(s, x.attempt.key, x.outcome)))
  {
  }

  // ---------------------------------------------------------------- what else changes records

  /** A preflight failure is recorded without an attempt, under a free key of an in-process store. */
  lemma RefuseMarks(s: State, p: nat, mark: Option<Key>, r: SendResult, applied: bool)
    requires p !in s.procs && !r.attempted && r.state == Failed
    ensures var t := Next(s, Refuse(p, mark, r, applied));
            && t.procs == s.procs[p := Done(None, None, r)] && t.sends == s.sends && t.reserved == s.reserved
            && (forall k | k in s.entries :: k in t.entries && t.entries[k] == s.entries[k])
            && (forall k | k in t.entries && k !in s.entries ::
                  s.kind == Local && applied && mark == Some(k) && t.entries[k] == Entry(None, Failed, 1))
            && (s.kind == Local && applied && mark.Some? ==> mark.value in t.entries)
  {
  }

  /** Another party's patch, at the archive only, moves a record that is not accepted to another state,
      back to prepared even, one revision further; and touches nothing else. */
  lemma PatchTells(s: State, key: Key, target: Delivery)
    ensures var t := Next(s, Patch(key, target));
            && t.procs == s.procs && t.sends == s.sends && t.replies == s.replies && t.gen == s.gen
            && (t.entries != s.entries <==>
                  && s.kind == Remote && key in s.entries && s.entries[key].Entry?
                  && s.entries[key].state != Accepted && s.entries[key].state != target)
            && (t.entries != s.entries ==>
                  var e := s.entries[key]; t.entries == s.entries[key := Entry(e.attempt, target, e.revision + 1)])
  {
  }

  /** The archive's other changes: a deletion leaves a trace of the key, a wipe none of any key but its
      idempotency row, and such a row may expire at any time. */
  lemma RemovalTells(s: State, key: Key)
    requires s.kind == Remote
    ensures Next(s, Wipe) == s.(entries := map[], gen := s.gen + 1)
    ensures key in s.entries ==> Next(s, Delete(key)) == s.(entries := s.entries[key := Deleted])
    ensures key !in s.entries ==> Next(s, Delete(key)) == s
    ensures var t := Next(s, Expire(key)); t == s.(replies := t.replies) && t.replies.Keys == s.replies.Keys - {key}
  {
  }

  /** A record left prepared is marked unknown if the request gets through, and the caller is told so
      only if it hears of it. */
  lemma LeftoverTells(s: State, p: nat, applied: bool, heard: bool)
    requires p in s.procs && s.procs[p].Leftover? && LeftPrepared(s, s.procs[p].attempt)
    ensures var a, t := s.procs[p].attempt, Next(s, Write(p, applied, heard));
            && t.sends == s.sends && t.procs == s.procs[p := t.procs[p]]
            && t.procs[p].Done? && t.procs[p].result == SendResult(Unknown, false, None, applied && heard)
            && t.entries == (if applied then s.entries[a.key := Entry(Some(a), Unknown, s.entries[a.key].revision + 1)]
                             else s.entries)
  {
  }

  // ---------------------------------------------------------------- whole calls

  /** A call for a key nobody has used, undisturbed: one send of exactly this attempt, and a record in
      the state the answer stands for. */
  lemma FirstCall(s: State, p: nat, a: Attempt, o: Outcome)
    requires p !in s.procs && a.key !in s.entries && (s.kind == Remote ==> a.key !in s.replies)
    ensures var t := Run(s, [Begin(p, a), TryClaim(p, true, true), Dispatch(p, o), Write(p, true, true)]);
            && t.sends == s.sends + [Send(Slot(s.gen, a.key), a)]
            && a.key in t.entries && t.entries == s.entries[a.key := t.entries[a.key]]
            && t.entries[a.key].Entry? && t.entries[a.key].attempt == Some(a) && t.entries[a.key].revision == 2
            && Tells(o, t.entries[a.key].state)
            && p in t.procs && t.procs[p].Done? && Reported(o, t.procs[p].result, true)
  {
    hide Next;
    RunFour(s, Begin(p, a), TryClaim(p, true, true), Dispatch(p, o), Write(p, true, true));
    var s1 := Next(s, Begin(p, a));
    var s2 := Next(s1, TryClaim(p, true, true));
    var s3 := Next(s2, Dispatch(p, o));
    BeginAndClaim(s, p, a);
    DispatchOnly(s2, p, o);
    WriteTells(s3, p, true, true);
    WriteReports(s3, p, true, true);
  }

  lemma BeginAndClaim(s: State, p: nat, a: Attempt)
    requires p !in s.procs && a.key !in s.entries
    ensures var t := Next(Next(s, Begin(p, a)), TryClaim(p, true, true));
            && t.procs == s.procs[p := Holding(a, Slot(s.gen, a.key))] && t.kind == s.kind && t.gen == s.gen
            && t.sends == s.sends && t.replies == s.replies
            && t.entries == s.entries[a.key := Entry(Some(a), Prepared, 1)]
  {
    assert s.procs[p := Claiming(a)][p := Holding(a, Slot(s.gen, a.key))] == s.procs[p := Holding(a, Slot(s.gen, a.key))];
  }

  lemma DispatchOnly(s: State, p: nat, o: Outcome)
    requires p in s.procs && s.procs[p].Holding?
    ensures var h, t := s.procs[p], Next(s, Dispatch(p, o));
            && t.procs == s.procs[p := Answered(h.attempt, h.slot, o)] && t.sends == s.sends + [Send(h.slot, h.attempt)]
            && t.entries == s.entries && t.replies == s.replies && t.kind == s.kind && t.gen == s.gen
  {
  }

  /** What a call for a used key is told, nothing being sent: the archive says no more than whether it
      holds the same content; the in-process store hands its record back, and a record left prepared
      is first marked unknown. */
  predicate ToldOfExisting(s: State, a: Attempt, r: SendResult)
    requires a.key in s.entries
  {
    var e := s.entries[a.key];
    && !r.attempted
    && match s.kind
       case Remote =>
         if e.Entry? && e.attempt.Some? && e.attempt.value.(host := a.host) == a
         then r.state == Unknown && r.error == None && !r.statePersisted
         else r.state == Failed && r.error == Some(ReservationFailed) && !r.statePersisted
       case Local =>
         if e.Entry? && e.attempt == Some(a) then
           && r.error == None && r.statePersisted
           && (r.state == Accepted <==> e.state == Accepted) && (r.state == Failed <==> e.state == Failed)
           && (r.state == Unknown <==> e.state in {Prepared, Unknown})
         else r.state == Failed && r.error == Some(ImmutableConflict) && !r.statePersisted
  }

  /** The in-process store holds this very attempt, reserved and not sent as far as it knows. */
  predicate LeftPrepared(s: State, a: Attempt) {
    && s.kind == Local && a.key in s.entries && s.entries[a.key].Entry?
    && s.entries[a.key].attempt == Some(a) && s.entries[a.key].state == Prepared
  }

  lemma RepeatedCall(s: State, p: nat, a: Attempt)
    requires p !in s.procs && a.key in s.entries
    ensures var leftover := LeftPrepared(s, a);
            var t := Run(s, [Begin(p, a), TryClaim(p, true, true)] + if leftover then [Write(p, true, true)] else []);
            && t.sends == s.sends && p in t.procs && t.procs[p].Done? && ToldOfExisting(s, a, t.procs[p].result)
            && t.entries.Keys == s.entries.Keys
            && (if leftover then t.entries == s.entries[a.key := Entry(Some(a), Unknown, s.entries[a.key].revision + 1)]
                else t.entries == s.entries)
  {
    hide Next;
    var x, y, z := Begin(p, a), TryClaim(p, true, true), Write(p, true, true);
    RunThree(s, x, y, z);
    assert [x, y] + [] == [x, y] && [x, y] + [z] == [x, y, z];
    ClaimOfUsed(s, p, a);
    if Next(Next(s, x), y).procs[p].Leftover? { LeftoverTells(Next(Next(s, x), y), p, true, true); }
  }

  lemma RunThree(s: State, a: Action, b: Action, c: Action)
    ensures Run(s, [a, b]) == Next(Next(s, a), b)
    ensures Run(s, [a, b, c]) == Next(Next(Next(s, a), b), c)
  {
    hide Next;
    assert [a, b, c][..2] == [a, b] && [a, b][..1] == [a] && [a][..0] == [];
    assert Run(s, []) == s;
    assert Run(s, [a]) == Next(s, a);
    assert Run(s, [a, b]) == Next(Next(s, a), b);
  }

  lemma ClaimOfUsed(s: State, p: nat, a: Attempt)
    requires p !in s.procs && a.key in s.entries
    ensures var t := Next(Next(s, Begin(p, a)), TryClaim(p, true, true));
            && t.sends == s.sends && t.entries == s.entries && t.kind == s.kind && p in t.procs
            && (if LeftPrepared(s, a)
                then t.procs[p] == Leftover(a)
                else t.procs[p].Done? && ToldOfExisting(s, a, t.procs[p].result))
  {
  }

  /** A claim whose request or answer is lost is told of nothing, whatever the store made of it. */
  lemma LostClaim(s: State, p: nat, applied: bool, heard: bool)
    requires p in s.procs && s.procs[p].Claiming? && !(applied && heard)
    ensures var t := Next(s, TryClaim(p, applied, heard));
            t.procs[p].Done? && t.procs[p].result == SendResult(Failed, false, Some(ReservationFailed), false)
            && t.sends == s.sends
  {
  }

  // ---------------------------------------------------------------- where acceptance comes from

  /** By now some invocation that held the key's reservation, in that generation or an earlier one,
      has been told by the transport that the message went out. */
  ghost predicate ConfirmedSend(kind: Kind, actions: seq<Action>, slot: Slot) {
    exists i, p :: 0 <= i < |actions| && actions[i] == Dispatch(p, Confirmed)
                   && var s := Run(Initial(kind), actions[..i]);
                      p in s.procs && s.procs[p].Holding? && s.procs[p].slot.key == slot.key && s.procs[p].slot.gen <= slot.gen
  }

  /** By now another party has patched the record to accepted, in that generation. */
  ghost predicate PatchedAccepted(kind: Kind, actions: seq<Action>, slot: Slot) {
    exists i :: 0 <= i < |actions| && actions[i] == Patch(slot.key, Accepted)
                && Run(Initial(kind), actions[..i]).gen == slot.gen
  }

  lemma SourcesStay(kind: Kind, front: seq<Action>, a: Action, slot: Slot)
    ensures ConfirmedSend(kind, front, slot) ==> ConfirmedSend(kind, front + [a], slot)
    ensures PatchedAccepted(kind, front, slot) ==> PatchedAccepted(kind, front + [a], slot)
  {
    hide Run;
    var more := front + [a];
    if ConfirmedSend(kind, front, slot) {
      var i, p :| 0 <= i < |front| && front[i] == Dispatch(p, Confirmed)
                  && var s := Run(Initial(kind), front[..i]);
                     p in s.procs && s.procs[p].Holding? && s.procs[p].slot.key == slot.key && s.procs[p].slot.gen <= slot.gen;
      assert more[i] == front[i] && more[..i] == front[..i];
    }
    if PatchedAccepted(kind, front, slot) {
      var i :| 0 <= i < |front| && front[i] == Patch(slot.key, Accepted) && Run(Initial(kind), front[..i]).gen == slot.gen;
      assert more[i] == front[i] && more[..i] == front[..i];
    }
  }

  /** One step adds an acceptance only by an invocation's confirmed answer or by such a patch. */
  lemma AcceptanceAdded(s: State, a: Action, slot: Slot)
    requires slot !in s.acceptedIn && slot in Next(s, a).acceptedIn
    ensures slot.gen == s.gen
    ensures || a == Patch(slot.key, Accepted)
            || (a.Write? && a.p in s.procs && s.procs[a.p].Answered? && s.procs[a.p].outcome == Confirmed
                && s.procs[a.p].attempt.key == slot.key)
  {
  }

  /** One step makes an invocation confirmed only by such a dispatch. */
  lemma ConfirmedBy(s: State, a: Action, q: nat)
    requires q in Next(s, a).procs && Next(s, a).procs[q].Answered? && Next(s, a).procs[q].outcome == Confirmed
    ensures || (q in s.procs && s.procs[q] == Next(s, a).procs[q])
            || (a == Dispatch(q, Confirmed) && q in s.procs && s.procs[q].Holding?
                && Next(s, a).procs[q].slot == s.procs[q].slot && Next(s, a).procs[q].attempt == s.procs[q].attempt)
  {
    hide Writable, Written, WriteConfirmed, Put;
    match a
    case Begin(_, _) =>
    case Refuse(_, _, _, _) =>
    case TryClaim(_, _, _) =>
    case Dispatch(_, _) =>
    case Write(_, _, _) =>
    case Crash(_) =>
    case Patch(_, _) =>
    case Delete(_) =>
    case Wipe =>
    case Expire(_) =>
  }

  lemma {:induction false} ConfirmedWasSent(kind: Kind, actions: seq<Action>, q: nat)
    requires var s := Run(Initial(kind), actions); q in s.procs && s.procs[q].Answered? && s.procs[q].outcome == Confirmed
    ensures var s := Run(Initial(kind), actions);
            && s.procs[q].attempt.key == s.procs[q].slot.key && s.procs[q].slot.gen <= s.gen
            && ConfirmedSend(kind, actions, s.procs[q].slot)
  {
    hide Next;
    var front, a := actions[..|actions| - 1], actions[|actions| - 1];
    var s := Run(Initial(kind), front);
    RunKeepsRights(Initial(kind), actions);
    assert Owns(Run(Initial(kind), actions).reserved, Run(Initial(kind), actions).procs[q].slot,
                Run(Initial(kind), actions).procs[q].attempt);
    ConfirmedBy(s, a, q);
    assert front + [a] == actions;
    if q in s.procs && s.procs[q] == Next(s, a).procs[q] {
      ConfirmedWasSent(kind, front, q);
      SourcesStay(kind, front, a, s.procs[q].slot);
    } else {
      assert actions[|front|] == Dispatch(q, Confirmed) && actions[..|front|] == front;
    }
  }

  lemma LaterGeneration(kind: Kind, actions: seq<Action>, earlier: Slot, slot: Slot)
    requires ConfirmedSend(kind, actions, earlier) && earlier.key == slot.key && earlier.gen <= slot.gen
    ensures ConfirmedSend(kind, actions, slot)
  {
    hide Run;
    var i, p :| 0 <= i < |actions| && actions[i] == Dispatch(p, Confirmed)
                && var s := Run(Initial(kind), actions[..i]);
                   p in s.procs && s.procs[p].Holding?
                   && s.procs[p].slot.key == earlier.key && s.procs[p].slot.gen <= earlier.gen;
  }

  /** In every run a record is accepted only because the transport confirmed a send of its key, or
      because another party said so. */
  lemma {:induction false} AcceptedHasSource(kind: Kind, actions: seq<Action>, slot: Slot)
    requires slot in Run(Initial(kind), actions).acceptedIn
    ensures ConfirmedSend(kind, actions, slot) || PatchedAccepted(kind, actions, slot)
  {
    hide Next;
    var front, a := actions[..|actions| - 1], actions[|actions| - 1];
    var s := Run(Initial(kind), front);
    assert front + [a] == actions;
    SourcesStay(kind, front, a, slot);
    if slot in s.acceptedIn {
      AcceptedHasSource(kind, front, slot);
    } else {
      AcceptanceAdded(s, a, slot);
      if a.Write? {
        ConfirmedWasSent(kind, front, a.p);
        LaterGeneration(kind, front, s.procs[a.p].slot, slot);
      } else {
        assert actions[|front|] == a && actions[..|front|] == front;
      }
    }
  }

  /** Without wipes the confirmed send was one of this very reservation. */
  lemma AcceptedUnwiped(kind: Kind, actions: seq<Action>, slot: Slot)
    requires slot in Run(Initial(kind), actions).acceptedIn && (kind == Local || Wipes(actions) == 0)
    ensures slot.gen == 0
  {
    hide Next, Run;
    RunKeepsOutcomes(Initial(kind), actions);
    GenerationIsWipes(kind, actions);
  }

  /** The qualification about generations is needed: an answer that arrives after a wipe is written
      to the record that has been reserved since, which nobody has sent yet. */
  lemma LateAnswer(a: Attempt)
    ensures var s := Run(Initial(Remote), [Begin(0, a), TryClaim(0, true, true), Dispatch(0, Confirmed), Wipe,
                                           Begin(1, a), TryClaim(1, true, true), Write(0, true, true)]);
            && a.key in s.entries && s.entries[a.key] == Entry(Some(a), Accepted, 2)
            && 1 in s.procs && s.procs[1] == Holding(a, Slot(1, a.key))
  {
    hide Next;
    var c, d, e, w := Begin(0, a), TryClaim(0, true, true), Dispatch(0, Confirmed), Write(0, true, true);
    var f, g := Begin(1, a), TryClaim(1, true, true);
    var s0 := Initial(Remote);
    RunFour(s0, c, d, e, Wipe);
    BeginAndClaim(s0, 0, a);
    var s2 := Next(Next(s0, c), d);
    DispatchOnly(s2, 0, Confirmed);
    var s3 := Next(s2, e);
    var s4 := Next(s3, Wipe);
    RemovalTells(s3, a.key);
    BeginAndClaim(s4, 1, a);
    var s6 := Next(Next(s4, f), g);
    WriteTells(s6, 0, true, true);
    WriteReports(s6, 0, true, true);
    var four := [c, d, e, Wipe];
    RunMore(s0, four, f);
    RunMore(s0, four + [f], g);
    RunMore(s0, four + [f] + [g], w);
    assert four + [f] + [g] + [w] == [c, d, e, Wipe, f, g, w];
  }

  lemma RunMore(s: State, actions: seq<Action>, a: Action)
    ensures Run(s, actions + [a]) == Next(Run(s, actions), a)
  {
    hide Next;
    assert (actions + [a])[..|actions|] == actions;
  }
}
