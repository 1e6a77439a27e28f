/** What the binding-checked close may touch, and what retries and refreshes leave alone. */
module BoundClose {
  import opened Identity
  import A = Authority
  import L = Ledger
  import opened Protocol
  import opened ProtocolSafety

  /** A binding-checked close moves exactly the claim it proves: no other leaf, runtime id or gate
      changes, and the gate it closes was installed for that very generation. */
  lemma TouchesOnlyTheProvenBirth(s: State, host: HostEvidence)
    requires Invariant(s) && A.WellIndexed(s.auth) && BoundCloseOf(s, host).Some?
    ensures var s' := BoundCloseOf(s, host).value;
            && s' == s.(auth := s'.auth, claims := s'.claims, closing := s'.closing)
            && host.runtime in s'.closing
            && Proves(host, s'.closing[host.runtime].claim)
            && s'.closing[host.runtime].claim.owner == Some(s.owner)
            && host.target.Some?
            && s'.claims - {host.target.value} == s.claims - {host.target.value}
            && s'.closing - {host.runtime} == s.closing - {host.runtime}
            && ((host.target.value in s.claims && host.target.value !in s'.claims) ==>
                  s.claims[host.target.value].generation == host.generation)
            && s'.auth.registry == s.auth.registry && s'.auth.permits == s.auth.permits
            && |s'.auth.gates| == |s.auth.gates|
            && forall i | 0 <= i < |s.auth.gates| ::
                 s'.auth.gates[i] == s.auth.gates[i]
                 || (s.auth.gates[i].claim.generation == host.generation
                     && s.auth.gates[i].claim.key == host.target.value
                     && s'.auth.gates[i] == s.auth.gates[i].(open := false))
  {
    hide Invariant;
    ClaimsHold(s);
  }

  /** The host proves the claim entered for its leaf, and this endpoint owns it. */
  predicate ProvesEntered(s: State, host: HostEvidence) {
    && host.target.Some? && host.target.value in s.claims
    && Proves(host, s.claims[host.target.value]) && s.claims[host.target.value].owner == Some(s.owner)
  }

  /** A close is granted exactly for an entered birth with its own gate and nothing closing under its id yet,
      or for one that is closing already. The first time it fences that gate and moves the claim to the closing
      entries, permanent and not yet confirmed; the second time it changes nothing. */
  lemma GrantsExactly(s: State, host: HostEvidence)
    requires Invariant(s) && A.WellIndexed(s.auth)
    ensures if ProvesEntered(s, host) then
              var claim := s.claims[host.target.value];
              && (BoundCloseOf(s, host).Some?
                  <==> && host.runtime !in s.closing && claim.key in s.auth.registry
                       && A.OwnGate(s.auth, claim.key, s.auth.registry[claim.key], claim))
              && (BoundCloseOf(s, host).Some? ==>
                    var s', gate := BoundCloseOf(s, host).value, s.auth.registry[claim.key];
                    && s'.claims == s.claims - {claim.key}
                    && s'.closing == s.closing[host.runtime := Closing(claim, gate, true, false)]
                    && s'.auth == s.auth.(gates := s.auth.gates[gate := s.auth.gates[gate].(open := false)]))
            else
              BoundCloseOf(s, host)
              == if host.runtime in s.closing && Proves(host, s.closing[host.runtime].claim)
                    && s.closing[host.runtime].claim.owner == Some(s.owner)
                 then Some(s) else None
  {
    hide Invariant;
    ClaimsHold(s);
  }

  /** Asking again for a close that was granted changes nothing more. */
  lemma CloseIsIdempotent(s: State, host: HostEvidence)
    requires Invariant(s) && A.WellIndexed(s.auth) && BoundCloseOf(s, host).Some?
    ensures A.WellIndexed(BoundCloseOf(s, host).value.auth)
    ensures BoundCloseOf(BoundCloseOf(s, host).value, host) == BoundCloseOf(s, host)
  {
    hide Invariant;
    ClaimsHold(s);
  }

  /** The close depends only on what it reads, so an unrelated cancellation does not disturb it. */
  lemma ClosedAgain(s: State, host: HostEvidence)
    requires Invariant(s) && Enabled(s, CloseBound(host))
    ensures var closed := Apply(s, CloseBound(host));
            var cancelled := closed.(cancelled := closed.cancelled + {host.runtime});
            && Enabled(closed, Cancel(host.runtime)) && Apply(closed, Cancel(host.runtime)) == cancelled
            && Enabled(cancelled, CloseBound(host)) && Apply(cancelled, CloseBound(host)) == cancelled
            && Enabled(cancelled, Cancel(host.runtime)) && Apply(cancelled, Cancel(host.runtime)) == cancelled
            && BoundClosed(Birth(host.runtime, host.generation)) in cancelled.facts
            && cancelled.queued == s.queued && A.WellIndexed(cancelled.auth)
  {
    hide Invariant, A.AfterBeginRetire, SameAuthority;
    CloseIsIdempotent(s, host);
    var closed := Apply(s, CloseBound(host));
    var cancelled := closed.(cancelled := closed.cancelled + {host.runtime});
    assert BoundCloseOf(cancelled, host) == Some(cancelled);
    assert closed.facts + {BoundClosed(Birth(host.runtime, host.generation))} == closed.facts;
    assert cancelled.cancelled + {host.runtime} == cancelled.cancelled;
  }

  /** A close request refused by a full queue and then retried ends where one accepted request ends. */
  lemma RetryAfterFullQueue(s: State, host: HostEvidence)
    requires Invariant(s) && Enabled(s, CloseBound(host))
    requires Birth(host.runtime, host.generation) !in s.queued
    ensures var birth := Birth(host.runtime, host.generation);
            var refused := [CloseBound(host), Cancel(host.runtime)];
            var accepted := [CloseBound(host), Cancel(host.runtime), QueueRetirement(birth)];
            && Run(Run(s, refused), accepted) == Run(s, accepted)
            && birth in Run(s, accepted).queued
  {
    hide Invariant, Enabled, Apply, Run;
    ClosedAgain(s, host);
    var birth := Birth(host.runtime, host.generation);
    var close, cancel, queue := CloseBound(host), Cancel(host.runtime), QueueRetirement(birth);
    var closed := Apply(s, close);
    var cancelled := Apply(closed, cancel);
    QueueEnters(cancelled, birth);
    assert [close, cancel] == [close] + [cancel] && [cancel] == [cancel] + [];
    RunOne(s, close, [cancel]);
    RunOne(closed, cancel, []);
    RunNothing(cancelled);
    assert [close, cancel, queue] == [close] + [cancel, queue] && [cancel, queue] == [cancel] + [queue];
    RunOne(s, close, [cancel, queue]);
    RunOne(closed, cancel, [queue]);
    RunOne(cancelled, close, [cancel, queue]);
    RunOne(cancelled, cancel, [queue]);
    assert [queue] == [queue] + [];
    RunOne(cancelled, queue, []);
    RunNothing(Apply(cancelled, queue));
  }

  lemma QueueEnters(s: State, birth: Birth)
    requires A.WellIndexed(s.auth) && BoundClosed(birth) in s.facts && birth !in s.queued
    ensures Enabled(s, QueueRetirement(birth))
    ensures birth in Apply(s, QueueRetirement(birth)).queued
  {}

  /** An action of a refresh that holds some snapshot other than the successor. */
  predicate RefreshesOther(a: Action, successor: Claim) {
    (a.ReadForRefresh? || a.InvalidateStale? || a.RemoveStale?) && !SameAuthority(successor, a.claim)
  }

  /** The successor is entered, and its gate is the registered one. */
  predicate Holds(s: State, successor: Claim, gate: nat, record: A.GateRecord) {
    && successor.key in s.claims && s.claims[successor.key] == successor
    && A.WellIndexed(s.auth) && A.Registered(s.auth, successor) == Ok(gate) && s.auth.gates[gate] == record
  }

  lemma RefreshStepKeeps(s: State, a: Action, successor: Claim, gate: nat, record: A.GateRecord)
    requires Holds(s, successor, gate, record) && RefreshesOther(a, successor) && Enabled(s, a)
    ensures Holds(Apply(s, a), successor, gate, record)
  {
    hide Enabled, Apply, SameAuthority, A.AfterBeginRetire, Holds;
    OnlyLocal(s, a);
    if a.InvalidateStale? { OtherGateStays(s, a.claim, successor, gate, record); }
    LeavesOthers(s, a, successor, gate, record);
  }

  lemma OtherGateStays(s: State, stale: Claim, successor: Claim, gate: nat, record: A.GateRecord)
    requires Holds(s, successor, gate, record) && !SameAuthority(successor, stale)
    ensures Holds(s.(auth := A.AfterBeginRetire(s.auth, stale)), successor, gate, record)
  {}

  lemma LeavesOthers(s: State, a: Action, successor: Claim, gate: nat, record: A.GateRecord)
    requires Holds(s, successor, gate, record) && RefreshesOther(a, successor) && LocalEnabled(s, a)
    requires a.InvalidateStale? ==> Holds(s.(auth := A.AfterBeginRetire(s.auth, a.claim)), successor, gate, record)
    ensures Holds(LocalApply(s, a), successor, gate, record)
  {
    hide SameAuthority, A.AfterBeginRetire, A.Registered, A.WellIndexed;
  }

  /** However many refreshes of replaced snapshots run, in whatever order their sections interleave,
      the successor's claim stays entered and its gate stays as it is. */
  lemma {:induction false} RefreshKeepsSuccessor(s: State, schedule: seq<Action>, successor: Claim, gate: nat,
                                                 record: A.GateRecord)
    requires Holds(s, successor, gate, record)
    requires forall a | a in schedule :: RefreshesOther(a, successor)
    ensures Holds(Run(s, schedule), successor, gate, record)
    decreases |schedule|
  {
    hide Enabled, Apply, Holds;
    if schedule != [] {
      assert schedule[0] in schedule;
      if Enabled(s, schedule[0]) { RefreshStepKeeps(s, schedule[0], successor, gate, record); }
      RefreshKeepsSuccessor(if Enabled(s, schedule[0]) then Apply(s, schedule[0]) else s, schedule[1..], successor, gate, record);
    }
  }

  /** Once a refresh has invalidated a snapshot, no run ever again grants a ticket for it: its gate
      stays closed, and every gate installed after it has a larger epoch. */
  lemma RefreshedStaysDenied(s: State, stale: Claim, schedule: seq<Action>)
    requires Invariant(s) && Enabled(s, InvalidateStale(stale)) && A.Registered(s.auth, stale).Ok?
    ensures var s' := Run(Apply(s, InvalidateStale(stale)), schedule);
            A.WellIndexed(s'.auth) && A.TicketReply(s'.auth, Context(stale)).Denied?
  {
    hide Invariant, Run, Enabled, Apply, A.AfterBeginRetire, A.Registered, A.Progress, A.Invariant;
    OnlyLocal(s, InvalidateStale(stale));
    var closed := Apply(s, InvalidateStale(stale));
    var s' := Run(closed, schedule);
    RetireCloses(s.auth, stale);
    StepIsSafe(s, InvalidateStale(stale));
    RunIsSafe(closed, schedule);
    GatesSound(closed);
    GatesSound(s');
    GatesMove(closed, s');
    ClosedStaysDenied(closed.auth, s'.auth, stale, A.Registered(s.auth, stale).value);
  }

  /** A refresh that found its snapshot outdated is thorough, whatever the other threads do between its
      sections and afterwards: when its last section ends, the entry of that snapshot is gone, and no
      ticket for it is granted then or in any later run. */
  lemma RefreshIsThorough(s: State, stale: Claim, between: seq<Action>, later: seq<Action>)
    requires Invariant(s) && Enabled(s, InvalidateStale(stale)) && A.Registered(s.auth, stale).Ok?
    ensures var removed := Run(Run(Apply(s, InvalidateStale(stale)), between), [RemoveStale(stale)]);
            && !SameInClaims(removed, stale)
            && A.WellIndexed(Run(removed, later).auth) && A.TicketReply(Run(removed, later).auth, Context(stale)).Denied?
  {
    hide Invariant, Run, Enabled, Apply, A.Registered, A.TicketReply, A.WellIndexed, SameInClaims;
    OnlyLocal(s, InvalidateStale(stale));
    var closed := Apply(s, InvalidateStale(stale));
    var reached := Run(closed, between);
    StepIsSafe(s, InvalidateStale(stale));
    GrowthKeeps(s, closed);
    RunIsSafe(closed, between);
    GrowthKeeps(closed, reached);
    GatesHold(reached);
    LastSection(reached, stale);
    RunAppends(closed, between, [RemoveStale(stale)]);
    RunAppends(closed, between + [RemoveStale(stale)], later);
    RefreshedStaysDenied(s, stale, between + [RemoveStale(stale)] + later);
  }

  lemma LastSection(s: State, stale: Claim)
    requires A.WellIndexed(s.auth) && StaleSnapshot(stale) in s.facts
    ensures !SameInClaims(Run(s, [RemoveStale(stale)]), stale)
  {
    hide Run;
    if Enabled(s, RemoveStale(stale)) {
      RunOne(s, RemoveStale(stale), []);
      assert [RemoveStale(stale)] == [RemoveStale(stale)] + [];
      RunNothing(Apply(s, RemoveStale(stale)));
    } else {
      RunSkips(s, RemoveStale(stale));
    }
  }

  lemma RetireCloses(w: A.World, claim: Claim)
    requires A.WellIndexed(w) && A.Registered(w, claim).Ok?
    ensures var gate, w' := A.Registered(w, claim).value, A.AfterBeginRetire(w, claim);
            && gate < |w'.gates| && SameAuthority(w'.gates[gate].claim, claim) && !w'.gates[gate].open
            && claim.key in w'.registry && w'.registry[claim.key] == gate
  {}

  lemma GatesMove(s: State, s': State)
    requires Grows(s, s')
    ensures A.Progress(s.auth, s'.auth)
  {}

  lemma GatesSound(s: State)
    requires Invariant(s)
    ensures A.Invariant(s.auth)
  {}

  lemma ClosedStaysDenied(w: A.World, w': A.World, claim: Claim, gate: nat)
    requires A.Invariant(w) && A.Invariant(w') && A.Progress(w, w')
    requires gate < |w.gates| && SameAuthority(w.gates[gate].claim, claim) && !w.gates[gate].open
    requires claim.key in w.registry && w.registry[claim.key] == gate
    ensures A.WellIndexed(w') && A.TicketReply(w', Context(claim)).Denied?
  {
    assert A.Forward(w.gates[gate], w'.gates[gate]);
    if claim.key in w'.registry && gate < w'.registry[claim.key] {
      assert A.EpochsOrdered(w'.gates[gate].claim, w'.gates[w'.registry[claim.key]].claim);
    }
  }
}
