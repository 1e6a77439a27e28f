/** Safety of the retirement protocol over every run. */
module ProtocolSafety {
  import opened Identity
  import A = Authority
  import L = Ledger
  import opened Protocol

  // ---------------------------------------------------------------------------------------------
  // One step

  lemma NothingMoves(s: State)
    ensures A.Progress(s.auth, s.auth) && BirthsGrow(s, s)
  {}

  lemma FactHolds(s: State, fact: Fact)
    requires Invariant(s) && fact in s.facts
    ensures FactOk(s, fact)
  {}

  lemma ClosingHolds(s: State, runtime: Uuid)
    requires Invariant(s) && runtime in s.closing
    ensures ClosingOk(s, runtime)
  {}

  lemma GatesHold(s: State)
    requires Invariant(s)
    ensures A.WellIndexed(s.auth)
  {}

  lemma ClaimHolds(s: State, key: LeafKey)
    requires Invariant(s) && key in s.claims
    ensures ClaimEntryOk(s, key)
  {}

  lemma ClaimsHold(s: State)
    requires Invariant(s)
    ensures forall key | key in s.claims :: s.claims[key].key == key && Known(s, s.claims[key])
  {
    assert forall key | key in s.claims :: ClaimEntryOk(s, key);
  }

  lemma RegistriesHold(s: State)
    requires Invariant(s)
    ensures Registries(s) && Births(s)
  {}

  lemma BirthsHold(s: State)
    requires Invariant(s)
    ensures L.Consistent(s.books) && s.life.Keys == s.books.births.Keys && s.known <= s.books.births.Keys
  {}

  lemma BirthHolds(s: State, generation: Uuid)
    requires Invariant(s) && (generation in s.life || generation in s.books.births || generation in s.known)
    ensures generation in s.life && generation in s.books.births && BirthOk(s, generation)
  {}

  predicate LivesForward(before: map<Uuid, Life>, after: map<Uuid, Life>) {
    forall g | g in before :: g in after && LifeForward(before[g], after[g])
  }

  /** The parts of growth that operations rely on. */
  lemma GrowthKeeps(s: State, s': State)
    requires Grows(s, s')
    ensures s.owner == s'.owner && s.remote == s'.remote && s.leafOf == s'.leafOf
    ensures s.facts <= s'.facts && s.cancelled <= s'.cancelled
    ensures s.admissionClosed ==> s'.admissionClosed
    ensures LivesForward(s.life, s'.life)
    ensures forall birth | s.admissionClosed && Accepted(birth) in s'.facts :: Accepted(birth) in s.facts
  {}

  /** The entries of the closing registry survive any growth that leaves the registry alone. */
  lemma ClosingStays(s: State, s': State, runtime: Uuid)
    requires runtime in s.closing && ClosingOk(s, runtime)
    requires runtime in s'.closing && s'.closing[runtime] == s.closing[runtime]
    requires A.Progress(s.auth, s'.auth) && BirthsGrow(s, s') && s.leafOf == s'.leafOf && s.remote == s'.remote
    requires s.facts <= s'.facts
    ensures ClosingOk(s', runtime)
  {
    hide BirthsGrow, Known, GateFor, A.Progress;
    var entry := s.closing[runtime];
    KnownStays(s, s', entry.claim);
    GateForStays(s, s', entry.gate, entry.claim);
  }

  lemma ClosingsSurvive(s: State, s': State)
    requires Registries(s) && s'.closing == s.closing
    requires A.Progress(s.auth, s'.auth) && BirthsGrow(s, s') && s.leafOf == s'.leafOf && s.remote == s'.remote
    requires s.facts <= s'.facts
    ensures forall runtime | runtime in s'.closing :: ClosingOk(s', runtime)
  {
    hide BirthsGrow, ClosingOk, A.Progress;
    forall runtime | runtime in s'.closing
      ensures ClosingOk(s', runtime)
    {
      ClosingStays(s, s', runtime);
    }
  }

  lemma ClaimEntryStays(s: State, s': State, key: LeafKey)
    requires key in s.claims && ClaimEntryOk(s, key) && key in s'.claims && s'.claims[key] == s.claims[key]
    requires A.Progress(s.auth, s'.auth) && BirthsGrow(s, s') && s.leafOf == s'.leafOf
    ensures ClaimEntryOk(s', key)
  {
    hide BirthsGrow, Known, GateInstalled, A.Progress, L.Dated;
    KnownStays(s, s', s.claims[key]);
    DatedStays(s, s', s.claims[key]);
    GatesKept(s, s', s.claims[key].generation);
  }

  lemma ClaimsSurvive(s: State, s': State)
    requires Registries(s)
    requires forall key | key in s'.claims :: key in s.claims && s'.claims[key] == s.claims[key]
    requires A.Progress(s.auth, s'.auth) && BirthsGrow(s, s') && s.leafOf == s'.leafOf
    ensures forall key | key in s'.claims :: ClaimEntryOk(s', key)
  {
    hide BirthsGrow, ClaimEntryOk, A.Progress;
    forall key | key in s'.claims
      ensures ClaimEntryOk(s', key)
    {
      ClaimEntryStays(s, s', key);
    }
  }

  /** The registries survive a change of the ledger and the lives alone. */
  lemma RegistriesSurvive(s: State, s': State)
    requires Registries(s) && BirthsGrow(s, s') && s'.auth == s.auth && s'.claims == s.claims && s'.closing == s.closing
    requires s.leafOf == s'.leafOf && s.remote == s'.remote && s.facts <= s'.facts
    ensures Registries(s')
  {
    NothingMoves(s);
    hide BirthsGrow, ClaimEntryOk, ClosingOk, A.Progress, A.Invariant, L.Dated;
    ClosingsSurvive(s, s');
    ClaimsSurvive(s, s');
    forall i | 0 <= i < |s'.auth.gates|
      ensures L.Dated(s'.books, s'.auth.gates[i].claim)
    {
      DatedStays(s, s', s.auth.gates[i].claim);
    }
  }

  /** A birth keeps its invariant while its life does not change and its row only moves forward. */
  lemma BirthStays(s: State, s': State, generation: Uuid)
    requires s.known <= s.books.births.Keys && generation in s.books.births && generation in s.life && BirthOk(s, generation)
    requires A.Progress(s.auth, s'.auth) && BirthsGrow(s, s') && s.cancelled <= s'.cancelled
    requires s.owner == s'.owner && s.remote == s'.remote && s.leafOf == s'.leafOf
    requires generation in s'.books.births && generation in s'.life && s'.life[generation] == s.life[generation]
    requires var row, row' := s.books.births[generation], s'.books.births[generation];
             && row'.consumed == row.consumed
             && (row'.phase.Retired? && !row.phase.Retired? ==>
                   !s.life[generation].Running? && (Unreceived(s.life[generation]) ==> row.runtime in s.cancelled))
    requires Unreceived(s.life[generation]) && s.known != s'.known ==>
               OthersDischarged(s', s.books.births[generation].runtime, generation)
    requires generation in s'.known && generation !in s.known ==>
               && s.leafOf(s.books.births[generation].runtime) == s.books.births[generation].key
               && s.books.births[generation].runtime in s.remote
    ensures BirthOk(s', generation)
  {
    hide A.Progress, GateInstalled, OthersDischarged;
    var row := s.books.births[generation];
    assert L.RowExtends(row, s'.books.births[generation]);
    if Unreceived(s.life[generation]) && s.known == s'.known {
      OthersStay(s, s', row.runtime, generation);
    }
    if row.owner == s.owner && !Unreceived(s.life[generation]) { GatesKept(s, s', Some(generation)); }
  }

  /** The births survive a change that touches neither the ledger nor the lives. */
  lemma BirthsSurvive(s: State, s': State)
    requires Births(s) && s'.books == s.books && s'.life == s.life && s'.known == s.known
    requires A.Progress(s.auth, s'.auth) && s.cancelled <= s'.cancelled
    requires s.owner == s'.owner && s.remote == s'.remote && s.leafOf == s'.leafOf
    ensures Births(s') && BirthsGrow(s, s')
  {
    L.NothingChanges(s.books);
    assert BirthsGrow(s, s');
    hide BirthsGrow, BirthOk, A.Progress, L.Consistent;
    forall g | g in s'.life
      ensures BirthOk(s', g)
    {
      BirthStays(s, s', g);
    }
  }

  /** A change of the in-memory sets and facts alone. */
  lemma MemoryChange(s: State, s': State, learned: set<Fact>)
    requires Invariant(s)
    requires s' == s.(cancelled := s'.cancelled, admissionClosed := s'.admissionClosed,
                      factories := s'.factories, queued := s'.queued, observed := s'.observed,
                      facts := s.facts + learned)
    requires s.cancelled <= s'.cancelled
    requires s.admissionClosed ==> s'.admissionClosed && forall fact | fact in learned :: !fact.Accepted?
    requires forall birth | birth in s.factories :: birth in s'.factories
               || Observed(birth) in s'.facts || CloseProved(birth) in s'.facts
    requires forall birth | birth in s.observed :: birth in s'.observed || CloseProved(birth) in s'.facts
    requires forall fact | fact in learned :: FactOk(s', fact)
    ensures Invariant(s') && Grows(s, s')
  {
    hide FactOk, BirthOk, BirthsGrow, Registries, Births, A.Progress, L.Consistent, Discharged;
    NothingMoves(s);
    BirthsSurvive(s, s');
    RegistriesSurvive(s, s');
    DischargedSurvive(s, s');
    Assemble(s, s', learned);
  }

  lemma DischargedSurvive(s: State, s': State)
    requires BirthsGrow(s, s')
    ensures forall g | Discharged(s, g) :: Discharged(s', g)
  {
    hide BirthsGrow, Discharged;
    forall g | Discharged(s, g)
      ensures Discharged(s', g)
    {
      DischargedStays(s, s', g);
    }
  }

  lemma OnlyBirth(s: State, a: Action)
    requires Enabled(s, a) && BirthAction(a)
    ensures A.WellIndexed(s.auth) && BirthEnabled(s, a) && Apply(s, a) == BirthApply(s, a)
  {
    hide BirthEnabled, CloseEnabled, LocalEnabled, WorldEnabled, BirthApply, CloseApply, LocalApply, WorldApply;
  }

  lemma OnlyClose(s: State, a: Action)
    requires Enabled(s, a) && CloseAction(a)
    ensures A.WellIndexed(s.auth) && CloseEnabled(s, a) && Apply(s, a) == CloseApply(s, a)
  {
    hide BirthEnabled, CloseEnabled, LocalEnabled, WorldEnabled, BirthApply, CloseApply, LocalApply, WorldApply;
  }

  lemma OnlyLocal(s: State, a: Action)
    requires Enabled(s, a) && LocalAction(a)
    ensures A.WellIndexed(s.auth) && LocalEnabled(s, a) && Apply(s, a) == LocalApply(s, a)
  {
    hide BirthEnabled, CloseEnabled, LocalEnabled, WorldEnabled, BirthApply, CloseApply, LocalApply, WorldApply;
  }

  lemma OnlyWorld(s: State, a: Action)
    requires Enabled(s, a) && WorldAction(a)
    ensures A.WellIndexed(s.auth) && WorldEnabled(s, a) && Apply(s, a) == WorldApply(s, a)
  {
    hide BirthEnabled, CloseEnabled, LocalEnabled, WorldEnabled, BirthApply, CloseApply, LocalApply, WorldApply;
  }

  /** What a current, unretired claim leaves of its runtime id: every other birth is retired. */
  lemma OnlyOneLeft(s: State, claim: Claim)
    requires Invariant(s) && L.Current(s.books, claim.key) == Some(claim) && !claim.phase.Retired?
    requires claim.generation.Some? && s.leafOf(claim.runtime) == claim.key
    ensures OthersDischarged(s, claim.runtime, claim.generation.value)
  {
    hide Invariant, Discharged;
    BirthsHold(s);
    assert L.ClaimOk(s.books, claim.key);
    forall g | g in s.known && g != claim.generation.value && Under(s, g, claim.runtime)
      ensures Discharged(s, g)
    {
      BirthHolds(s, g);
      L.OnlyTheLatestLives(s.books, claim.generation.value, g);
      RetiredIsDischarged(s, g);
    }
  }

  lemma RetiredIsDischarged(s: State, generation: Uuid)
    requires RowRetired(s, generation)
    ensures Discharged(s, generation)
  {}

  lemma CloseReadStep(s: State, a: Action)
    requires Invariant(s) && Enabled(s, a)
    requires a.Cancel? || a.SeeDrained?
    ensures Invariant(Apply(s, a)) && Grows(s, Apply(s, a))
  {
    hide Enabled, Apply, Invariant, Grows;
    OnlyClose(s, a);
    var s' := Apply(s, a);
    match a
    case Cancel(runtime) => MemoryChange(s, s', {});
    case SeeDrained(runtime) =>
      ClosingHolds(s, runtime);
      MemoryChange(s, s', {SawDrained(s.closing[runtime].claim)});
  }

  lemma ReadForFenceStep(s: State, prior: Claim)
    requires Invariant(s) && Enabled(s, ReadForFence(prior))
    ensures var s' := Apply(s, ReadForFence(prior)); Invariant(s') && Grows(s, s')
  {
    hide Enabled, Apply, Invariant, Grows;
    OnlyClose(s, ReadForFence(prior));
    FactHolds(s, SawDrained(prior));
    MemoryChange(s, Apply(s, ReadForFence(prior)), {FenceRead(prior, s.books.claims[prior.key])});
  }

  lemma AlreadyFencedStep(s: State, prior: Claim)
    requires Invariant(s) && Enabled(s, AlreadyFenced(prior))
    ensures var s' := Apply(s, AlreadyFenced(prior)); Invariant(s') && Grows(s, s')
  {
    hide Enabled, Apply, Invariant, Grows, OthersDischarged;
    OnlyClose(s, AlreadyFenced(prior));
    FactHolds(s, SawDrained(prior));
    OnlyOneLeft(s, prior);
    var s' := Apply(s, AlreadyFenced(prior));
    OthersAsBefore(s, s', prior.runtime, prior.generation.value);
    MemoryChange(s, s', {Prepared(BirthOf(prior))});
  }

  lemma OthersAsBefore(s: State, s': State, runtime: Uuid, generation: Uuid)
    requires OthersDischarged(s, runtime, generation)
    requires s'.books == s.books && s'.life == s.life && s'.known == s.known && s.cancelled <= s'.cancelled
    ensures OthersDischarged(s', runtime, generation)
  {
    forall g | g in s'.known && g != generation && Under(s', g, runtime)
      ensures Discharged(s', g)
    {
      assert Under(s, g, runtime) && Discharged(s, g);
    }
  }

  lemma FinishReadStep(s: State, a: Action)
    requires Invariant(s) && Enabled(s, a)
    requires a.StartConfirm?
    ensures Invariant(Apply(s, a)) && Grows(s, Apply(s, a))
  {
    hide Enabled, Apply, Invariant, Grows, AllGone;
    OnlyClose(s, a);
    var s' := Apply(s, a);
    match a
    case StartConfirm(runtime) =>
      GoneAsBefore(s, s', runtime);
      MemoryChange(s, s', {Confirming(runtime)});
  }

  lemma GoneAsBefore(s: State, s': State, runtime: Uuid)
    requires AllGone(s, runtime)
    requires s'.books == s.books && s'.life == s.life && s'.known == s.known && s.cancelled <= s'.cancelled
    ensures AllGone(s', runtime)
  {
    forall g | g in s'.known && Under(s', g, runtime)
      ensures Gone(s', g)
    {
      assert Under(s, g, runtime) && Gone(s, g);
    }
  }

  lemma FinishCheckStep(s: State, runtime: Uuid)
    requires Invariant(s) && Enabled(s, FinishCheck(runtime))
    ensures var s' := Apply(s, FinishCheck(runtime)); Invariant(s') && Grows(s, s')
  {
    hide Enabled, Apply, Invariant, Grows;
    OnlyClose(s, FinishCheck(runtime));
    ClosingHolds(s, runtime);
    var entry := s.closing[runtime];
    MemoryChange(s, Apply(s, FinishCheck(runtime)), {FinishReady(entry.claim, entry.permanent, entry.gate)});
  }

  lemma FinishReadLedgerStep(s: State, prior: Claim, permanent: bool, gate: nat)
    requires Invariant(s) && Enabled(s, FinishReadLedger(prior, permanent, gate))
    ensures var s' := Apply(s, FinishReadLedger(prior, permanent, gate)); Invariant(s') && Grows(s, s')
  {
    hide Enabled, Apply, Invariant, Grows;
    OnlyClose(s, FinishReadLedger(prior, permanent, gate));
    FactHolds(s, FinishReady(prior, permanent, gate));
    MemoryChange(s, Apply(s, FinishReadLedger(prior, permanent, gate)),
                 {FinishRead(prior, permanent, gate, s.books.claims[prior.key])});
  }

  lemma FactoryStep(s: State, a: Action)
    requires Invariant(s) && Enabled(s, a)
    requires a.AcceptFactory?
    ensures Invariant(Apply(s, a)) && Grows(s, Apply(s, a))
  {
    hide Enabled, Apply, Invariant, Grows;
    OnlyLocal(s, a);
    var s' := Apply(s, a);
    match a
    case AcceptFactory(claim) => MemoryChange(s, s', {Accepted(BirthOf(claim))});
  }

  lemma ObserveStep(s: State, a: Action)
    requires Invariant(s) && Enabled(s, a)
    requires a.Observe? || a.DropFactory?
    ensures Invariant(Apply(s, a)) && Grows(s, Apply(s, a))
  {
    hide Enabled, Apply, Invariant, Grows;
    OnlyLocal(s, a);
    var s' := Apply(s, a);
    match a
    case Observe(birth) => MemoryChange(s, s', {Observed(birth)});
    case DropFactory(birth) => MemoryChange(s, s', {});
  }

  lemma HandleStep(s: State, a: Action)
    requires Invariant(s) && Enabled(s, a)
    requires a.QueueRetirement? || a.ProveClose?
    ensures Invariant(Apply(s, a)) && Grows(s, Apply(s, a))
  {
    hide Enabled, Apply, Invariant, Grows;
    OnlyLocal(s, a);
    var s' := Apply(s, a);
    match a
    case QueueRetirement(birth) => MemoryChange(s, s', {});
    case ProveClose(birth) => MemoryChange(s, s', {CloseProved(birth)});
  }

  lemma ReleaseHandleStep(s: State, a: Action)
    requires Invariant(s) && Enabled(s, a)
    requires a.CompleteQueued? || a.Unobserve?
    ensures Invariant(Apply(s, a)) && Grows(s, Apply(s, a))
  {
    hide Enabled, Apply, Invariant, Grows;
    OnlyLocal(s, a);
    var s' := Apply(s, a);
    match a
    case CompleteQueued(birth) => MemoryChange(s, s', {});
    case Unobserve(birth) => MemoryChange(s, s', {});
  }

  lemma ExitStep(s: State, a: Action)
    requires Invariant(s) && Enabled(s, a)
    requires a.ReadForRefresh? || a.CloseAdmission?
    ensures Invariant(Apply(s, a)) && Grows(s, Apply(s, a))
  {
    hide Enabled, Apply, Invariant, Grows;
    OnlyLocal(s, a);
    var s' := Apply(s, a);
    match a
    case ReadForRefresh(claim) => MemoryChange(s, s', {StaleSnapshot(claim)});
    case CloseAdmission => MemoryChange(s, s', {});
  }

  /** The reservation that is retried, the birth that is attached again, and the entry already seen. */
  lemma ReclaimStep(s: State, a: Action)
    requires Invariant(s) && Enabled(s, a)
    requires a.RetryBirth? || a.AttachActive?
    ensures Invariant(Apply(s, a)) && Grows(s, Apply(s, a))
  {
    hide Enabled, Apply, Invariant, Grows, L.Dated, BirthOk;
    OnlyBirth(s, a);
    BirthsHold(s);
    assert L.ClaimOk(s.books, a.claim.key);
    OwnIsKnown(s, a.claim.generation.value);
    if a.AttachActive? { FactHolds(s, Attaching(a.host)); }
    L.CurrentIsDated(s.books, a.claim);
    MemoryChange(s, Apply(s, a), {Registrable(a.claim)});
  }

  lemma OwnIsKnown(s: State, generation: Uuid)
    requires Invariant(s) && generation in s.books.births
    ensures s.books.births[generation].owner == s.owner ==> generation in s.known
  {
    BirthHolds(s, generation);
  }

  lemma SeeSameStep(s: State, claim: Claim)
    requires Invariant(s) && Enabled(s, SeeSame(claim))
    ensures var s' := Apply(s, SeeSame(claim)); Invariant(s') && Grows(s, s')
  {
    hide Enabled, Apply, Invariant, Grows, GateInstalled;
    OnlyBirth(s, SeeSame(claim));
    ClaimHolds(s, claim.key);
    MemoryChange(s, Apply(s, SeeSame(claim)), {SawSame(claim)});
  }

  /** A change of the gates alone; a new gate is installed with a dated claim. */
  lemma GateChange(s: State, e: A.Event, learned: set<Fact>, s': State)
    requires Invariant(s) && A.Enabled(s.auth, e)
    requires e.Install? ==> L.Dated(s.books, e.context.claim)
    requires s' == s.(auth := A.Next(s.auth, e), facts := s.facts + learned)
    requires forall fact | fact in learned :: !fact.Accepted? && FactOk(s', fact)
    ensures Invariant(s') && Grows(s, s')
  {
    hide FactOk, BirthOk, BirthsGrow, ClosingOk, ClaimEntryOk, Discharged, A.Progress, A.Next, A.Invariant, A.Enabled, L.Consistent, L.Dated;
    RegistriesHold(s);
    A.NextIsSafe(s.auth, e);
    BirthsSurvive(s, s');
    ClosingsSurvive(s, s');
    ClaimsSurvive(s, s');
    DischargedSurvive(s, s');
    forall i | 0 <= i < |s'.auth.gates|
      ensures L.Dated(s'.books, s'.auth.gates[i].claim)
    {
      GateClaims(s.auth, e, i);
    }
    Assemble(s, s', learned);
  }

  lemma GateClaims(w: A.World, e: A.Event, i: int)
    requires A.Invariant(w) && A.Enabled(w, e) && 0 <= i < |A.Next(w, e).gates|
    ensures (i < |w.gates| && A.Next(w, e).gates[i].claim == w.gates[i].claim)
            || (e.Install? && A.Next(w, e).gates[i].claim == e.context.claim)
  {}

  lemma RegisterSameStep(s: State, claim: Claim)
    requires Invariant(s) && Enabled(s, RegisterSame(claim))
    ensures var s' := Apply(s, RegisterSame(claim)); Invariant(s') && Grows(s, s')
  {
    hide Enabled, Apply, Invariant, Grows, GateInstalled, L.Dated, A.Invariant, A.Progress, A.AfterMarkInstalled;
    OnlyBirth(s, RegisterSame(claim));
    FactHolds(s, Registrable(claim));
    FactHolds(s, SawSame(claim));
    RegistriesHold(s);
    A.NextIsSafe(s.auth, A.MarkInstalled(claim));
    var s' := Apply(s, RegisterSame(claim));
    GatesKept(s, s', claim.generation);
    GateChange(s, A.MarkInstalled(claim), {GateReady(claim)}, s');
  }

  lemma RegisterNewStep(s: State, claim: Claim)
    requires Invariant(s) && Enabled(s, RegisterNew(claim))
    ensures var s' := Apply(s, RegisterNew(claim)); Invariant(s') && Grows(s, s')
  {
    hide Enabled, Apply, Invariant, Grows, L.Dated;
    OnlyBirth(s, RegisterNew(claim));
    FactHolds(s, Registrable(claim));
    var s' := Apply(s, RegisterNew(claim));
    assert s'.auth.gates[|s.auth.gates|].claim.generation == claim.generation;
    GateChange(s, A.Install(Context(claim)), {GateReady(claim)}, s');
  }

  lemma EffectsStep(s: State, a: Action)
    requires Invariant(s) && Enabled(s, a)
    requires a.BeginEffects? || a.DropPermit?
    ensures Invariant(Apply(s, a)) && Grows(s, Apply(s, a))
  {
    hide Enabled, Apply, Invariant, Grows;
    OnlyBirth(s, a);
    var s' := Apply(s, a);
    match a
    case BeginEffects(gate) => GateChange(s, A.BeginEffects(gate), {}, s');
    case DropPermit(gate) => GateChange(s, A.DropPermit(gate), {}, s');
  }

  /** The gate registered for a leaf was installed for the latest birth this endpoint received: when
      the gate of a claim is fenced, every other own birth under its runtime id is discharged. */
  lemma FencedIsTheLast(s: State, claim: Claim)
    requires Invariant(s) && A.WellIndexed(s.auth) && A.Registered(s.auth, claim).Ok? && Known(s, claim)
    requires claim.runtime in s.cancelled && claim.runtime !in s.remote
    ensures OthersDischarged(s, claim.runtime, claim.generation.value)
  {
    hide Invariant, Discharged, A.Registered;
    forall g | g in s.known && g != claim.generation.value && Under(s, g, claim.runtime)
      ensures Discharged(s, g)
    {
      OtherIsDischarged(s, claim, g);
    }
  }

  lemma OtherIsDischarged(s: State, claim: Claim, other: Uuid)
    requires Invariant(s) && A.WellIndexed(s.auth) && A.Registered(s.auth, claim).Ok? && Known(s, claim)
    requires claim.runtime in s.cancelled && claim.runtime !in s.remote
    requires other in s.known && other != claim.generation.value && Under(s, other, claim.runtime)
    ensures Discharged(s, other)
  {
    hide Invariant, GateInstalled, OthersDischarged, L.Consistent, L.Dated;
    BirthHolds(s, other);
    BirthsHold(s);
    if !s.books.births[other].phase.Retired? && !Unreceived(s.life[other]) {
      L.OnlyTheLatestLives(s.books, other, claim.generation.value);
      RegisteredIsLatest(s, claim, other);
      assert false;
    }
  }

  /** The registered gate belongs to the latest of the births for which a gate was ever installed. */
  lemma RegisteredIsLatest(s: State, claim: Claim, gated: Uuid)
    requires Invariant(s) && A.WellIndexed(s.auth) && A.Registered(s.auth, claim).Ok? && claim.generation.Some?
    requires gated in s.books.births && claim.generation.value in s.books.births
    requires s.books.births[gated].key == claim.key && GateInstalled(s.auth.gates, Some(gated))
    ensures s.books.births[gated].born <= s.books.births[claim.generation.value].born
  {
    hide BirthOk, FactOk, ClosingOk, ClaimEntryOk, L.Consistent, Births;
    var gate := A.Registered(s.auth, claim).value;
    var i :| 0 <= i < |s.auth.gates| && s.auth.gates[i].claim.generation == Some(gated);
    assert L.Dated(s.books, s.auth.gates[i].claim) && L.Dated(s.books, s.auth.gates[gate].claim);
    assert A.GateOk(s.auth, i);
    if i < gate {
      assert A.EpochsOrdered(s.auth.gates[i].claim, s.auth.gates[gate].claim);
    }
  }

  lemma RetireGateStep(s: State, claim: Claim, permanent: bool)
    requires Invariant(s) && Enabled(s, RetireTaken(claim, permanent))
    ensures var s' := Apply(s, RetireTaken(claim, permanent)); Invariant(s') && Grows(s, s')
  {
    hide Enabled, Apply, Invariant, Grows, OthersDischarged;
    OnlyClose(s, RetireTaken(claim, permanent));
    FactHolds(s, Taken(claim, permanent));
    var s' := Apply(s, RetireTaken(claim, permanent));
    if claim.runtime !in s.remote {
      FencedIsTheLast(s, claim);
      OthersAsBefore(s, s', claim.runtime, claim.generation.value);
    }
    GateChange(s, A.BeginRetire(claim), {FencedGate(claim, permanent, A.Registered(s.auth, claim).value)}, s');
  }

  lemma InvalidateStep(s: State, a: Action)
    requires Invariant(s) && Enabled(s, a)
    requires a.InvalidateStale?
    ensures Invariant(Apply(s, a)) && Grows(s, Apply(s, a))
  {
    hide Enabled, Apply, Invariant, Grows;
    OnlyLocal(s, a);
    var s' := Apply(s, a);
    match a
    case InvalidateStale(claim) => GateChange(s, A.BeginRetire(claim), {}, s');
  }

  /** A change of the claim registry alone. */
  lemma ClaimsChange(s: State, s': State, learned: set<Fact>)
    requires Invariant(s)
    requires s' == s.(claims := s'.claims, facts := s.facts + learned)
    requires forall key | key in s'.claims :: ClaimEntryOk(s', key)
    requires forall fact | fact in learned :: !fact.Accepted? && FactOk(s', fact)
    ensures Invariant(s') && Grows(s, s')
  {
    hide FactOk, BirthOk, BirthsGrow, ClosingOk, ClaimEntryOk, Discharged, A.Progress, A.Invariant, L.Consistent, L.Dated;
    RegistriesHold(s);
    NothingMoves(s);
    BirthsSurvive(s, s');
    ClosingsSurvive(s, s');
    DischargedSurvive(s, s');
    Assemble(s, s', learned);
  }

  lemma ClaimsStep(s: State, claim: Claim)
    requires Invariant(s) && Enabled(s, RegisterClaim(claim))
    ensures var s' := Apply(s, RegisterClaim(claim)); Invariant(s') && Grows(s, s')
  {
    hide Enabled, Apply, Invariant, Grows, GateInstalled;
    OnlyBirth(s, RegisterClaim(claim));
    var s' := Apply(s, RegisterClaim(claim));
    FactHolds(s, GateReady(claim));
    forall key | key in s'.claims
      ensures ClaimEntryOk(s', key)
    {
      if key != claim.key { ClaimHolds(s, key); }
    }
    assert s.facts + {} == s.facts;
    ClaimsChange(s, s', {});
  }

  lemma DropClaimStep(s: State, a: Action)
    requires Invariant(s) && Enabled(s, a)
    requires a.TakeClaim? || a.RemoveStale?
    ensures Invariant(Apply(s, a)) && Grows(s, Apply(s, a))
  {
    hide Enabled, Apply, Invariant, Grows, GateInstalled;
    if a.TakeClaim? { OnlyClose(s, a); } else { OnlyLocal(s, a); }
    var s' := Apply(s, a);
    forall key | key in s'.claims
      ensures ClaimEntryOk(s', key)
    {
      ClaimHolds(s, key);
    }
    match a
    case TakeClaim(key, permanent) =>
      ClaimHolds(s, key);
      ClaimsChange(s, s', {Taken(s.claims[key], permanent)});
    case RemoveStale(claim) =>
      assert s.facts + {} == s.facts;
      ClaimsChange(s, s', {});
  }

  /** A change of one closing entry. A permanent local entry may go, or give way to the entry of
      another birth, only once its own birth is discharged. */
  lemma ClosingChange(s: State, s': State, runtime: Uuid, learned: set<Fact>)
    requires Invariant(s)
    requires s' == s.(closing := s'.closing, facts := s.facts + learned)
    requires forall r | r != runtime :: (r in s.closing) == (r in s'.closing)
               && (r in s.closing ==> s.closing[r] == s'.closing[r])
    requires runtime in s'.closing ==> ClosingOk(s', runtime)
    requires runtime in s.closing && runtime !in s.remote ==>
               || (runtime in s'.closing && SameBirth(s'.closing[runtime].claim, s.closing[runtime].claim))
               || Discharged(s, s.closing[runtime].claim.generation.GetOr(0))
    requires forall fact | fact in learned :: !fact.Accepted? && FactOk(s', fact)
    ensures Invariant(s') && Grows(s, s')
  {
    hide Invariant, FactOk, BirthOk, BirthsGrow, ClosingOk, ClaimEntryOk, Discharged, A.Invariant, A.Progress, L.Consistent, L.Dated;
    RegistriesHold(s);
    NothingMoves(s);
    BirthsSurvive(s, s');
    DischargedSurvive(s, s');
    ClaimsSurvive(s, s');
    if runtime in s.closing {
      assert ClosingOk(s, runtime);
      EntryIsOwn(s, runtime);
    }
    if runtime in s'.closing { EntryIsOwn(s', runtime); }
    forall r | r in s'.closing
      ensures ClosingOk(s', r)
    {
      if r != runtime {
        assert ClosingOk(s, r);
        ClosingStays(s, s', r);
      }
    }
    Assemble(s, s', learned);
  }

  lemma EntryIsOwn(s: State, runtime: Uuid)
    requires runtime in s.closing && ClosingOk(s, runtime)
    ensures s.closing[runtime].claim.runtime == runtime && Known(s, s.closing[runtime].claim)
    ensures s.closing[runtime].permanent || runtime in s.remote
  {}

  lemma EnterClosingStep(s: State, claim: Claim, permanent: bool, gate: nat)
    requires Invariant(s) && Enabled(s, InsertClosing(claim, permanent, gate))
    ensures var s' := Apply(s, InsertClosing(claim, permanent, gate)); Invariant(s') && Grows(s, s')
  {
    hide Enabled, Apply, Invariant, Grows, Discharged;
    OnlyClose(s, InsertClosing(claim, permanent, gate));
    FactHolds(s, FencedGate(claim, permanent, gate));
    if claim.runtime in s.closing { ClosingHolds(s, claim.runtime); }
    assert s.facts + {} == s.facts;
    ClosingChange(s, Apply(s, InsertClosing(claim, permanent, gate)), claim.runtime, {});
  }

  lemma StoreFenceStep(s: State, prior: Claim, fenced: Claim)
    requires Invariant(s) && Enabled(s, StoreFence(prior, fenced))
    ensures var s' := Apply(s, StoreFence(prior, fenced)); Invariant(s') && Grows(s, s')
  {
    hide Enabled, Apply, Invariant, Grows, OthersDischarged, Discharged;
    OnlyClose(s, StoreFence(prior, fenced));
    FactHolds(s, FenceCommitted(prior, fenced));
    ClosingHolds(s, prior.runtime);
    var s' := Apply(s, StoreFence(prior, fenced));
    OthersAsBefore(s, s', prior.runtime, prior.generation.value);
    ClosingChange(s, s', prior.runtime, {Prepared(BirthOf(prior))});
  }

  lemma LeaveClosingStep(s: State, a: Action)
    requires Invariant(s) && Enabled(s, a)
    requires a.MarkConfirmed?
    ensures Invariant(Apply(s, a)) && Grows(s, Apply(s, a))
  {
    hide Enabled, Apply, Invariant, Grows;
    OnlyClose(s, a);
    var s' := Apply(s, a);
    match a
    case MarkConfirmed(runtime) =>
      ClosingHolds(s, runtime);
      assert s.facts + {} == s.facts;
      ClosingChange(s, s', runtime, {});
  }

  lemma RemoveClosingStep(s: State, a: Action)
    requires Invariant(s) && Enabled(s, a)
    requires a.FinishRemove?
    ensures Invariant(Apply(s, a)) && Grows(s, Apply(s, a))
  {
    hide Enabled, Apply, Invariant, Grows;
    OnlyClose(s, a);
    var s' := Apply(s, a);
    match a
    case FinishRemove(prior, retired) =>
      FactHolds(s, FinishCommitted(prior, retired));
      ClosingHolds(s, prior.runtime);
      assert s.facts + {} == s.facts;
      ClosingChange(s, s', prior.runtime, {});
  }

  lemma BirthsGrowTransitive(s: State, m: State, s': State)
    requires BirthsGrow(s, m) && BirthsGrow(m, s') && s.cancelled <= m.cancelled
    ensures BirthsGrow(s, s')
  {
    hide L.Extends, NeverBorn;
    L.ExtendsTransitive(s.books, m.books, s'.books);
    BooksExtend(m, s');
    forall g | g in s'.known && g !in s.known && g in s'.books.births && s'.books.births[g].runtime in s.cancelled
      ensures NeverBorn(s', g)
    {
      if g in m.known { LifeGrows(m, s', g); }
    }
    forall g | g in s.life
      ensures g in s'.life && LifeForward(s.life[g], s'.life[g]) && (NeverBorn(s, g) ==> NeverBorn(s', g))
    {
      LifeGrows(s, m, g);
      LifeGrows(m, s', g);
    }
  }

  lemma BooksExtend(s: State, s': State)
    requires BirthsGrow(s, s')
    ensures forall g | g in s.books.births :: g in s'.books.births && s'.books.births[g].runtime == s.books.births[g].runtime
  {}

  lemma LifeGrows(s: State, s': State, generation: Uuid)
    requires BirthsGrow(s, s')
    ensures generation in s.life ==> generation in s'.life && LifeForward(s.life[generation], s'.life[generation])
    ensures NeverBorn(s, generation) ==> NeverBorn(s', generation)
  {}

  lemma ClosedForGoodStays(s: State, m: State, s': State, birth: Birth)
    requires Grows(m, s') && birth.runtime !in m.remote && ClosedForGood(m, birth)
    ensures ClosedForGood(s', birth)
  {
    hide Discharged;
    if birth.generation.Some? && Discharged(m, birth.generation.value) { DischargedStays(m, s', birth.generation.value); }
  }

  lemma GrowsTransitive(s: State, m: State, s': State)
    requires Grows(s, m) && Grows(m, s')
    ensures Grows(s, s')
  {
    BirthsGrowTransitive(s, m, s');
    forall birth: Birth | birth.runtime !in s.remote && PermanentClosing(s, birth)
      ensures ClosedForGood(s', birth)
    {
      ClosedForGoodStays(s, m, s', birth);
    }
    ProgressTransitive(s.auth, m.auth, s'.auth);
    hide BirthsGrow, ClosedForGood, PermanentClosing, A.Progress;
  }

  lemma ProgressTransitive(a: A.World, b: A.World, c: A.World)
    requires A.Progress(a, b) && A.Progress(b, c)
    ensures A.Progress(a, c)
  {
    forall i | 0 <= i < |a.gates|
      ensures A.Forward(a.gates[i], c.gates[i])
    {
      assert A.Forward(a.gates[i], b.gates[i]) && A.Forward(b.gates[i], c.gates[i]);
    }
  }

  lemma FencedEntry(s: State, s': State, claim: Claim, gate: nat)
    requires A.WellIndexed(s.auth) && A.Registered(s.auth, claim) == Ok(gate) && Known(s', claim)
    requires s'.auth == A.AfterBeginRetire(s.auth, claim)
    requires claim.runtime in s'.closing && s'.closing[claim.runtime] == Closing(claim, gate, true, false)
    ensures ClosingOk(s', claim.runtime)
  {}

  /** begin_close_bound under both locks: fence the gate, then move the claim between the registries. */
  lemma BoundMove(s: State, claim: Claim, gate: nat, s': State)
    requires Invariant(s) && claim.key in s.claims && s.claims[claim.key] == claim
    requires claim.runtime !in s.closing && A.WellIndexed(s.auth) && A.Registered(s.auth, claim) == Ok(gate)
    requires s' == s.(auth := A.AfterBeginRetire(s.auth, claim), claims := s.claims - {claim.key},
                      closing := s.closing[claim.runtime := Closing(claim, gate, true, false)],
                      facts := s.facts + {BoundClosed(BirthOf(claim))})
    ensures Invariant(s') && Grows(s, s')
  {
    hide Invariant, Grows, ClosingOk, ClaimEntryOk, Known, A.Registered, A.AfterBeginRetire, RowRetired, Discharged;
    ClaimsHold(s);
    var fenced := s.(auth := s'.auth);
    assert fenced.facts == s.facts + {};
    GateChange(s, A.BeginRetire(claim), {}, fenced);
    var taken := fenced.(claims := s'.claims);
    forall key | key in taken.claims
      ensures ClaimEntryOk(taken, key)
    {
      ClaimHolds(fenced, key);
      SameEntryOk(fenced, taken, key);
    }
    ClaimsHold(fenced);
    assert Known(s', claim) by { SameKnown(s, s', claim); }
    ClaimsChange(fenced, taken, {});
    FencedEntry(s, s', claim, gate);
    ClosingChange(taken, s', claim.runtime, {BoundClosed(BirthOf(claim))});
    GrowsTransitive(s, fenced, taken);
    GrowsTransitive(s, taken, s');
  }

  lemma SameEntryOk(s: State, s': State, key: LeafKey)
    requires key in s.claims && ClaimEntryOk(s, key) && key in s'.claims && s'.claims[key] == s.claims[key]
    requires s' == s.(claims := s'.claims)
    ensures ClaimEntryOk(s', key)
  {}

  lemma SameKnown(s: State, s': State, claim: Claim)
    requires Known(s, claim) && s'.books == s.books && s'.known == s.known && s'.leafOf == s.leafOf
    ensures Known(s', claim)
  {}

  lemma CloseBoundStep(s: State, host: HostEvidence)
    requires Invariant(s) && Enabled(s, CloseBound(host))
    ensures var s' := Apply(s, CloseBound(host)); Invariant(s') && Grows(s, s')
  {
    hide Enabled, Apply, Invariant, Grows;
    OnlyClose(s, CloseBound(host));
    ClaimsHold(s);
    var s' := Apply(s, CloseBound(host));
    if host.target.Some? && host.target.value in s.claims
       && Proves(host, s.claims[host.target.value]) && s.claims[host.target.value].owner == Some(s.owner)
    {
      var claim := s.claims[host.target.value];
      BoundMove(s, claim, A.Registered(s.auth, claim).value, s');
    } else {
      ClosingHolds(s, host.runtime);
      MemoryChange(s, s', {BoundClosed(Birth(host.runtime, host.generation))});
    }
  }

  /** A change of the ledger, the lives and the known births. */
  lemma BirthChange(s: State, s': State, learned: set<Fact>)
    requires Invariant(s)
    requires s' == s.(books := s'.books, life := s'.life, known := s'.known, facts := s.facts + learned)
    requires BirthsGrow(s, s') && Births(s')
    requires forall fact | fact in learned :: !fact.Accepted? && FactOk(s', fact)
    ensures Invariant(s') && Grows(s, s')
  {
    hide FactOk, Registries, Births, BirthsGrow, Discharged, A.Progress;
    RegistriesHold(s);
    NothingMoves(s);
    RegistriesSurvive(s, s');
    DischargedSurvive(s, s');
    Assemble(s, s', learned);
  }

  lemma AllBirths(s: State)
    requires L.Consistent(s.books) && s.life.Keys == s.books.births.Keys && s.known <= s.books.births.Keys
    requires forall g | g in s.life :: BirthOk(s, g)
    ensures Births(s)
  {}

  /** A birth that is already recorded becomes known, before its runtime id is cancelled. */
  lemma StartAttachStep(s: State, host: HostEvidence)
    requires Invariant(s) && Enabled(s, StartAttach(host))
    ensures var s' := Apply(s, StartAttach(host)); Invariant(s') && Grows(s, s')
  {
    hide Enabled, Apply, Invariant, Grows, BirthOk, L.Consistent, L.Extends, Discharged, OthersDischarged, Unreceived;
    OnlyBirth(s, StartAttach(host));
    var s', generation := Apply(s, StartAttach(host)), host.generation.value;
    BirthsHold(s);
    NothingMoves(s);
    L.NothingChanges(s.books);
    AttachGrows(s, s', generation);
    forall g | g in s'.life
      ensures BirthOk(s', g)
    {
      BirthHolds(s, g);
      if Unreceived(s.life[g]) { AttachLeavesOthers(s, s', generation, g); }
      AttachedBirth(s, generation);
      BirthStays(s, s', g);
    }
    AllBirths(s');
    BirthChange(s, s', {Attaching(host)});
  }

  lemma AttachedBirth(s: State, generation: Uuid)
    requires Invariant(s) && generation in s.books.births
    ensures s.books.births[generation].owner == s.owner ==> generation in s.known
  {
    BirthHolds(s, generation);
  }

  lemma AttachGrows(s: State, s': State, generation: Uuid)
    requires s' == s.(known := s.known + {generation}, facts := s'.facts) && generation in s.books.births
    requires s.books.births[generation].runtime !in s.cancelled && L.Extends(s.books, s.books)
    ensures BirthsGrow(s, s')
  {
    hide L.Extends;
  }

  /** Of two births of one leaf at most one is unretired. */
  lemma AttachLeavesOthers(s: State, s': State, attached: Uuid, generation: Uuid)
    requires Invariant(s) && attached in s.books.births && s.leafOf(s.books.births[attached].runtime) == s.books.births[attached].key
    requires s.books.births[attached].runtime !in s.cancelled
    requires s' == s.(known := s.known + {attached}, facts := s'.facts)
    requires generation in s.life && generation in s.books.births && Unreceived(s.life[generation])
    ensures OthersDischarged(s', s.books.births[generation].runtime, generation)
  {
    hide Invariant, GateInstalled, Discharged, L.Consistent;
    BirthsHold(s);
    BirthHolds(s, generation);
    var runtime := s.books.births[generation].runtime;
    forall g | g in s'.known && g != generation && Under(s', g, runtime)
      ensures Discharged(s', g)
    {
      if g in s.known {
        assert Under(s, g, runtime);
        DischargedAsBefore(s, s', g);
      } else {
        L.OnlyTheLatestLives(s.books, generation, g);
        RetiredIsDischarged(s', g);
      }
    }
  }

  lemma DischargedAsBefore(s: State, s': State, generation: Uuid)
    requires Discharged(s, generation) && s'.books == s.books && s'.life == s.life && s.cancelled <= s'.cancelled
    ensures Discharged(s', generation)
  {}

  /** The births of the ledger after a reservation by this endpoint or another. */
  lemma ReserveGrows(s: State, actor: Uuid, intent: L.Intent, life: Life, s': State)
    requires Invariant(s) && intent.Reserve? && L.Commit(s.books, actor, intent).Some?
    requires s' == Committed(s, actor, intent).(life := s.life[intent.generation := life], known := s'.known, facts := s'.facts)
    requires s'.known == s.known || (s'.known == s.known + {intent.generation} && life.Fresh?)
    ensures intent.generation !in s.life && intent.generation !in s.books.births
    ensures s'.books.births == s.books.births[intent.generation := s'.books.births[intent.generation]]
    ensures var row := s'.books.births[intent.generation];
            row.key == intent.key && row.runtime == intent.runtime && row.owner == actor && !row.consumed && row.phase.AuthorizedBirth?
    ensures L.Consistent(s'.books) && BirthsGrow(s, s')
  {
    hide Invariant, L.Commit, L.Consistent, L.Extends;
    BirthsHold(s);
    L.CommitKeeps(s.books, actor, intent);
    L.ReserveAdds(s.books, actor, intent);
  }

  lemma ReserveForeignStep(s: State, actor: Uuid, intent: L.Intent)
    requires Invariant(s) && Enabled(s, ForeignCommit(actor, intent)) && intent.Reserve?
    ensures var s' := Apply(s, ForeignCommit(actor, intent)); Invariant(s') && Grows(s, s')
  {
    hide Enabled, Apply, Invariant, Grows, BirthsGrow, BirthOk, L.Commit, L.Consistent;
    OnlyWorld(s, ForeignCommit(actor, intent));
    var s' := Apply(s, ForeignCommit(actor, intent));
    BirthsHold(s);
    NothingMoves(s);
    ReserveGrows(s, actor, intent, Handed, s');
    forall g | g in s'.life
      ensures BirthOk(s', g)
    {
      if g == intent.generation {
        NewForeignBirth(s', g);
      } else {
        BirthHolds(s, g);
        BirthStays(s, s', g);
      }
    }
    AllBirths(s');
    assert s.facts + {} == s.facts;
    BirthChange(s, s', {});
  }

  lemma NewForeignBirth(s: State, generation: Uuid)
    requires generation in s.books.births && generation in s.life && s.life[generation].Handed? && generation !in s.known
    requires s.books.births[generation].owner != s.owner
    ensures BirthOk(s, generation)
  {}

  lemma NewOwnBirth(s: State, generation: Uuid)
    requires generation in s.books.births && generation in s.life && s.life[generation].Fresh? && generation in s.known
    requires var row := s.books.births[generation];
             row.owner == s.owner && !row.consumed && row.phase.AuthorizedBirth? && s.leafOf(row.runtime) == row.key
             && OthersDischarged(s, row.runtime, generation)
    ensures BirthOk(s, generation)
  {}

  /** A reservation finds every earlier birth of its leaf retired. */
  lemma ReserveStep(s: State, key: LeafKey, runtime: Uuid, generation: Uuid, expected: Option<Claim>)
    requires Invariant(s) && Enabled(s, ReserveBirth(key, runtime, generation, expected))
    ensures var s' := Apply(s, ReserveBirth(key, runtime, generation, expected)); Invariant(s') && Grows(s, s')
  {
    hide Enabled, Apply, Invariant, Grows, BirthsGrow, BirthOk, OthersDischarged, L.Commit, L.Consistent, L.Dated;
    var a := ReserveBirth(key, runtime, generation, expected);
    OnlyBirth(s, a);
    var s', intent := Apply(s, a), L.Reserve(expected, key, runtime, generation);
    var claim := CommittedClaim(s, s.owner, intent);
    BirthsHold(s);
    NothingMoves(s);
    ReserveGrows(s, s.owner, intent, Fresh, s');
    forall g | g in s'.life
      ensures BirthOk(s', g)
    {
      ReservedAlone(s, a, g);
      if g == generation {
        NewOwnBirth(s', g);
      } else {
        BirthHolds(s, g);
        BirthStays(s, s', g);
      }
    }
    AllBirths(s');
    ReservedClaim(s, intent);
    BirthChange(s, s', {Registrable(claim)});
  }

  lemma ReservedClaim(s: State, intent: L.Intent)
    requires Invariant(s) && intent.Reserve? && L.Commit(s.books, s.owner, intent).Some?
    ensures var claim := CommittedClaim(s, s.owner, intent);
            && claim.key == intent.key && claim.runtime == intent.runtime && claim.generation == Some(intent.generation)
            && L.Dated(Committed(s, s.owner, intent).books, claim)
  {
    BirthsHold(s);
    L.CommitKeeps(s.books, s.owner, intent);
    L.CommittedIsCurrent(s.books, s.owner, intent);
    L.CurrentIsDated(Committed(s, s.owner, intent).books, CommittedClaim(s, s.owner, intent));
  }

  /** After a reservation: whoever is still unreceived, and the new birth itself, is alone. */
  lemma ReservedAlone(s: State, a: Action, generation: Uuid)
    requires Invariant(s) && a.ReserveBirth? && Enabled(s, a) && generation in Apply(s, a).life
    ensures var s' := Apply(s, a);
            && (generation in s.life ==> generation in s.books.births)
            && (generation in s'.known && generation !in s.known ==> generation == a.generation)
            && (generation in s'.books.births && (Unreceived(s'.life[generation])) ==>
                  OthersDischarged(s', s'.books.births[generation].runtime, generation))
  {
    hide Enabled, Apply, Invariant, Discharged, L.Commit, L.Consistent, GateInstalled;
    OnlyBirth(s, a);
    BirthsHold(s);
    var s', intent := Apply(s, a), L.Reserve(a.expected, a.key, a.runtime, a.generation);
    ReserveGrows(s, s.owner, intent, Fresh, s');
    if generation in s'.books.births && Unreceived(s'.life[generation]) {
      var runtime := s'.books.births[generation].runtime;
      if generation != a.generation { BirthHolds(s, generation); }
      forall g | g in s'.known && g != generation && Under(s', g, runtime)
        ensures Discharged(s', g)
      {
        OtherAfterReserve(s, s', intent, generation, g);
      }
    }
  }

  lemma OtherAfterReserve(s: State, s': State, intent: L.Intent, generation: Uuid, other: Uuid)
    requires Invariant(s) && intent.Reserve? && L.Commit(s.books, s.owner, intent).Some? && s.leafOf(intent.runtime) == intent.key
    requires s' == Committed(s, s.owner, intent).(life := s.life[intent.generation := Fresh],
                                                  known := s.known + {intent.generation}, facts := s'.facts)
    requires generation in s'.books.births && generation in s'.life && Unreceived(s'.life[generation])
    requires other in s'.known && other != generation && Under(s', other, s'.books.births[generation].runtime)
    ensures Discharged(s', other)
  {
    hide Invariant, L.Commit, L.Consistent, GateInstalled;
    BirthsHold(s);
    ReserveGrows(s, s.owner, intent, Fresh, s');
    if other == intent.generation {
      BirthHolds(s, generation);
      L.ReserveFindsNoLiveBirth(s.books, s.owner, intent, generation);
    } else {
      BirthHolds(s, other);
      if generation == intent.generation {
        L.ReserveFindsNoLiveBirth(s.books, s.owner, intent, other);
        RowRetiredStays(s, s', other);
      } else {
        BirthHolds(s, generation);
        assert Under(s, other, s.books.births[generation].runtime);
        DischargedStays(s, s', other);
      }
    }
  }

  lemma RowRetiredStays(s: State, s': State, generation: Uuid)
    requires BirthsGrow(s, s') && RowRetired(s, generation)
    ensures Discharged(s', generation)
  {
    RetiredStays(s, s', generation);
  }

  /** A ledger transition other than a reservation. A retirement needs a birth that does not run and
      was received, or is cancelled. */
  lemma CommitGrows(s: State, actor: Uuid, intent: L.Intent, s': State)
    requires Invariant(s) && !intent.Reserve? && L.Commit(s.books, actor, intent).Some?
    requires intent.Retire? && intent.claim.generation.Some? && intent.claim.generation.value in s.life ==>
               var life := s.life[intent.claim.generation.value];
               !life.Running? && (Unreceived(life) ==> intent.claim.runtime in s.cancelled)
    requires s' == Committed(s, actor, intent).(facts := s'.facts)
    ensures BirthsGrow(s, s') && Births(s')
  {
    hide Invariant, BirthOk, BirthsGrow, Unreceived, L.Commit, L.Consistent, L.Extends;
    BirthsHold(s);
    NothingMoves(s);
    L.CommitKeeps(s.books, actor, intent);
    CommitMovesRows(s, actor, intent);
    BooksGrow(s, s');
    forall g | g in s'.life
      ensures BirthOk(s', g)
    {
      BirthHolds(s, g);
      BirthStays(s, s', g);
    }
    AllBirths(s');
  }

  lemma CommitMovesRows(s: State, actor: Uuid, intent: L.Intent)
    requires L.Consistent(s.books) && !intent.Reserve? && L.Commit(s.books, actor, intent).Some?
    ensures var births := Committed(s, actor, intent).books.births;
            && births.Keys == s.books.births.Keys
            && forall g | g in births ::
                 && births[g].consumed == s.books.births[g].consumed
                 && births[g].runtime == s.books.births[g].runtime
                 && (births[g].phase.Retired? && !s.books.births[g].phase.Retired? ==>
                       intent.Retire? && intent.claim.generation == Some(g) && s.books.births[g].runtime == intent.claim.runtime)
  {
    hide L.RowOk, L.Commit;
    L.CommitMoves(s.books, actor, intent);
    if L.Commit(s.books, actor, intent).value.1.phase.Retired? { L.OnlyRetireRetires(s.books, actor, intent); }
    assert L.ClaimOk(s.books, intent.claim.key);
  }

  lemma BooksGrow(s: State, s': State)
    requires L.Extends(s.books, s'.books) && s'.life == s.life && s'.known == s.known && s'.cancelled == s.cancelled
    requires s.known <= s.books.births.Keys
    ensures BirthsGrow(s, s')
  {}

  lemma LedgerMove(s: State, actor: Uuid, intent: L.Intent, learned: set<Fact>)
    requires Invariant(s) && !intent.Reserve? && L.Commit(s.books, actor, intent).Some?
    requires intent.Retire? && intent.claim.generation.Some? && intent.claim.generation.value in s.life ==>
               var life := s.life[intent.claim.generation.value];
               !life.Running? && (Unreceived(life) ==> intent.claim.runtime in s.cancelled)
    requires forall fact | fact in learned :: !fact.Accepted?
               && FactOk(Committed(s, actor, intent).(facts := s.facts + learned), fact)
    ensures var s' := Committed(s, actor, intent).(facts := s.facts + learned);
            Invariant(s') && Grows(s, s')
  {
    hide Invariant, Grows, Births, BirthsGrow, FactOk, Unreceived, L.Commit;
    var s' := Committed(s, actor, intent).(facts := s.facts + learned);
    CommitGrows(s, actor, intent, s');
    BirthChange(s, s', learned);
  }

  /** The claim left behind by a transition is known and dated when the claim it moved was known. */
  lemma MovedClaim(s: State, actor: Uuid, intent: L.Intent, s': State)
    requires Invariant(s) && !intent.Reserve? && L.Commit(s.books, actor, intent).Some? && Known(s, intent.claim)
    requires s' == Committed(s, actor, intent).(facts := s'.facts)
    ensures var claim := CommittedClaim(s, actor, intent);
            Known(s', claim) && SameBirth(intent.claim, claim) && L.Dated(s'.books, claim)
  {
    hide Invariant, L.Commit, L.Consistent, L.Dated, L.Extends;
    BirthsHold(s);
    L.CommitKeeps(s.books, actor, intent);
    L.CommittedIsCurrent(s.books, actor, intent);
    L.CurrentIsDated(s'.books, CommittedClaim(s, actor, intent));
    BooksGrow(s, s');
    KnownStays(s, s', intent.claim);
  }

  lemma AttachStep(s: State, claim: Claim, host: HostEvidence, intent: L.Intent)
    requires Invariant(s) && Attaching(host) in s.facts && Proves(host, claim)
    requires (intent.Install? || intent.Adopt?) && intent.claim == claim && L.Commit(s.books, s.owner, intent).Some?
    ensures var s' := Learn(Committed(s, s.owner, intent), Registrable(CommittedClaim(s, s.owner, intent)));
            Invariant(s') && Grows(s, s')
  {
    hide Invariant, Grows, L.Commit, L.Dated;
    FactHolds(s, Attaching(host));
    var s' := Learn(Committed(s, s.owner, intent), Registrable(CommittedClaim(s, s.owner, intent)));
    MovedClaim(s, s.owner, intent, s');
    LedgerMove(s, s.owner, intent, {Registrable(CommittedClaim(s, s.owner, intent))});
  }

  lemma AttachIsProved(s: State, claim: Claim, host: HostEvidence)
    ensures L.Commit(s.books, s.owner, L.Install(claim, host)).Some? ==> Proves(host, claim)
    ensures L.Commit(s.books, s.owner, L.Adopt(claim, host)).Some? ==> Proves(host, claim)
  {}

  lemma InstallStep(s: State, claim: Claim, host: HostEvidence)
    requires Invariant(s) && Enabled(s, InstallBirth(claim, host))
    ensures var s' := Apply(s, InstallBirth(claim, host)); Invariant(s') && Grows(s, s')
  {
    hide Enabled, Apply, Invariant, Grows, L.Commit, Proves;
    OnlyBirth(s, InstallBirth(claim, host));
    AttachIsProved(s, claim, host);
    AttachStep(s, claim, host, L.Install(claim, host));
  }

  lemma AdoptStep(s: State, claim: Claim, host: HostEvidence)
    requires Invariant(s) && Enabled(s, AdoptBirth(claim, host))
    ensures var s' := Apply(s, AdoptBirth(claim, host)); Invariant(s') && Grows(s, s')
  {
    hide Enabled, Apply, Invariant, Grows, L.Commit, Proves;
    OnlyBirth(s, AdoptBirth(claim, host));
    AttachIsProved(s, claim, host);
    AttachStep(s, claim, host, L.Adopt(claim, host));
  }

  /** A change of one life. What was never born stays so, what is over stays over. */
  lemma LifeChange(s: State, generation: Uuid, life: Life, s': State)
    requires Invariant(s) && generation in s.life && s' == s.(life := s.life[generation := life])
    requires LifeForward(s.life[generation], life) && (NeverBorn(s, generation) ==> life.Void?)
    requires BirthOk(s', generation)
    ensures Invariant(s') && Grows(s, s')
  {
    hide Invariant, Grows, BirthOk, L.Consistent, L.Extends;
    BirthsHold(s);
    NothingMoves(s);
    L.NothingChanges(s.books);
    LifeKeepsUnborn(s, generation, life, s');
    forall g | g in s'.life
      ensures BirthOk(s', g)
    {
      BirthHolds(s, g);
      if g != generation { BirthStays(s, s', g); }
    }
    AllBirths(s');
    assert s.facts + {} == s.facts;
    BirthChange(s, s', {});
  }

  lemma LifeKeepsUnborn(s: State, generation: Uuid, life: Life, s': State)
    requires generation in s.life && s' == s.(life := s.life[generation := life])
    requires LifeForward(s.life[generation], life) && (NeverBorn(s, generation) ==> life.Void?) && L.Extends(s.books, s.books)
    ensures BirthsGrow(s, s')
  {
    hide L.Extends;
  }

  lemma HandOutStep(s: State, claim: Claim)
    requires Invariant(s) && Enabled(s, HandOut(claim))
    ensures var s' := Apply(s, HandOut(claim)); Invariant(s') && Grows(s, s')
  {
    hide Enabled, Apply, Invariant, Grows, GateInstalled, L.Extends, L.Consistent;
    OnlyBirth(s, HandOut(claim));
    FactHolds(s, GateReady(claim));
    BirthHolds(s, claim.generation.value);
    if s.life[claim.generation.value].Fresh? {
      LifeChange(s, claim.generation.value, Handed, Apply(s, HandOut(claim)));
    } else {
      NothingMoves(s);
      NothingGrows(s);
    }
  }

  lemma NothingGrows(s: State)
    ensures Grows(s, s)
  {
    NothingMoves(s);
    hide BirthsGrow, A.Progress;
  }

  lemma CancelFreshStep(s: State, claim: Claim)
    requires Invariant(s) && Enabled(s, CancelFresh(claim))
    ensures var s' := Apply(s, CancelFresh(claim)); Invariant(s') && Grows(s, s')
  {
    hide Enabled, Apply, Invariant, Grows, GateInstalled, OthersDischarged;
    OnlyBirth(s, CancelFresh(claim));
    FactHolds(s, Registrable(claim));
    var generation, s' := claim.generation.value, Apply(s, CancelFresh(claim));
    BirthHolds(s, generation);
    VoidLeavesOthers(s, s', generation);
    LifeChange(s, generation, Void, s');
  }

  lemma VoidLeavesOthers(s: State, s': State, generation: Uuid)
    requires generation in s.life && generation in s.books.births && OthersDischarged(s, s.books.births[generation].runtime, generation)
    requires s' == s.(life := s.life[generation := Void])
    ensures OthersDischarged(s', s.books.births[generation].runtime, generation)
  {
    forall g | g in s'.known && g != generation && Under(s', g, s.books.births[generation].runtime)
      ensures Discharged(s', g)
    {
      assert Under(s, g, s.books.births[generation].runtime) && Discharged(s, g);
    }
  }

  lemma ConsumeStep(s: State, claim: Claim)
    requires Invariant(s) && Enabled(s, ConsumeBirth(claim))
    ensures var s' := Apply(s, ConsumeBirth(claim)); Invariant(s') && Grows(s, s')
  {
    hide Enabled, Apply, Invariant, Grows, GateInstalled, OthersDischarged, L.Extends, L.Consistent;
    OnlyWorld(s, ConsumeBirth(claim));
    var s', generation := Apply(s, ConsumeBirth(claim)), claim.generation.value;
    BirthsHold(s);
    NothingMoves(s);
    L.ConsumeKeeps(s.books, claim);
    BooksGrow(s, s');
    forall g | g in s'.life
      ensures BirthOk(s', g)
    {
      BirthHolds(s, g);
      if g != generation { BirthStays(s, s', g); }
    }
    AllBirths(s');
    assert s.facts + {} == s.facts;
    BirthChange(s, s', {});
  }

  lemma SpawnStep(s: State, claim: Claim)
    requires Invariant(s) && Enabled(s, Spawn(claim))
    ensures var s' := Apply(s, Spawn(claim)); Invariant(s') && Grows(s, s')
  {
    hide Enabled, Apply, Invariant, Grows, GateInstalled, OthersDischarged;
    OnlyWorld(s, Spawn(claim));
    BirthHolds(s, claim.generation.value);
    LifeChange(s, claim.generation.value, Running, Apply(s, Spawn(claim)));
  }

  lemma EndStep(s: State, a: Action, generation: Uuid)
    requires Invariant(s) && Enabled(s, a)
    requires a == ProcessEnds(generation) || (a.NoChild? && a.claim.generation == Some(generation))
    ensures Invariant(Apply(s, a)) && Grows(s, Apply(s, a))
  {
    hide Enabled, Apply, Invariant, Grows, GateInstalled, OthersDischarged;
    OnlyWorld(s, a);
    BirthHolds(s, generation);
    LifeChange(s, generation, Over, Apply(s, a));
  }

  /** A durable fence leaves its birth alone under the runtime id. */
  lemma FenceLeavesOne(s: State, current: Claim, s': State)
    requires Invariant(s) && L.Commit(s.books, s.owner, L.FenceRetire(current)).Some?
    requires Known(s, current) && current.runtime in s.cancelled
    requires s' == Committed(s, s.owner, L.FenceRetire(current)).(facts := s'.facts)
    ensures OthersDischarged(s', current.runtime, current.generation.value)
  {
    hide Invariant, BirthsGrow, Births, OthersDischarged, Under, L.Commit;
    BirthsHold(s);
    FencesCurrent(s, current);
    OnlyOneLeft(s, current);
    CommitGrows(s, s.owner, L.FenceRetire(current), s');
    OthersStay(s, s', current.runtime, current.generation.value);
  }

  lemma CommitFenceStep(s: State, prior: Claim, current: Claim)
    requires Invariant(s) && Enabled(s, CommitFence(prior, current))
    ensures var s' := Apply(s, CommitFence(prior, current)); Invariant(s') && Grows(s, s')
  {
    hide Enabled, Apply, Invariant, Grows, OthersDischarged, Under, L.Commit, L.Dated;
    OnlyClose(s, CommitFence(prior, current));
    FactHolds(s, FenceRead(prior, current));
    var intent, s' := L.FenceRetire(current), Apply(s, CommitFence(prior, current));
    MovedClaim(s, s.owner, intent, s');
    FenceLeavesOne(s, current, s');
    LedgerMove(s, s.owner, intent, {FenceCommitted(prior, CommittedClaim(s, s.owner, intent))});
  }

  lemma FencesCurrent(s: State, current: Claim)
    requires L.Commit(s.books, s.owner, L.FenceRetire(current)).Some?
    ensures L.Current(s.books, current.key) == Some(current) && !current.phase.Retired?
  {}

  /** The finish commits a retirement only over a birth whose process does not run and never will, and
      whose gate is closed and idle. */
  lemma RetiresOnlyWhatIsOver(s: State, prior: Claim, permanent: bool, gate: nat, current: Claim, release: bool)
    requires Invariant(s) && Enabled(s, FinishCommit(prior, permanent, gate, current, release))
    requires FinishIntent(permanent, current, release).Retire?
    ensures Known(s, current) && current.runtime in s.cancelled
    ensures Settled(s, current.generation.value)
    ensures GateFor(s, gate, current) && A.Drained(s.auth, gate) && s.auth.permits[gate] == 0
  {
    hide Enabled, Apply, Invariant, NeverBorn, L.Commit;
    OnlyClose(s, FinishCommit(prior, permanent, gate, current, release));
    FactHolds(s, FinishRead(prior, permanent, gate, current));
    FactHolds(s, Confirming(prior.runtime));
    assert Gone(s, current.generation.value);
    RetiresUnretired(s, current);
    GateHolds(s, gate);
  }

  lemma RetiresUnretired(s: State, claim: Claim)
    requires claim.generation.Some? && L.Commit(s.books, s.owner, L.Retire(claim)).Some?
    ensures !RowRetired(s, claim.generation.value)
  {}

  lemma GateHolds(s: State, gate: nat)
    requires Invariant(s) && gate < |s.auth.gates|
    ensures A.GateOk(s.auth, gate)
  {}

  lemma RetireLeavesReceipt(s: State, claim: Claim)
    requires L.Commit(s.books, s.owner, L.Retire(claim)).Some? && claim.generation.Some?
    ensures RetiredInLedger(Committed(s, s.owner, L.Retire(claim)), BirthOf(claim))
  {}

  lemma FinishRetireStep(s: State, prior: Claim, permanent: bool, gate: nat, current: Claim, release: bool)
    requires Invariant(s) && Enabled(s, FinishCommit(prior, permanent, gate, current, release))
    requires !release || permanent
    ensures var s' := Apply(s, FinishCommit(prior, permanent, gate, current, release));
            Invariant(s') && Grows(s, s')
  {
    hide Enabled, Apply, Invariant, Grows, A.Drained, L.Commit, L.Dated;
    OnlyClose(s, FinishCommit(prior, permanent, gate, current, release));
    FactHolds(s, FinishRead(prior, permanent, gate, current));
    RetiresOnlyWhatIsOver(s, prior, permanent, gate, current, release);
    RetireLeavesReceipt(s, current);
    MovedClaim(s, s.owner, L.Retire(current), Committed(s, s.owner, L.Retire(current)));
    LedgerMove(s, s.owner, L.Retire(current), {FinishCommitted(prior, true)});
  }

  lemma FinishReleaseStep(s: State, prior: Claim, gate: nat, current: Claim)
    requires Invariant(s) && Enabled(s, FinishCommit(prior, false, gate, current, true))
    ensures var s' := Apply(s, FinishCommit(prior, false, gate, current, true));
            Invariant(s') && Grows(s, s')
  {
    hide Enabled, Apply, Invariant, Grows, A.Drained, L.Commit, L.Dated;
    OnlyClose(s, FinishCommit(prior, false, gate, current, true));
    FactHolds(s, FinishRead(prior, false, gate, current));
    MovedClaim(s, s.owner, L.Release(current), Committed(s, s.owner, L.Release(current)));
    LedgerMove(s, s.owner, L.Release(current), {FinishCommitted(prior, false)});
  }

  /** Another endpoint cannot retire a birth that nobody has received. */
  lemma ForeignStep(s: State, actor: Uuid, intent: L.Intent)
    requires Invariant(s) && Enabled(s, ForeignCommit(actor, intent)) && !intent.Reserve?
    ensures var s' := Apply(s, ForeignCommit(actor, intent)); Invariant(s') && Grows(s, s')
  {
    hide Enabled, Apply, Invariant, Grows, BirthOk, L.Commit;
    OnlyWorld(s, ForeignCommit(actor, intent));
    if intent.Retire? && intent.claim.generation.Some? && intent.claim.generation.value in s.life {
      ForeignRetiresReceived(s, actor, intent);
    }
    LedgerMove(s, actor, intent, {});
    assert s.facts + {} == s.facts;
  }

  lemma ForeignRetiresReceived(s: State, actor: Uuid, intent: L.Intent)
    requires Invariant(s) && actor != s.owner && intent.Retire? && L.Commit(s.books, actor, intent).Some?
    requires intent.claim.generation.Some? && intent.claim.generation.value in s.life
    ensures !Unreceived(s.life[intent.claim.generation.value])
  {
    hide Invariant, GateInstalled, OthersDischarged, L.Consistent;
    var generation := intent.claim.generation.value;
    BirthsHold(s);
    BirthHolds(s, generation);
    if Unreceived(s.life[generation]) {
      L.OthersLeaveUnconsumed(s.books, actor, intent, generation);
      assert false;
    }
  }

  lemma StepIsSafe(s: State, a: Action)
    requires Invariant(s) && Enabled(s, a)
    ensures Invariant(Apply(s, a)) && Grows(s, Apply(s, a))
  {
    hide *;
    match a
    // births
    case ReserveBirth(key, runtime, generation, expected) => ReserveStep(s, key, runtime, generation, expected);
    case RetryBirth(_) => ReclaimStep(s, a);
    case HandOut(claim) => HandOutStep(s, claim);
    case CancelFresh(claim) => CancelFreshStep(s, claim);
    // attachment
    case StartAttach(host) => StartAttachStep(s, host);
    case InstallBirth(claim, host) => InstallStep(s, claim, host);
    case AttachActive(_, _) => ReclaimStep(s, a);
    case AdoptBirth(claim, host) => AdoptStep(s, claim, host);
    // registration
    case SeeSame(claim) => SeeSameStep(s, claim);
    case RegisterSame(claim) => RegisterSameStep(s, claim);
    case RegisterNew(claim) => RegisterNewStep(s, claim);
    case RegisterClaim(claim) => ClaimsStep(s, claim);
    // effects
    case BeginEffects(_) => EffectsStep(s, a);
    case DropPermit(_) => EffectsStep(s, a);
    // begin_close
    case Cancel(_) => CloseReadStep(s, a);
    case TakeClaim(_, _) => DropClaimStep(s, a);
    case RetireTaken(claim, permanent) => RetireGateStep(s, claim, permanent);
    case InsertClosing(claim, permanent, gate) => EnterClosingStep(s, claim, permanent, gate);
    // begin_close_bound and the durable fence
    case CloseBound(host) => CloseBoundStep(s, host);
    case SeeDrained(_) => CloseReadStep(s, a);
    case ReadForFence(prior) => ReadForFenceStep(s, prior);
    case CommitFence(prior, current) => CommitFenceStep(s, prior, current);
    case StoreFence(prior, fenced) => StoreFenceStep(s, prior, fenced);
    case AlreadyFenced(prior) => AlreadyFencedStep(s, prior);
    // physical confirmation and the finish
    case StartConfirm(_) => FinishReadStep(s, a);
    case MarkConfirmed(_) => LeaveClosingStep(s, a);
    case FinishCheck(runtime) => FinishCheckStep(s, runtime);
    case FinishReadLedger(prior, permanent, gate) => FinishReadLedgerStep(s, prior, permanent, gate);
    case FinishCommit(prior, permanent, gate, current, release) =>
      if release && !permanent { FinishReleaseStep(s, prior, gate, current); }
      else { FinishRetireStep(s, prior, permanent, gate, current, release); }
    case FinishRemove(_, _) => RemoveClosingStep(s, a);
    // local factories and handles
    case AcceptFactory(_) => FactoryStep(s, a);
    case Observe(_) => ObserveStep(s, a);
    case DropFactory(_) => ObserveStep(s, a);
    case QueueRetirement(_) => HandleStep(s, a);
    case ProveClose(_) => HandleStep(s, a);
    case CompleteQueued(_) => ReleaseHandleStep(s, a);
    case Unobserve(_) => ReleaseHandleStep(s, a);
    // refresh
    case ReadForRefresh(_) => ExitStep(s, a);
    case InvalidateStale(_) => InvalidateStep(s, a);
    case RemoveStale(_) => DropClaimStep(s, a);
    // exit
    case CloseAdmission => ExitStep(s, a);
    // the physical world and other endpoints
    case ConsumeBirth(claim) => ConsumeStep(s, claim);
    case Spawn(claim) => SpawnStep(s, claim);
    case NoChild(claim) => NoChildStep(s, claim);
    case ProcessEnds(generation) => EndStep(s, a, generation);
    case ForeignCommit(actor, intent) =>
      if intent.Reserve? { ReserveForeignStep(s, actor, intent); } else { ForeignStep(s, actor, intent); }
  }

  lemma NoChildStep(s: State, claim: Claim)
    requires Invariant(s) && Enabled(s, NoChild(claim))
    ensures var s' := Apply(s, NoChild(claim)); Invariant(s') && Grows(s, s')
  {
    hide Apply, Invariant, Grows;
    OnlyWorld(s, NoChild(claim));
    EndStep(s, NoChild(claim), claim.generation.value);
  }

  lemma RetireTakenEffect(s: State, claim: Claim, permanent: bool, gate: nat)
    requires Taken(claim, permanent) in s.facts && A.WellIndexed(s.auth) && A.Registered(s.auth, claim) == Ok(gate)
    ensures Enabled(s, RetireTaken(claim, permanent))
    ensures Apply(s, RetireTaken(claim, permanent))
            == s.(auth := A.AfterBeginRetire(s.auth, claim), facts := s.facts + {FencedGate(claim, permanent, gate)})
  {}

  lemma MoveBoundEffect(s: State, host: HostEvidence, claim: Claim, gate: nat)
    requires A.WellIndexed(s.auth) && A.Registered(s.auth, claim) == Ok(gate)
    requires host.target == Some(claim.key) && claim.key in s.claims && s.claims[claim.key] == claim
    requires Proves(host, claim) && claim.owner == Some(s.owner) && host.runtime !in s.closing
    ensures Enabled(s, CloseBound(host))
    ensures Apply(s, CloseBound(host))
            == s.(auth := A.AfterBeginRetire(s.auth, claim), claims := s.claims - {claim.key},
                  closing := s.closing[host.runtime := Closing(claim, gate, true, false)],
                  facts := s.facts + {BoundClosed(Birth(host.runtime, host.generation))})
  {}

  lemma FinishReadEffect(s: State, prior: Claim, permanent: bool, gate: nat, current: Claim)
    requires FinishReady(prior, permanent, gate) in s.facts && L.Current(s.books, prior.key) == Some(current)
    requires (prior == current || SameAuthority(prior, current)) && A.WellIndexed(s.auth)
    ensures Enabled(s, FinishReadLedger(prior, permanent, gate))
    ensures Apply(s, FinishReadLedger(prior, permanent, gate))
            == s.(facts := s.facts + {FinishRead(prior, permanent, gate, current)})
  {}

  lemma StartAttachEffect(s: State, host: HostEvidence)
    requires A.WellIndexed(s.auth) && host.runtime !in s.cancelled && Genuine(s, host)
    ensures Enabled(s, StartAttach(host))
    ensures Apply(s, StartAttach(host)) == s.(known := s.known + {host.generation.value}, facts := s.facts + {Attaching(host)})
  {}

  lemma AttachEffect(s: State, host: HostEvidence, claim: Claim, intent: L.Intent)
    requires A.WellIndexed(s.auth) && Attaching(host) in s.facts && L.Commit(s.books, s.owner, intent).Some?
    requires intent == L.Install(claim, host) || intent == L.Adopt(claim, host)
    ensures var a := if intent.Install? then InstallBirth(claim, host) else AdoptBirth(claim, host);
            var active := CommittedClaim(s, s.owner, intent);
            && Enabled(s, a) && active.phase.Active? && active.key == claim.key
            && Apply(s, a) == Committed(s, s.owner, intent).(facts := s.facts + {Registrable(active)})
  {}

  lemma TakeStep(s0: State, s: State, a: Action)
    requires Grows(s0, s) && Invariant(s) && Enabled(s, a)
    ensures Invariant(Apply(s, a)) && Grows(s, Apply(s, a)) && Grows(s0, Apply(s, a))
  {
    hide Invariant, Grows, Enabled, Apply;
    StepIsSafe(s, a);
    GrowsTransitive(s0, s, Apply(s, a));
  }

  // ---------------------------------------------------------------------------------------------
  // Every run

  /** A run of the protocol under some schedule; an action that is not enabled is skipped. */
  function Run(s: State, schedule: seq<Action>): State
    decreases |schedule|
  {
    if schedule == [] then s
    else Run(if Enabled(s, schedule[0]) then Apply(s, schedule[0]) else s, schedule[1..])
  }

  lemma RunNothing(s: State)
    ensures Run(s, []) == s
  {}

  lemma RunOne(s: State, a: Action, rest: seq<Action>)
    requires Enabled(s, a)
    ensures Run(s, [a] + rest) == Run(Apply(s, a), rest)
  {}

  lemma RunSkips(s: State, a: Action)
    requires !Enabled(s, a)
    ensures Run(s, [a]) == s
  {
    hide Enabled, Apply;
    assert [a][1..] == [];
  }

  lemma {:induction false} RunAppends(s: State, first: seq<Action>, second: seq<Action>)
    ensures Run(s, first + second) == Run(Run(s, first), second)
    decreases |first|
  {
    hide Enabled, Apply;
    if first == [] {
      assert first + second == second;
    } else {
      assert (first + second)[0] == first[0] && (first + second)[1..] == first[1..] + second;
      RunAppends(if Enabled(s, first[0]) then Apply(s, first[0]) else s, first[1..], second);
    }
  }

  lemma {:induction false} RunIsSafe(s: State, schedule: seq<Action>)
    requires Invariant(s)
    ensures Invariant(Run(s, schedule)) && Grows(s, Run(s, schedule))
    decreases |schedule|
  {
    NothingMoves(s);
    if schedule != [] {
      var next := if Enabled(s, schedule[0]) then Apply(s, schedule[0]) else s;
      if Enabled(s, schedule[0]) { StepIsSafe(s, schedule[0]); }
      RunIsSafe(next, schedule[1..]);
      GrowsTransitive(s, next, Run(next, schedule[1..]));
    }
  }

  /** In no run do two births of one leaf run at the same time, and a running birth is the leaf's
      current, unretired one. */
  lemma RunningBirthsNeverOverlap(s: State, schedule: seq<Action>, a: Uuid, b: Uuid)
    requires Invariant(s)
    requires var s' := Run(s, schedule);
             a in s'.life && b in s'.life && s'.life[a].Running? && s'.life[b].Running?
    ensures var s' := Run(s, schedule);
            && a in s'.books.births && b in s'.books.births
            && !s'.books.births[a].phase.Retired?
            && (s'.books.births[a].key == s'.books.births[b].key ==> a == b)
  {
    hide Invariant, Grows, Run, GateInstalled, OthersDischarged, L.Consistent;
    RunIsSafe(s, schedule);
    var s' := Run(s, schedule);
    BirthsHold(s');
    BirthHolds(s', a);
    BirthHolds(s', b);
    if s'.books.births[a].key == s'.books.births[b].key {
      L.OneLiveBirthPerLeaf(s'.books, a, b);
    }
  }

  /** A birth is reserved only over an absent or retired claim, and then no earlier birth of that
      leaf runs. */
  lemma ReservesOnlyOverTheDead(s: State, schedule: seq<Action>, key: LeafKey, runtime: Uuid,
                                generation: Uuid, expected: Option<Claim>, earlier: Uuid)
    requires Invariant(s)
    requires Enabled(Run(s, schedule), ReserveBirth(key, runtime, generation, expected))
    requires var s' := Run(s, schedule);
             earlier in s'.books.births && s'.books.births[earlier].key == key
    ensures var s' := Run(s, schedule);
            s'.books.births[earlier].phase.Retired? && earlier in s'.life && !s'.life[earlier].Running?
    ensures expected.Some? ==> expected.value.phase.Retired?
  {
    hide Invariant, Grows, Run, Enabled, GateInstalled, OthersDischarged, L.Consistent;
    RunIsSafe(s, schedule);
    var s' := Run(s, schedule);
    BirthsHold(s');
    BirthHolds(s', earlier);
    OnlyBirth(s', ReserveBirth(key, runtime, generation, expected));
    L.ReserveFindsNoLiveBirth(s'.books, s'.owner, L.Reserve(expected, key, runtime, generation), earlier);
  }

  /** Once a runtime id is cancelled, no birth that becomes known under it later is ever received by
      anyone, let alone run. */
  lemma CancelledIsNeverHandedOut(s: State, schedule: seq<Action>, runtime: Uuid, generation: Uuid)
    requires Invariant(s) && runtime in s.cancelled && generation !in s.known
    requires Under(Run(s, schedule), generation, runtime)
    ensures NeverBorn(Run(s, schedule), generation)
  {
    hide Invariant, Run, NeverBorn;
    RunIsSafe(s, schedule);
  }

  /** Of the births this endpoint knows under one runtime id, all but one are retired or were never
      received, at the end of every run in which a gate was fenced for this one. */
  lemma FencedBirthIsAlone(s: State, schedule: seq<Action>, claim: Claim, permanent: bool, gate: nat, other: Uuid)
    requires Invariant(s) && FencedGate(claim, permanent, gate) in Run(s, schedule).facts
    requires claim.runtime !in s.remote && claim.generation != Some(other)
    requires Under(Run(s, schedule), other, claim.runtime)
    ensures Discharged(Run(s, schedule), other)
  {
    hide Invariant, Run, Discharged, Under;
    RunIsSafe(s, schedule);
    FactHolds(Run(s, schedule), FencedGate(claim, permanent, gate));
    UnderIsKnown(Run(s, schedule), other, claim.runtime);
  }

  lemma UnderIsKnown(s: State, generation: Uuid, runtime: Uuid)
    requires Under(s, generation, runtime)
    ensures generation in s.known
  {}

  // ---------------------------------------------------------------------------------------------
  // What other endpoints may rely on

  predicate MovesBooks(a: Action) {
    a.ReserveBirth? || a.InstallBirth? || a.AdoptBirth? || a.CommitFence? || a.FinishCommit? || a.ConsumeBirth?
    || a.ForeignCommit?
  }

  lemma BirthLeavesBooks(s: State, a: Action)
    requires A.WellIndexed(s.auth) && BirthEnabled(s, a) && !MovesBooks(a)
    ensures BirthApply(s, a).books == s.books
  {
    hide L.Commit;
  }

  lemma CloseLeavesBooks(s: State, a: Action)
    requires A.WellIndexed(s.auth) && CloseEnabled(s, a) && !MovesBooks(a)
    ensures CloseApply(s, a).books == s.books
  {
    hide L.Commit;
  }

  lemma OthersLeaveBooks(s: State, a: Action)
    requires A.WellIndexed(s.auth) && !MovesBooks(a)
    ensures LocalEnabled(s, a) ==> LocalApply(s, a).books == s.books
    ensures WorldEnabled(s, a) ==> WorldApply(s, a).books == s.books
  {
    hide L.Commit, L.Consume;
  }

  lemma StepLeavesBooks(s: State, a: Action)
    requires Enabled(s, a) && !MovesBooks(a)
    ensures Apply(s, a).books == s.books
  {
    hide BirthEnabled, CloseEnabled, LocalEnabled, WorldEnabled, BirthApply, CloseApply, LocalApply, WorldApply;
    if BirthAction(a) { BirthLeavesBooks(s, a); }
    else if CloseAction(a) { CloseLeavesBooks(s, a); }
    else { OthersLeaveBooks(s, a); }
  }

  /** What this endpoint assumes of the others, it keeps itself: the only action that retires a birth is
      its finish, and the process of that birth does not run and never will. */
  lemma RetiresNothingRunning(s: State, a: Action, generation: Uuid)
    requires Invariant(s) && Enabled(s, a) && !a.ForeignCommit?
    requires !RowRetired(s, generation) && RowRetired(Apply(s, a), generation)
    ensures a.FinishCommit? && Settled(s, generation)
  {
    hide Invariant, Enabled, Apply, NeverBorn, L.Commit, L.Consume, L.Consistent;
    BirthsHold(s);
    if a.FinishCommit? {
      OnlyClose(s, a);
      var intent := FinishIntent(a.permanent, a.current, a.release);
      CommitMovesRows(s, s.owner, intent);
      RetiresOnlyWhatIsOver(s, a.prior, a.permanent, a.gate, a.current, a.release);
    } else if !MovesBooks(a) {
      StepLeavesBooks(s, a);
    } else {
      OtherCommitsRetireNothing(s, a, generation);
    }
  }

  lemma CommitSpares(s: State, intent: L.Intent, generation: Uuid)
    requires L.Consistent(s.books) && !intent.Retire? && L.Commit(s.books, s.owner, intent).Some? && !RowRetired(s, generation)
    ensures !RowRetired(Committed(s, s.owner, intent), generation)
  {
    hide L.Commit, L.Consistent;
    if intent.Reserve? { L.ReserveAdds(s.books, s.owner, intent); } else { CommitMovesRows(s, s.owner, intent); }
  }

  lemma OtherCommitsRetireNothing(s: State, a: Action, generation: Uuid)
    requires Invariant(s) && Enabled(s, a) && MovesBooks(a) && !a.ForeignCommit? && !a.FinishCommit?
    requires !RowRetired(s, generation)
    ensures !RowRetired(Apply(s, a), generation)
  {
    hide Invariant, Enabled, Apply, L.Commit, L.Consistent;
    BirthsHold(s);
    if a.CommitFence? {
      OnlyClose(s, a);
      CommitSpares(s, L.FenceRetire(a.current), generation);
    } else if a.ConsumeBirth? {
      OnlyWorld(s, a);
    } else {
      OnlyBirth(s, a);
      CommitSpares(s, if a.ReserveBirth? then L.Reserve(a.expected, a.key, a.runtime, a.generation)
                      else if a.InstallBirth? then L.Install(a.claim, a.host) else L.Adopt(a.claim, a.host), generation);
    }
  }

  // ---------------------------------------------------------------------------------------------
  // What a held lock excludes

  /** Nobody else touches the retirement queue registry. */
  predicate LeavesQueue(schedule: seq<Action>) {
    forall a | a in schedule :: !a.QueueRetirement? && !a.CompleteQueued?
  }

  /** Nobody else takes the admission lock. */
  predicate LeavesAdmission(schedule: seq<Action>) {
    forall a | a in schedule :: !NeedsAdmission(a)
  }

  predicate NeedsAdmission(a: Action) {
    a.ReserveBirth? || a.RetryBirth? || a.HandOut? || a.CancelFresh? || a.AcceptFactory? || a.CloseAdmission?
  }

  /** A birth that nobody has received yet stays so. */
  predicate FreshStays(before: map<Uuid, Life>, after: map<Uuid, Life>) {
    forall g | g in before && before[g].Fresh? :: g in after && after[g].Fresh?
  }

  lemma BirthLeavesLocked(s: State, a: Action)
    requires A.WellIndexed(s.auth) && BirthEnabled(s, a)
    ensures !a.QueueRetirement? && !a.CompleteQueued? ==> BirthApply(s, a).queued == s.queued
    ensures !NeedsAdmission(a) ==> var s' := BirthApply(s, a);
            s'.admissionClosed == s.admissionClosed && FreshStays(s.life, s'.life)
  {
    hide L.Commit, L.Consume, A.AfterInstall, A.AfterBeginRetire, A.AfterMarkInstalled,
      A.AfterBeginEffects, A.AfterDrop, A.Registered;
  }

  lemma CloseLeavesLocked(s: State, a: Action)
    requires A.WellIndexed(s.auth) && CloseEnabled(s, a)
    ensures !a.QueueRetirement? && !a.CompleteQueued? ==> CloseApply(s, a).queued == s.queued
    ensures !NeedsAdmission(a) ==> var s' := CloseApply(s, a);
            s'.admissionClosed == s.admissionClosed && FreshStays(s.life, s'.life)
  {
    hide L.Commit, L.Consume, A.AfterInstall, A.AfterBeginRetire, A.AfterMarkInstalled,
      A.AfterBeginEffects, A.AfterDrop, A.Registered;
  }

  lemma LocalLeavesLocked(s: State, a: Action)
    requires A.WellIndexed(s.auth) && LocalEnabled(s, a)
    ensures !a.QueueRetirement? && !a.CompleteQueued? ==> LocalApply(s, a).queued == s.queued
    ensures !NeedsAdmission(a) ==> var s' := LocalApply(s, a);
            s'.admissionClosed == s.admissionClosed && FreshStays(s.life, s'.life)
  {}

  lemma ReservesAnew(s: State, actor: Uuid, intent: L.Intent)
    requires Invariant(s) && intent.Reserve? && L.Commit(s.books, actor, intent).Some?
    ensures intent.generation !in s.life
  {
    hide Invariant;
    BirthsHold(s);
  }

  lemma ForeignLeavesLocked(s: State, a: Action)
    requires Invariant(s) && A.WellIndexed(s.auth) && WorldEnabled(s, a) && a.ForeignCommit?
    ensures var s' := WorldApply(s, a);
            s'.queued == s.queued && s'.admissionClosed == s.admissionClosed && FreshStays(s.life, s'.life)
  {
    hide Invariant, L.Commit;
    if a.intent.Reserve? { ReservesAnew(s, a.actor, a.intent); }
  }

  lemma LifeLeavesLocked(s: State, a: Action)
    requires A.WellIndexed(s.auth) && WorldEnabled(s, a) && !a.ForeignCommit?
    ensures var s' := WorldApply(s, a);
            s'.queued == s.queued && s'.admissionClosed == s.admissionClosed && FreshStays(s.life, s'.life)
  {
    hide L.Commit, L.Consume, L.MaySpawn;
  }

  lemma WorldLeavesLocked(s: State, a: Action)
    requires Invariant(s) && A.WellIndexed(s.auth) && WorldEnabled(s, a)
    ensures var s' := WorldApply(s, a);
            s'.queued == s.queued && s'.admissionClosed == s.admissionClosed && FreshStays(s.life, s'.life)
  {
    hide *;
    if a.ForeignCommit? { ForeignLeavesLocked(s, a); } else { LifeLeavesLocked(s, a); }
  }

  lemma StepLeavesLocked(s: State, a: Action)
    requires Invariant(s) && Enabled(s, a)
    ensures !a.QueueRetirement? && !a.CompleteQueued? ==> Apply(s, a).queued == s.queued
    ensures !NeedsAdmission(a) ==> var s' := Apply(s, a);
            s'.admissionClosed == s.admissionClosed && FreshStays(s.life, s'.life)
  {
    hide Invariant, BirthEnabled, CloseEnabled, LocalEnabled, WorldEnabled, BirthApply, CloseApply, LocalApply,
      WorldApply, FreshStays;
    if BirthAction(a) {
      BirthLeavesLocked(s, a);
    } else if CloseAction(a) {
      CloseLeavesLocked(s, a);
    } else if LocalAction(a) {
      LocalLeavesLocked(s, a);
    } else {
      WorldLeavesLocked(s, a);
    }
  }

  lemma {:induction false} RunLeavesLocked(s: State, schedule: seq<Action>)
    requires Invariant(s)
    ensures LeavesQueue(schedule) ==> Run(s, schedule).queued == s.queued
    ensures LeavesAdmission(schedule) ==>
              var s' := Run(s, schedule); s'.admissionClosed == s.admissionClosed && FreshStays(s.life, s'.life)
    decreases |schedule|
  {
    hide Enabled, Apply, Invariant, NeedsAdmission;
    if schedule != [] {
      if Enabled(s, schedule[0]) {
        StepIsSafe(s, schedule[0]);
        StepLeavesLocked(s, schedule[0]);
      }
      RunLeavesLocked(if Enabled(s, schedule[0]) then Apply(s, schedule[0]) else s, schedule[1..]);
    }
  }

  ghost predicate AllPublished(facts: set<Fact>) {
    forall birth | Accepted(birth) in facts :: Observed(birth) in facts || CloseProved(birth) in facts
  }

  ghost predicate AllProved(facts: set<Fact>) {
    forall birth | Accepted(birth) in facts :: CloseProved(birth) in facts
  }

  /** Once admission is closed, what the barrier has established stays established. */
  lemma BarrierStays(s: State, s': State)
    requires Grows(s, s') && s.admissionClosed
    ensures s'.admissionClosed
    ensures AllPublished(s.facts) ==> AllPublished(s'.facts)
    ensures AllProved(s.facts) ==> AllProved(s'.facts)
  {}

  ghost predicate BarrierKept(closed: bool, before: set<Fact>, after: set<Fact>) {
    closed ==> (AllPublished(before) ==> AllPublished(after)) && (AllProved(before) ==> AllProved(after))
  }

  /** When the last birth under a runtime id is settled, none is left. */
  lemma LastGone(s: State, runtime: Uuid, generation: Uuid)
    requires OthersDischarged(s, runtime, generation) && Settled(s, generation)
    ensures AllGone(s, runtime)
  {
    hide NeverBorn, RowRetired;
  }

  /** What the other threads cannot undo in a gap of an operation that began at `s0`. */
  lemma RunKeeps(s0: State, s: State, schedule: seq<Action>)
    requires Invariant(s) && Grows(s0, s)
    ensures var s' := Run(s, schedule);
            && Invariant(s') && Grows(s0, s') && A.WellIndexed(s'.auth)
            && s.owner == s'.owner && s.remote == s'.remote && s.leafOf == s'.leafOf
            && s.facts <= s'.facts && s.cancelled <= s'.cancelled
            && (s.admissionClosed ==> s'.admissionClosed)
            && LivesForward(s.life, s'.life)
            && BarrierKept(s.admissionClosed, s.facts, s'.facts)
            && (schedule == [] ==> s' == s)
            && (LeavesQueue(schedule) ==> s'.queued == s.queued)
            && (LeavesAdmission(schedule) ==> s'.admissionClosed == s.admissionClosed && FreshStays(s.life, s'.life))
  {
    hide Invariant, Grows, Run, LeavesQueue, LeavesAdmission, FreshStays, A.WellIndexed, AllPublished, AllProved;
    var s' := Run(s, schedule);
    RunNothing(s);
    RunIsSafe(s, schedule);
    RunLeavesLocked(s, schedule);
    GrowthKeeps(s, s');
    if s.admissionClosed { BarrierStays(s, s'); }
    GrowsTransitive(s0, s, s');
    GatesHold(s');
  }

  // ---------------------------------------------------------------------------------------------
  // The exit barrier

  lemma NoFactoryPending(s: State)
    requires Invariant(s) && s.factories == {}
    ensures AllPublished(s.facts)
  {}

  lemma NoHandleObserved(s: State)
    requires Invariant(s) && s.observed == {} && AllPublished(s.facts)
    ensures AllProved(s.facts)
  {}

  lemma NoPermanentClosing(s: State)
    requires Invariant(s) && AllProved(s.facts)
    requires forall runtime | runtime in s.closing :: !s.closing[runtime].permanent
    ensures forall birth | Accepted(birth) in s.facts && birth.runtime !in s.remote :: RetiredInLedger(s, birth)
  {
    hide Invariant, RowRetired, GateInstalled, OthersDischarged;
    forall birth | Accepted(birth) in s.facts && birth.runtime !in s.remote
      ensures RetiredInLedger(s, birth)
    {
      FactHolds(s, Accepted(birth));
      FactHolds(s, CloseProved(birth));
      FactHolds(s, BoundClosed(birth));
      BirthHolds(s, birth.generation.value);
    }
  }

}
