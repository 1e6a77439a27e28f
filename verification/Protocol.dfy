/** The close and retirement protocol of one endpoint, as a transition system. Each action is one
    lock-held section or one ledger transaction. What a thread carries from one section to the next
    is recorded as a fact; facts stay available, so every interleaving of any number of threads, with
    any number of retries, is a run of this system. */
module Protocol {
  import opened Identity
  import A = Authority
  import L = Ledger

  /** The identity under which local births are tracked. */
  datatype Birth = Birth(runtime: Uuid, generation: Option<Uuid>)

  datatype Closing = Closing(claim: Claim, gate: nat, permanent: bool, confirmed: bool)

  /** The physical truth about a birth. `Fresh` means that nobody has received it yet, `Void` that it
      was cancelled before anyone did, `Handed` that someone may start it, `Over` that its process does
      not run and never will. */
  datatype Life = Fresh | Void | Handed | Running | Over

  datatype Fact =
    | Attaching(host: HostEvidence)
    | Registrable(claim: Claim)
    | SawSame(claim: Claim)
    | GateReady(claim: Claim)
    | Taken(claim: Claim, permanent: bool)
    | FencedGate(claim: Claim, permanent: bool, gate: nat)
    | BoundClosed(birth: Birth)
    | SawDrained(claim: Claim)
    | FenceRead(prior: Claim, current: Claim)
    | FenceCommitted(prior: Claim, fenced: Claim)
    | Prepared(birth: Birth)
    | Confirming(runtime: Uuid)
    | FinishReady(prior: Claim, permanent: bool, gate: nat)
    | FinishRead(prior: Claim, permanent: bool, gate: nat, current: Claim)
    | FinishCommitted(prior: Claim, retired: bool)
    | Accepted(birth: Birth)
    | Observed(birth: Birth)
    | CloseProved(birth: Birth)
    | StaleSnapshot(claim: Claim)

  /** `remote` are the runtimes whose process lives in another host, the only ones an endpoint may
      release; `leafOf` is the leaf a runtime id belongs to, over all the births it stands for; `known`
      are the births this endpoint reserved or found itself attached to. */
  datatype State = State(
    owner: Uuid, remote: set<Uuid>, leafOf: Uuid -> LeafKey,
    auth: A.World, claims: map<LeafKey, Claim>, closing: map<Uuid, Closing>, cancelled: set<Uuid>,
    admissionClosed: bool, factories: set<Birth>, queued: map<Birth, bool>, observed: set<Birth>,
    books: L.Books, life: map<Uuid, Life>, known: set<Uuid>, facts: set<Fact>)

  datatype Action =
    // births
    | ReserveBirth(key: LeafKey, runtime: Uuid, generation: Uuid, expected: Option<Claim>)
    | RetryBirth(claim: Claim)
    | HandOut(claim: Claim)
    | CancelFresh(claim: Claim)
    // attachment
    | StartAttach(host: HostEvidence)
    | InstallBirth(claim: Claim, host: HostEvidence)
    | AttachActive(claim: Claim, host: HostEvidence)
    | AdoptBirth(claim: Claim, host: HostEvidence)
    // registration
    | SeeSame(claim: Claim)
    | RegisterSame(claim: Claim)
    | RegisterNew(claim: Claim)
    | RegisterClaim(claim: Claim)
    // effects
    | BeginEffects(gate: nat)
    | DropPermit(gate: nat)
    // begin_close
    | Cancel(runtime: Uuid)
    | TakeClaim(key: LeafKey, permanent: bool)
    | RetireTaken(claim: Claim, permanent: bool)
    | InsertClosing(claim: Claim, permanent: bool, gate: nat)
    // begin_close_bound and the durable fence
    | CloseBound(host: HostEvidence)
    | SeeDrained(runtime: Uuid)
    | ReadForFence(prior: Claim)
    | CommitFence(prior: Claim, current: Claim)
    | StoreFence(prior: Claim, fenced: Claim)
    | AlreadyFenced(prior: Claim)
    // physical confirmation and the finish
    | StartConfirm(runtime: Uuid)
    | MarkConfirmed(runtime: Uuid)
    | FinishCheck(runtime: Uuid)
    | FinishReadLedger(prior: Claim, permanent: bool, gate: nat)
    | FinishCommit(prior: Claim, permanent: bool, gate: nat, current: Claim, release: bool)
    | FinishRemove(prior: Claim, retired: bool)
    // local factories and handles
    | AcceptFactory(claim: Claim)
    | Observe(birth: Birth)
    | DropFactory(birth: Birth)
    | QueueRetirement(birth: Birth)
    | ProveClose(birth: Birth)
    | CompleteQueued(birth: Birth)
    | Unobserve(birth: Birth)
    // refresh
    | ReadForRefresh(claim: Claim)
    | InvalidateStale(claim: Claim)
    | RemoveStale(claim: Claim)
    // exit
    | CloseAdmission
    // the physical world and other endpoints
    | ConsumeBirth(claim: Claim)
    | Spawn(claim: Claim)
    | NoChild(claim: Claim)
    | ProcessEnds(generation: Uuid)
    | ForeignCommit(actor: Uuid, intent: L.Intent)

  function BirthOf(claim: Claim): Birth {
    Birth(claim.runtime, claim.generation)
  }

  predicate RowRetired(s: State, generation: Uuid) {
    generation in s.books.births && s.books.births[generation].phase.Retired?
  }

  /** The ledger holds the retirement receipt of this birth. */
  predicate RetiredInLedger(s: State, birth: Birth) {
    birth.generation.Some? && RowRetired(s, birth.generation.value)
  }

  predicate PermanentClosing(s: State, birth: Birth) {
    && birth.runtime in s.closing
    && s.closing[birth.runtime].permanent
    && s.closing[birth.runtime].claim.generation == birth.generation
  }

  predicate Under(s: State, generation: Uuid, runtime: Uuid) {
    generation in s.known && generation in s.books.births && s.books.births[generation].runtime == runtime
  }

  /** The claim names a birth that this endpoint knows, under its runtime id and on its leaf. */
  predicate Known(s: State, claim: Claim) {
    && claim.generation.Some? && Under(s, claim.generation.value, claim.runtime)
    && s.books.births[claim.generation.value].key == claim.key && s.leafOf(claim.runtime) == claim.key
  }

  predicate Unreceived(life: Life) {
    life.Fresh? || life.Void?
  }

  /** Nobody has received this birth and nobody will, because its runtime id is cancelled. */
  predicate NeverBorn(s: State, generation: Uuid) {
    && generation in s.life && generation in s.books.births && Unreceived(s.life[generation])
    && (s.life[generation].Void? || s.books.births[generation].runtime in s.cancelled)
  }

  predicate Discharged(s: State, generation: Uuid) {
    RowRetired(s, generation) || NeverBorn(s, generation)
  }

  /** Its process does not run and never will. */
  predicate Settled(s: State, generation: Uuid) {
    NeverBorn(s, generation) || (generation in s.life && s.life[generation].Over?)
  }

  predicate Gone(s: State, generation: Uuid) {
    RowRetired(s, generation) || Settled(s, generation)
  }

  /** Of all the births this endpoint knows under a runtime id, only the given one may be left. */
  predicate OthersDischarged(s: State, runtime: Uuid, generation: Uuid) {
    forall g | g in s.known && g != generation && Under(s, g, runtime) :: Discharged(s, g)
  }

  predicate AllGone(s: State, runtime: Uuid) {
    forall g | g in s.known && Under(s, g, runtime) :: Gone(s, g)
  }

  /** The evidence comes from the host of a recorded birth: one that this endpoint reserved itself, or
      one that runs in another host. */
  predicate Genuine(s: State, host: HostEvidence) {
    && host.generation.Some? && host.generation.value in s.books.births
    && var row := s.books.births[host.generation.value];
       && host.target == Some(row.key) && host.runtime == row.runtime && s.leafOf(row.runtime) == row.key
       && (row.owner == s.owner || row.runtime in s.remote)
  }

  /** The spawn permit of this claim was consumed. */
  predicate Permitted(s: State, claim: Claim) {
    && claim.generation.Some? && claim.generation.value in s.books.births
    && s.books.births[claim.generation.value].consumed
    && s.books.births[claim.generation.value].runtime == claim.runtime
  }

  predicate SameInClaims(s: State, claim: Claim) {
    claim.key in s.claims && SameAuthority(s.claims[claim.key], claim)
  }

  function Learn(s: State, fact: Fact): State {
    s.(facts := s.facts + {fact})
  }

  function Context(claim: Claim): OwnedHookContext {
    OwnedHookContext(claim, None)
  }

  /** The outcome of begin_close_bound: None when the binding is refused, and nothing changes. */
  function BoundCloseOf(s: State, host: HostEvidence): Option<State>
    requires A.WellIndexed(s.auth)
  {
    if host.target.Some? && host.target.value in s.claims
       && Proves(host, s.claims[host.target.value]) && s.claims[host.target.value].owner == Some(s.owner)
    then
      var claim := s.claims[host.target.value];
      var gate := A.Registered(s.auth, claim);
      if host.runtime in s.closing || gate.Denied? then None
      else Some(s.(auth := A.AfterBeginRetire(s.auth, claim),
                   claims := s.claims - {claim.key},
                   closing := s.closing[host.runtime := Closing(claim, gate.value, true, false)]))
    else if host.runtime in s.closing && Proves(host, s.closing[host.runtime].claim)
            && s.closing[host.runtime].claim.owner == Some(s.owner)
    then Some(s)
    else None
  }

  /** Reserving, registering and handing out births, and the effects they run. */
  predicate BirthEnabled(s: State, a: Action)
    requires A.WellIndexed(s.auth)
  {
    match a
    case ReserveBirth(key, runtime, generation, expected) =>
      && !s.admissionClosed && s.leafOf(runtime) == key
      && L.Commit(s.books, s.owner, L.Reserve(expected, key, runtime, generation)).Some?
    case RetryBirth(claim) =>
      && !s.admissionClosed && claim.generation.Some? && s.leafOf(claim.runtime) == claim.key
      && L.Current(s.books, claim.key) == Some(claim)
      && claim.owner == Some(s.owner) && claim.phase.AuthorizedBirth?
    case HandOut(claim) =>
      && !s.admissionClosed && GateReady(claim) in s.facts
      && claim.generation.Some? && claim.generation.value in s.life
      && claim.runtime !in s.cancelled
    case CancelFresh(claim) =>
      && !s.admissionClosed && Registrable(claim) in s.facts && claim.runtime in s.cancelled
      && claim.generation.Some? && claim.generation.value in s.life
      && s.life[claim.generation.value].Fresh?
    case StartAttach(host) => host.runtime !in s.cancelled && Genuine(s, host)
    case InstallBirth(claim, host) =>
      Attaching(host) in s.facts && L.Commit(s.books, s.owner, L.Install(claim, host)).Some?
    case AttachActive(claim, host) =>
      && Attaching(host) in s.facts && Proves(host, claim) && L.Current(s.books, claim.key) == Some(claim)
      && claim.owner == Some(s.owner) && claim.phase.Active?
    case AdoptBirth(claim, host) =>
      Attaching(host) in s.facts && L.Commit(s.books, s.owner, L.Adopt(claim, host)).Some?
    case SeeSame(claim) => SameInClaims(s, claim)
    case RegisterSame(claim) =>
      && Registrable(claim) in s.facts && SawSame(claim) in s.facts
      && (claim.phase.Active? ==> A.MarkDenial(s.auth, claim).None?)
    case RegisterNew(claim) =>
      Registrable(claim) in s.facts && A.InstallDenial(s.auth, Context(claim)).None?
    case RegisterClaim(claim) => GateReady(claim) in s.facts
    case BeginEffects(gate) => gate < |s.auth.gates|
    case DropPermit(gate) => gate < |s.auth.gates| && gate in s.auth.permits
    case _ => false
  }

  /** Closing admission, the durable fence, confirmation and the finish. */
  predicate CloseEnabled(s: State, a: Action)
    requires A.WellIndexed(s.auth)
  {
    match a
    case Cancel(runtime) => true
    case TakeClaim(key, permanent) =>
      && key in s.claims && s.claims[key].runtime in s.cancelled
      && (!permanent ==> s.claims[key].runtime in s.remote)
    case RetireTaken(claim, permanent) =>
      Taken(claim, permanent) in s.facts && A.Registered(s.auth, claim).Ok?
    case InsertClosing(claim, permanent, gate) => FencedGate(claim, permanent, gate) in s.facts
    case CloseBound(host) => BoundCloseOf(s, host).Some?
    case SeeDrained(runtime) =>
      && runtime in s.cancelled && runtime in s.closing && s.closing[runtime].gate < |s.auth.gates|
      && A.Drained(s.auth, s.closing[runtime].gate)
    case ReadForFence(prior) =>
      && SawDrained(prior) in s.facts && prior.key in s.books.claims
      && SameAuthority(prior, s.books.claims[prior.key])
    case CommitFence(prior, current) =>
      && FenceRead(prior, current) in s.facts
      && L.Commit(s.books, s.owner, L.FenceRetire(current)).Some?
    case StoreFence(prior, fenced) =>
      && FenceCommitted(prior, fenced) in s.facts && prior.runtime in s.closing
      && SameAuthority(s.closing[prior.runtime].claim, prior)
    case AlreadyFenced(prior) =>
      && SawDrained(prior) in s.facts && prior.phase.Retiring?
      && L.Current(s.books, prior.key) == Some(prior)
    case StartConfirm(runtime) => runtime in s.cancelled && AllGone(s, runtime)
    case MarkConfirmed(runtime) => Confirming(runtime) in s.facts && runtime in s.closing
    case FinishCheck(runtime) =>
      && runtime in s.closing && s.closing[runtime].gate < |s.auth.gates|
      && A.Drained(s.auth, s.closing[runtime].gate)
      && (s.closing[runtime].permanent ==> s.closing[runtime].confirmed)
    case FinishReadLedger(prior, permanent, gate) =>
      && FinishReady(prior, permanent, gate) in s.facts && prior.key in s.books.claims
      && (prior == s.books.claims[prior.key] || SameAuthority(prior, s.books.claims[prior.key]))
    case FinishCommit(prior, permanent, gate, current, release) =>
      && FinishRead(prior, permanent, gate, current) in s.facts
      && (!release && !permanent ==> Confirming(prior.runtime) in s.facts)
      && L.Commit(s.books, s.owner, FinishIntent(permanent, current, release)).Some?
    case FinishRemove(prior, retired) =>
      && FinishCommitted(prior, retired) in s.facts && prior.runtime in s.closing
      && s.closing[prior.runtime].claim == prior
    case _ => false
  }

  /** Local factories and handles, the refresh and the exit. */
  predicate LocalEnabled(s: State, a: Action)
    requires A.WellIndexed(s.auth)
  {
    match a
    case AcceptFactory(claim) => !s.admissionClosed && claim.owner == Some(s.owner) && Permitted(s, claim)
    case Observe(birth) => true
    case DropFactory(birth) => Observed(birth) in s.facts || CloseProved(birth) in s.facts
    case QueueRetirement(birth) => BoundClosed(birth) in s.facts && birth !in s.queued
    case ProveClose(birth) =>
      && Prepared(birth) in s.facts && BoundClosed(birth) in s.facts
      && birth.generation.Some? && birth.generation.value in s.life
      && s.life[birth.generation.value].Over?
    case CompleteQueued(birth) => CloseProved(birth) in s.facts
    case Unobserve(birth) => CloseProved(birth) in s.facts
    case ReadForRefresh(claim) => true
    case InvalidateStale(claim) => StaleSnapshot(claim) in s.facts
    case RemoveStale(claim) => StaleSnapshot(claim) in s.facts && SameInClaims(s, claim)
    case CloseAdmission => true
    case _ => false
  }

  /** The physical world and the other endpoints. */
  predicate WorldEnabled(s: State, a: Action)
    requires A.WellIndexed(s.auth)
  {
    match a
    case ConsumeBirth(claim) =>
      && L.Consume(s.books, claim).Some? && claim.generation.value in s.life
      && s.life[claim.generation.value].Handed?
    case Spawn(claim) =>
      && L.MaySpawn(s.books, claim) && claim.generation.value in s.life
      && s.life[claim.generation.value].Handed?
    case NoChild(claim) =>
      && claim.generation.Some? && claim.generation.value in s.life
      && claim.generation.value in s.books.births && s.books.births[claim.generation.value].consumed
      && s.life[claim.generation.value].Handed?
    case ProcessEnds(generation) => generation in s.life && s.life[generation].Running?
    case ForeignCommit(actor, intent) =>
      && actor != s.owner && L.Commit(s.books, actor, intent).Some?
      && (intent.Retire? && intent.claim.generation.Some? && intent.claim.generation.value in s.life ==>
            !s.life[intent.claim.generation.value].Running?)
    case _ => false
  }

  // The four groups of actions.

  predicate BirthAction(a: Action) {
    || a.ReserveBirth? || a.RetryBirth? || a.HandOut? || a.CancelFresh? || a.StartAttach?
    || a.InstallBirth? || a.AttachActive? || a.AdoptBirth? || a.SeeSame? || a.RegisterSame?
    || a.RegisterNew? || a.RegisterClaim? || a.BeginEffects? || a.DropPermit?
  }

  predicate CloseAction(a: Action) {
    || a.Cancel? || a.TakeClaim? || a.RetireTaken? || a.InsertClosing? || a.CloseBound? || a.SeeDrained?
    || a.ReadForFence? || a.CommitFence? || a.StoreFence? || a.AlreadyFenced? || a.StartConfirm?
    || a.MarkConfirmed? || a.FinishCheck? || a.FinishReadLedger? || a.FinishCommit? || a.FinishRemove?
  }

  predicate LocalAction(a: Action) {
    || a.AcceptFactory? || a.Observe? || a.DropFactory? || a.QueueRetirement? || a.ProveClose?
    || a.CompleteQueued? || a.Unobserve? || a.ReadForRefresh? || a.InvalidateStale? || a.RemoveStale?
    || a.CloseAdmission?
  }

  predicate WorldAction(a: Action) {
    || a.ConsumeBirth? || a.Spawn? || a.NoChild? || a.ProcessEnds? || a.ForeignCommit?
  }

  predicate Enabled(s: State, a: Action) {
    && A.WellIndexed(s.auth)
    && if BirthAction(a) then BirthEnabled(s, a)
       else if CloseAction(a) then CloseEnabled(s, a)
       else if LocalAction(a) then LocalEnabled(s, a)
       else WorldEnabled(s, a)
  }

  function FinishIntent(permanent: bool, current: Claim, release: bool): L.Intent {
    if release && !permanent then L.Release(current) else L.Retire(current)
  }

  function Committed(s: State, actor: Uuid, intent: L.Intent): State
    requires L.Commit(s.books, actor, intent).Some?
  {
    s.(books := L.Commit(s.books, actor, intent).value.0)
  }

  function CommittedClaim(s: State, actor: Uuid, intent: L.Intent): Claim
    requires L.Commit(s.books, actor, intent).Some?
  {
    L.Commit(s.books, actor, intent).value.1
  }

  function BirthApply(s: State, a: Action): State
    requires A.WellIndexed(s.auth) && BirthEnabled(s, a)
  {
    match a
    case ReserveBirth(key, runtime, generation, expected) =>
      var intent := L.Reserve(expected, key, runtime, generation);
      Learn(Committed(s, s.owner, intent).(life := s.life[generation := Fresh], known := s.known + {generation}),
            Registrable(CommittedClaim(s, s.owner, intent)))
    case RetryBirth(claim) => Learn(s, Registrable(claim))
    case HandOut(claim) =>
      if s.life[claim.generation.value].Fresh? then s.(life := s.life[claim.generation.value := Handed]) else s
    case CancelFresh(claim) => s.(life := s.life[claim.generation.value := Void])
    case StartAttach(host) => Learn(s.(known := s.known + {host.generation.value}), Attaching(host))
    case InstallBirth(claim, host) =>
      Learn(Committed(s, s.owner, L.Install(claim, host)), Registrable(CommittedClaim(s, s.owner, L.Install(claim, host))))
    case AttachActive(claim, host) => Learn(s, Registrable(claim))
    case AdoptBirth(claim, host) =>
      Learn(Committed(s, s.owner, L.Adopt(claim, host)), Registrable(CommittedClaim(s, s.owner, L.Adopt(claim, host))))
    case SeeSame(claim) => Learn(s, SawSame(claim))
    case RegisterSame(claim) =>
      Learn(s.(auth := A.AfterMarkInstalled(s.auth, claim)), GateReady(claim))
    case RegisterNew(claim) =>
      Learn(s.(auth := A.AfterInstall(s.auth, Context(claim))), GateReady(claim))
    case RegisterClaim(claim) => s.(claims := s.claims[claim.key := claim])
    case BeginEffects(gate) => s.(auth := A.AfterBeginEffects(s.auth, gate))
    case DropPermit(gate) => s.(auth := A.AfterDrop(s.auth, gate))
  }

  function CloseApply(s: State, a: Action): State
    requires A.WellIndexed(s.auth) && CloseEnabled(s, a)
  {
    match a
    case Cancel(runtime) => s.(cancelled := s.cancelled + {runtime})
    case TakeClaim(key, permanent) =>
      Learn(s.(claims := s.claims - {key}), Taken(s.claims[key], permanent))
    case RetireTaken(claim, permanent) =>
      Learn(s.(auth := A.AfterBeginRetire(s.auth, claim)),
            FencedGate(claim, permanent, A.Registered(s.auth, claim).value))
    case InsertClosing(claim, permanent, gate) =>
      s.(closing := s.closing[claim.runtime := Closing(claim, gate, permanent, false)])
    case CloseBound(host) =>
      Learn(BoundCloseOf(s, host).value, BoundClosed(Birth(host.runtime, host.generation)))
    case SeeDrained(runtime) => Learn(s, SawDrained(s.closing[runtime].claim))
    case ReadForFence(prior) => Learn(s, FenceRead(prior, s.books.claims[prior.key]))
    case CommitFence(prior, current) =>
      Learn(Committed(s, s.owner, L.FenceRetire(current)),
            FenceCommitted(prior, CommittedClaim(s, s.owner, L.FenceRetire(current))))
    case StoreFence(prior, fenced) =>
      var entry := s.closing[prior.runtime].(claim := fenced);
      Learn(s.(closing := s.closing[prior.runtime := entry]), Prepared(BirthOf(prior)))
    case AlreadyFenced(prior) => Learn(s, Prepared(BirthOf(prior)))
    case StartConfirm(runtime) => Learn(s, Confirming(runtime))
    case MarkConfirmed(runtime) =>
      s.(closing := s.closing[runtime := s.closing[runtime].(confirmed := true)])
    case FinishCheck(runtime) =>
      var entry := s.closing[runtime];
      Learn(s, FinishReady(entry.claim, entry.permanent, entry.gate))
    case FinishReadLedger(prior, permanent, gate) =>
      Learn(s, FinishRead(prior, permanent, gate, s.books.claims[prior.key]))
    case FinishCommit(prior, permanent, gate, current, release) =>
      Learn(Committed(s, s.owner, FinishIntent(permanent, current, release)),
            FinishCommitted(prior, !release || permanent))
    case FinishRemove(prior, retired) => s.(closing := s.closing - {prior.runtime})
  }

  function LocalApply(s: State, a: Action): State
    requires A.WellIndexed(s.auth) && LocalEnabled(s, a)
  {
    match a
    case AcceptFactory(claim) =>
      Learn(s.(factories := s.factories + {BirthOf(claim)}), Accepted(BirthOf(claim)))
    case Observe(birth) => Learn(s.(observed := s.observed + {birth}), Observed(birth))
    case DropFactory(birth) => s.(factories := s.factories - {birth})
    case QueueRetirement(birth) => s.(queued := s.queued[birth := false])
    case ProveClose(birth) => Learn(s, CloseProved(birth))
    case CompleteQueued(birth) => s.(queued := s.queued[birth := true])
    case Unobserve(birth) => s.(observed := s.observed - {birth})
    case ReadForRefresh(claim) => Learn(s, StaleSnapshot(claim))
    case InvalidateStale(claim) => s.(auth := A.AfterBeginRetire(s.auth, claim))
    case RemoveStale(claim) => s.(claims := s.claims - {claim.key})
    case CloseAdmission => s.(admissionClosed := true)
  }

  function WorldApply(s: State, a: Action): State
    requires A.WellIndexed(s.auth) && WorldEnabled(s, a)
  {
    match a
    case ConsumeBirth(claim) => s.(books := L.Consume(s.books, claim).value)
    case Spawn(claim) => s.(life := s.life[claim.generation.value := Running])
    case NoChild(claim) => s.(life := s.life[claim.generation.value := Over])
    case ProcessEnds(generation) => s.(life := s.life[generation := Over])
    case ForeignCommit(actor, intent) =>
      var s' := Committed(s, actor, intent);
      if intent.Reserve? then s'.(life := s.life[intent.generation := Handed]) else s'
  }

  function Apply(s: State, a: Action): State
    requires Enabled(s, a)
  {
    if BirthAction(a) then BirthApply(s, a)
    else if CloseAction(a) then CloseApply(s, a)
    else if LocalAction(a) then LocalApply(s, a)
    else WorldApply(s, a)
  }

  // ---------------------------------------------------------------------------------------------
  // The invariant

  /** Only remote runtimes are ever closed without permanence. */
  predicate PermanenceOk(s: State, runtime: Uuid, permanent: bool) {
    permanent || runtime in s.remote
  }

  /** The gate was installed for the birth of this claim. */
  predicate GateFor(s: State, gate: nat, claim: Claim) {
    && gate < |s.auth.gates|
    && s.auth.gates[gate].claim.key == claim.key
    && s.auth.gates[gate].claim.generation == claim.generation
  }

  predicate ClosedForGood(s: State, birth: Birth) {
    PermanentClosing(s, birth) || (birth.generation.Some? && Discharged(s, birth.generation.value))
  }

  /** Some gate was installed for this birth. */
  ghost predicate GateInstalled(gates: seq<A.GateRecord>, generation: Option<Uuid>) {
    exists i :: 0 <= i < |gates| && gates[i].claim.generation == generation
  }

  /** Two claims of the same birth. */
  predicate SameBirth(a: Claim, b: Claim) {
    a.key == b.key && a.runtime == b.runtime && a.generation == b.generation
  }

  ghost predicate FactOk(s: State, fact: Fact) {
    match fact
    case Attaching(host) => Genuine(s, host) && host.generation.value in s.known
    case Registrable(claim) => Known(s, claim) && L.Dated(s.books, claim)
    case SawSame(claim) => GateInstalled(s.auth.gates, claim.generation)
    case GateReady(claim) => Known(s, claim) && L.Dated(s.books, claim) && GateInstalled(s.auth.gates, claim.generation)
    case Taken(claim, permanent) =>
      Known(s, claim) && PermanenceOk(s, claim.runtime, permanent) && claim.runtime in s.cancelled
    case FencedGate(claim, permanent, gate) =>
      && Known(s, claim) && PermanenceOk(s, claim.runtime, permanent) && claim.runtime in s.cancelled
      && GateFor(s, gate, claim)
      && (claim.runtime in s.remote || OthersDischarged(s, claim.runtime, claim.generation.value))
    case BoundClosed(birth) => birth.runtime in s.remote || ClosedForGood(s, birth)
    case SawDrained(claim) => Known(s, claim) && claim.runtime in s.cancelled
    case FenceRead(prior, current) =>
      && Known(s, prior) && prior.runtime in s.cancelled && SameBirth(prior, current)
    case FenceCommitted(prior, fenced) =>
      && Known(s, prior) && prior.runtime in s.cancelled && SameBirth(prior, fenced)
      && OthersDischarged(s, prior.runtime, prior.generation.value)
    case Prepared(birth) =>
      && birth.generation.Some? && Under(s, birth.generation.value, birth.runtime) && birth.runtime in s.cancelled
      && OthersDischarged(s, birth.runtime, birth.generation.value)
    case Confirming(runtime) => runtime in s.cancelled && AllGone(s, runtime)
    case FinishReady(prior, permanent, gate) =>
      && Known(s, prior) && PermanenceOk(s, prior.runtime, permanent)
      && GateFor(s, gate, prior) && A.Drained(s.auth, gate)
      && (permanent ==> Confirming(prior.runtime) in s.facts)
    case FinishRead(prior, permanent, gate, current) =>
      && Known(s, prior) && PermanenceOk(s, prior.runtime, permanent)
      && GateFor(s, gate, prior) && A.Drained(s.auth, gate)
      && (permanent ==> Confirming(prior.runtime) in s.facts)
      && SameBirth(prior, current)
    case FinishCommitted(prior, retired) =>
      Known(s, prior) && PermanenceOk(s, prior.runtime, retired) && (retired ==> RetiredInLedger(s, BirthOf(prior)))
    case Accepted(birth) =>
      && birth.generation.Some? && birth.generation.value in s.books.births
      && s.books.births[birth.generation.value].consumed
      && (birth in s.factories || Observed(birth) in s.facts || CloseProved(birth) in s.facts)
    case Observed(birth) => birth in s.observed || CloseProved(birth) in s.facts
    case CloseProved(birth) => BoundClosed(birth) in s.facts
    case StaleSnapshot(claim) => true
  }

  predicate ClosingOk(s: State, runtime: Uuid)
    requires runtime in s.closing
  {
    var entry := s.closing[runtime];
    && entry.claim.runtime == runtime && Known(s, entry.claim)
    && PermanenceOk(s, runtime, entry.permanent) && GateFor(s, entry.gate, entry.claim)
    && (entry.confirmed ==> Confirming(runtime) in s.facts)
  }

  ghost predicate ClaimEntryOk(s: State, key: LeafKey)
    requires key in s.claims
  {
    && s.claims[key].key == key && Known(s, s.claims[key]) && L.Dated(s.books, s.claims[key])
    && GateInstalled(s.auth.gates, s.claims[key].generation)
  }

  /** The in-memory registries: every claim has had its gate, and every claim that was entered or got a gate
      was current in the ledger at some time. */
  ghost predicate Registries(s: State) {
    && A.Invariant(s.auth)
    && (forall key | key in s.claims :: ClaimEntryOk(s, key))
    && (forall runtime | runtime in s.closing :: ClosingOk(s, runtime))
    && (forall i | 0 <= i < |s.auth.gates| :: L.Dated(s.books, s.auth.gates[i].claim))
  }

  /** One birth: a running one is not retired; this endpoint knows what it reserved; a birth nobody
      received is its own, is not consumed and is the only one left under its runtime id; and an own
      birth that was received has had its gate. */
  ghost predicate BirthOk(s: State, generation: Uuid)
    requires generation in s.books.births && generation in s.life
  {
    var row, life := s.books.births[generation], s.life[generation];
    && (life.Running? ==> !row.phase.Retired?)
    && (row.owner == s.owner ==> generation in s.known)
    && (generation in s.known ==> s.leafOf(row.runtime) == row.key && (row.runtime in s.remote || row.owner == s.owner))
    && (Unreceived(life) ==> row.owner == s.owner && !row.consumed && OthersDischarged(s, row.runtime, generation))
    && (Unreceived(life) && (life.Void? || row.phase.Retired?) ==> row.runtime in s.cancelled)
    && (row.owner == s.owner && !Unreceived(life) ==> GateInstalled(s.auth.gates, Some(generation)))
  }

  ghost predicate Births(s: State) {
    && L.Consistent(s.books)
    && s.life.Keys == s.books.births.Keys && s.known <= s.books.births.Keys
    && (forall generation | generation in s.life :: BirthOk(s, generation))
  }

  ghost predicate Invariant(s: State) {
    && Registries(s)
    && Births(s)
    && (forall fact | fact in s.facts :: FactOk(s, fact))
  }

  /** A process that was started keeps running or ends; one that is over stays so. */
  predicate LifeForward(life: Life, life': Life) {
    (life.Running? ==> life'.Running? || life'.Over?) && (life.Over? ==> life'.Over?)
  }

  /** The births of the ledger only move forward, and what becomes known under a cancelled runtime id
      is never born. */
  ghost predicate BirthsGrow(s: State, s': State) {
    && L.Extends(s.books, s'.books)
    && s.known <= s'.known && (forall g | g in s'.known && g !in s.known :: g in s'.books.births)
    && (forall g | g in s'.known && g !in s.known && g in s'.books.births && s'.books.births[g].runtime in s.cancelled ::
          NeverBorn(s', g))
    && (forall g | g in s.life :: g in s'.life && LifeForward(s.life[g], s'.life[g])
          && (NeverBorn(s, g) ==> NeverBorn(s', g)))
  }

  /** What any action keeps of what was true before it. */
  ghost predicate Grows(s: State, s': State) {
    && s.owner == s'.owner && s.remote == s'.remote && s.leafOf == s'.leafOf
    && s.facts <= s'.facts && s.cancelled <= s'.cancelled
    && A.Progress(s.auth, s'.auth)
    && BirthsGrow(s, s')
    && (forall birth | birth in s.factories :: birth in s'.factories
          || Observed(birth) in s'.facts || CloseProved(birth) in s'.facts)
    && (forall birth | birth in s.observed :: birth in s'.observed || CloseProved(birth) in s'.facts)
    && (forall birth: Birth | birth.runtime !in s.remote && PermanentClosing(s, birth) :: ClosedForGood(s', birth))
    && (s.admissionClosed ==> s'.admissionClosed)
    && (forall birth | s.admissionClosed && Accepted(birth) in s'.facts :: Accepted(birth) in s.facts)
  }

  // What single predicates keep under growth.

  lemma RetiredStays(s: State, s': State, generation: Uuid)
    requires BirthsGrow(s, s') && RowRetired(s, generation)
    ensures RowRetired(s', generation)
  {}

  lemma DischargedStays(s: State, s': State, generation: Uuid)
    requires BirthsGrow(s, s') && Discharged(s, generation)
    ensures Discharged(s', generation)
  {}

  lemma UnderStays(s: State, s': State, generation: Uuid, runtime: Uuid)
    requires BirthsGrow(s, s') && Under(s, generation, runtime)
    ensures Under(s', generation, runtime)
  {}

  lemma KnownStays(s: State, s': State, claim: Claim)
    requires BirthsGrow(s, s') && s.leafOf == s'.leafOf && Known(s, claim)
    ensures Known(s', claim)
  {}

  lemma GateInstalledStays(before: seq<A.GateRecord>, after: seq<A.GateRecord>, generation: Option<Uuid>)
    requires |before| <= |after| && forall i | 0 <= i < |before| :: after[i].claim == before[i].claim
    requires GateInstalled(before, generation)
    ensures GateInstalled(after, generation)
  {
    var i :| 0 <= i < |before| && before[i].claim.generation == generation;
    assert after[i].claim.generation == generation;
  }

  lemma GatesKept(s: State, s': State, generation: Option<Uuid>)
    requires A.Progress(s.auth, s'.auth) && GateInstalled(s.auth.gates, generation)
    ensures GateInstalled(s'.auth.gates, generation)
  {
    forall i | 0 <= i < |s.auth.gates|
      ensures s'.auth.gates[i].claim == s.auth.gates[i].claim
    {
      assert A.Forward(s.auth.gates[i], s'.auth.gates[i]);
    }
    GateInstalledStays(s.auth.gates, s'.auth.gates, generation);
  }

  /** Under a cancelled runtime id nothing new is left to discharge. */
  lemma OthersStay(s: State, s': State, runtime: Uuid, generation: Uuid)
    requires BirthsGrow(s, s') && s.known <= s.books.births.Keys
    requires runtime in s.cancelled || s'.known == s.known
    requires OthersDischarged(s, runtime, generation)
    ensures OthersDischarged(s', runtime, generation)
  {
    forall g | g in s'.known && g != generation && Under(s', g, runtime)
      ensures Discharged(s', g)
    {
      if g in s.known {
        assert Under(s, g, runtime);
        DischargedStays(s, s', g);
      }
    }
  }

  lemma AllGoneStays(s: State, s': State, runtime: Uuid)
    requires BirthsGrow(s, s') && s.known <= s.books.births.Keys
    requires runtime in s.cancelled && AllGone(s, runtime)
    ensures AllGone(s', runtime)
  {
    forall g | g in s'.known && Under(s', g, runtime)
      ensures Gone(s', g)
    {
      if g in s.known {
        assert Under(s, g, runtime);
        assert Gone(s, g);
      }
    }
  }

  lemma GateForStays(s: State, s': State, gate: nat, claim: Claim)
    requires A.Progress(s.auth, s'.auth) && GateFor(s, gate, claim)
    ensures GateFor(s', gate, claim) && (A.Drained(s.auth, gate) ==> A.Drained(s'.auth, gate))
  {
    assert A.Forward(s.auth.gates[gate], s'.auth.gates[gate]);
  }

  lemma EvidenceStays(s: State, s': State, host: HostEvidence)
    requires BirthsGrow(s, s') && s.leafOf == s'.leafOf && s.owner == s'.owner && s.remote == s'.remote
    requires Genuine(s, host) && host.generation.value in s.known
    ensures Genuine(s', host) && host.generation.value in s'.known
  {}

  lemma DatedStays(s: State, s': State, claim: Claim)
    requires BirthsGrow(s, s') && L.Dated(s.books, claim)
    ensures L.Dated(s'.books, claim)
  {
    L.StaysDated(s.books, s'.books, claim);
  }

  lemma ClaimFactSurvives(s: State, s': State, fact: Fact)
    requires FactOk(s, fact) && Grows(s, s') && s.known <= s.books.births.Keys
    requires fact.Attaching? || fact.Registrable? || fact.SawSame? || fact.GateReady? || fact.Taken? || fact.FencedGate?
    ensures FactOk(s', fact)
  {
    hide Known, Under, OthersDischarged, GateFor, GateInstalled, BirthsGrow, Genuine, A.Progress, L.Dated;
    match fact
    case Attaching(host) => EvidenceStays(s, s', host);
    case Registrable(claim) =>
      KnownStays(s, s', claim);
      DatedStays(s, s', claim);
    case SawSame(claim) => GatesKept(s, s', claim.generation);
    case GateReady(claim) =>
      KnownStays(s, s', claim);
      DatedStays(s, s', claim);
      GatesKept(s, s', claim.generation);
    case Taken(claim, permanent) => KnownStays(s, s', claim);
    case FencedGate(claim, permanent, gate) =>
      KnownStays(s, s', claim);
      GateForStays(s, s', gate, claim);
      if claim.runtime !in s.remote { OthersStay(s, s', claim.runtime, claim.generation.value); }
  }

  lemma FenceFactSurvives(s: State, s': State, fact: Fact)
    requires FactOk(s, fact) && Grows(s, s') && s.known <= s.books.births.Keys
    requires fact.SawDrained? || fact.FenceRead? || fact.FenceCommitted? || fact.Prepared? || fact.Confirming?
    ensures FactOk(s', fact)
  {
    hide Known, Under, OthersDischarged, AllGone, BirthsGrow, A.Progress, L.Dated;
    match fact
    case SawDrained(claim) => KnownStays(s, s', claim);
    case FenceRead(prior, current) => KnownStays(s, s', prior);
    case FenceCommitted(prior, fenced) =>
      KnownStays(s, s', prior);
      OthersStay(s, s', prior.runtime, prior.generation.value);
    case Prepared(birth) =>
      UnderStays(s, s', birth.generation.value, birth.runtime);
      OthersStay(s, s', birth.runtime, birth.generation.value);
    case Confirming(runtime) => AllGoneStays(s, s', runtime);
  }

  lemma FinishFactSurvives(s: State, s': State, fact: Fact)
    requires FactOk(s, fact) && Grows(s, s') && s.known <= s.books.births.Keys
    requires fact.FinishReady? || fact.FinishRead? || fact.FinishCommitted?
    ensures FactOk(s', fact)
  {
    hide Known, Under, RowRetired, GateFor, BirthsGrow, A.Progress, A.Drained;
    match fact
    case FinishReady(prior, permanent, gate) =>
      KnownStays(s, s', prior);
      GateForStays(s, s', gate, prior);
    case FinishRead(prior, permanent, gate, current) =>
      KnownStays(s, s', prior);
      GateForStays(s, s', gate, prior);
    case FinishCommitted(prior, retired) =>
      KnownStays(s, s', prior);
      if retired { RetiredStays(s, s', prior.generation.value); }
  }

  lemma CloseFactSurvives(s: State, s': State, fact: Fact)
    requires FactOk(s, fact) && Grows(s, s') && fact in s.facts
    requires fact.BoundClosed? || fact.Accepted? || fact.Observed? || fact.CloseProved? || fact.StaleSnapshot?
    ensures FactOk(s', fact)
  {
    hide Discharged, A.Progress;
    match fact
    case BoundClosed(birth) =>
      if birth.runtime !in s.remote && birth.generation.Some? && Discharged(s, birth.generation.value) {
        DischargedStays(s, s', birth.generation.value);
      }
    case Accepted(birth) => assert L.RowExtends(s.books.births[birth.generation.value], s'.books.births[birth.generation.value]);
    case Observed(birth) =>
    case CloseProved(birth) =>
    case StaleSnapshot(claim) =>
  }

  lemma FactsSurvive(s: State, s': State, fact: Fact)
    requires FactOk(s, fact) && Grows(s, s') && fact in s.facts && s.known <= s.books.births.Keys
    ensures FactOk(s', fact)
  {
    hide FactOk, Grows;
    if fact.Attaching? || fact.Registrable? || fact.SawSame? || fact.GateReady? || fact.Taken? || fact.FencedGate? {
      ClaimFactSurvives(s, s', fact);
    } else if fact.SawDrained? || fact.FenceRead? || fact.FenceCommitted? || fact.Prepared? || fact.Confirming? {
      FenceFactSurvives(s, s', fact);
    } else if fact.FinishReady? || fact.FinishRead? || fact.FinishCommitted? {
      FinishFactSurvives(s, s', fact);
    } else {
      CloseFactSurvives(s, s', fact);
    }
  }

  /** Adding justified facts and keeping the registries keeps the invariant. */
  lemma Assemble(s: State, s': State, learned: set<Fact>)
    requires Invariant(s) && Grows(s, s')
    requires s'.facts == s.facts + learned
    requires forall fact | fact in learned :: FactOk(s', fact)
    requires Registries(s') && Births(s')
    ensures Invariant(s')
  {
    hide FactOk, Grows, Registries, BirthOk, L.Consistent;
    forall fact | fact in s'.facts
      ensures FactOk(s', fact)
    {
      if fact in s.facts {
        FactsSurvive(s, s', fact);
      }
    }
  }
}
