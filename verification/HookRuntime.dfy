/** The endpoint's registries, updated in place. Every section method is one lock-held section and
    is proved to be one action of module Protocol; every operation is a sequence of sections, with
    arbitrary actions of the other threads in the gaps between them. `s0` is any state the caller has
    seen before; `Since(s0)` says that the registries are sound and only moved forward from there. */
module HookRuntime {
  import opened Identity
  import A = Authority
  import L = Ledger
  import P = Protocol
  import opened ProtocolSafety

  const OBSERVED_LIMIT: nat := 1_000_000
  const OUTSTANDING_LIMIT: nat := 64

  /** What happens in one gap of an operation: the actions of the other threads, and whether the
      store or channel that is asked next answers. */
  datatype Gap = Gap(others: seq<P.Action>, answers: bool)

  type Gaps = nat -> Gap

  datatype FinishReply = Finished | Waiting | Failed

  function Later(gaps: Gaps, n: nat): Gaps {
    (k: nat) => gaps(n + k)
  }

  /** Nobody else runs, and whatever is asked answers. */
  ghost predicate Quiet(gaps: Gaps) {
    forall k: nat :: gaps(k) == Gap([], true)
  }

  /** If the gate of a taken claim is still the registered one, it closes and the claim is closing. */
  predicate FencesTaken(auth: A.World, closing: map<Uuid, P.Closing>, claim: Claim, permanent: bool,
                        auth': A.World, closing': map<Uuid, P.Closing>)
    requires A.WellIndexed(auth)
  {
    var gate := A.Registered(auth, claim);
    if gate.Denied? then auth' == auth && closing' == closing
    else auth' == A.AfterBeginRetire(auth, claim)
         && closing' == closing[claim.runtime := P.Closing(claim, gate.value, permanent, false)]
  }

  predicate SameEntry(claims: map<LeafKey, Claim>, claim: Claim) {
    claim.key in claims && SameAuthority(claims[claim.key], claim)
  }

  /** Whether a claim can be entered: its gate is still open, or a new one may be installed. */
  predicate Registers(auth: A.World, claims: map<LeafKey, Claim>, claim: Claim)
    requires A.WellIndexed(auth)
  {
    if SameEntry(claims, claim) then claim.phase.Active? ==> A.MarkDenial(auth, claim).None?
    else A.InstallDenial(auth, P.Context(claim)).None?
  }

  function RegisteredGates(auth: A.World, claims: map<LeafKey, Claim>, claim: Claim): A.World
    requires A.WellIndexed(auth)
  {
    if SameEntry(claims, claim) then A.AfterMarkInstalled(auth, claim) else A.AfterInstall(auth, P.Context(claim))
  }

  /** The birth that is already reserved for this leaf and runtime id, by this owner. */
  predicate ReservedHere(prior: Option<Claim>, owner: Uuid, runtime: Uuid) {
    && prior.Some? && prior.value.owner == Some(owner) && prior.value.runtime == runtime
    && prior.value.phase.AuthorizedBirth? && prior.value.generation.Some?
  }

  /** Some closing entry is of this leaf. */
  predicate LeafIsClosing(closing: map<Uuid, P.Closing>, key: LeafKey) {
    exists r | r in closing :: closing[r].claim.key == key
  }

  /** When nobody else runs: the birth this authorization yields, if any. A runtime id that was used
      before is no obstacle. */
  function Authorized(s: P.State, key: LeafKey, runtime: Uuid, generation: Uuid): Option<Claim>
    requires A.WellIndexed(s.auth)
  {
    var prior := L.Current(s.books, key);
    if s.admissionClosed || runtime in s.cancelled || LeafIsClosing(s.closing, key) then None
    else if ReservedHere(prior, s.owner, runtime) then
      if Registers(s.auth, s.claims, prior.value) then prior else None
    else if prior.Some? && !prior.value.phase.Retired? then None
    else
      var reserved := L.Commit(s.books, s.owner, L.Reserve(prior, key, runtime, generation));
      if reserved.Some? && Registers(s.auth, s.claims, reserved.value.1) then Some(reserved.value.1) else None
  }

  /** The transition that attaches a proved claim: what this owner was authorized for is installed, and
      anything else is adopted. */
  function AttachIntent(owner: Uuid, claim: Claim, host: HostEvidence): L.Intent {
    if claim.owner == Some(owner) && claim.phase.AuthorizedBirth? then L.Install(claim, host) else L.Adopt(claim, host)
  }

  /** When nobody else runs: the claim this attachment yields, if any. */
  function Attached(s: P.State, key: LeafKey, host: HostEvidence): Option<Claim>
    requires A.WellIndexed(s.auth)
  {
    var prior := L.Current(s.books, key);
    if host.runtime in s.cancelled || host.target != Some(key) || prior.None? || !Proves(host, prior.value) then None
    else if prior.value.owner == Some(s.owner) && prior.value.phase.Active? then
      if Registers(s.auth, s.claims, prior.value) then prior else None
    else
      var committed := L.Commit(s.books, s.owner, AttachIntent(s.owner, prior.value, host));
      if committed.Some? && Registers(s.auth, s.claims, committed.value.1) then Some(committed.value.1) else None
  }

  /** When nobody else runs: what an attachment leaves behind. Nothing changes unless a claim is committed or
      found active; then the ledger has it, and it is entered if it can be. */
  predicate AttachLeaves(s: P.State, key: LeafKey, host: HostEvidence, books: L.Books, claims: map<LeafKey, Claim>,
                         auth: A.World)
    requires A.WellIndexed(s.auth)
  {
    var prior := L.Current(s.books, key);
    if host.runtime in s.cancelled || host.target != Some(key) || prior.None? || !Proves(host, prior.value) then
      books == s.books && claims == s.claims && auth == s.auth
    else if prior.value.owner == Some(s.owner) && prior.value.phase.Active? then
      books == s.books && Enters(s.auth, s.claims, prior.value, auth, claims)
    else
      var committed := L.Commit(s.books, s.owner, AttachIntent(s.owner, prior.value, host));
      if committed.None? then books == s.books && claims == s.claims && auth == s.auth
      else books == committed.value.0 && Enters(s.auth, s.claims, committed.value.1, auth, claims)
  }

  /** When nobody else runs: what an authorization leaves behind. */
  predicate AuthorizeLeaves(s: P.State, key: LeafKey, runtime: Uuid, generation: Uuid, books: L.Books,
                            claims: map<LeafKey, Claim>, auth: A.World)
    requires A.WellIndexed(s.auth)
  {
    var prior := L.Current(s.books, key);
    if s.admissionClosed || runtime in s.cancelled || LeafIsClosing(s.closing, key) then
      books == s.books && claims == s.claims && auth == s.auth
    else if ReservedHere(prior, s.owner, runtime) then
      books == s.books && Enters(s.auth, s.claims, prior.value, auth, claims)
    else if prior.Some? && !prior.value.phase.Retired? then books == s.books && claims == s.claims && auth == s.auth
    else ReserveLeaves(s.books, s.claims, s.auth, s.owner, L.Reserve(prior, key, runtime, generation), books, claims, auth)
  }

  predicate ReserveLeaves(books: L.Books, claims: map<LeafKey, Claim>, auth: A.World, owner: Uuid, intent: L.Intent,
                          books': L.Books, claims': map<LeafKey, Claim>, auth': A.World)
    requires A.WellIndexed(auth)
  {
    var reserved := L.Commit(books, owner, intent);
    if reserved.None? then books' == books && claims' == claims && auth' == auth
    else books' == reserved.value.0 && Enters(auth, claims, reserved.value.1, auth', claims')
  }

  /** The registries after an attempt to enter a claim. */
  predicate Enters(auth: A.World, claims: map<LeafKey, Claim>, claim: Claim, auth': A.World, claims': map<LeafKey, Claim>)
    requires A.WellIndexed(auth)
  {
    if Registers(auth, claims, claim) then
      claims' == claims[claim.key := claim] && auth' == RegisteredGates(auth, claims, claim)
    else claims' == claims && auth' == auth
  }

  // What attaching and authorizing mean, in terms of the fields.

  /** The claim is the current one of its leaf, with a row in the same phase, and it is entered with its own
      open gate, which is installed exactly if the claim is active. */
  predicate InForce(s: P.State, claim: Claim) {
    && claim.key in s.books.claims && s.books.claims[claim.key] == claim
    && claim.generation.Some? && claim.generation.value in s.books.births
    && s.books.births[claim.generation.value].phase == claim.phase
    && claim.key in s.claims && s.claims[claim.key] == claim
    && HasGate(s.auth, claim) && s.auth.gates[s.auth.registry[claim.key]].installed == claim.phase.Active?
  }

  /** The registered gate of the leaf belongs to this claim and is open. */
  predicate HasGate(auth: A.World, claim: Claim) {
    && A.WellIndexed(auth) && claim.key in auth.registry
    && A.OwnGate(auth, claim.key, auth.registry[claim.key], claim) && auth.gates[auth.registry[claim.key]].open
  }

  /** No gate of the leaf is open or has work in flight. */
  predicate LeafIsIdle(auth: A.World, key: LeafKey) {
    forall i | 0 <= i < |auth.gates| && auth.gates[i].claim.key == key :: !auth.gates[i].open && auth.permits[i] == 0
  }

  /** The host proves the current claim of the leaf, whose spawn permit was consumed; nobody cancelled it. */
  predicate Proved(s: P.State, host: HostEvidence, claim: Claim) {
    && claim.key in s.books.claims && s.books.claims[claim.key] == claim && Proves(host, claim)
    && claim.generation.value in s.books.births && s.books.births[claim.generation.value].consumed
    && host.runtime !in s.cancelled
  }

  /** An own birth, authorized or active already, that is entered and has its gate. */
  predicate OwnBirth(s: P.State, host: HostEvidence, claim: Claim) {
    && Proved(s, host, claim) && claim.owner == Some(s.owner) && claim.phase in {AuthorizedBirth, Active}
    && claim.key in s.claims && s.claims[claim.key] == claim && HasGate(s.auth, claim)
  }

  /** A birth of another owner, or of none any more, on a leaf that is idle here. */
  predicate Adoptable(s: P.State, host: HostEvidence, claim: Claim) {
    && Proved(s, host, claim) && claim.owner != Some(s.owner) && claim.phase in {AuthorizedBirth, Active, Detached}
    && claim.epoch < L.I64_MAX && LeafIsIdle(s.auth, claim.key)
  }

  /** The leaf has no birth or a retired one, is idle here, and nothing of it is closing or cancelled. */
  predicate Vacant(s: P.State, key: LeafKey, runtime: Uuid, generation: Uuid) {
    && !s.admissionClosed && runtime !in s.cancelled
    && (forall r | r in s.closing :: s.closing[r].claim.key != key)
    && (key in s.books.claims ==> s.books.claims[key].phase.Retired? && s.books.claims[key].epoch < L.I64_MAX)
    && generation !in s.books.births && |s.books.births| < L.MAX_GENERATIONS && LeafIsIdle(s.auth, key)
  }

  /** The claim a vacant leaf is reserved with. */
  function NewBirth(s: P.State, key: LeafKey, runtime: Uuid, generation: Uuid): Claim {
    Claim(key, runtime, Some(generation), if key in s.books.claims then s.books.claims[key].epoch + 1 else 1, Some(s.owner),
          AuthorizedBirth, true)
  }

  /** The leaf's birth was reserved by this owner under this runtime id, and has its entry and its gate. */
  predicate Reserved(s: P.State, key: LeafKey, runtime: Uuid, claim: Claim) {
    && !s.admissionClosed && runtime !in s.cancelled
    && (forall r | r in s.closing :: s.closing[r].claim.key != key)
    && key in s.books.claims && s.books.claims[key] == claim && claim.key == key && claim.runtime == runtime
    && claim.owner == Some(s.owner) && claim.phase.AuthorizedBirth? && claim.generation.Some?
    && key in s.claims && s.claims[key] == claim && HasGate(s.auth, claim)
  }

  /** No birth of the leaf may be handed out: admission is closed, the id was cancelled, the leaf is still
      closing, or it has a birth that is not retired and was not reserved here under this id. */
  predicate Refuses(s: P.State, key: LeafKey, runtime: Uuid) {
    || s.admissionClosed || runtime in s.cancelled
    || (exists r | r in s.closing :: s.closing[r].claim.key == key)
    || (key in s.books.claims
        && var prior := s.books.claims[key];
           && !prior.phase.Retired?
           && (prior.runtime != runtime || prior.owner != Some(s.owner) || !prior.phase.AuthorizedBirth?
               || prior.generation.None?))
  }

  lemma ReservedRegisters(auth: A.World, claims: map<LeafKey, Claim>, claim: Claim)
    requires claim.phase.AuthorizedBirth? && HasGate(auth, claim) && claim.key in claims && claims[claim.key] == claim
    ensures Registers(auth, claims, claim) && RegisteredGates(auth, claims, claim) == auth
    ensures claims[claim.key := claim] == claims
  {}

  lemma VacantRegisters(s: P.State, key: LeafKey, runtime: Uuid, generation: Uuid)
    requires P.Invariant(s) && Vacant(s, key, runtime, generation) && A.WellIndexed(s.auth)
    ensures var claim := NewBirth(s, key, runtime, generation);
            && Registers(s.auth, s.claims, claim)
            && var auth' := RegisteredGates(s.auth, s.claims, claim);
               HasGate(auth', claim) && !auth'.gates[auth'.registry[key]].installed
  {
    hide P.Invariant, Registers, RegisteredGates, LeafIsIdle, A.Invariant;
    RegistriesHold(s);
    NothingIsAhead(s, key);
    NewRegisters(s.auth, s.claims, NewBirth(s, key, runtime, generation));
  }

  /** A vacant leaf is reserved at its next epoch; the birth gets an entry and a gate that is not installed. */
  lemma VacantIsReserved(s: P.State, key: LeafKey, runtime: Uuid, generation: Uuid, s': P.State)
    requires P.Invariant(s) && Vacant(s, key, runtime, generation) && A.WellIndexed(s.auth)
    requires s'.owner == s.owner && AuthorizeLeaves(s, key, runtime, generation, s'.books, s'.claims, s'.auth)
    ensures var claim := NewBirth(s, key, runtime, generation);
            && Authorized(s, key, runtime, generation) == Some(claim) && InForce(s', claim)
            && s'.books.births[generation] == L.BirthRow(key, runtime, s.owner, claim.epoch, false, AuthorizedBirth)
  {
    hide P.Invariant, L.Commit, Registers, RegisteredGates, HasGate, L.Consistent, LeafIsIdle;
    BirthsHold(s);
    L.ReservesExactly(s.books, s.owner, key, runtime, generation);
    VacantRegisters(s, key, runtime, generation);
  }

  /** A retry hands out the same birth and changes nothing. */
  lemma ReservedIsRetried(s: P.State, key: LeafKey, runtime: Uuid, generation: Uuid, claim: Claim, s': P.State)
    requires Reserved(s, key, runtime, claim) && A.WellIndexed(s.auth)
    requires AuthorizeLeaves(s, key, runtime, generation, s'.books, s'.claims, s'.auth)
    ensures Authorized(s, key, runtime, generation) == Some(claim)
    ensures s'.books == s.books && s'.claims == s.claims && s'.auth == s.auth
  {
    hide Registers, RegisteredGates;
    ReservedRegisters(s.auth, s.claims, claim);
  }

  lemma RefusedStays(s: P.State, key: LeafKey, runtime: Uuid, generation: Uuid, s': P.State)
    requires Refuses(s, key, runtime) && A.WellIndexed(s.auth)
    requires AuthorizeLeaves(s, key, runtime, generation, s'.books, s'.claims, s'.auth)
    ensures Authorized(s, key, runtime, generation).None?
    ensures s'.books == s.books && s'.claims == s.claims && s'.auth == s.auth
  {}

  lemma SameRegisters(auth: A.World, claims: map<LeafKey, Claim>, claim: Claim)
    requires claim.phase in {AuthorizedBirth, Active} && HasGate(auth, claim)
    requires claim.key in claims && claims[claim.key] == claim
    ensures var active, gate := claim.(phase := Active), auth.registry[claim.key];
            && Registers(auth, claims, active)
            && RegisteredGates(auth, claims, active) == auth.(gates := auth.gates[gate := auth.gates[gate].(installed := true)])
  {}

  lemma NewRegisters(auth: A.World, claims: map<LeafKey, Claim>, claim: Claim)
    requires A.Invariant(auth) && LeafIsIdle(auth, claim.key)
    requires claim.phase in {AuthorizedBirth, Active} && claim.owner.Some? && claim.generation.Some?
    requires claim.key in claims ==> claims[claim.key].epoch < claim.epoch
    requires forall i | 0 <= i < |auth.gates| && auth.gates[i].claim.key == claim.key :: auth.gates[i].claim.epoch < claim.epoch
    ensures Registers(auth, claims, claim) && HasGate(RegisteredGates(auth, claims, claim), claim)
    ensures var auth' := RegisteredGates(auth, claims, claim);
            auth'.gates[auth'.registry[claim.key]].installed == claim.phase.Active?
  {
    A.InstallsExactly(auth, P.Context(claim));
    A.InstallIsSafe(auth, P.Context(claim));
  }

  /** No claim or gate of a leaf is ahead of the ledger. */
  lemma NothingIsAhead(s: P.State, key: LeafKey)
    requires P.Invariant(s)
    ensures key in s.claims ==> key in s.books.claims && s.claims[key].epoch <= s.books.claims[key].epoch
    ensures forall i | 0 <= i < |s.auth.gates| && s.auth.gates[i].claim.key == key ::
              key in s.books.claims && s.auth.gates[i].claim.epoch <= s.books.claims[key].epoch
  {
    hide A.Invariant, P.Births, P.FactOk;
    assert key in s.claims ==> P.ClaimEntryOk(s, key);
  }

  /** Attaching an own birth that is entered makes it active within its epoch and installs its gate. */
  lemma OwnBirthAttaches(s: P.State, host: HostEvidence, claim: Claim, s': P.State)
    requires P.Invariant(s) && OwnBirth(s, host, claim)
    requires s'.owner == s.owner && A.WellIndexed(s.auth) && AttachLeaves(s, claim.key, host, s'.books, s'.claims, s'.auth)
    ensures Attached(s, claim.key, host) == Some(claim.(phase := Active)) && InForce(s', claim.(phase := Active))
  {
    hide P.Invariant, L.Commit, Registers, RegisteredGates, Proves, L.Consistent;
    BirthsHold(s);
    HostTarget(host, claim);
    L.InstallsExactly(s.books, s.owner, claim, host);
    SameRegisters(s.auth, s.claims, claim);
    if claim.phase.Active? { ActiveRow(s.books, claim); }
  }

  lemma HostTarget(host: HostEvidence, claim: Claim)
    requires Proves(host, claim)
    ensures host.target == Some(claim.key) && claim.generation.Some?
  {}

  lemma ActiveRow(books: L.Books, claim: Claim)
    requires L.Consistent(books) && L.Current(books, claim.key) == Some(claim) && claim.generation.Some?
    ensures claim.generation.value in books.births
    ensures claim.phase.Active? ==> books.births[claim.generation.value].phase.Active?
  {
    assert L.ClaimOk(books, claim.key);
  }

  lemma AdoptedRegisters(s: P.State, host: HostEvidence, claim: Claim)
    requires P.Invariant(s) && Adoptable(s, host, claim) && A.WellIndexed(s.auth) && claim.generation.Some?
    ensures var next := claim.(epoch := claim.epoch + 1, owner := Some(s.owner), phase := Active);
            && Registers(s.auth, s.claims, next)
            && var auth' := RegisteredGates(s.auth, s.claims, next);
               HasGate(auth', next) && auth'.gates[auth'.registry[next.key]].installed
  {
    hide P.Invariant, Registers, RegisteredGates, HasGate, Proves, LeafIsIdle, A.Invariant;
    RegistriesHold(s);
    NothingIsAhead(s, claim.key);
    NewRegisters(s.auth, s.claims, claim.(epoch := claim.epoch + 1, owner := Some(s.owner), phase := Active));
  }

  /** Adopting a birth takes it over at the next epoch, with a gate of its own. */
  lemma AdoptableAttaches(s: P.State, host: HostEvidence, claim: Claim, s': P.State)
    requires P.Invariant(s) && Adoptable(s, host, claim)
    requires s'.owner == s.owner && A.WellIndexed(s.auth) && AttachLeaves(s, claim.key, host, s'.books, s'.claims, s'.auth)
    ensures var next := claim.(epoch := claim.epoch + 1, owner := Some(s.owner), phase := Active);
            Attached(s, claim.key, host) == Some(next) && InForce(s', next)
  {
    hide P.Invariant, L.Commit, Registers, RegisteredGates, HasGate, Proves, L.Consistent, LeafIsIdle;
    BirthsHold(s);
    HostTarget(host, claim);
    L.AdoptsExactly(s.books, s.owner, claim, host);
    AdoptedRegisters(s, host, claim);
  }

  /** The ledger still has the claim that is closing and accepts its end. */
  predicate MayFinish(books: L.Books, owner: Uuid, entry: P.Closing, release: bool) {
    var current := L.Current(books, entry.claim.key);
    && current.Some? && (entry.claim == current.value || SameAuthority(entry.claim, current.value))
    && L.Commit(books, owner, P.FinishIntent(entry.permanent, current.value, release)).Some?
  }

  function FinishedBooks(books: L.Books, owner: Uuid, entry: P.Closing, release: bool): L.Books
    requires MayFinish(books, owner, entry, release)
  {
    L.Commit(books, owner, P.FinishIntent(entry.permanent, books.claims[entry.claim.key], release)).value.0
  }

  /** The birth that is closing can be fenced durably, or is fenced already. */
  predicate MayFence(books: L.Books, closing: map<Uuid, P.Closing>, owner: Uuid, prior: Claim) {
    && prior.key in books.claims
    && var current := books.claims[prior.key];
       if prior.phase.Retiring? then current == prior
       else
         && SameAuthority(prior, current) && current.owner == Some(owner) && current.epoch < L.I64_MAX
         && prior.runtime in closing && SameAuthority(closing[prior.runtime].claim, prior)
  }

  /** The claim that a durable fence leaves. */
  function Fenced(current: Claim): Claim {
    current.(epoch := current.epoch + 1, phase := Retiring, requireBinding := true)
  }

  /** The host proves a birth that this owner has entered: its gate is idle, nothing is closing under its id
      yet, and the ledger still has the claim. */
  predicate ClosesCleanly(s: P.State, host: HostEvidence) {
    && host.target.Some? && host.target.value in s.claims
    && var claim := s.claims[host.target.value];
       && claim.key == host.target.value && Proves(host, claim) && claim.owner == Some(s.owner)
       && host.runtime !in s.closing && HasGate(s.auth, claim) && s.auth.gates[s.auth.registry[claim.key]].inFlight == 0
       && claim.key in s.books.claims && SameAuthority(claim, s.books.claims[claim.key])
       && s.books.claims[claim.key].epoch < L.I64_MAX
  }

  /** The birth that is closing is drained and can be fenced. */
  predicate ReadyToFence(books: L.Books, closing: map<Uuid, P.Closing>, auth: A.World, owner: Uuid, runtime: Uuid,
                         evidence: Option<HostEvidence>) {
    && runtime in closing && (evidence.Some? ==> Proves(evidence.value, closing[runtime].claim))
    && closing[runtime].gate < |auth.gates| && A.Drained(auth, closing[runtime].gate)
    && MayFence(books, closing, owner, closing[runtime].claim)
  }

  /** The bound close of such a birth leaves it ready to be fenced. */
  lemma CleanCloseDrains(s: P.State, host: HostEvidence)
    requires ClosesCleanly(s, host) && A.WellIndexed(s.auth)
    ensures P.BoundCloseOf(s, host).Some? && P.Enabled(s, P.CloseBound(host))
    ensures var after := P.BoundCloseOf(s, host).value;
            && ReadyToFence(s.books, after.closing, after.auth, s.owner, host.runtime, Some(host))
            && host.target.Some? && host.runtime in after.closing
            && after.closing[host.runtime].claim.key == host.target.value
            && !after.closing[host.runtime].claim.phase.Retiring?
  {}

  /** Every registry that the exit barrier reads is clear. */
  predicate NothingLocal(s: P.State) {
    && s.factories == {} && s.observed == {}
    && (forall key | key in s.claims :: !s.claims[key].phase.AuthorizedBirth?)
    && (forall birth | birth in s.queued :: s.queued[birth])
    && (forall runtime | runtime in s.closing :: !s.closing[runtime].permanent)
  }

  /** The claim a finish leaves: retired, unless a remote runtime is only released. */
  function FinishedClaim(current: Claim, entry: P.Closing, release: bool): Claim {
    if release && !entry.permanent then current.(epoch := current.epoch + 1, owner := None, phase := Detached)
    else current.(epoch := current.epoch + 1, phase := Retired, requireBinding := true)
  }

  /** A finish is accepted exactly for the claim that was closing, fenced or not, while this owner still has
      it and its epoch can grow; only an active one can be released. It moves that claim, and retires its row
      exactly if it is not a release; nothing else changes. */
  lemma FinishesExactly(books: L.Books, owner: Uuid, entry: P.Closing, release: bool)
    requires L.Consistent(books)
    ensures var key, current := entry.claim.key, L.Current(books, entry.claim.key);
            && (MayFinish(books, owner, entry, release)
                <==> && current.Some? && (entry.claim == current.value || SameAuthority(entry.claim, current.value))
                     && current.value.owner == Some(owner) && current.value.epoch < L.I64_MAX
                     && (if release && !entry.permanent then current.value.phase.Active? else !current.value.phase.Retired?))
            && (MayFinish(books, owner, entry, release) ==>
                  var next, left := FinishedClaim(current.value, entry, release), FinishedBooks(books, owner, entry, release);
                  && left.claims == books.claims[key := next]
                  && (next.generation.None? ==> left.births == books.births)
                  && (next.generation.Some? ==>
                        && next.generation.value in books.births
                        && var row := books.births[next.generation.value];
                           left.births == books.births[next.generation.value :=
                                            if next.phase.Retired? then row.(phase := Retired) else row]))
  {
    hide L.Commit, L.Consistent;
    var current := L.Current(books, entry.claim.key);
    if current.Some? {
      CurrentHasItsKey(books, entry.claim.key);
      if current.value.generation.Some? {
        L.ClosesExactly(books, owner, current.value);
      } else {
        L.ClosesUnbound(books, owner, current.value, HostEvidence(0, None, None));
      }
    }
  }

  lemma CurrentHasItsKey(books: L.Books, key: LeafKey)
    requires L.Consistent(books) && key in books.claims
    ensures books.claims[key].key == key
  {
    assert L.ClaimOk(books, key);
  }

  lemma FenceIsCurrent(books: L.Books, owner: Uuid, current: Claim)
    requires L.Commit(books, owner, L.FenceRetire(current)).Some?
    ensures var (books', fenced) := L.Commit(books, owner, L.FenceRetire(current)).value;
            fenced.phase.Retiring? && fenced.key == current.key && L.Current(books', current.key) == Some(fenced)
  {}

  /** What a quiet authorization leaves, for each state of the leaf. */
  lemma AuthorizationsEndWell(s: P.State, key: LeafKey, runtime: Uuid, generation: Uuid, s': P.State)
    requires P.Invariant(s) && s'.owner == s.owner && A.WellIndexed(s.auth)
    requires AuthorizeLeaves(s, key, runtime, generation, s'.books, s'.claims, s'.auth)
    ensures Vacant(s, key, runtime, generation) ==>
              var claim := NewBirth(s, key, runtime, generation);
              && Authorized(s, key, runtime, generation) == Some(claim) && InForce(s', claim)
              && s'.books.births[generation] == L.BirthRow(key, runtime, s.owner, claim.epoch, false, AuthorizedBirth)
    ensures forall prior | Reserved(s, key, runtime, prior) ::
              && Authorized(s, key, runtime, generation) == Some(prior)
              && s'.books == s.books && s'.claims == s.claims && s'.auth == s.auth
    ensures Refuses(s, key, runtime) ==>
              && Authorized(s, key, runtime, generation).None?
              && s'.books == s.books && s'.claims == s.claims && s'.auth == s.auth
  {
    hide P.Invariant, Authorized, AuthorizeLeaves, Vacant, Reserved, Refuses, NewBirth, InForce;
    if Vacant(s, key, runtime, generation) {
      VacantIsReserved(s, key, runtime, generation, s');
    }
    forall prior | Reserved(s, key, runtime, prior)
      ensures && Authorized(s, key, runtime, generation) == Some(prior)
              && s'.books == s.books && s'.claims == s.claims && s'.auth == s.auth
    {
      ReservedIsRetried(s, key, runtime, generation, prior, s');
    }
    if Refuses(s, key, runtime) {
      RefusedStays(s, key, runtime, generation, s');
    }
  }

  /** What a quiet attachment leaves, for each kind of claim it may find. */
  lemma AttachmentsEndWell(s: P.State, key: LeafKey, host: HostEvidence, s': P.State)
    requires P.Invariant(s) && s'.owner == s.owner && A.WellIndexed(s.auth)
    requires AttachLeaves(s, key, host, s'.books, s'.claims, s'.auth)
    ensures forall prior: Claim | prior.key == key && OwnBirth(s, host, prior) ::
              Attached(s, key, host) == Some(prior.(phase := Active)) && InForce(s', prior.(phase := Active))
    ensures forall prior: Claim | prior.key == key && Adoptable(s, host, prior) ::
              var next := prior.(epoch := prior.epoch + 1, owner := Some(s.owner), phase := Active);
              Attached(s, key, host) == Some(next) && InForce(s', next)
    ensures (key in s.books.claims ==> !Proves(host, s.books.claims[key])) ==>
              Attached(s, key, host).None? && s'.books == s.books && s'.claims == s.claims && s'.auth == s.auth
  {
    hide P.Invariant, Attached, AttachLeaves, OwnBirth, Adoptable, InForce, A.WellIndexed, Proves;
    forall prior: Claim | prior.key == key && OwnBirth(s, host, prior)
      ensures Attached(s, key, host) == Some(prior.(phase := Active)) && InForce(s', prior.(phase := Active))
    {
      OwnBirthAttaches(s, host, prior, s');
    }
    forall prior: Claim | prior.key == key && Adoptable(s, host, prior)
      ensures var next := prior.(epoch := prior.epoch + 1, owner := Some(s.owner), phase := Active);
              Attached(s, key, host) == Some(next) && InForce(s', next)
    {
      AdoptableAttaches(s, host, prior, s');
    }
    if key in s.books.claims ==> !Proves(host, s.books.claims[key]) { UnprovedStays(s, key, host, s'); }
  }

  lemma UnprovedStays(s: P.State, key: LeafKey, host: HostEvidence, s': P.State)
    requires A.WellIndexed(s.auth) && AttachLeaves(s, key, host, s'.books, s'.claims, s'.auth)
    requires key in s.books.claims ==> !Proves(host, s.books.claims[key])
    ensures Attached(s, key, host).None? && s'.books == s.books && s'.claims == s.claims && s'.auth == s.auth
  {}

  class HookRuntime {
    const owner: Uuid
    const remote: set<Uuid>
    const leafOf: Uuid -> LeafKey
    var auth: A.World
    var claims: map<LeafKey, Claim>
    var closing: map<Uuid, P.Closing>
    var cancelled: set<Uuid>
    var admissionClosed: bool
    var factories: set<P.Birth>
    var queued: map<P.Birth, bool>
    var observed: set<P.Birth>
    // The ledger, the physical world and the history of what threads have learned.
    var books: L.Books
    var life: map<Uuid, P.Life>
    var known: set<Uuid>
    var facts: set<P.Fact>

    ghost function State(): P.State
      reads this
    {
      P.State(owner, remote, leafOf, auth, claims, closing, cancelled, admissionClosed, factories, queued,
              observed, books, life, known, facts)
    }

    ghost predicate Valid()
      reads this
    {
      P.Invariant(State())
    }

    /** A process starts with empty registries, over a ledger that other processes already use, under an
        owner id that nobody has used before. */
    constructor (owner: Uuid, remote: set<Uuid>, leafOf: Uuid -> LeafKey, books: L.Books, life: map<Uuid, P.Life>)
      requires L.Consistent(books) && life.Keys == books.births.Keys
      requires forall g | g in books.births :: books.births[g].owner != owner
      requires forall g | g in life :: !P.Unreceived(life[g]) && (life[g].Running? ==> !books.births[g].phase.Retired?)
      ensures Valid() && claims == map[] && closing == map[] && factories == {} && facts == {}
      ensures this.owner == owner && !admissionClosed
    {
      this.owner, this.remote, this.leafOf, this.books, this.life := owner, remote, leafOf, books, life;
      auth, claims, closing, cancelled := A.Initial, map[], map[], {};
      admissionClosed, factories, queued, observed, known, facts := false, {}, map[], {}, {}, {};
      new;
      A.InitialInvariant();
      hide L.Consistent;
    }

    /** The registries took exactly one protocol step since `before`. */
    ghost predicate Stepped(before: P.State, a: P.Action)
      reads this
    {
      P.Enabled(before, a) && State() == P.Apply(before, a) && Valid() && P.Grows(before, State())
    }

    /** The registries are sound, and since `s0` they only moved forward. */
    ghost predicate Since(s0: P.State)
      reads this
    {
      Valid() && P.Grows(s0, State())
    }

    method Become(next: P.State)
      requires next.owner == owner && next.remote == remote && next.leafOf == leafOf
      modifies this
      ensures State() == next
    {
      auth, claims, closing, cancelled := next.auth, next.claims, next.closing, next.cancelled;
      admissionClosed, factories, queued := next.admissionClosed, next.factories, next.queued;
      observed, books, life := next.observed, next.books, next.life;
      known, facts := next.known, next.facts;
    }

    /** The other threads run. */
    method Interfere(schedule: seq<P.Action>, ghost s0: P.State)
      requires Since(s0)
      modifies this
      ensures old(facts) <= facts && old(cancelled) <= cancelled
      ensures old(admissionClosed) ==> admissionClosed
      ensures LivesForward(old(life), life)
      ensures BarrierKept(old(admissionClosed), old(facts), facts)
      ensures schedule == [] ==>
                && auth == old(auth) && claims == old(claims) && closing == old(closing) && cancelled == old(cancelled)
                && admissionClosed == old(admissionClosed) && factories == old(factories) && queued == old(queued)
                && observed == old(observed) && books == old(books) && life == old(life) && known == old(known)
                && facts == old(facts)
      ensures LeavesQueue(schedule) ==> queued == old(queued)
      ensures LeavesAdmission(schedule) ==> admissionClosed == old(admissionClosed) && FreshStays(old(life), life)
      ensures State() == Run(old(State()), schedule) && Since(s0)
    {
      hide Run, P.Invariant, P.Grows, P.Enabled, P.Apply, LivesForward, FreshStays, LeavesQueue, LeavesAdmission,
        BarrierKept, A.WellIndexed;
      ghost var before := State();
      RunKeeps(s0, before, schedule);
      Become(Run(P.State(owner, remote, leafOf, auth, claims, closing, cancelled, admissionClosed,
                         factories, queued, observed, books, life, known, facts), schedule));
    }

    lemma GatesAreIndexed(s0: P.State)
      requires Since(s0)
      ensures A.WellIndexed(auth)
    {}

    // -------------------------------------------------------------------------------------------
    // Sections

    method CancelSection(runtime: Uuid, ghost s0: P.State)
      requires Since(s0)
      modifies `cancelled
      ensures cancelled == old(cancelled) + {runtime}
      ensures Stepped(old(State()), P.Cancel(runtime)) && Since(s0)
    {
      hide P.Invariant, P.Grows;
      GatesHold(State());
      TakeStep(s0, State(), P.Cancel(runtime));
      cancelled := cancelled + {runtime};
    }

    method TakeClaimSection(key: LeafKey, claim: Claim, permanent: bool, ghost s0: P.State)
      requires key in claims && claims[key] == claim && claim.runtime in cancelled && (permanent || claim.runtime in remote)
      requires Since(s0)
      modifies `claims, `facts
      ensures old(facts) <= facts
      ensures P.Taken(claim, permanent) in facts && claims == old(claims) - {key}
      ensures Stepped(old(State()), P.TakeClaim(key, permanent)) && Since(s0)
    {
      hide P.Invariant, P.Grows;
      GatesHold(State());
      TakeStep(s0, State(), P.TakeClaim(key, permanent));
      facts := facts + {P.Taken(claim, permanent)};
      claims := claims - {key};
    }

    method RetireTakenSection(claim: Claim, permanent: bool, gate: nat, ghost s0: P.State)
      requires P.Taken(claim, permanent) in facts && A.WellIndexed(auth) && A.Registered(auth, claim) == Ok(gate)
      requires Since(s0)
      modifies `auth, `facts
      ensures old(facts) <= facts
      ensures P.FencedGate(claim, permanent, gate) in facts
      ensures auth == A.AfterBeginRetire(old(auth), claim)
      ensures Stepped(old(State()), P.RetireTaken(claim, permanent)) && Since(s0)
    {
      hide P.Invariant, P.Grows, P.Enabled, P.Apply, A.AfterBeginRetire, A.WellIndexed, A.Registered;
      GatesHold(State());
      RetireTakenEffect(State(), claim, permanent, gate);
      TakeStep(s0, State(), P.RetireTaken(claim, permanent));
      facts := facts + {P.FencedGate(claim, permanent, gate)};
      auth := A.AfterBeginRetire(auth, claim);
    }

    method InsertClosingSection(claim: Claim, permanent: bool, gate: nat, ghost s0: P.State)
      requires P.FencedGate(claim, permanent, gate) in facts
      requires Since(s0)
      modifies `closing
      ensures closing == old(closing)[claim.runtime := P.Closing(claim, gate, permanent, false)]
      ensures Stepped(old(State()), P.InsertClosing(claim, permanent, gate)) && Since(s0)
    {
      hide P.Invariant, P.Grows;
      GatesHold(State());
      TakeStep(s0, State(), P.InsertClosing(claim, permanent, gate));
      closing := closing[claim.runtime := P.Closing(claim, gate, permanent, false)];
    }

    predicate Owns(host: HostEvidence, claim: Claim) {
      Proves(host, claim) && claim.owner == Some(owner)
    }

    ghost predicate OwnsRegistered(host: HostEvidence)
      reads `claims
    {
      host.target.Some? && host.target.value in claims && Owns(host, claims[host.target.value])
    }

    /** Both registries are locked: the gate is fenced and the claim moves from one to the other. */
    method MoveBoundSection(host: HostEvidence, claim: Claim, gate: nat, ghost s0: P.State)
      requires OwnsRegistered(host) && claims[host.target.value] == claim && host.runtime !in closing
      requires A.WellIndexed(auth) && A.Registered(auth, claim) == Ok(gate) && claim.key == host.target.value
      requires Since(s0)
      modifies `auth, `claims, `closing, `facts
      ensures old(facts) <= facts
      ensures P.BoundClosed(P.Birth(host.runtime, host.generation)) in facts
      ensures auth == A.AfterBeginRetire(old(auth), claim) && claims == old(claims) - {claim.key}
      ensures closing == old(closing)[host.runtime := P.Closing(claim, gate, true, false)]
      ensures Stepped(old(State()), P.CloseBound(host)) && Since(s0)
    {
      hide P.Invariant, P.Grows, P.Enabled, P.Apply, A.Registered, A.AfterBeginRetire, A.WellIndexed;
      GatesHold(State());
      MoveBoundEffect(State(), host, claim, gate);
      TakeStep(s0, State(), P.CloseBound(host));
      auth := A.AfterBeginRetire(auth, claim);
      claims := claims - {claim.key};
      closing := closing[host.runtime := P.Closing(claim, gate, true, false)];
      facts := facts + {P.BoundClosed(P.Birth(host.runtime, host.generation))};
    }

    /** The binding is already closing: nothing moves. */
    method KeepBoundSection(host: HostEvidence, ghost s0: P.State)
      requires !OwnsRegistered(host) && host.runtime in closing && Owns(host, closing[host.runtime].claim)
      requires Since(s0)
      modifies `facts
      ensures old(facts) <= facts
      ensures P.BoundClosed(P.Birth(host.runtime, host.generation)) in facts
      ensures Stepped(old(State()), P.CloseBound(host)) && Since(s0)
    {
      hide P.Invariant, P.Grows;
      GatesHold(State());
      TakeStep(s0, State(), P.CloseBound(host));
      facts := facts + {P.BoundClosed(P.Birth(host.runtime, host.generation))};
    }

    method CloseBoundSection(host: HostEvidence, ghost s0: P.State) returns (ok: bool)
      requires Since(s0)
      modifies `auth, `claims, `closing, `facts
      ensures ok <==> P.Enabled(old(State()), P.CloseBound(host))
      ensures !ok ==> State() == old(State())
      ensures ok ==> P.BoundClosed(P.Birth(host.runtime, host.generation)) in facts
      ensures ok ==> host.runtime in closing && Owns(host, closing[host.runtime].claim)
      ensures ok ==> A.WellIndexed(old(auth)) && P.BoundCloseOf(old(State()), host).Some?
                     && var after := P.BoundCloseOf(old(State()), host).value;
                        auth == after.auth && claims == after.claims && closing == after.closing
      ensures ok ==> Stepped(old(State()), P.CloseBound(host))
      ensures old(facts) <= facts && Since(s0)
    {
      hide P.Invariant, P.Grows, P.Apply, A.Registered, A.WellIndexed;
      GatesHold(State());
      ClaimsHold(State());
      if host.target.Some? && host.target.value in claims && Owns(host, claims[host.target.value]) {
        var claim := claims[host.target.value];
        if host.runtime in closing { return false; }
        var gate := A.Registered(auth, claim);
        if gate.Denied? { return false; }
        MoveBoundSection(host, claim, gate.value, s0);
        return true;
      }
      if host.runtime !in closing || !Owns(host, closing[host.runtime].claim) { return false; }
      KeepBoundSection(host, s0);
      ok := true;
    }

    method SeeDrainedSection(runtime: Uuid, entry: P.Closing, ghost s0: P.State)
      requires runtime in cancelled && runtime in closing && closing[runtime] == entry
      requires entry.gate < |auth.gates| && A.Drained(auth, entry.gate)
      requires Since(s0)
      modifies `facts
      ensures old(facts) <= facts
      ensures P.SawDrained(entry.claim) in facts
      ensures Stepped(old(State()), P.SeeDrained(runtime)) && Since(s0)
    {
      hide P.Invariant, P.Grows;
      GatesHold(State());
      TakeStep(s0, State(), P.SeeDrained(runtime));
      facts := facts + {P.SawDrained(entry.claim)};
    }

    method ReadForFenceSection(prior: Claim, current: Claim, ghost s0: P.State)
      requires P.SawDrained(prior) in facts && L.Current(books, prior.key) == Some(current) && SameAuthority(prior, current)
      requires Since(s0)
      modifies `facts
      ensures old(facts) <= facts
      ensures P.FenceRead(prior, current) in facts
      ensures Stepped(old(State()), P.ReadForFence(prior)) && Since(s0)
    {
      hide P.Invariant, P.Grows;
      GatesHold(State());
      TakeStep(s0, State(), P.ReadForFence(prior));
      facts := facts + {P.FenceRead(prior, current)};
    }

    method CommitFenceSection(prior: Claim, current: Claim, ghost s0: P.State) returns (fenced: Claim)
      requires P.FenceRead(prior, current) in facts && L.Commit(books, owner, L.FenceRetire(current)).Some?
      requires Since(s0)
      modifies `books, `facts
      ensures old(facts) <= facts
      ensures L.Commit(old(books), owner, L.FenceRetire(current)) == Some((books, fenced))
      ensures P.FenceCommitted(prior, fenced) in facts
      ensures Stepped(old(State()), P.CommitFence(prior, current)) && Since(s0)
    {
      hide P.Invariant, P.Grows, L.Commit;
      GatesHold(State());
      TakeStep(s0, State(), P.CommitFence(prior, current));
      var committed := L.Commit(books, owner, L.FenceRetire(current)).value;
      books, fenced := committed.0, committed.1;
      facts := facts + {P.FenceCommitted(prior, fenced)};
    }

    method StoreFenceSection(prior: Claim, fenced: Claim, ghost s0: P.State)
      requires P.FenceCommitted(prior, fenced) in facts
      requires prior.runtime in closing && SameAuthority(closing[prior.runtime].claim, prior)
      requires Since(s0)
      modifies `closing, `facts
      ensures old(facts) <= facts
      ensures closing == old(closing)[prior.runtime := old(closing)[prior.runtime].(claim := fenced)]
      ensures P.Prepared(P.BirthOf(prior)) in facts
      ensures Stepped(old(State()), P.StoreFence(prior, fenced)) && Since(s0)
    {
      hide P.Invariant, P.Grows;
      GatesHold(State());
      TakeStep(s0, State(), P.StoreFence(prior, fenced));
      closing := closing[prior.runtime := closing[prior.runtime].(claim := fenced)];
      facts := facts + {P.Prepared(P.BirthOf(prior))};
    }

    method AlreadyFencedSection(prior: Claim, ghost s0: P.State)
      requires P.SawDrained(prior) in facts && prior.phase.Retiring? && L.Current(books, prior.key) == Some(prior)
      requires Since(s0)
      modifies `facts
      ensures old(facts) <= facts
      ensures P.Prepared(P.BirthOf(prior)) in facts
      ensures Stepped(old(State()), P.AlreadyFenced(prior)) && Since(s0)
    {
      hide P.Invariant, P.Grows;
      GatesHold(State());
      TakeStep(s0, State(), P.AlreadyFenced(prior));
      facts := facts + {P.Prepared(P.BirthOf(prior))};
    }

    /** No birth under this runtime id is left: each is retired, or does not run and never will. */
    ghost predicate IsOver(runtime: Uuid)
      reads this
    {
      runtime in cancelled && P.AllGone(State(), runtime)
    }

    method StartConfirmSection(runtime: Uuid, ghost s0: P.State)
      requires IsOver(runtime)
      requires Since(s0)
      modifies `facts
      ensures old(facts) <= facts
      ensures P.Confirming(runtime) in facts
      ensures Stepped(old(State()), P.StartConfirm(runtime)) && Since(s0)
    {
      hide P.Invariant, P.Grows;
      GatesHold(State());
      TakeStep(s0, State(), P.StartConfirm(runtime));
      facts := facts + {P.Confirming(runtime)};
    }

    method MarkConfirmedSection(runtime: Uuid, ghost s0: P.State)
      requires P.Confirming(runtime) in facts && runtime in closing
      requires Since(s0)
      modifies `closing
      ensures closing == old(closing)[runtime := old(closing)[runtime].(confirmed := true)]
      ensures Stepped(old(State()), P.MarkConfirmed(runtime)) && Since(s0)
    {
      hide P.Invariant, P.Grows;
      GatesHold(State());
      TakeStep(s0, State(), P.MarkConfirmed(runtime));
      closing := closing[runtime := closing[runtime].(confirmed := true)];
    }

    method FinishCheckSection(runtime: Uuid, entry: P.Closing, ghost s0: P.State)
      requires runtime in closing && closing[runtime] == entry && entry.gate < |auth.gates| && A.Drained(auth, entry.gate)
      requires entry.permanent ==> entry.confirmed
      requires Since(s0)
      modifies `facts
      ensures old(facts) <= facts
      ensures P.FinishReady(entry.claim, entry.permanent, entry.gate) in facts
      ensures Stepped(old(State()), P.FinishCheck(runtime)) && Since(s0)
    {
      hide P.Invariant, P.Grows;
      GatesHold(State());
      TakeStep(s0, State(), P.FinishCheck(runtime));
      facts := facts + {P.FinishReady(entry.claim, entry.permanent, entry.gate)};
    }

    method FinishReadSection(prior: Claim, permanent: bool, gate: nat, current: Claim, ghost s0: P.State)
      requires P.FinishReady(prior, permanent, gate) in facts && L.Current(books, prior.key) == Some(current)
      requires prior == current || SameAuthority(prior, current)
      requires Since(s0)
      modifies `facts
      ensures old(facts) <= facts
      ensures P.FinishRead(prior, permanent, gate, current) in facts
      ensures Stepped(old(State()), P.FinishReadLedger(prior, permanent, gate)) && Since(s0)
    {
      hide P.Invariant, P.Grows, P.Enabled, P.Apply;
      GatesHold(State());
      FinishReadEffect(State(), prior, permanent, gate, current);
      TakeStep(s0, State(), P.FinishReadLedger(prior, permanent, gate));
      facts := facts + {P.FinishRead(prior, permanent, gate, current)};
    }

    method FinishCommitSection(prior: Claim, permanent: bool, gate: nat, current: Claim, release: bool,
            ghost s0: P.State)
      requires P.FinishRead(prior, permanent, gate, current) in facts
      requires release || permanent || P.Confirming(prior.runtime) in facts
      requires L.Commit(books, owner, P.FinishIntent(permanent, current, release)).Some?
      requires Since(s0)
      modifies `books, `facts
      ensures old(facts) <= facts
      ensures books == L.Commit(old(books), owner, P.FinishIntent(permanent, current, release)).value.0
      ensures P.FinishCommitted(prior, !release || permanent) in facts
      ensures Stepped(old(State()), P.FinishCommit(prior, permanent, gate, current, release)) && Since(s0)
    {
      hide P.Invariant, P.Grows, L.Commit, P.FinishIntent;
      GatesHold(State());
      TakeStep(s0, State(), P.FinishCommit(prior, permanent, gate, current, release));
      books := L.Commit(books, owner, P.FinishIntent(permanent, current, release)).value.0;
      facts := facts + {P.FinishCommitted(prior, !release || permanent)};
    }

    method FinishRemoveSection(prior: Claim, retired: bool, ghost s0: P.State)
      requires P.FinishCommitted(prior, retired) in facts
      requires prior.runtime in closing && closing[prior.runtime].claim == prior
      requires Since(s0)
      modifies `closing
      ensures closing == old(closing) - {prior.runtime}
      ensures Stepped(old(State()), P.FinishRemove(prior, retired)) && Since(s0)
    {
      hide P.Invariant, P.Grows;
      GatesHold(State());
      TakeStep(s0, State(), P.FinishRemove(prior, retired));
      closing := closing - {prior.runtime};
    }

    method AcceptFactorySection(claim: Claim, ghost s0: P.State)
      requires !admissionClosed && claim.owner == Some(owner) && P.Permitted(State(), claim)
      requires Since(s0)
      modifies `factories, `facts
      ensures old(facts) <= facts
      ensures P.Accepted(P.BirthOf(claim)) in facts && factories == old(factories) + {P.BirthOf(claim)}
      ensures Stepped(old(State()), P.AcceptFactory(claim)) && Since(s0)
    {
      hide P.Invariant, P.Grows;
      GatesHold(State());
      TakeStep(s0, State(), P.AcceptFactory(claim));
      factories := factories + {P.BirthOf(claim)};
      facts := facts + {P.Accepted(P.BirthOf(claim))};
    }

    method ObserveSection(birth: P.Birth, ghost s0: P.State)
      requires Since(s0)
      modifies `observed, `facts
      ensures old(facts) <= facts
      ensures P.Observed(birth) in facts && observed == old(observed) + {birth}
      ensures Stepped(old(State()), P.Observe(birth)) && Since(s0)
    {
      hide P.Invariant, P.Grows;
      GatesHold(State());
      TakeStep(s0, State(), P.Observe(birth));
      observed := observed + {birth};
      facts := facts + {P.Observed(birth)};
    }

    method DropFactorySection(birth: P.Birth, ghost s0: P.State)
      requires P.Observed(birth) in facts || P.CloseProved(birth) in facts
      requires Since(s0)
      modifies `factories
      ensures factories == old(factories) - {birth}
      ensures Stepped(old(State()), P.DropFactory(birth)) && Since(s0)
    {
      hide P.Invariant, P.Grows;
      GatesHold(State());
      TakeStep(s0, State(), P.DropFactory(birth));
      factories := factories - {birth};
    }

    method QueueSection(birth: P.Birth, ghost s0: P.State)
      requires P.BoundClosed(birth) in facts && birth !in queued
      requires Since(s0)
      modifies `queued
      ensures queued == old(queued)[birth := false]
      ensures Stepped(old(State()), P.QueueRetirement(birth)) && Since(s0)
    {
      hide P.Invariant, P.Grows;
      GatesHold(State());
      TakeStep(s0, State(), P.QueueRetirement(birth));
      queued := queued[birth := false];
    }

    method ProveCloseSection(birth: P.Birth, ghost s0: P.State)
      requires P.Prepared(birth) in facts && P.BoundClosed(birth) in facts
      requires birth.generation.Some? && birth.generation.value in life && life[birth.generation.value].Over?
      requires Since(s0)
      modifies `facts
      ensures old(facts) <= facts
      ensures P.CloseProved(birth) in facts
      ensures Stepped(old(State()), P.ProveClose(birth)) && Since(s0)
    {
      hide P.Invariant, P.Grows;
      GatesHold(State());
      TakeStep(s0, State(), P.ProveClose(birth));
      facts := facts + {P.CloseProved(birth)};
    }

    method CompleteQueuedSection(birth: P.Birth, ghost s0: P.State)
      requires P.CloseProved(birth) in facts
      requires Since(s0)
      modifies `queued
      ensures queued == old(queued)[birth := true]
      ensures Stepped(old(State()), P.CompleteQueued(birth)) && Since(s0)
    {
      hide P.Invariant, P.Grows;
      GatesHold(State());
      TakeStep(s0, State(), P.CompleteQueued(birth));
      queued := queued[birth := true];
    }

    method UnobserveSection(birth: P.Birth, ghost s0: P.State)
      requires P.CloseProved(birth) in facts
      requires Since(s0)
      modifies `observed
      ensures observed == old(observed) - {birth}
      ensures Stepped(old(State()), P.Unobserve(birth)) && Since(s0)
    {
      hide P.Invariant, P.Grows;
      GatesHold(State());
      TakeStep(s0, State(), P.Unobserve(birth));
      observed := observed - {birth};
    }

    method ReadForRefreshSection(claim: Claim, ghost s0: P.State)
      requires Since(s0)
      modifies `facts
      ensures old(facts) <= facts
      ensures P.StaleSnapshot(claim) in facts
      ensures Stepped(old(State()), P.ReadForRefresh(claim)) && Since(s0)
    {
      hide P.Invariant, P.Grows;
      GatesHold(State());
      TakeStep(s0, State(), P.ReadForRefresh(claim));
      facts := facts + {P.StaleSnapshot(claim)};
    }

    method InvalidateSection(claim: Claim, ghost s0: P.State)
      requires P.StaleSnapshot(claim) in facts && A.WellIndexed(auth)
      requires Since(s0)
      modifies `auth
      ensures auth == A.AfterBeginRetire(old(auth), claim)
      ensures Stepped(old(State()), P.InvalidateStale(claim)) && Since(s0)
    {
      hide P.Invariant, P.Grows, A.AfterBeginRetire;
      GatesHold(State());
      TakeStep(s0, State(), P.InvalidateStale(claim));
      auth := A.AfterBeginRetire(auth, claim);
    }

    method RemoveStaleSection(claim: Claim, ghost s0: P.State)
      requires P.StaleSnapshot(claim) in facts && claim.key in claims && SameAuthority(claims[claim.key], claim)
      requires Since(s0)
      modifies `claims
      ensures claims == old(claims) - {claim.key}
      ensures Stepped(old(State()), P.RemoveStale(claim)) && Since(s0)
    {
      hide P.Invariant, P.Grows;
      GatesHold(State());
      TakeStep(s0, State(), P.RemoveStale(claim));
      claims := claims - {claim.key};
    }

    method CloseAdmissionSection(ghost s0: P.State)
      requires Since(s0)
      modifies `admissionClosed
      ensures admissionClosed
      ensures Stepped(old(State()), P.CloseAdmission) && Since(s0)
    {
      hide P.Invariant, P.Grows;
      GatesHold(State());
      TakeStep(s0, State(), P.CloseAdmission);
      admissionClosed := true;
    }

    method ReserveSection(key: LeafKey, runtime: Uuid, generation: Uuid, expected: Option<Claim>,
            ghost s0: P.State) returns (claim: Claim)
      requires !admissionClosed && leafOf(runtime) == key
      requires L.Commit(books, owner, L.Reserve(expected, key, runtime, generation)).Some?
      requires Since(s0)
      modifies `books, `life, `known, `facts
      ensures old(facts) <= facts
      ensures L.Commit(old(books), owner, L.Reserve(expected, key, runtime, generation)) == Some((books, claim))
      ensures P.Registrable(claim) in facts && claim.key == key && claim.runtime == runtime && claim.generation == Some(generation)
      ensures claim.phase.AuthorizedBirth?
      ensures life == old(life)[generation := P.Fresh] && known == old(known) + {generation}
      ensures Stepped(old(State()), P.ReserveBirth(key, runtime, generation, expected)) && Since(s0)
    {
      hide P.Invariant, P.Grows;
      GatesHold(State());
      TakeStep(s0, State(), P.ReserveBirth(key, runtime, generation, expected));
      var committed := L.Commit(books, owner, L.Reserve(expected, key, runtime, generation)).value;
      books, claim := committed.0, committed.1;
      life, known := life[generation := P.Fresh], known + {generation};
      facts := facts + {P.Registrable(claim)};
    }

    method RetryBirthSection(claim: Claim, ghost s0: P.State)
      requires !admissionClosed && claim.generation.Some? && leafOf(claim.runtime) == claim.key
      requires L.Current(books, claim.key) == Some(claim) && claim.owner == Some(owner) && claim.phase.AuthorizedBirth?
      requires Since(s0)
      modifies `facts
      ensures old(facts) <= facts
      ensures P.Registrable(claim) in facts
      ensures Stepped(old(State()), P.RetryBirth(claim)) && Since(s0)
    {
      hide P.Invariant, P.Grows;
      GatesHold(State());
      TakeStep(s0, State(), P.RetryBirth(claim));
      facts := facts + {P.Registrable(claim)};
    }

    method HandOutSection(claim: Claim, ghost s0: P.State)
      requires !admissionClosed && P.GateReady(claim) in facts && claim.runtime !in cancelled
      requires claim.generation.Some? && claim.generation.value in life && !life[claim.generation.value].Void?
      requires Since(s0)
      modifies `life
      ensures claim.generation.value in life && !P.Unreceived(life[claim.generation.value])
      ensures Stepped(old(State()), P.HandOut(claim)) && Since(s0)
    {
      hide P.Invariant, P.Grows;
      GatesHold(State());
      TakeStep(s0, State(), P.HandOut(claim));
      var generation := claim.generation.value;
      if life[generation].Fresh? { life := life[generation := P.Handed]; }
    }

    method CancelFreshSection(claim: Claim, ghost s0: P.State)
      requires !admissionClosed && P.Registrable(claim) in facts && claim.runtime in cancelled
      requires claim.generation.Some? && claim.generation.value in life && life[claim.generation.value].Fresh?
      requires Since(s0)
      modifies `life
      ensures life == old(life)[claim.generation.value := P.Void]
      ensures Stepped(old(State()), P.CancelFresh(claim)) && Since(s0)
    {
      hide P.Invariant, P.Grows;
      GatesHold(State());
      TakeStep(s0, State(), P.CancelFresh(claim));
      life := life[claim.generation.value := P.Void];
    }

    method StartAttachSection(host: HostEvidence, ghost s0: P.State)
      requires host.runtime !in cancelled && P.Genuine(State(), host)
      requires Since(s0)
      modifies `known, `facts
      ensures old(facts) <= facts && P.Attaching(host) in facts && known == old(known) + {host.generation.value}
      ensures Stepped(old(State()), P.StartAttach(host)) && Since(s0)
    {
      hide P.Invariant, P.Grows, P.Enabled, P.Apply, A.WellIndexed;
      GatesHold(State());
      StartAttachEffect(State(), host);
      TakeStep(s0, State(), P.StartAttach(host));
      known := known + {host.generation.value};
      facts := facts + {P.Attaching(host)};
    }

    method AttachSection(host: HostEvidence, claim: Claim, intent: L.Intent, ghost s0: P.State) returns (active: Claim)
      requires P.Attaching(host) in facts && L.Commit(books, owner, intent).Some?
      requires intent == L.Install(claim, host) || intent == L.Adopt(claim, host)
      requires Since(s0)
      modifies `books, `facts
      ensures old(facts) <= facts && P.Registrable(active) in facts
      ensures L.Commit(old(books), owner, intent) == Some((books, active)) && active.phase.Active? && active.key == claim.key
      ensures Stepped(old(State()), if intent.Install? then P.InstallBirth(claim, host) else P.AdoptBirth(claim, host))
      ensures Since(s0)
    {
      hide P.Invariant, P.Grows, P.Enabled, P.Apply, L.Commit, A.WellIndexed;
      GatesHold(State());
      AttachEffect(State(), host, claim, intent);
      TakeStep(s0, State(), if intent.Install? then P.InstallBirth(claim, host) else P.AdoptBirth(claim, host));
      var committed := L.Commit(books, owner, intent).value;
      books, active := committed.0, committed.1;
      facts := facts + {P.Registrable(active)};
    }

    method AttachActiveSection(host: HostEvidence, claim: Claim, ghost s0: P.State)
      requires P.Attaching(host) in facts && Proves(host, claim) && L.Current(books, claim.key) == Some(claim)
      requires claim.owner == Some(owner) && claim.phase.Active?
      requires Since(s0)
      modifies `facts
      ensures old(facts) <= facts && P.Registrable(claim) in facts
      ensures Stepped(old(State()), P.AttachActive(claim, host)) && Since(s0)
    {
      hide P.Invariant, P.Grows;
      GatesHold(State());
      TakeStep(s0, State(), P.AttachActive(claim, host));
      facts := facts + {P.Registrable(claim)};
    }

    method SeeSameSection(claim: Claim, ghost s0: P.State)
      requires SameEntry(claims, claim)
      requires Since(s0)
      modifies `facts
      ensures old(facts) <= facts && P.SawSame(claim) in facts
      ensures Stepped(old(State()), P.SeeSame(claim)) && Since(s0)
    {
      hide P.Invariant, P.Grows;
      GatesHold(State());
      TakeStep(s0, State(), P.SeeSame(claim));
      facts := facts + {P.SawSame(claim)};
    }

    method RegisterSameSection(claim: Claim, ghost s0: P.State)
      requires P.Registrable(claim) in facts && P.SawSame(claim) in facts && A.WellIndexed(auth)
      requires claim.phase.Active? ==> A.MarkDenial(auth, claim).None?
      requires Since(s0)
      modifies `auth, `facts
      ensures old(facts) <= facts
      ensures auth == A.AfterMarkInstalled(old(auth), claim)
      ensures P.GateReady(claim) in facts
      ensures Stepped(old(State()), P.RegisterSame(claim)) && Since(s0)
    {
      hide P.Invariant, P.Grows, A.AfterMarkInstalled, A.MarkDenial;
      GatesHold(State());
      TakeStep(s0, State(), P.RegisterSame(claim));
      auth := A.AfterMarkInstalled(auth, claim);
      facts := facts + {P.GateReady(claim)};
    }

    method RegisterNewSection(claim: Claim, ghost s0: P.State)
      requires P.Registrable(claim) in facts && A.WellIndexed(auth)
      requires A.InstallDenial(auth, P.Context(claim)).None?
      requires Since(s0)
      modifies `auth, `facts
      ensures old(facts) <= facts
      ensures auth == A.AfterInstall(old(auth), P.Context(claim))
      ensures P.GateReady(claim) in facts
      ensures Stepped(old(State()), P.RegisterNew(claim)) && Since(s0)
    {
      hide P.Invariant, P.Grows, A.AfterInstall, A.InstallDenial;
      GatesHold(State());
      TakeStep(s0, State(), P.RegisterNew(claim));
      auth := A.AfterInstall(auth, P.Context(claim));
      facts := facts + {P.GateReady(claim)};
    }

    method RegisterClaimSection(claim: Claim, ghost s0: P.State)
      requires P.GateReady(claim) in facts
      requires Since(s0)
      modifies `claims
      ensures claims == old(claims)[claim.key := claim]
      ensures Stepped(old(State()), P.RegisterClaim(claim)) && Since(s0)
    {
      hide P.Invariant, P.Grows;
      GatesHold(State());
      TakeStep(s0, State(), P.RegisterClaim(claim));
      claims := claims[claim.key := claim];
    }

    // -------------------------------------------------------------------------------------------
    // Operations

    method FindClaim(runtime: Uuid) returns (found: Option<LeafKey>)
      ensures found.Some? ==> found.value in claims && claims[found.value].runtime == runtime
      ensures found.None? ==> forall key | key in claims :: claims[key].runtime != runtime
    {
      var keys := claims.Keys;
      while keys != {}
        invariant keys <= claims.Keys
        invariant forall key | key in claims && key !in keys :: claims[key].runtime != runtime
      {
        var key :| key in keys;
        if claims[key].runtime == runtime { return Some(key); }
        keys := keys - {key};
      }
      found := None;
    }

    /** The registries of local births are as they were. */
    ghost predicate LocalsKept(factoriesBefore: set<P.Birth>, queuedBefore: map<P.Birth, bool>, observedBefore: set<P.Birth>)
      reads this
    {
      factories == factoriesBefore && queued == queuedBefore && observed == observedBefore
    }

    /** Close admission for whatever birth is registered under a runtime id. */
    method BeginClose(runtime: Uuid, permanent: bool, gaps: Gaps, ghost s0: P.State)
      requires Since(s0) && (permanent || runtime in remote)
      modifies this
      ensures runtime in cancelled && old(facts) <= facts
      ensures LivesForward(old(life), life)
      ensures Quiet(gaps) && (forall key | key in old(claims) :: old(claims)[key].runtime != runtime) ==>
                claims == old(claims) && closing == old(closing) && auth == old(auth)
      ensures forall key | Quiet(gaps) && key in old(claims) && old(claims)[key].runtime == runtime ::
                && A.WellIndexed(old(auth)) && cancelled == old(cancelled) + {runtime}
                && claims == old(claims) - {key}
                && FencesTaken(old(auth), old(closing), old(claims)[key], permanent, auth, closing)
      ensures Quiet(gaps) ==> LocalsKept(old(factories), old(queued), old(observed))
      ensures Since(s0)
    {
      hide Since, Stepped, State, Run, A.WellIndexed, FencesTaken, LeavesQueue, LeavesAdmission, FreshStays, BarrierKept;
      OneClaimPerRuntime(s0);
      GatesAreIndexed(s0);
      CancelSection(runtime, s0);
      Interfere(gaps(0).others, s0);
      var key := FindClaim(runtime);
      if key.Some? {
        var claim := claims[key.value];
        TakeClaimSection(key.value, claim, permanent, s0);
        CloseTaken(claim, permanent, Later(gaps, 1), s0);
      }
    }

    /** Fence the gate of a claim that was taken out of the registry, and enter it as closing. */
    method CloseTaken(claim: Claim, permanent: bool, gaps: Gaps, ghost s0: P.State)
      requires P.Taken(claim, permanent) in facts
      requires Since(s0)
      modifies this
      ensures old(facts) <= facts && old(cancelled) <= cancelled
      ensures LivesForward(old(life), life)
      ensures Quiet(gaps) ==>
                && A.WellIndexed(old(auth)) && claims == old(claims) && cancelled == old(cancelled)
                && FencesTaken(old(auth), old(closing), claim, permanent, auth, closing)
                && LocalsKept(old(factories), old(queued), old(observed))
      ensures Since(s0)
    {
      hide Since, Stepped, State, Run, A.WellIndexed, A.Registered, A.AfterBeginRetire, LeavesQueue, LeavesAdmission,
        FreshStays, BarrierKept;
      GatesAreIndexed(s0);
      Interfere(gaps(0).others, s0);
      GatesAreIndexed(s0);
      var gate := A.Registered(auth, claim);
      if gate.Ok? {
        RetireTakenSection(claim, permanent, gate.value, s0);
        Interfere(gaps(1).others, s0);
        InsertClosingSection(claim, permanent, gate.value, s0);
      }
    }

    lemma OneClaimPerRuntime(s0: P.State)
      requires Since(s0)
      ensures forall a, b | a in claims && b in claims && claims[a].runtime == claims[b].runtime :: a == b
    {
      hide P.Invariant, P.Grows;
      ClaimsHold(State());
    }

    /** Close admission for exactly the birth the host proves; a refusal leaves everything as it was. */
    method BeginCloseBound(host: HostEvidence, gaps: Gaps, ghost s0: P.State) returns (ok: bool)
      requires Since(s0)
      modifies this
      ensures ok <==> P.Enabled(old(State()), P.CloseBound(host))
      ensures !ok ==> State() == old(State())
      ensures ok ==> host.runtime in cancelled && P.BoundClosed(P.Birth(host.runtime, host.generation)) in facts
      ensures ok ==> host.generation.Some?
      ensures LivesForward(old(life), life)
      ensures old(admissionClosed) ==> admissionClosed
      ensures LeavesQueue(gaps(0).others) ==> queued == old(queued)
      ensures ok && Quiet(gaps) ==>
                && A.WellIndexed(old(auth)) && P.BoundCloseOf(old(State()), host).Some?
                && var after := P.BoundCloseOf(old(State()), host).value;
                   && auth == after.auth && claims == after.claims && closing == after.closing
                   && cancelled == old(cancelled) + {host.runtime} && books == old(books)
      ensures Since(s0) && old(facts) <= facts
    {
      hide Since, Stepped, State, Run, LeavesQueue, LeavesAdmission, FreshStays, P.Enabled;
      ok := CloseBoundSection(host, s0);
      if !ok { return; }
      NamedByClosing(host.runtime, s0);
      Interfere(gaps(0).others, s0);
      CancelSection(host.runtime, s0);
    }

    lemma NamedByClosing(runtime: Uuid, s0: P.State)
      requires Since(s0) && runtime in closing
      ensures closing[runtime].claim.runtime == runtime && closing[runtime].claim.generation.Some?
    {
      hide P.Invariant, P.Grows;
      ClosingHolds(State(), runtime);
    }

    /** Wait, within a number of tries, until the gate of a closing birth is closed and idle. */
    method AwaitDrained(runtime: Uuid, evidence: Option<HostEvidence>, tries: nat, gaps: Gaps, ghost s0: P.State)
      returns (prior: Option<Claim>)
      requires Since(s0) && runtime in cancelled
      modifies this
      ensures prior.Some? ==> P.SawDrained(prior.value) in facts && prior.value.runtime == runtime
      ensures old(cancelled) <= cancelled
      ensures prior.Some? && evidence.Some? ==> Proves(evidence.value, prior.value)
      ensures LivesForward(old(life), life)
      ensures Quiet(gaps) ==> closing == old(closing) && auth == old(auth) && books == old(books)
      ensures prior.Some? && Quiet(gaps) ==> runtime in closing && closing[runtime].claim == prior.value
      ensures Quiet(gaps) ==>
                (prior.Some? <==>
                   && tries > 0 && runtime in old(closing)
                   && (evidence.Some? ==> Proves(evidence.value, old(closing)[runtime].claim))
                   && old(closing)[runtime].gate < |old(auth).gates| && A.Drained(old(auth), old(closing)[runtime].gate))
      ensures Since(s0) && old(facts) <= facts
    {
      hide Since, Stepped, State, Run, LeavesQueue, LeavesAdmission, FreshStays;
      for k := 0 to tries
        invariant Since(s0) && old(facts) <= facts && old(cancelled) <= cancelled
        invariant LivesForward(old(life), life)
        invariant Quiet(gaps) ==> closing == old(closing) && auth == old(auth) && books == old(books)
        invariant Quiet(gaps) && k > 0 && runtime in old(closing) && old(closing)[runtime].gate < |old(auth).gates| ==>
                    !A.Drained(old(auth), old(closing)[runtime].gate)
      {
        Interfere(gaps(k).others, s0);
        if runtime !in closing { return None; }
        var entry := closing[runtime];
        if evidence.Some? && !Proves(evidence.value, entry.claim) { return None; }
        NamedByClosing(runtime, s0);
        ClosingGate(runtime, s0);
        if A.Drained(auth, entry.gate) {
          SeeDrainedSection(runtime, entry, s0);
          return Some(entry.claim);
        }
      }
      prior := None;
    }

    lemma ClosingGate(runtime: Uuid, s0: P.State)
      requires Since(s0) && runtime in closing
      ensures closing[runtime].gate < |auth.gates|
    {
      hide P.Invariant, P.Grows;
      ClosingHolds(State(), runtime);
    }

    /** The durable fence of a drained birth. */
    method FencePrior(prior: Claim, gaps: Gaps, ghost s0: P.State) returns (ok: bool)
      requires Since(s0) && P.SawDrained(prior) in facts
      modifies this
      ensures ok ==> P.Prepared(P.BirthOf(prior)) in facts
      ensures old(cancelled) <= cancelled
      ensures LivesForward(old(life), life)
      ensures Quiet(gaps) ==> (ok <==> MayFence(old(books), old(closing), owner, prior))
      ensures ok && Quiet(gaps) && prior.phase.Retiring? ==>
                closing == old(closing) && L.Current(books, prior.key) == Some(prior)
      ensures ok && Quiet(gaps) && !prior.phase.Retiring? ==>
                && prior.key in old(books).claims
                && var fenced := Fenced(old(books).claims[prior.key]);
                   && books == old(books).(claims := old(books).claims[prior.key := fenced])
                   && prior.runtime in closing && closing[prior.runtime].claim == fenced
      ensures Since(s0) && old(facts) <= facts
    {
      hide Since, Stepped, State, Run, LeavesQueue, LeavesAdmission, FreshStays, L.Commit;
      Interfere(gaps(0).others, s0);
      if !gaps(0).answers { return false; }
      var current := L.Current(books, prior.key);
      if prior.phase.Retiring? {
        if current != Some(prior) { return false; }
        AlreadyFencedSection(prior, s0);
        return true;
      }
      if current.None? || !SameAuthority(prior, current.value) { return false; }
      CurrentHasKey(prior.key, s0);
      ReadForFenceSection(prior, current.value, s0);
      ok := CommitAndStoreFence(prior, current.value, Later(gaps, 1), s0);
    }

    method CommitAndStoreFence(prior: Claim, current: Claim, gaps: Gaps, ghost s0: P.State) returns (ok: bool)
      requires Since(s0) && P.FenceRead(prior, current) in facts && SameAuthority(prior, current)
      modifies this
      ensures ok ==> P.Prepared(P.BirthOf(prior)) in facts
      ensures old(cancelled) <= cancelled && LivesForward(old(life), life)
      ensures Quiet(gaps) && L.Current(old(books), prior.key) == Some(current) && current.key == prior.key ==>
                && (ok <==> MayFence(old(books), old(closing), owner, prior) && !prior.phase.Retiring?)
                && (ok ==> var fenced := Fenced(current);
                           && books == old(books).(claims := old(books).claims[prior.key := fenced])
                           && prior.runtime in closing && closing[prior.runtime].claim == fenced)
      ensures Since(s0) && old(facts) <= facts
    {
      hide Since, Stepped, State, Run, LeavesQueue, LeavesAdmission, FreshStays, BarrierKept, L.Commit, Fenced, MayFence,
        SameAuthority, P.Grows, P.Invariant;
      if L.Current(books, prior.key) == Some(current) && current.key == prior.key { FenceFollows(prior, current); }
      Interfere(gaps(0).others, s0);
      if !gaps(0).answers || L.Commit(books, owner, L.FenceRetire(current)).None? { return false; }
      FenceIsCurrent(books, owner, current);
      var fenced := CommitFenceSection(prior, current, s0);
      Interfere(gaps(1).others, s0);
      if prior.runtime !in closing || !SameAuthority(closing[prior.runtime].claim, prior) { return false; }
      StoreFenceSection(prior, fenced, s0);
      ok := true;
    }

    lemma FenceFollows(prior: Claim, current: Claim)
      requires L.Current(books, prior.key) == Some(current) && current.key == prior.key && SameAuthority(prior, current)
      ensures var outcome := L.Commit(books, owner, L.FenceRetire(current));
              && (outcome.Some? ==>
                    outcome == Some((books.(claims := books.claims[prior.key := Fenced(current)]), Fenced(current))))
              && (MayFence(books, closing, owner, prior)
                  <==> outcome.Some? && prior.runtime in closing && SameAuthority(closing[prior.runtime].claim, prior))
              && !prior.phase.Retiring?
    {
      L.FencesExactly(books, owner, current);
    }

    /** Some birth under this runtime id is fenced durably. */
    ghost predicate PreparedUnder(runtime: Uuid)
      reads `facts
    {
      exists generation :: P.Prepared(P.Birth(runtime, generation)) in facts
    }

    /** Fence a birth durably before anyone may end its process. With evidence, only the birth that
        the host proves can be prepared. */
    method PreparePhysicalClose(runtime: Uuid, evidence: Option<HostEvidence>, tries: nat, gaps: Gaps,
                                ghost s0: P.State)
      returns (ok: bool)
      requires Since(s0) && (evidence.Some? ==> evidence.value.runtime == runtime)
      modifies this
      ensures ok && evidence.Some? ==>
                var birth := P.Birth(runtime, evidence.value.generation);
                && P.BoundClosed(birth) in facts && P.Prepared(birth) in facts
                && birth.generation.Some?
      ensures ok ==> PreparedUnder(runtime) && runtime in cancelled
      ensures evidence.Some? && !P.Enabled(old(State()), P.CloseBound(evidence.value)) ==>
                !ok && State() == old(State())
      ensures LivesForward(old(life), life)
      ensures ok && Quiet(gaps) ==> FencedHere(runtime)
      ensures Quiet(gaps) && evidence.Some? && tries > 0 && ClosesCleanly(old(State()), evidence.value) ==>
                var key := evidence.value.target.value;
                && ok && key in old(books).claims
                && books == old(books).(claims := old(books).claims[key := Fenced(old(books).claims[key])])
                && runtime in closing && closing[runtime].claim == Fenced(old(books).claims[key])
      ensures Since(s0) && old(facts) <= facts
    {
      hide Since, Stepped, State, Run, LeavesQueue, LeavesAdmission, FreshStays, P.Enabled, P.BoundCloseOf, ClosesCleanly,
        ReadyToFence;
      if evidence.Some? && ClosesCleanly(State(), evidence.value) { CleanCloseIsReady(evidence.value, s0); }
      if evidence.Some? {
        ok := BeginCloseBound(evidence.value, gaps, s0);
        if !ok { return; }
      } else {
        BeginClose(runtime, true, gaps, s0);
      }
      ok := FenceDrained(runtime, evidence, tries, Later(gaps, 3), s0);
    }

    /** The closing entry carries the durable fence. */
    ghost predicate FencedHere(runtime: Uuid)
      reads `closing, `books
    {
      && runtime in closing && closing[runtime].claim.phase.Retiring?
      && L.Current(books, closing[runtime].claim.key) == Some(closing[runtime].claim)
    }

    /** Wait for the drain and fence. */
    method FenceDrained(runtime: Uuid, evidence: Option<HostEvidence>, tries: nat, gaps: Gaps, ghost s0: P.State)
      returns (ok: bool)
      requires Since(s0) && runtime in cancelled
      modifies this
      ensures ok && evidence.Some? && evidence.value.runtime == runtime ==>
                P.Prepared(P.Birth(runtime, evidence.value.generation)) in facts
      ensures ok ==> PreparedUnder(runtime) && runtime in cancelled
      ensures LivesForward(old(life), life)
      ensures Quiet(gaps) ==> (ok <==> tries > 0 && ReadyToFence(old(books), old(closing), old(auth), owner, runtime, evidence))
      ensures ok && Quiet(gaps) ==> FencedHere(runtime)
      ensures ok && Quiet(gaps) && !old(closing)[runtime].claim.phase.Retiring? ==>
                var key := old(closing)[runtime].claim.key;
                && key in old(books).claims
                && books == old(books).(claims := old(books).claims[key := Fenced(old(books).claims[key])])
                && closing[runtime].claim == Fenced(old(books).claims[key])
      ensures Since(s0) && old(facts) <= facts
    {
      hide Since, Stepped, State, Run, LeavesQueue, LeavesAdmission, FreshStays, MayFence, Proves, A.Drained;
      var prior := AwaitDrained(runtime, evidence, tries, gaps, s0);
      if prior.None? { return false; }
      ok := FencePrior(prior.value, Later(gaps, tries), s0);
      if ok {
        CurrentHasKey(prior.value.key, s0);
        ProvesGeneration(evidence, prior.value);
        assert P.Prepared(P.Birth(runtime, prior.value.generation)) in facts;
      }
    }

    lemma ProvesGeneration(evidence: Option<HostEvidence>, claim: Claim)
      ensures evidence.Some? && Proves(evidence.value, claim) ==> evidence.value.generation == claim.generation
    {}

    lemma CleanCloseIsReady(host: HostEvidence, s0: P.State)
      requires Since(s0) && ClosesCleanly(State(), host)
      ensures A.WellIndexed(auth) && P.Enabled(State(), P.CloseBound(host)) && P.BoundCloseOf(State(), host).Some?
      ensures var after := P.BoundCloseOf(State(), host).value;
              && ReadyToFence(books, after.closing, after.auth, owner, host.runtime, Some(host))
              && host.target.Some? && host.runtime in after.closing
              && after.closing[host.runtime].claim.key == host.target.value
              && !after.closing[host.runtime].claim.phase.Retiring?
    {
      hide Since, ClosesCleanly, ReadyToFence, P.BoundCloseOf, P.Enabled, A.WellIndexed;
      GatesAreIndexed(s0);
      CleanCloseDrains(State(), host);
    }

    /** What this confirmation leaves to the ledger worker: a finish, if the work queue had room. */
    function WorkFor(runtime: Uuid, sent: bool): set<(Uuid, bool)> {
      if sent then {(runtime, false)} else {}
    }

    /** Called with the proof that no birth under this runtime id is left: the prepared one is over, or
        a fresh one was cancelled before anyone received it. */
    method PhysicalCloseConfirmed(runtime: Uuid, sent: bool, gaps: Gaps, ghost s0: P.State)
      returns (work: set<(Uuid, bool)>)
      requires Since(s0) && IsOver(runtime)
      modifies this
      ensures P.Confirming(runtime) in facts && runtime in cancelled
      ensures runtime in closing ==> closing[runtime].confirmed
      ensures work == WorkFor(runtime, sent) && PendingOk(work)
      ensures LivesForward(old(life), life)
      ensures Quiet(gaps) ==> LocalsKept(old(factories), old(queued), old(observed))
      ensures Since(s0) && old(facts) <= facts
    {
      hide Since, Stepped, State, Run, LeavesQueue, LeavesAdmission, FreshStays;
      StartConfirmSection(runtime, s0);
      BeginClose(runtime, true, gaps, s0);
      Interfere(gaps(3).others, s0);
      if runtime in closing { MarkConfirmedSection(runtime, s0); }
      work := WorkFor(runtime, sent);
    }

    /** A prepared birth is the last one under its runtime id: once it is over, nothing is left. */
    lemma PreparedIsLast(birth: P.Birth, s0: P.State)
      requires Since(s0) && P.Prepared(birth) in facts
      requires birth.generation.Some? && birth.generation.value in life && life[birth.generation.value].Over?
      ensures IsOver(birth.runtime)
    {
      hide P.Invariant, P.Grows, P.Discharged;
      FactHolds(State(), P.Prepared(birth));
      LastGone(State(), birth.runtime, birth.generation.value);
    }

    /** A fresh birth is the only one left under its runtime id. */
    lemma VoidIsLast(claim: Claim, s0: P.State)
      requires Since(s0) && P.Registrable(claim) in facts && claim.runtime in cancelled
      requires claim.generation.Some? && claim.generation.value in life && P.Unreceived(life[claim.generation.value])
      ensures IsOver(claim.runtime)
    {
      hide P.Invariant, P.Grows, P.Discharged, P.GateInstalled;
      FactHolds(State(), P.Registrable(claim));
      BirthHolds(State(), claim.generation.value);
      LastGone(State(), claim.runtime, claim.generation.value);
    }

    /** The factory proved that it consumed the birth but started no child. */
    method ConfirmNoChildBirth(claim: Claim, sent: bool, tries: nat, gaps: Gaps, ghost s0: P.State)
      returns (ok: bool, work: set<(Uuid, bool)>)
      requires claim.generation.Some? ==> claim.generation.value in life && life[claim.generation.value].Over?
      requires Since(s0)
      modifies this
      ensures claim.owner != Some(owner) ==> !ok && State() == old(State())
      ensures (Quiet(gaps) && tries > 0 && claim.owner == Some(owner)
               && ClosesCleanly(old(State()), HostEvidence(claim.runtime, claim.generation, Some(claim.key)))) ==> ok
      ensures ok ==> P.CloseProved(P.BirthOf(claim)) in facts && P.BirthOf(claim) !in factories
      ensures work == (if ok then WorkFor(claim.runtime, sent) else {}) && PendingOk(work)
      ensures Since(s0) && old(facts) <= facts
    {
      hide Since, Stepped, State, Run, LeavesQueue, LeavesAdmission, FreshStays;
      work := {};
      if claim.owner != Some(owner) { return false, {}; }
      var host := HostEvidence(claim.runtime, claim.generation, Some(claim.key));
      ok := PreparePhysicalClose(claim.runtime, Some(host), tries, gaps, s0);
      if !ok { return; }
      work := ConcludeClose(claim.runtime, claim.generation.value, sent, Later(gaps, tries + 6), s0);
    }

    /** The common end of every proved close: confirm, then let go of the pending factory. */
    method ConcludeClose(runtime: Uuid, generation: Uuid, sent: bool, gaps: Gaps, ghost s0: P.State)
      returns (work: set<(Uuid, bool)>)
      requires var birth := P.Birth(runtime, Some(generation));
               P.BoundClosed(birth) in facts && P.Prepared(birth) in facts
      requires generation in life && life[generation].Over?
      requires Since(s0)
      modifies this
      ensures var birth := P.Birth(runtime, Some(generation));
              && P.CloseProved(birth) in facts && birth !in factories
              && (Quiet(gaps) ==> LocalsKept(old(factories) - {birth}, old(queued), old(observed)))
      ensures work == WorkFor(runtime, sent) && PendingOk(work)
      ensures LivesForward(old(life), life)
      ensures Since(s0) && old(facts) <= facts
    {
      hide Since, Stepped, State, Run, LeavesQueue, LeavesAdmission, FreshStays;
      var birth := P.Birth(runtime, Some(generation));
      PreparedIsLast(birth, s0);
      work := PhysicalCloseConfirmed(runtime, sent, gaps, s0);
      ProveCloseSection(birth, s0);
      Interfere(gaps(4).others, s0);
      DropFactorySection(birth, s0);
    }

    /** The end of a local retirement whose journal holds everything: the registries let go of the
        birth, each only after the next one has it. */
    method CompleteRetirement(host: HostEvidence, sent: bool, gaps: Gaps, ghost s0: P.State)
      returns (work: set<(Uuid, bool)>)
      requires var birth := P.Birth(host.runtime, host.generation);
               P.BoundClosed(birth) in facts && P.Prepared(birth) in facts
      requires host.generation.Some? && host.generation.value in life && life[host.generation.value].Over?
      requires Since(s0)
      modifies this
      ensures var birth := P.Birth(host.runtime, host.generation);
              && P.CloseProved(birth) in facts && birth !in observed
              && (Quiet(gaps) ==> LocalsKept(old(factories) - {birth}, old(queued)[birth := true], old(observed) - {birth}))
      ensures work == WorkFor(host.runtime, sent) && PendingOk(work)
      ensures LivesForward(old(life), life)
      ensures Since(s0) && old(facts) <= facts
    {
      hide Since, Stepped, State, Run, LeavesQueue, LeavesAdmission, FreshStays;
      var birth := P.Birth(host.runtime, host.generation);
      work := ConcludeClose(host.runtime, host.generation.value, sent, gaps, s0);
      Interfere(gaps(5).others, s0);
      CompleteQueuedSection(birth, s0);
      Interfere(gaps(6).others, s0);
      UnobserveSection(birth, s0);
    }

    /** Register a published handle, and only then let its pending factory go. */
    method ObserveLocal(host: HostEvidence, isRemote: bool, localOwner: Option<Uuid>, gaps: Gaps, ghost s0: P.State)
      returns (ok: bool)
      requires Since(s0)
      modifies this
      ensures var skipped := isRemote || host.generation.None? || localOwner != Some(owner);
              && (skipped ==> ok && State() == old(State()))
              && (!skipped ==> (ok <==> |old(observed)| < OBSERVED_LIMIT))
              && (!skipped && ok ==>
                    var birth := P.Birth(host.runtime, host.generation);
                    && P.Observed(birth) in facts && birth !in factories
                    && (Quiet(gaps) ==> LocalsKept(old(factories) - {birth}, old(queued), old(observed) + {birth})))
      ensures Since(s0) && old(facts) <= facts
    {
      hide Since, Stepped, State, Run, LeavesQueue, LeavesAdmission, FreshStays;
      if isRemote { return true; }
      if host.generation.None? || localOwner != Some(owner) { return true; }
      if |observed| >= OBSERVED_LIMIT { return false; }
      var birth := P.Birth(host.runtime, host.generation);
      ObserveSection(birth, s0);
      Interfere(gaps(0).others, s0);
      DropFactorySection(birth, s0);
      ok := true;
    }

    /** Admission is checked and the pending factory entered under one lock, with the claim of a
        consumed spawn permit. */
    method BeginLocalFactory(claim: Claim, ghost s0: P.State) returns (ok: bool)
      requires Since(s0) && P.Permitted(State(), claim)
      modifies `factories, `facts
      ensures ok <==> !admissionClosed && claim.owner == Some(owner)
      ensures ok ==> P.Accepted(P.BirthOf(claim)) in facts && factories == old(factories) + {P.BirthOf(claim)}
      ensures !ok ==> State() == old(State())
      ensures Since(s0) && old(facts) <= facts
    {
      hide Since, Stepped, State;
      if admissionClosed || claim.owner != Some(owner) { return false; }
      AcceptFactorySection(claim, s0);
      ok := true;
    }

    function Outstanding(): (n: nat)
      reads `queued
    {
      |set birth | birth in queued && !queued[birth]|
    }

    /** Hand a handle to the closer. The queue registry stays locked, so nobody else enters it. */
    method RequestLocalClose(host: HostEvidence, isRemote: bool, sent: bool, gaps: Gaps, ghost s0: P.State)
      returns (ok: bool)
      requires Since(s0) && LeavesQueue(gaps(0).others) && LeavesQueue(gaps(1).others)
      modifies this
      ensures var birth := P.Birth(host.runtime, host.generation);
              ok <==> !isRemote && (birth in old(queued)
                        || (old(|set b | b in queued && !queued[b]|) < OUTSTANDING_LIMIT && |old(queued)| < OBSERVED_LIMIT
                            && host.generation.Some? && P.Enabled(old(State()), P.CloseBound(host)) && sent))
      ensures P.Birth(host.runtime, host.generation) in old(queued) ==> State() == old(State())
      ensures !P.Enabled(old(State()), P.CloseBound(host)) ==> State() == old(State())
      ensures queued == if ok && P.Birth(host.runtime, host.generation) !in old(queued)
                        then old(queued)[P.Birth(host.runtime, host.generation) := false] else old(queued)
      ensures Since(s0) && old(facts) <= facts && (old(admissionClosed) ==> admissionClosed)
    {
      hide Since, Stepped, State, Run, LeavesQueue, LeavesAdmission, FreshStays, P.Enabled;
      if isRemote { return false; }
      var birth := P.Birth(host.runtime, host.generation);
      if birth in queued { return true; }
      if Outstanding() >= OUTSTANDING_LIMIT || |queued| >= OBSERVED_LIMIT || host.generation.None? { return false; }
      var bound := BeginCloseBound(host, gaps, s0);
      if !bound { return false; }
      Interfere(gaps(1).others, s0);
      if !sent { return false; }
      QueueSection(birth, s0);
      ok := true;
    }

    /** Finish a closing birth: release it, or leave its durable receipt. */
    method Finish(runtime: Uuid, release: bool, gaps: Gaps, ghost s0: P.State) returns (reply: FinishReply)
      requires Since(s0) && (release || P.Confirming(runtime) in facts)
      modifies this
      ensures runtime !in old(closing) ==> reply.Finished? && State() == old(State())
      ensures reply.Waiting? <==> runtime in old(closing)
                                  && !(A.Drained(old(auth), old(closing)[runtime].gate)
                                       && (old(closing)[runtime].permanent ==> old(closing)[runtime].confirmed))
      ensures reply.Waiting? ==> State() == old(State())
      ensures Quiet(gaps) && (!reply.Finished? || runtime !in old(closing)) ==> closing == old(closing)
      ensures Quiet(gaps) && runtime in old(closing) && !reply.Waiting? ==>
                && (reply.Finished? <==> MayFinish(old(books), owner, old(closing)[runtime], release))
                && (reply.Finished? ==>
                      && closing == old(closing) - {runtime}
                      && books == FinishedBooks(old(books), owner, old(closing)[runtime], release))
      ensures reply.Finished? && runtime in old(closing) ==>
                runtime !in closing
                && (!release || old(closing)[runtime].permanent ==>
                      P.RetiredInLedger(State(), P.BirthOf(old(closing)[runtime].claim)))
      ensures Since(s0) && old(facts) <= facts
    {
      hide Since, Stepped, State, L.Commit, P.FinishIntent, P.RetiredInLedger, MayFinish, FinishedBooks;
      if runtime !in closing { return Finished; }
      var entry := closing[runtime];
      ClosingGate(runtime, s0);
      NamedByClosing(runtime, s0);
      if !A.Drained(auth, entry.gate) || (entry.permanent && !entry.confirmed) { return Waiting; }
      FinishCheckSection(runtime, entry, s0);
      reply := FinishChecked(entry, release, gaps, s0);
    }

    /** The ledger part of the finish, for an entry that passed the check. */
    method FinishChecked(entry: P.Closing, release: bool, gaps: Gaps, ghost s0: P.State) returns (reply: FinishReply)
      requires P.FinishReady(entry.claim, entry.permanent, entry.gate) in facts
      requires Since(s0) && (release || entry.permanent || P.Confirming(entry.claim.runtime) in facts)
      modifies this
      ensures !reply.Waiting? && old(facts) <= facts
      ensures Quiet(gaps) && reply.Failed? ==> closing == old(closing)
      ensures Quiet(gaps) && entry.claim.runtime in old(closing) && old(closing)[entry.claim.runtime] == entry ==>
                && (reply.Finished? <==> MayFinish(old(books), owner, entry, release))
                && (reply.Finished? ==> closing == old(closing) - {entry.claim.runtime}
                                        && books == FinishedBooks(old(books), owner, entry, release))
      ensures reply.Finished? ==> entry.claim.runtime !in closing
      ensures reply.Finished? && (!release || entry.permanent) ==> P.RetiredInLedger(State(), P.BirthOf(entry.claim))
      ensures Since(s0)
    {
      hide Since, Stepped, State, Run, LeavesQueue, LeavesAdmission, FreshStays, LivesForward, BarrierKept,
        L.Commit, P.FinishIntent, P.RetiredInLedger, SameAuthority;
      var prior := entry.claim;
      Interfere(gaps(0).others, s0);
      var current := L.Current(books, prior.key);
      if !gaps(0).answers || current.None? { return Failed; }
      if prior != current.value && !SameAuthority(prior, current.value) { return Failed; }
      FinishReadSection(prior, entry.permanent, entry.gate, current.value, s0);
      Interfere(gaps(1).others, s0);
      if !gaps(1).answers || L.Commit(books, owner, P.FinishIntent(entry.permanent, current.value, release)).None? {
        return Failed;
      }
      FinishCommitSection(prior, entry.permanent, entry.gate, current.value, release, s0);
      Interfere(gaps(2).others, s0);
      if prior.runtime !in closing || closing[prior.runtime].claim != prior { return Failed; }
      FinishRemoveSection(prior, !release || entry.permanent, s0);
      if !release || entry.permanent { ReceiptHolds(prior, s0); }
      reply := Finished;
    }

    lemma ReceiptHolds(prior: Claim, s0: P.State)
      requires Since(s0) && P.FinishCommitted(prior, true) in facts
      ensures P.RetiredInLedger(State(), P.BirthOf(prior))
    {}

    /** Drop a claim whose snapshot the ledger no longer confirms; a successor's entry stays. */
    method RefreshClaim(claim: Claim, gaps: Gaps, ghost s0: P.State)
      requires Since(s0)
      modifies this
      ensures Quiet(gaps) && L.Current(old(books), claim.key).Some? && SameAuthority(L.Current(old(books), claim.key).value, claim) ==>
                claims == old(claims) && auth == old(auth)
      ensures Quiet(gaps) && !(L.Current(old(books), claim.key).Some? && SameAuthority(L.Current(old(books), claim.key).value, claim)) ==>
                && A.WellIndexed(old(auth)) && auth == A.AfterBeginRetire(old(auth), claim)
                && claims == if claim.key in old(claims) && SameAuthority(old(claims)[claim.key], claim)
                             then old(claims) - {claim.key} else old(claims)
      ensures Since(s0) && old(facts) <= facts
    {
      hide Since, Stepped, State, Run, LeavesQueue, LeavesAdmission, FreshStays, A.WellIndexed, A.AfterBeginRetire, SameAuthority;
      GatesAreIndexed(s0);
      Interfere(gaps(0).others, s0);
      var current := L.Current(books, claim.key);
      if gaps(0).answers && current.Some? && SameAuthority(current.value, claim) { return; }
      ReadForRefreshSection(claim, s0);
      Interfere(gaps(1).others, s0);
      GatesAreIndexed(s0);
      InvalidateSection(claim, s0);
      Interfere(gaps(2).others, s0);
      if claim.key in claims && SameAuthority(claims[claim.key], claim) { RemoveStaleSection(claim, s0); }
    }

    /** Activate the gate of a claim that is registered already, or install a new gate. */
    method RegisterGate(claim: Claim, same: bool, ghost s0: P.State) returns (ok: bool)
      requires P.Registrable(claim) in facts && (same ==> P.SawSame(claim) in facts)
      requires Since(s0)
      modifies `auth, `facts
      ensures old(facts) <= facts && A.WellIndexed(old(auth))
      ensures ok <==> if same then claim.phase.Active? ==> A.MarkDenial(old(auth), claim).None?
                      else A.InstallDenial(old(auth), P.Context(claim)).None?
      ensures ok ==> P.GateReady(claim) in facts
      ensures auth == if !ok then old(auth)
                      else if same then A.AfterMarkInstalled(old(auth), claim)
                      else A.AfterInstall(old(auth), P.Context(claim))
      ensures Since(s0)
    {
      hide Since, Stepped, State, A.WellIndexed, A.MarkDenial, A.InstallDenial, A.AfterInstall, A.AfterMarkInstalled;
      GatesAreIndexed(s0);
      if same {
        if claim.phase.Active? && A.MarkDenial(auth, claim).Some? { return false; }
        RegisterSameSection(claim, s0);
      } else {
        if A.InstallDenial(auth, P.Context(claim)).Some? { return false; }
        RegisterNewSection(claim, s0);
      }
      ok := true;
    }

    /** Enter a claim: activate the gate it already has, or install a new one. */
    method Register(claim: Claim, gaps: Gaps, ghost s0: P.State) returns (ok: bool)
      requires Since(s0) && P.Registrable(claim) in facts
      modifies this
      ensures ok ==> P.GateReady(claim) in facts && claim.key in claims && claims[claim.key] == claim
      ensures LivesForward(old(life), life)
      ensures Quiet(gaps) ==> A.WellIndexed(old(auth)) && (ok <==> Registers(old(auth), old(claims), claim))
      ensures Quiet(gaps) && ok ==> claims == old(claims)[claim.key := claim] && auth == RegisteredGates(old(auth), old(claims), claim)
      ensures Quiet(gaps) && !ok ==> claims == old(claims) && auth == old(auth)
      ensures Quiet(gaps) ==> closing == old(closing) && cancelled == old(cancelled)
                              && life == old(life) && known == old(known) && books == old(books)
      ensures (forall k :: LeavesAdmission(gaps(k).others)) ==>
                admissionClosed == old(admissionClosed) && FreshStays(old(life), life)
      ensures Since(s0) && old(facts) <= facts
    {
      hide Since, Stepped, State, Run, SameEntry, LeavesQueue, LeavesAdmission, A.WellIndexed, A.MarkDenial, A.InstallDenial, A.AfterInstall,
        A.AfterMarkInstalled, BarrierKept, P.Grows;
      GatesAreIndexed(s0);
      var same := SameEntry(claims, claim);
      if same { SeeSameSection(claim, s0); }
      Interfere(gaps(0).others, s0);
      ok := RegisterGate(claim, same, s0);
      if !ok { return; }
      Interfere(gaps(1).others, s0);
      RegisterClaimSection(claim, s0);
    }

    method FindClosing(key: LeafKey) returns (found: bool)
      ensures found <==> LeafIsClosing(closing, key)
    {
      var runtimes := closing.Keys;
      while runtimes != {}
        invariant runtimes <= closing.Keys
        invariant forall r | r in closing && r !in runtimes :: closing[r].claim.key != key
      {
        var r :| r in runtimes;
        if closing[r].claim.key == key { return true; }
        runtimes := runtimes - {r};
      }
      found := false;
    }

    /** Authorize a birth for a leaf: retry the one already reserved, or reserve over an absent or
        retired claim, whether or not the runtime id was used before. The admission lock is held
        throughout. A birth that was cancelled meanwhile is never handed out; a freshly reserved one is
        then proved never to run. */
    method AuthorizeBirth(key: LeafKey, runtime: Uuid, generation: Uuid, sent: bool, gaps: Gaps, ghost s0: P.State)
      returns (claim: Option<Claim>, work: set<(Uuid, bool)>)
      requires leafOf(runtime) == key
      requires Since(s0) && forall k :: LeavesAdmission(gaps(k).others)
      modifies this
      ensures old(admissionClosed) ==> claim.None? && State() == old(State())
      ensures Quiet(gaps) ==> A.WellIndexed(old(auth)) && claim == Authorized(old(State()), key, runtime, generation)
      ensures Quiet(gaps) && Vacant(old(State()), key, runtime, generation) ==>
                var birth := NewBirth(old(State()), key, runtime, generation);
                && claim == Some(birth) && InForce(State(), birth)
                && books.births[generation] == L.BirthRow(key, runtime, owner, birth.epoch, false, AuthorizedBirth)
      ensures forall prior | Quiet(gaps) && Reserved(old(State()), key, runtime, prior) ::
                claim == Some(prior) && books == old(books) && claims == old(claims) && auth == old(auth)
      ensures Quiet(gaps) && Refuses(old(State()), key, runtime) ==>
                claim.None? && books == old(books) && claims == old(claims) && auth == old(auth)
      ensures claim.Some? ==>
                && claim.value.key == key && claim.value.runtime == runtime && claim.value.phase.AuthorizedBirth?
                && P.GateReady(claim.value) in facts && runtime !in cancelled && !admissionClosed
                && claim.value.generation.Some? && claim.value.generation.value in life
                && !P.Unreceived(life[claim.value.generation.value])
      ensures PendingOk(work) && (work == {} || (claim.None? && work == {(runtime, false)}))
      ensures Since(s0) && old(facts) <= facts
    {
      hide Authorized, AuthorizeLeaves, Vacant, NewBirth, Reserved, Refuses, InForce, A.WellIndexed, P.Grows, P.Invariant, Since;
      ghost var before := State();
      BeforeIsSound(s0);
      claim, work := AuthorizeLocked(key, runtime, generation, sent, gaps, s0);
      if Quiet(gaps) { AuthorizationsEndWell(before, key, runtime, generation, State()); }
    }

    lemma BeforeIsSound(s0: P.State)
      requires Since(s0)
      ensures P.Invariant(State()) && A.WellIndexed(auth)
    {}

    method AuthorizeLocked(key: LeafKey, runtime: Uuid, generation: Uuid, sent: bool, gaps: Gaps, ghost s0: P.State)
      returns (claim: Option<Claim>, work: set<(Uuid, bool)>)
      requires leafOf(runtime) == key
      requires Since(s0) && forall k :: LeavesAdmission(gaps(k).others)
      modifies this
      ensures old(admissionClosed) ==> claim.None? && State() == old(State())
      ensures Quiet(gaps) ==>
                && A.WellIndexed(old(auth)) && claim == Authorized(old(State()), key, runtime, generation)
                && AuthorizeLeaves(old(State()), key, runtime, generation, books, claims, auth)
      ensures claim.Some? ==>
                && claim.value.key == key && claim.value.runtime == runtime && claim.value.phase.AuthorizedBirth?
                && P.GateReady(claim.value) in facts && runtime !in cancelled && !admissionClosed
                && claim.value.generation.Some? && claim.value.generation.value in life
                && !P.Unreceived(life[claim.value.generation.value])
      ensures PendingOk(work) && (work == {} || (claim.None? && work == {(runtime, false)}))
      ensures Since(s0) && old(facts) <= facts
    {
      hide Since, Stepped, Run, LeavesQueue, LeavesAdmission, L.Commit, FreshStays, LivesForward, BarrierKept,
        Registers, Enters, ReserveLeaves, LeafIsClosing, A.WellIndexed, P.Grows;
      GatesAreIndexed(s0);
      work := {};
      if admissionClosed { return None, {}; }
      Interfere(gaps(0).others, s0);
      if runtime in cancelled { return None, {}; }
      Interfere(gaps(1).others, s0);
      var closingLeaf := FindClosing(key);
      if closingLeaf { return None, {}; }
      Interfere(gaps(2).others, s0);
      if !gaps(2).answers { return None, {}; }
      var prior := L.Current(books, key);
      CurrentHasKey(key, s0);
      if ReservedHere(prior, owner, runtime) {
        claim := RetryReserved(prior.value, Later(gaps, 3), s0);
        return;
      }
      if prior.Some? && !prior.value.phase.Retired? { return None, {}; }
      claim, work := ReserveAnew(key, runtime, generation, prior, sent, Later(gaps, 3), s0);
    }

    lemma CurrentHasKey(key: LeafKey, s0: P.State)
      requires Since(s0)
      ensures L.Current(books, key).Some? ==> L.Current(books, key).value.key == key
    {
      hide P.Invariant, P.Grows;
      BirthsHold(State());
      assert key in books.claims ==> L.ClaimOk(books, key);
    }

    method RetryReserved(prior: Claim, gaps: Gaps, ghost s0: P.State) returns (claim: Option<Claim>)
      requires L.Current(books, prior.key) == Some(prior) && prior.owner == Some(owner)
      requires prior.phase.AuthorizedBirth? && prior.generation.Some? && leafOf(prior.runtime) == prior.key && !admissionClosed
      requires Since(s0) && forall k :: LeavesAdmission(gaps(k).others)
      modifies this
      ensures claim.Some? ==> claim == Some(prior) && HandedOut(prior)
      ensures Quiet(gaps) ==>
                && A.WellIndexed(old(auth))
                && (claim.Some? <==> prior.runtime !in old(cancelled) && Registers(old(auth), old(claims), prior))
                && (prior.runtime !in old(cancelled) ==>
                      books == old(books) && Enters(old(auth), old(claims), prior, auth, claims))
      ensures Since(s0) && old(facts) <= facts
    {
      hide Since, Stepped, State, Run, LeavesQueue, LeavesAdmission, L.Commit, L.Current, FreshStays, LivesForward,
        Registers, RegisteredGates, A.WellIndexed;
      GatesAreIndexed(s0);
      RetryBirthSection(prior, s0);
      var ok := Register(prior, gaps, s0);
      if !ok { return None; }
      Interfere(gaps(2).others, s0);
      if prior.runtime in cancelled {
        BeginClose(prior.runtime, true, Later(gaps, 3), s0);
        return None;
      }
      RegistrableLives(prior, s0);
      HandOutSection(prior, s0);
      claim := Some(prior);
    }

    ghost predicate HandedOut(claim: Claim)
      reads this
    {
      && P.GateReady(claim) in facts && claim.runtime !in cancelled && !admissionClosed
      && claim.generation.Some? && claim.generation.value in life && !P.Unreceived(life[claim.generation.value])
    }

    /** A birth that was voided had its runtime id cancelled before. */
    lemma RegistrableLives(claim: Claim, s0: P.State)
      requires Since(s0) && P.Registrable(claim) in facts
      ensures claim.generation.Some? && claim.generation.value in life
      ensures life[claim.generation.value].Void? ==> claim.runtime in cancelled
    {
      hide P.Invariant, P.Grows, P.OthersDischarged, P.GateInstalled;
      FactHolds(State(), P.Registrable(claim));
      BirthHolds(State(), claim.generation.value);
    }

    method ReserveAnew(key: LeafKey, runtime: Uuid, generation: Uuid, prior: Option<Claim>, sent: bool, gaps: Gaps,
            ghost s0: P.State)
      returns (claim: Option<Claim>, work: set<(Uuid, bool)>)
      requires !admissionClosed && leafOf(runtime) == key
      requires Since(s0) && forall k :: LeavesAdmission(gaps(k).others)
      modifies this
      ensures claim.Some? ==> HandedOut(claim.value) && claim.value.key == key && claim.value.runtime == runtime
                              && claim.value.phase.AuthorizedBirth?
      ensures Quiet(gaps) ==>
                var reserved := L.Commit(old(books), owner, L.Reserve(prior, key, runtime, generation));
                && A.WellIndexed(old(auth))
                && claim == if reserved.Some? && runtime !in old(cancelled)
                               && Registers(old(auth), old(claims), reserved.value.1)
                            then Some(reserved.value.1) else None
      ensures Quiet(gaps) && runtime !in old(cancelled) ==>
                ReserveLeaves(old(books), old(claims), old(auth), owner, L.Reserve(prior, key, runtime, generation),
                              books, claims, auth)
      ensures PendingOk(work) && (work == {} || (claim.None? && work == {(runtime, false)}))
      ensures Since(s0) && old(facts) <= facts
    {
      hide Since, Stepped, State, Run, LeavesQueue, LeavesAdmission, L.Commit, LivesForward, BarrierKept,
        Registers, RegisteredGates, A.WellIndexed;
      GatesAreIndexed(s0);
      work := {};
      Interfere(gaps(0).others, s0);
      if !gaps(0).answers { return None, {}; }
      if L.Commit(books, owner, L.Reserve(prior, key, runtime, generation)).None? { return None, {}; }
      var reserved := ReserveSection(key, runtime, generation, prior, s0);
      var ok := Register(reserved, Later(gaps, 1), s0);
      if !ok { return None, {}; }
      claim, work := HandOutReserved(reserved, sent, Later(gaps, 3), s0);
    }

    /** The caller receives a fresh birth, unless it was cancelled meanwhile; then it never runs. */
    method HandOutReserved(reserved: Claim, sent: bool, gaps: Gaps, ghost s0: P.State)
      returns (claim: Option<Claim>, work: set<(Uuid, bool)>)
      requires P.Registrable(reserved) in facts && P.GateReady(reserved) in facts && !admissionClosed
      requires reserved.generation.Some? && reserved.generation.value in life && life[reserved.generation.value].Fresh?
      requires Since(s0) && forall k :: LeavesAdmission(gaps(k).others)
      modifies this
      ensures claim.Some? ==> claim == Some(reserved) && HandedOut(reserved) && work == {}
      ensures claim.None? ==> P.Confirming(reserved.runtime) in facts && work == WorkFor(reserved.runtime, sent)
      ensures Quiet(gaps) ==> (claim.Some? <==> reserved.runtime !in old(cancelled))
      ensures Quiet(gaps) && claim.Some? ==> books == old(books) && claims == old(claims) && auth == old(auth)
      ensures Since(s0) && old(facts) <= facts && PendingOk(work)
    {
      hide Since, Stepped, State, Run, LeavesQueue, LeavesAdmission, LivesForward, BarrierKept, A.WellIndexed;
      Interfere(gaps(0).others, s0);
      if reserved.runtime in cancelled {
        CancelFreshSection(reserved, s0);
        VoidIsLast(reserved, s0);
        work := PhysicalCloseConfirmed(reserved.runtime, sent, Later(gaps, 1), s0);
        return None, work;
      }
      HandOutSection(reserved, s0);
      claim, work := Some(reserved), {};
    }

    /** Attach to the birth a host runs: install what this owner was authorized for, enter again what it
        already has, adopt anything else that the host proves. */
    method Attach(key: LeafKey, host: HostEvidence, gaps: Gaps, ghost s0: P.State) returns (claim: Option<Claim>)
      requires Since(s0) && P.Genuine(State(), host)
      modifies this
      ensures claim.Some? ==> claim.value.key == key && claim.value.phase.Active? && P.GateReady(claim.value) in facts
      ensures host.runtime in old(cancelled) || host.target != Some(key) ==> claim.None? && State() == old(State())
      ensures Quiet(gaps) ==>
                && A.WellIndexed(old(auth)) && claim == Attached(old(State()), key, host)
                && AttachLeaves(old(State()), key, host, books, claims, auth)
      ensures forall prior: Claim | Quiet(gaps) && prior.key == key && OwnBirth(old(State()), host, prior) ::
                claim == Some(prior.(phase := Active)) && InForce(State(), prior.(phase := Active))
      ensures forall prior: Claim | Quiet(gaps) && prior.key == key && Adoptable(old(State()), host, prior) ::
                var next := prior.(epoch := prior.epoch + 1, owner := Some(owner), phase := Active);
                claim == Some(next) && InForce(State(), next)
      ensures Quiet(gaps) && (key in old(books).claims ==> !Proves(host, old(books).claims[key])) ==>
                claim.None? && books == old(books) && claims == old(claims) && auth == old(auth)
      ensures Since(s0) && old(facts) <= facts
    {
      hide Attached, AttachLeaves, OwnBirth, Adoptable, InForce, A.WellIndexed, P.Grows, P.Invariant, P.Genuine, Since, Proves;
      ghost var before := State();
      BeforeIsSound(s0);
      claim := AttachGenuine(key, host, gaps, s0);
      if Quiet(gaps) { AttachmentsEndWell(before, key, host, State()); }
    }

    method AttachGenuine(key: LeafKey, host: HostEvidence, gaps: Gaps, ghost s0: P.State) returns (claim: Option<Claim>)
      requires Since(s0) && P.Genuine(State(), host)
      modifies this
      ensures claim.Some? ==> claim.value.key == key && claim.value.phase.Active? && P.GateReady(claim.value) in facts
      ensures host.runtime in old(cancelled) || host.target != Some(key) ==> claim.None? && State() == old(State())
      ensures Quiet(gaps) ==>
                && A.WellIndexed(old(auth)) && claim == Attached(old(State()), key, host)
                && AttachLeaves(old(State()), key, host, books, claims, auth)
      ensures Since(s0) && old(facts) <= facts
    {
      hide Since, Stepped, Run, LeavesQueue, LeavesAdmission, L.Commit, FreshStays, LivesForward, BarrierKept,
        Registers, Enters, A.WellIndexed, P.Grows, P.Genuine, Proves;
      GatesAreIndexed(s0);
      if host.runtime in cancelled || host.target != Some(key) { return None; }
      StartAttachSection(host, s0);
      Interfere(gaps(0).others, s0);
      if !gaps(0).answers { return None; }
      var prior := L.Current(books, key);
      CurrentHasKey(key, s0);
      if prior.None? || !Proves(host, prior.value) { return None; }
      if prior.value.owner == Some(owner) && prior.value.phase.Active? {
        AttachActiveSection(host, prior.value, s0);
        claim := RegisterAttached(prior.value, Later(gaps, 1), s0);
        return;
      }
      claim := CommitAttachment(prior.value, host, gaps, s0);
    }

    /** Commit the attachment in the ledger and enter the claim it leaves there. */
    method CommitAttachment(prior: Claim, host: HostEvidence, gaps: Gaps, ghost s0: P.State) returns (claim: Option<Claim>)
      requires Since(s0) && P.Attaching(host) in facts
      modifies this
      ensures claim.Some? ==> claim.value.key == prior.key && claim.value.phase.Active? && P.GateReady(claim.value) in facts
      ensures Quiet(gaps) ==>
                var committed := L.Commit(old(books), owner, AttachIntent(owner, prior, host));
                && A.WellIndexed(old(auth))
                && claim == (if committed.Some? && Registers(old(auth), old(claims), committed.value.1)
                             then Some(committed.value.1) else None)
                && if committed.None? then books == old(books) && claims == old(claims) && auth == old(auth)
                   else books == committed.value.0 && Enters(old(auth), old(claims), committed.value.1, auth, claims)
      ensures Since(s0) && old(facts) <= facts
    {
      hide Since, Stepped, State, Run, LeavesQueue, LeavesAdmission, L.Commit, FreshStays, LivesForward, BarrierKept,
        Registers, Enters, A.WellIndexed, P.Grows, Proves;
      GatesAreIndexed(s0);
      Interfere(gaps(1).others, s0);
      var intent := AttachIntent(owner, prior, host);
      if !gaps(1).answers || L.Commit(books, owner, intent).None? { return None; }
      var active := AttachSection(host, prior, intent, s0);
      claim := RegisterAttached(active, Later(gaps, 2), s0);
    }

    method RegisterAttached(active: Claim, gaps: Gaps, ghost s0: P.State) returns (claim: Option<Claim>)
      requires Since(s0) && P.Registrable(active) in facts
      modifies this
      ensures claim.Some? ==> claim == Some(active) && P.GateReady(active) in facts
      ensures Quiet(gaps) ==>
                && A.WellIndexed(old(auth)) && (claim.Some? <==> Registers(old(auth), old(claims), active))
                && books == old(books) && Enters(old(auth), old(claims), active, auth, claims)
      ensures Since(s0) && old(facts) <= facts
    {
      hide Since, Stepped, State, Run, Registers, RegisteredGates, LeavesAdmission, FreshStays, A.WellIndexed;
      var ok := Register(active, gaps, s0);
      claim := if ok then Some(active) else None;
    }

    /** The closer takes this handle, or has it already. */
    ghost predicate Requestable(birth: P.Birth, host: HostEvidence, sent: bool)
      reads this
    {
      && birth == P.Birth(host.runtime, host.generation)
      && (birth in queued
          || (Outstanding() < OUTSTANDING_LIMIT && |queued| < OBSERVED_LIMIT && host.generation.Some?
              && P.Enabled(State(), P.CloseBound(host)) && sent))
    }

    method RequestOneClose(ghost birth: P.Birth, host: HostEvidence, sent: bool, before: seq<P.Action>, locked: Gaps,
                           ghost s0: P.State)
      requires Since(s0) && LeavesQueue(locked(0).others) && LeavesQueue(locked(1).others)
      modifies this
      ensures before == [] && old(Requestable(birth, host, sent)) ==> birth in queued
      ensures Since(s0) && old(facts) <= facts && (old(admissionClosed) ==> admissionClosed)
    {
      hide Since, Stepped, Run, LeavesQueue, LeavesAdmission, FreshStays, LivesForward, BarrierKept, P.Enabled;
      Interfere(before, s0);
      var ok := RequestLocalClose(host, false, sent, locked, s0);
    }

    /** Ask the closer for every observed handle; refusals are retried in a later round. Each request
        holds the queue registry for itself; between two requests everybody else runs. */
    method RequestEveryClose(hosts: P.Birth -> HostEvidence, sent: nat -> bool, locked: (nat, nat) -> Gap,
                             free: Gaps, ghost s0: P.State)
      requires Since(s0) && forall n, k :: LeavesQueue(locked(n, k).others)
      modifies this
      ensures old(observed) == {} && old(StillNothing()) ==> StillNothing()
      ensures forall birth | old(observed) == {birth} && free(0).others == [] && old(Requestable(birth, hosts(birth), sent(0))) ::
                birth in queued
      ensures Since(s0) && old(facts) <= facts && (old(admissionClosed) ==> admissionClosed)
    {
      hide Since, Stepped, State, Run, LeavesQueue, LeavesAdmission, FreshStays, LivesForward, BarrierKept, Requestable,
        StillNothing;
      var handles, n := observed, 0;
      while handles != {}
        invariant handles <= old(observed) && (old(observed) == {} && old(StillNothing()) ==> StillNothing())
        invariant forall birth | old(observed) == {birth} && free(0).others == [] && old(Requestable(birth, hosts(birth), sent(0))) ::
                    if handles == {} then birth in queued
                    else handles == {birth} && n == 0 && Requestable(birth, hosts(birth), sent(0))
        invariant Since(s0) && old(facts) <= facts && (old(admissionClosed) ==> admissionClosed)
      {
        var birth :| birth in handles;
        handles := handles - {birth};
        RequestOneClose(birth, hosts(birth), sent(n), free(n).others, (k: nat) => locked(n, k), s0);
        n := n + 1;
      }
    }

    /** The registries that the barrier reads are clear. */
    ghost predicate StillNothing()
      reads this
    {
      && factories == {} && observed == {}
      && (forall key | key in claims :: !claims[key].phase.AuthorizedBirth?)
      && (forall birth | birth in queued :: queued[birth])
      && (forall runtime | runtime in closing :: !closing[runtime].permanent)
    }

    /** One look at every registry, each under its own lock, with the other threads in between. The
        order follows the hand-offs: factory, handle, closing entry. */
    method ScanRegistries(gaps: Gaps, ghost s0: P.State) returns (clear: bool)
      requires Since(s0) && admissionClosed
      modifies this
      ensures clear ==> AllRetired()
      ensures Quiet(gaps) ==> (clear <==> old(StillNothing()))
      ensures Since(s0) && old(facts) <= facts && admissionClosed
    {
      hide Since, Stepped, State, Run, LeavesQueue, LeavesAdmission, FreshStays, LivesForward,
        AllPublished, AllProved, AllRetired;
      var factoriesPending := factories != {};
      if !factoriesPending { NoPendingFactory(s0); }
      Interfere(gaps(0).others, s0);
      var birthsPending := exists key | key in claims :: claims[key].phase.AuthorizedBirth?;
      Interfere(gaps(1).others, s0);
      var handlesPending := observed != {};
      if !factoriesPending && !handlesPending { NoObservedHandle(s0); }
      Interfere(gaps(2).others, s0);
      var queuedPending := exists birth | birth in queued :: !queued[birth];
      Interfere(gaps(3).others, s0);
      var retirementPending := exists runtime | runtime in closing :: closing[runtime].permanent;
      clear := !factoriesPending && !birthsPending && !handlesPending && !queuedPending && !retirementPending;
      if clear { NothingClosing(s0); }
    }

    /** Every local birth whose factory was ever accepted has its durable retirement receipt. */
    ghost predicate AllRetired()
      reads this
    {
      forall birth | P.Accepted(birth) in facts && birth.runtime !in remote :: P.RetiredInLedger(State(), birth)
    }

    lemma NoPendingFactory(s0: P.State)
      requires Since(s0) && factories == {}
      ensures AllPublished(facts)
    {
      hide P.Invariant, P.Grows, AllPublished;
      NoFactoryPending(State());
    }

    lemma NoObservedHandle(s0: P.State)
      requires Since(s0) && observed == {} && AllPublished(facts)
      ensures AllProved(facts)
    {
      hide P.Invariant, P.Grows, AllPublished, AllProved;
      NoHandleObserved(State());
    }

    lemma NothingClosing(s0: P.State)
      requires Since(s0) && AllProved(facts) && forall runtime | runtime in closing :: !closing[runtime].permanent
      ensures AllRetired()
    {
      NoPermanentClosing(State());
    }

    /** The exit barrier. It reads its registries one lock at a time while every other thread runs;
        when it reports success, every accepted local birth is retired in the ledger. */
    method DrainLocalForShutdown(hosts: P.Birth -> HostEvidence, sent: (nat, nat) -> bool, rounds: nat,
                                 locked: (nat, nat, nat) -> Gap, between: (nat, nat) -> Gap, free: (nat, nat) -> Gap,
                                 ghost s0: P.State)
      returns (ok: bool)
      requires Since(s0) && forall round, n, k :: LeavesQueue(locked(round, n, k).others)
      modifies this
      ensures ok ==> AllRetired()
      ensures rounds > 0 && NothingLocal(old(State())) && (forall round: nat, n: nat :: free(round, n) == Gap([], true)) ==> ok
      ensures Since(s0) && old(facts) <= facts && admissionClosed
    {
      hide Since, Stepped, State, Run, LeavesQueue, LeavesAdmission, FreshStays, LivesForward, BarrierKept, AllRetired;
      ghost var simple := NothingLocal(State()) && forall round: nat, n: nat :: free(round, n) == Gap([], true);
      if simple { NothingHere(); }
      CloseAdmissionSection(s0);
      for round := 0 to rounds
        invariant Since(s0) && old(facts) <= facts && admissionClosed
        invariant simple ==> round == 0 && StillNothing()
      {
        Interfere(free(round, 0).others, s0);
        RequestEveryClose(hosts, (n: nat) => sent(round, n), (n: nat, k: nat) => locked(round, n, k),
                          (n: nat) => between(round, n), s0);
        Interfere(free(round, 1).others, s0);
        var scan := (k: nat) => free(round, 2 + k);
        assert forall k: nat :: scan(k) == free(round, 2 + k);
        var clear := ScanRegistries(scan, s0);
        if clear { return true; }
      }
      ok := false;
    }

    lemma NothingHere()
      requires NothingLocal(State())
      ensures StillNothing()
    {}

    lemma ConfirmedIsConfirming(s0: P.State)
      requires Since(s0)
      ensures forall runtime | runtime in closing && closing[runtime].confirmed :: P.Confirming(runtime) in facts
    {}

    /** Every pending finish that may retire has the confirmation of its birth. */
    ghost predicate PendingOk(pending: set<(Uuid, bool)>)
      reads `facts
    {
      forall id | (id, false) in pending :: P.Confirming(id) in facts
    }

    /** The closings that can be finished: released, or retired once they are confirmed. */
    function Pollable(): set<(Uuid, bool)>
      reads `closing
    {
      set id | id in closing && (!closing[id].permanent || closing[id].confirmed) :: (id, !closing[id].permanent)
    }

    /** A closing whose gate is drained, that is confirmed if it is permanent, and that the ledger lets end. */
    ghost predicate CanFinish(id: Uuid, release: bool)
      reads this
    {
      && id in closing && closing[id].gate < |auth.gates| && A.Drained(auth, closing[id].gate)
      && (closing[id].permanent ==> closing[id].confirmed) && MayFinish(books, owner, closing[id], release)
    }

    /** A round with one item: it is still to be tried and can be finished, or it is finished. */
    ghost predicate LoneFinishes(all: set<(Uuid, bool)>, todo: set<(Uuid, bool)>, left: set<(Uuid, bool)>)
      reads this
    {
      exists id, release :: && all == {(id, release)} && left == {}
                            && if todo == {} then id !in closing else todo == all && CanFinish(id, release)
    }

    /** The only work of a round, which can be done: the one pending finish, or the one closing entry, to be
        released or, if it is permanent, retired. */
    ghost predicate SoleWork(pending: set<(Uuid, bool)>, id: Uuid, release: bool)
      reads this
    {
      && CanFinish(id, release)
      && ((pending == {(id, release)} && Pollable() <= pending)
          || (pending == {} && closing.Keys == {id} && release == !closing[id].permanent))
    }

    lemma SoleWorkIsLone(pending: set<(Uuid, bool)>, id: Uuid, release: bool)
      requires SoleWork(pending, id, release)
      ensures pending + Pollable() == {(id, release)} && CanFinish(id, release)
    {
      assert id in closing.Keys;
    }

    ghost predicate QuietRound(gaps: (nat, nat) -> Gap) {
      forall n: nat, k: nat :: gaps(n, k) == Gap([], true)
    }

    lemma RoundIsQuiet(gaps: (nat, nat) -> Gap, n: nat)
      ensures QuietRound(gaps) ==> Quiet((k: nat) => gaps(n, k))
    {}

    method TryFinish(runtime: Uuid, release: bool, gaps: Gaps, ghost s0: P.State) returns (reply: FinishReply)
      requires Since(s0) && (release || P.Confirming(runtime) in facts)
      modifies this
      ensures Quiet(gaps) && old(CanFinish(runtime, release)) ==> reply.Finished? && runtime !in closing
      ensures Quiet(gaps) ==> closing.Keys <= old(closing).Keys && (reply.Finished? ==> runtime !in closing)
      ensures Since(s0) && old(facts) <= facts
    {
      hide Since, Stepped, State, P.RetiredInLedger, MayFinish, FinishedBooks;
      Interfere(gaps(0).others, s0);
      reply := Finish(runtime, release, Later(gaps, 1), s0);
    }

    /** One round of the ledger worker: poll the registry for closings that can be finished, try each
        pending finish once, and keep those that did not succeed. */
    method FinishRound(pending: set<(Uuid, bool)>, gaps: (nat, nat) -> Gap, ghost s0: P.State)
      returns (left: set<(Uuid, bool)>)
      requires Since(s0) && PendingOk(pending)
      modifies this
      ensures forall id, release | (id, release) in left ::
                (id, release) in pending
                || (id in old(closing) && release == !old(closing)[id].permanent
                    && (release || old(closing)[id].confirmed))
      ensures forall id: Uuid, release | QuietRound(gaps) && old(SoleWork(pending, id, release)) :: left == {} && id !in closing
      ensures QuietRound(gaps) ==> forall item | item in pending + old(Pollable()) && item !in left :: item.0 !in closing
      ensures Since(s0) && old(facts) <= facts && PendingOk(left)
    {
      hide Since, Stepped, State, P.RetiredInLedger, CanFinish, QuietRound, Quiet, SoleWork;
      ConfirmedIsConfirming(s0);
      var polled := Pollable();
      var todo, n := pending + polled, 0;
      left := {};
      ghost var lone := LoneFinishes(todo, todo, {});
      forall id: Uuid, release | SoleWork(pending, id, release)
        ensures todo == {(id, release)} && CanFinish(id, release)
      {
        SoleWorkIsLone(pending, id, release);
      }
      while todo != {}
        invariant Since(s0) && old(facts) <= facts
        invariant QuietRound(gaps) && lone ==> LoneFinishes(pending + polled, todo, left)
        invariant QuietRound(gaps) ==>
                    forall item | item in pending + polled && item !in todo && item !in left :: item.0 !in closing
        invariant todo <= pending + polled && left <= pending + polled
        invariant PendingOk(pending + polled)
      {
        var item :| item in todo;
        todo := todo - {item};
        RoundIsQuiet(gaps, n);
        var reply := TryFinish(item.0, item.1, (k: nat) => gaps(n, k), s0);
        if !reply.Finished? { left := left + {item}; }
        n := n + 1;
      }
    }
  }
}
