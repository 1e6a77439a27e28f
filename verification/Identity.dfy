/** Identities, claims and denials shared by the hook authority, the ledger and the runtime. */
module Identity {

  datatype Option<+T> = None | Some(value: T)
  {
    function GetOr(default: T): T { if Some? then value else default }
  }

  /** A reply that either carries a value or names why the caller was refused. */
  datatype Reply<+T> = Ok(value: T) | Denied(denial: Denial)

  /** A 128-bit identifier; only equality matters. */
  type Uuid = nat

  datatype LeafKey = LeafKey(workspace: Uuid, panel: Uuid, leaf: Uuid)

  datatype Phase = AuthorizedBirth | Active | Detached | Retiring | Retired

  datatype Claim = Claim(
    key: LeafKey, runtime: Uuid, generation: Option<Uuid>, epoch: int,
    owner: Option<Uuid>, phase: Phase, requireBinding: bool)

  /** What a host reports about the birth it runs. */
  datatype HostEvidence = HostEvidence(runtime: Uuid, generation: Option<Uuid>, target: Option<LeafKey>)

  datatype OwnedHookContext = OwnedHookContext(claim: Claim, legacyAliasEpoch: Option<int>)

  datatype Denial =
    | BindingInvalid | TargetInvalid | UnknownTarget | Quarantined
    | StaleClaim | RetiringGate | PendingBirth | Poisoned

  predicate Admissible(phase: Phase) {
    phase.AuthorizedBirth? || phase.Active?
  }

  /** Two claims name the same authority: equal up to the AuthorizedBirth/Active step. */
  predicate SameAuthority(a: Claim, b: Claim) {
    && a.key == b.key && a.runtime == b.runtime && a.generation == b.generation
    && a.epoch == b.epoch && a.owner == b.owner && a.requireBinding == b.requireBinding
    && Admissible(a.phase) && Admissible(b.phase)
  }

  /** Nothing but the step from AuthorizedBirth to Active may differ. */
  lemma AuthorityIgnoresTheStep(a: Claim, b: Claim)
    ensures SameAuthority(a, b)
            <==> && a.(phase := Active) == b.(phase := Active)
                 && a.phase in {AuthorizedBirth, Active} && b.phase in {AuthorizedBirth, Active}
  {}

  predicate Proves(host: HostEvidence, claim: Claim) {
    && claim.generation.Some?
    && host.runtime == claim.runtime
    && host.generation == claim.generation
    && host.target == Some(claim.key)
  }

  /** A host proves exactly the bound claim that it names in every part. */
  lemma ProvesExactly(host: HostEvidence, claim: Claim)
    ensures Proves(host, claim)
            <==> claim.generation.Some? && host == HostEvidence(claim.runtime, claim.generation, Some(claim.key))
  {}
}
