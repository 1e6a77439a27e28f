/** The mutable gates and registry. Every method is one lock-held section and is proved against the
    corresponding function of module Authority. */
module AuthorityObjects {
  import opened Identity
  import A = Authority

  class Gate {
    const claim: Claim
    ghost const id: nat
    var open: bool
    var inFlight: nat
    var installed: bool

    constructor (claim: Claim, ghost id: nat)
      ensures this.claim == claim && this.id == id
      ensures open && inFlight == 0 && installed == claim.phase.Active?
    {
      this.claim := claim;
      this.id := id;
      open, inFlight, installed := true, 0, claim.phase.Active?;
    }

    function Record(): A.GateRecord
      reads this
    {
      A.GateRecord(claim, open, inFlight, installed)
    }
  }

  datatype AdmissionTicket = AdmissionTicket(gate: Gate, context: OwnedHookContext)
  {
    ghost function Id(): A.TicketId { A.TicketId(gate.id, context) }
  }

  datatype EffectsPermit = EffectsPermit(gate: Gate, context: OwnedHookContext)

  class HookAuthority {
    var registry: map<LeafKey, Gate>
    ghost var gates: seq<Gate>
    ghost var permits: multiset<nat>

    ghost predicate Valid()
      reads this, gates
    {
      && (forall i | 0 <= i < |gates| :: gates[i].id == i)
      && (forall key | key in registry :: registry[key] in gates)
      && A.Invariant(Abstract())
    }

    ghost function Abstract(): A.World
      reads this, gates
    {
      A.World(
        map key | key in registry :: registry[key].id,
        seq(|gates|, i requires 0 <= i < |gates| reads this, gates => gates[i].Record()),
        permits)
    }

    constructor ()
      ensures Valid() && fresh(this) && Abstract() == A.Initial
    {
      registry, gates, permits := map[], [], multiset{};
      new;
      assert Abstract() == A.Initial;
      A.InitialInvariant();
    }

    /** Readiness of the retire fence on a gate: no effect is in flight and none will be admitted. */
    method LocallyDrained(gate: Gate) returns (drained: bool)
      requires Valid() && gate in gates
      ensures gate.id < |Abstract().gates|
      ensures drained <==> permits[gate.id] == 0 && A.BeginEffectsDenial(Abstract(), gate.id) == Some(RetiringGate)
    {
      ghost var i :| 0 <= i < |gates| && gates[i] == gate;
      assert Abstract().gates[i] == gate.Record() && A.GateOk(Abstract(), i);
      drained := !gate.open && gate.inFlight == 0;
    }

    /** The checks of Install, made under the same lock. */
    method Refusal(context: OwnedHookContext) returns (denial: Option<Denial>)
      requires Valid()
      ensures denial == A.InstallDenial(Abstract(), context)
    {
      var claim := context.claim;
      if claim.owner.None? || !Admissible(claim.phase) { return Some(StaleClaim); }
      if claim.generation.None? && claim.requireBinding { return Some(Quarantined); }
      if claim.generation.Some? && context.legacyAliasEpoch.Some? { return Some(TargetInvalid); }
      if claim.key in registry {
        var previous := registry[claim.key];
        assert previous.Record() == Abstract().gates[previous.id];
        if previous.open || previous.inFlight != 0 { return Some(RetiringGate); }
        if previous.claim.epoch >= claim.epoch { return Some(StaleClaim); }
      }
      denial := None;
    }

    /** Replace a leaf's closed, drained gate by a new one; an open or newer gate is left alone. */
    method Install(context: OwnedHookContext) returns (denial: Option<Denial>)
      requires Valid()
      modifies this
      ensures Valid() && old(gates) <= gates
      ensures forall i | |old(gates)| <= i < |gates| :: fresh(gates[i])
      ensures denial == A.InstallDenial(old(Abstract()), context)
      ensures Abstract() == A.AfterInstall(old(Abstract()), context)
    {
      A.InstallIsSafe(Abstract(), context);
      denial := Refusal(context);
      if denial.None? {
        var gate := new Gate(context.claim, |gates|);
        Publish(gate);
      }
    }

    method Publish(gate: Gate)
      requires Valid() && gate !in gates && gate.id == |gates|
      modifies this
      ensures gates == old(gates) + [gate]
      ensures forall i | 0 <= i < |gates| :: gates[i].id == i
      ensures forall key | key in registry :: registry[key] in gates
      ensures Abstract() == old(Abstract()).(
                registry := old(Abstract()).registry[gate.claim.key := gate.id],
                gates := old(Abstract()).gates + [gate.Record()])
    {
      registry := registry[gate.claim.key := gate];
      gates := gates + [gate];
      assert gates[|gates| - 1] == gate;
    }

    method Ticket(context: OwnedHookContext) returns (reply: Reply<AdmissionTicket>)
      requires Valid()
      ensures A.TicketReply(Abstract(), context)
              == match reply case Ok(ticket) => Ok(ticket.gate.id) case Denied(d) => Denied(d)
      ensures reply.Ok? ==> reply.value.context == context && reply.value.gate in gates
    {
      if context.claim.key !in registry { return Denied(UnknownTarget); }
      var gate := registry[context.claim.key];
      assert gate.Record() == Abstract().gates[gate.id];
      if !SameAuthority(gate.claim, context.claim) { return Denied(StaleClaim); }
      if !gate.open { return Denied(RetiringGate); }
      reply := Ok(AdmissionTicket(gate, context));
    }

    /** Close the gate of exactly this authority; the returned gate is the retire fence. */
    method BeginRetire(expected: Claim) returns (reply: Reply<Gate>)
      requires Valid()
      modifies gates
      ensures Valid()
      ensures A.Registered(old(Abstract()), expected)
              == match reply case Ok(gate) => Ok(gate.id) case Denied(d) => Denied(d)
      ensures reply.Ok? ==> reply.value in gates
      ensures Abstract() == A.AfterBeginRetire(old(Abstract()), expected)
    {
      A.NextIsSafe(Abstract(), A.BeginRetire(expected));
      if expected.key !in registry { return Denied(UnknownTarget); }
      var gate := registry[expected.key];
      assert gate.Record() == Abstract().gates[gate.id];
      if !SameAuthority(gate.claim, expected) { return Denied(StaleClaim); }
      gate.open := false;
      reply := Ok(gate);
      assert Abstract() == A.AfterBeginRetire(old(Abstract()), expected);
    }

    method ValidateUi(ticket: AdmissionTicket) returns (reply: Reply<Claim>)
      requires Valid() && ticket.gate in gates
      ensures reply == A.ValidateReply(Abstract(), ticket.Id())
    {
      var key := ticket.context.claim.key;
      if key !in registry { return Denied(UnknownTarget); }
      var current := registry[key];
      assert current.Record() == Abstract().gates[current.id];
      assert current.id == ticket.gate.id ==> current == ticket.gate;
      if current != ticket.gate || !SameAuthority(current.claim, ticket.context.claim) {
        return Denied(StaleClaim);
      }
      if !current.open { return Denied(RetiringGate); }
      if !current.installed { return Denied(PendingBirth); }
      reply := Ok(current.claim.(phase := Active));
    }

    method MarkInstalled(active: Claim) returns (denial: Option<Denial>)
      requires Valid()
      modifies gates
      ensures Valid()
      ensures denial == A.MarkDenial(old(Abstract()), active)
      ensures Abstract() == A.AfterMarkInstalled(old(Abstract()), active)
    {
      A.NextIsSafe(Abstract(), A.MarkInstalled(active));
      if !active.phase.Active? { return Some(StaleClaim); }
      if active.key !in registry { return Some(UnknownTarget); }
      var gate := registry[active.key];
      assert gate.Record() == Abstract().gates[gate.id];
      if !SameAuthority(gate.claim, active) { return Some(StaleClaim); }
      if !gate.open { return Some(RetiringGate); }
      gate.installed := true;
      denial := None;
      assert Abstract() == A.AfterMarkInstalled(old(Abstract()), active);
    }

    method Invalidate(expected: Claim)
      requires Valid()
      modifies gates
      ensures Valid() && Abstract() == A.AfterBeginRetire(old(Abstract()), expected)
    {
      var _ := BeginRetire(expected);
    }

    /** Admit real work under a ticket. `permits` records the permit until it is dropped. */
    method BeginEffects(ticket: AdmissionTicket) returns (reply: Reply<EffectsPermit>)
      requires Valid() && ticket.gate in gates
      modifies this`permits, ticket.gate
      ensures Valid()
      ensures var denial := A.BeginEffectsDenial(old(Abstract()), ticket.gate.id);
              reply == if denial.Some? then Denied(denial.value)
                       else Ok(EffectsPermit(ticket.gate, ticket.context))
      ensures Abstract() == A.AfterBeginEffects(old(Abstract()), ticket.gate.id)
    {
      var gate := ticket.gate;
      A.NextIsSafe(Abstract(), A.BeginEffects(gate.id));
      assert gate.Record() == Abstract().gates[gate.id];
      if !gate.open { return Denied(RetiringGate); }
      if gate.inFlight == A.USIZE_MAX { return Denied(Poisoned); }
      gate.inFlight := gate.inFlight + 1;
      permits := permits + multiset{gate.id};
      reply := Ok(EffectsPermit(gate, ticket.context));
      assert Abstract() == A.AfterBeginEffects(old(Abstract()), gate.id);
    }

    /** The drop of a permit that is still live. */
    method DropPermit(permit: EffectsPermit)
      requires Valid() && permit.gate in gates && permit.gate.id in permits
      modifies this`permits, permit.gate
      ensures Valid()
      ensures Abstract() == A.AfterDrop(old(Abstract()), permit.gate.id)
    {
      var gate := permit.gate;
      A.NextIsSafe(Abstract(), A.DropPermit(gate.id));
      assert gate.Record() == Abstract().gates[gate.id];
      gate.inFlight := if gate.inFlight == 0 then 0 else gate.inFlight - 1;
      permits := permits - multiset{gate.id};
      assert Abstract() == A.AfterDrop(old(Abstract()), gate.id);
    }
  }
}
