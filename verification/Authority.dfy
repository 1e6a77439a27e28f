/** Birth authority: one gate per installed birth, tickets, effect permits and the retire fence. */
module Authority {
  import opened Identity

  const USIZE_MAX: nat := 0xFFFF_FFFF_FFFF_FFFF

  datatype GateRecord = GateRecord(claim: Claim, open: bool, inFlight: nat, installed: bool)

  /** The abstract state. Gates are numbered in the order they were installed and are never
      forgotten, so a ticket that outlives its gate can still be talked about; `permits` counts
      the effect permits that have not been dropped yet. */
  datatype World = World(registry: map<LeafKey, nat>, gates: seq<GateRecord>, permits: multiset<nat>)

  datatype TicketId = TicketId(gate: nat, context: OwnedHookContext)

  // ---------------------------------------------------------------------------------------------
  // The lock-held sections, as functions of the abstract state

  function InstallDenial(w: World, context: OwnedHookContext): Option<Denial>
    requires WellIndexed(w)
  {
    var claim := context.claim;
    if claim.owner.None? || !Admissible(claim.phase) then Some(StaleClaim)
    else if claim.generation.None? && claim.requireBinding then Some(Quarantined)
    else if claim.generation.Some? && context.legacyAliasEpoch.Some? then Some(TargetInvalid)
    else if claim.key in w.registry then
      var previous := w.gates[w.registry[claim.key]];
      if previous.open || previous.inFlight != 0 then Some(RetiringGate)
      else if previous.claim.epoch >= claim.epoch then Some(StaleClaim)
      else None
    else None
  }

  function AfterInstall(w: World, context: OwnedHookContext): World
    requires WellIndexed(w)
  {
    if InstallDenial(w, context).Some? then w else
      var claim := context.claim;
      w.(registry := w.registry[claim.key := |w.gates|],
         gates := w.gates + [GateRecord(claim, true, 0, claim.phase.Active?)])
  }

  /** The gate registered for exactly this authority, if any. */
  function Registered(w: World, claim: Claim): Reply<nat>
    requires WellIndexed(w)
  {
    if claim.key !in w.registry then Denied(UnknownTarget)
    else if !SameAuthority(w.gates[w.registry[claim.key]].claim, claim) then Denied(StaleClaim)
    else Ok(w.registry[claim.key])
  }

  function TicketReply(w: World, context: OwnedHookContext): Reply<nat>
    requires WellIndexed(w)
  {
    var gate := Registered(w, context.claim);
    if gate.Ok? && !w.gates[gate.value].open then Denied(RetiringGate) else gate
  }

  function AfterBeginRetire(w: World, expected: Claim): World
    requires WellIndexed(w)
  {
    var gate := Registered(w, expected);
    if gate.Denied? then w
    else w.(gates := w.gates[gate.value := w.gates[gate.value].(open := false)])
  }

  function MarkDenial(w: World, active: Claim): Option<Denial>
    requires WellIndexed(w)
  {
    if !active.phase.Active? then Some(StaleClaim)
    else
      var gate := Registered(w, active);
      if gate.Denied? then Some(gate.denial)
      else if !w.gates[gate.value].open then Some(RetiringGate)
      else None
  }

  function AfterMarkInstalled(w: World, active: Claim): World
    requires WellIndexed(w)
  {
    if MarkDenial(w, active).Some? then w
    else
      var gate := w.registry[active.key];
      w.(gates := w.gates[gate := w.gates[gate].(installed := true)])
  }

  function ValidateReply(w: World, ticket: TicketId): Reply<Claim>
    requires WellIndexed(w)
  {
    var key := ticket.context.claim.key;
    if key !in w.registry then Denied(UnknownTarget)
    else if w.registry[key] != ticket.gate
            || !SameAuthority(w.gates[w.registry[key]].claim, ticket.context.claim)
    then Denied(StaleClaim)
    else
      var gate := w.gates[w.registry[key]];
      if !gate.open then Denied(RetiringGate)
      else if !gate.installed then Denied(PendingBirth)
      else Ok(gate.claim.(phase := Active))
  }

  function BeginEffectsDenial(w: World, gate: nat): Option<Denial>
    requires gate < |w.gates|
  {
    if !w.gates[gate].open then Some(RetiringGate)
    else if w.gates[gate].inFlight == USIZE_MAX then Some(Poisoned)
    else None
  }

  function AfterBeginEffects(w: World, gate: nat): World
    requires gate < |w.gates|
  {
    if BeginEffectsDenial(w, gate).Some? then w else
      w.(gates := w.gates[gate := w.gates[gate].(inFlight := w.gates[gate].inFlight + 1)],
         permits := w.permits + multiset{gate})
  }

  function AfterDrop(w: World, gate: nat): World
    requires gate < |w.gates|
  {
    var record := w.gates[gate];
    var remaining := if record.inFlight == 0 then 0 else record.inFlight - 1;
    w.(gates := w.gates[gate := record.(inFlight := remaining)],
       permits := w.permits - multiset{gate})
  }

  predicate Drained(w: World, gate: nat)
    requires gate < |w.gates|
  {
    !w.gates[gate].open && w.gates[gate].inFlight == 0
  }

  // ---------------------------------------------------------------------------------------------
  // Runs: any interleaving of the sections above

  datatype Event =
    | Install(context: OwnedHookContext)
    | BeginRetire(expected: Claim)
    | MarkInstalled(active: Claim)
    | BeginEffects(gate: nat)
    | DropPermit(gate: nat)

  /** A permit can be dropped only while it is live; tickets name gates that were installed. */
  predicate Enabled(w: World, e: Event) {
    match e
    case BeginEffects(gate) => gate < |w.gates|
    case DropPermit(gate) => gate < |w.gates| && gate in w.permits
    case _ => true
  }

  function Next(w: World, e: Event): (w': World)
    requires WellIndexed(w) && Enabled(w, e)
    ensures WellIndexed(w')
  {
    match e
    case Install(context) => AfterInstall(w, context)
    case BeginRetire(expected) => AfterBeginRetire(w, expected)
    case MarkInstalled(active) => AfterMarkInstalled(w, active)
    case BeginEffects(gate) => AfterBeginEffects(w, gate)
    case DropPermit(gate) => AfterDrop(w, gate)
  }

  ghost predicate Reaches(w: World, events: seq<Event>, w': World)
    requires WellIndexed(w)
    decreases |events|
  {
    if events == [] then w' == w
    else Enabled(w, events[0]) && Reaches(Next(w, events[0]), events[1..], w')
  }

  const Initial := World(map[], [], multiset{})

  predicate WellIndexed(w: World) {
    forall key <- w.registry :: w.registry[key] < |w.gates|
  }

  /** A gate counts exactly its live permits; every gate but the one registered for its leaf is
      closed and idle. */
  ghost predicate GateOk(w: World, i: nat)
    requires i < |w.gates|
  {
    var gate := w.gates[i];
    && gate.claim.key in w.registry
    && i <= w.registry[gate.claim.key]
    && gate.inFlight == w.permits[i] <= USIZE_MAX
    && (i < w.registry[gate.claim.key] ==> !gate.open && gate.inFlight == 0)
  }

  ghost predicate RegistryOk(w: World) {
    forall key | key in w.registry ::
      w.registry[key] < |w.gates| && w.gates[w.registry[key]].claim.key == key
  }

  /** Later gates of a leaf carry strictly larger epochs. */
  ghost predicate EpochsIncrease(gates: seq<GateRecord>) {
    forall i, j | 0 <= i < j < |gates| :: EpochsOrdered(gates[i].claim, gates[j].claim)
  }

  predicate EpochsOrdered(earlier: Claim, later: Claim) {
    earlier.key == later.key ==> earlier.epoch < later.epoch
  }

  /** What every reachable state satisfies. */
  ghost predicate Invariant(w: World) {
    && WellIndexed(w)
    && RegistryOk(w)
    && (forall i: nat | i < |w.gates| :: GateOk(w, i))
    && (forall i | i in w.permits :: i < |w.gates|)
    && EpochsIncrease(w.gates)
  }

  lemma InitialInvariant()
    ensures Invariant(Initial)
  {}

  /** What a gate may do between two states: keep its identity, never reopen, and admit nothing
      once closed. */
  predicate Forward(before: GateRecord, after: GateRecord) {
    && after.claim == before.claim
    && (!before.open ==> !after.open && after.inFlight <= before.inFlight)
    && (before.inFlight <= USIZE_MAX ==> after.inFlight <= USIZE_MAX)
    && (before.installed ==> after.installed)
  }

  ghost predicate Progress(w: World, w': World) {
    && |w.gates| <= |w'.gates|
    && (forall i | 0 <= i < |w.gates| :: Forward(w.gates[i], w'.gates[i]))
    && (forall key | key in w.registry :: key in w'.registry && w.registry[key] <= w'.registry[key])
  }

  /** Changing one gate in place, without reopening it, keeps the invariant. */
  lemma TouchIsSafe(w: World, gate: nat, record: GateRecord, permits: multiset<nat>)
    requires Invariant(w) && gate < |w.gates|
    requires Forward(w.gates[gate], record)
    requires permits == w.permits[gate := record.inFlight]
    ensures var w' := w.(gates := w.gates[gate := record], permits := permits);
            Invariant(w') && Progress(w, w')
  {
    var w' := w.(gates := w.gates[gate := record], permits := permits);
    forall i: nat | i < |w.gates|
      ensures GateOk(w', i)
    {
      assert GateOk(w, i) && GateOk(w, gate);
    }
    forall i, j | 0 <= i < j < |w.gates|
      ensures EpochsOrdered(w'.gates[i].claim, w'.gates[j].claim)
    {
      assert EpochsOrdered(w.gates[i].claim, w.gates[j].claim);
    }
  }

  lemma InstalledGateIsOk(w: World, context: OwnedHookContext, i: nat)
    requires Invariant(w) && InstallDenial(w, context).None? && i <= |w.gates|
    ensures WellIndexed(AfterInstall(w, context)) && GateOk(AfterInstall(w, context), i)
  {
    if i < |w.gates| {
      assert AfterInstall(w, context).gates[i] == w.gates[i];
      assert GateOk(w, i);
    } else {
      assert i !in w.permits;
    }
  }

  lemma InstalledEpochIsLarger(w: World, context: OwnedHookContext, i: nat)
    requires Invariant(w) && InstallDenial(w, context).None? && i < |w.gates|
    ensures EpochsOrdered(w.gates[i].claim, context.claim)
  {
    assert GateOk(w, i);
    if w.gates[i].claim.key == context.claim.key && i < w.registry[context.claim.key] {
      assert EpochsOrdered(w.gates[i].claim, w.gates[w.registry[context.claim.key]].claim);
    }
  }

  lemma InstallIsSafe(w: World, context: OwnedHookContext)
    requires Invariant(w)
    ensures Invariant(AfterInstall(w, context)) && Progress(w, AfterInstall(w, context))
  {
    var w' := AfterInstall(w, context);
    if InstallDenial(w, context).None? {
      hide GateOk, EpochsOrdered;
      var n := |w.gates|;
      assert w'.gates[n].claim == context.claim;
      assert forall i | 0 <= i < n :: w'.gates[i] == w.gates[i];
      forall i: nat | i < |w'.gates|
        ensures GateOk(w', i)
      {
        InstalledGateIsOk(w, context, i);
      }
      forall i, j | 0 <= i < j < |w'.gates|
        ensures EpochsOrdered(w'.gates[i].claim, w'.gates[j].claim)
      {
        if j == n { InstalledEpochIsLarger(w, context, i); }
      }
    }
  }

  lemma RetireIsSafe(w: World, expected: Claim)
    requires Invariant(w)
    ensures Invariant(AfterBeginRetire(w, expected)) && Progress(w, AfterBeginRetire(w, expected))
  {
    var gate := Registered(w, expected);
    if gate.Ok? {
      assert GateOk(w, gate.value);
      TouchIsSafe(w, gate.value, w.gates[gate.value].(open := false), w.permits);
    }
  }

  lemma MarkIsSafe(w: World, active: Claim)
    requires Invariant(w)
    ensures Invariant(AfterMarkInstalled(w, active)) && Progress(w, AfterMarkInstalled(w, active))
  {
    if MarkDenial(w, active).None? {
      var gate := w.registry[active.key];
      assert GateOk(w, gate);
      TouchIsSafe(w, gate, w.gates[gate].(installed := true), w.permits);
    }
  }

  lemma EffectsAreSafe(w: World, gate: nat)
    requires Invariant(w) && gate < |w.gates|
    ensures Invariant(AfterBeginEffects(w, gate)) && Progress(w, AfterBeginEffects(w, gate))
  {
    assert GateOk(w, gate);
    if BeginEffectsDenial(w, gate).None? {
      var w' := AfterBeginEffects(w, gate);
      TouchIsSafe(w, gate, w'.gates[gate], w'.permits);
    }
  }

  lemma DropIsSafe(w: World, gate: nat)
    requires Invariant(w) && gate < |w.gates| && gate in w.permits
    ensures Invariant(AfterDrop(w, gate)) && Progress(w, AfterDrop(w, gate))
  {
    assert GateOk(w, gate);
    var w' := AfterDrop(w, gate);
    TouchIsSafe(w, gate, w'.gates[gate], w'.permits);
  }

  /** Each lock-held section keeps the invariant and only moves gates forward. */
  lemma NextIsSafe(w: World, e: Event)
    requires Invariant(w) && Enabled(w, e)
    ensures Invariant(Next(w, e)) && Progress(w, Next(w, e))
  {
    hide Invariant, Progress, AfterInstall, AfterBeginRetire, AfterMarkInstalled, AfterBeginEffects, AfterDrop;
    match e
    case Install(context) => InstallIsSafe(w, context);
    case BeginRetire(expected) => RetireIsSafe(w, expected);
    case MarkInstalled(active) => MarkIsSafe(w, active);
    case BeginEffects(gate) => EffectsAreSafe(w, gate);
    case DropPermit(gate) => DropIsSafe(w, gate);
  }

  /** Every run keeps the invariant, and no run reopens a gate, revives a drained fence or moves a
      leaf back to an older gate. */
  lemma {:induction false} RunIsSafe(w: World, events: seq<Event>, w': World)
    requires Invariant(w) && Reaches(w, events, w')
    ensures Invariant(w') && Progress(w, w')
    decreases |events|
  {
    if events != [] {
      var next := Next(w, events[0]);
      NextIsSafe(w, events[0]);
      RunIsSafe(next, events[1..], w');
      forall i | 0 <= i < |w.gates|
        ensures Forward(w.gates[i], w'.gates[i])
      {
        assert Forward(w.gates[i], next.gates[i]) && Forward(next.gates[i], w'.gates[i]);
      }
    }
  }

  /** In every reachable state two live permits of one leaf belong to the same gate, the one
      registered for it: effects of a birth never overlap those of a successor. */
  lemma EffectsNeverOverlap(events: seq<Event>, w: World, a: nat, b: nat)
    requires Reaches(Initial, events, w)
    requires a in w.permits && b in w.permits
    ensures a < |w.gates| && b < |w.gates|
    ensures w.gates[a].claim.key == w.gates[b].claim.key ==>
              a == b && w.gates[a].claim.key in w.registry && w.registry[w.gates[a].claim.key] == a
  {
    InitialInvariant();
    RunIsSafe(Initial, events, w);
    assert GateOk(w, a) && GateOk(w, b);
  }

  /** A birth that was replaced on its leaf stays without effects for the rest of every run, and
      its successor's epoch stays strictly larger. */
  lemma ReplacedBirthStaysSilent(w: World, events: seq<Event>, w': World, earlier: nat, later: nat)
    requires Invariant(w) && Reaches(w, events, w')
    requires earlier < later < |w.gates|
    requires w.gates[earlier].claim.key == w.gates[later].claim.key
    ensures later < |w'.gates| && w'.permits[earlier] == 0
    ensures BeginEffectsDenial(w', earlier) == Some(RetiringGate)
    ensures w'.gates[earlier].claim.epoch < w'.gates[later].claim.epoch
  {
    RunIsSafe(w, events, w');
    assert Forward(w.gates[earlier], w'.gates[earlier]) && Forward(w.gates[later], w'.gates[later]);
    assert GateOk(w', earlier) && GateOk(w', later);
    assert EpochsOrdered(w'.gates[earlier].claim, w'.gates[later].claim);
  }

  /** A ticket whose gate was closed or replaced never passes the UI validation again. */
  lemma ClosedTicketNeverValidates(w: World, events: seq<Event>, w': World, ticket: TicketId)
    requires Invariant(w) && Reaches(w, events, w')
    requires ticket.gate < |w.gates|
    requires !w.gates[ticket.gate].open
             || (ticket.context.claim.key in w.registry && w.registry[ticket.context.claim.key] != ticket.gate)
    ensures WellIndexed(w') && ValidateReply(w', ticket).Denied?
  {
    RunIsSafe(w, events, w');
    var gate, key := ticket.gate, ticket.context.claim.key;
    assert Forward(w.gates[gate], w'.gates[gate]);
    assert GateOk(w, gate) && GateOk(w', gate);
  }

  /** A retire fence that has drained stays drained. */
  lemma DrainedStaysDrained(w: World, events: seq<Event>, w': World, gate: nat)
    requires Invariant(w) && Reaches(w, events, w')
    requires gate < |w.gates| && Drained(w, gate)
    ensures gate < |w'.gates| && Drained(w', gate)
  {
    RunIsSafe(w, events, w');
    assert Forward(w.gates[gate], w'.gates[gate]);
  }

  // ---------------------------------------------------------------------------------------------
  // Who is admitted, in terms of the gates

  /** The gate of a ticket is the one registered for its leaf, and belongs to its authority. */
  predicate OwnGate(w: World, key: LeafKey, gate: nat, claim: Claim)
    requires WellIndexed(w)
  {
    key in w.registry && w.registry[key] == gate && SameAuthority(w.gates[gate].claim, claim)
  }

  /** The UI validation passes exactly the tickets of a registered gate that is open and installed, with
      the claim of that gate; and it names the first thing that is missing. */
  lemma ValidatesExactly(w: World, ticket: TicketId)
    requires Invariant(w)
    ensures var key, reply := ticket.context.claim.key, ValidateReply(w, ticket);
            && (reply == Denied(UnknownTarget) <==> key !in w.registry)
            && (reply == Denied(StaleClaim) <==> key in w.registry && !OwnGate(w, key, ticket.gate, ticket.context.claim))
            && (OwnGate(w, key, ticket.gate, ticket.context.claim) ==>
                  && var gate := w.gates[ticket.gate];
                     && (reply == Denied(RetiringGate) <==> !gate.open)
                     && (reply == Denied(PendingBirth) <==> gate.open && !gate.installed)
                     && (reply.Ok? <==> gate.open && gate.installed)
                     && (reply.Ok? ==> reply.value == gate.claim.(phase := Active)))
  {}

  /** Some event of a run marks this claim's authority as installed. */
  predicate Marks(events: seq<Event>, claim: Claim) {
    exists k :: 0 <= k < |events| && events[k].MarkInstalled? && SameAuthority(claim, events[k].active)
  }

  lemma PendingStep(w: World, e: Event, gate: nat)
    requires WellIndexed(w) && Enabled(w, e) && gate < |w.gates| && !w.gates[gate].installed
    requires e.MarkInstalled? ==> !SameAuthority(w.gates[gate].claim, e.active)
    ensures gate < |Next(w, e).gates|
    ensures Next(w, e).gates[gate].claim == w.gates[gate].claim && !Next(w, e).gates[gate].installed
  {}

  lemma {:induction false} PendingStays(w: World, events: seq<Event>, w': World, gate: nat)
    requires WellIndexed(w) && Reaches(w, events, w') && gate < |w.gates|
    requires !w.gates[gate].installed && !Marks(events, w.gates[gate].claim)
    ensures gate < |w'.gates| && w'.gates[gate].claim == w.gates[gate].claim && !w'.gates[gate].installed
    decreases |events|
  {
    hide Next, WellIndexed, SameAuthority, Enabled;
    if events != [] {
      PendingStep(w, events[0], gate);
      assert forall k | 0 <= k < |events[1..]| :: events[1..][k] == events[k + 1];
      PendingStays(Next(w, events[0]), events[1..], w', gate);
    }
  }

  /** A gate that was installed for an authorized birth passes no ticket, in any run, before its authority
      is marked installed; a ticket of the gate is told so as long as the gate is registered and open. */
  lemma PendingUntilMarked(w: World, context: OwnedHookContext, events: seq<Event>, w': World, ticket: TicketId)
    requires Invariant(w) && InstallDenial(w, context).None? && context.claim.phase.AuthorizedBirth?
    requires Reaches(AfterInstall(w, context), events, w') && !Marks(events, context.claim)
    requires ticket.gate == |w.gates|
    ensures WellIndexed(w') && ValidateReply(w', ticket).Denied?
    ensures OwnGate(w', ticket.context.claim.key, ticket.gate, ticket.context.claim) && w'.gates[ticket.gate].open ==>
              ValidateReply(w', ticket) == Denied(PendingBirth)
  {
    var installed := AfterInstall(w, context);
    InstallIsSafe(w, context);
    assert installed.gates[|w.gates|].claim == context.claim;
    PendingStays(installed, events, w', |w.gates|);
    RunIsSafe(installed, events, w');
  }

  /** A successful mark lets every ticket of that gate pass, with the active claim. */
  lemma MarkedPasses(w: World, active: Claim, ticket: TicketId)
    requires Invariant(w) && MarkDenial(w, active).None?
    requires OwnGate(w, active.key, ticket.gate, active) && SameAuthority(ticket.context.claim, active)
    ensures WellIndexed(AfterMarkInstalled(w, active))
    ensures ValidateReply(AfterMarkInstalled(w, active), ticket) == Ok(active)
  {
    NextIsSafe(w, MarkInstalled(active));
    assert Forward(w.gates[ticket.gate], AfterMarkInstalled(w, active).gates[ticket.gate]);
  }

  /** Only the open gate of the very authority can be marked, and only as active. */
  lemma MarksExactly(w: World, active: Claim)
    requires Invariant(w)
    ensures MarkDenial(w, active).None?
            <==> active.phase.Active? && exists gate: nat :: OwnGate(w, active.key, gate, active) && w.gates[gate].open
  {
    if active.key in w.registry {
      assert OwnGate(w, active.key, w.registry[active.key], active)
          <==> SameAuthority(w.gates[w.registry[active.key]].claim, active);
    }
  }

  /** An installed claim gets its ticket at once; the ticket passes exactly if the claim was active already. */
  lemma InstalledIsAdmitted(w: World, context: OwnedHookContext)
    requires Invariant(w) && InstallDenial(w, context).None?
    ensures var w', ticket := AfterInstall(w, context), TicketId(|w.gates|, context);
            && WellIndexed(w') && TicketReply(w', context) == Ok(ticket.gate)
            && BeginEffectsDenial(w', ticket.gate).None?
            && ValidateReply(w', ticket) == if context.claim.phase.Active? then Ok(context.claim) else Denied(PendingBirth)
  {
    InstallIsSafe(w, context);
  }

  /** A claim may be installed exactly if it is owned, admissible and bound as it must be, and any earlier
      gate of its leaf is fenced, drained and of a smaller epoch. */
  lemma InstallsExactly(w: World, context: OwnedHookContext)
    requires Invariant(w)
    ensures var claim := context.claim;
            InstallDenial(w, context).None?
            <==> && claim.owner.Some? && (claim.phase.AuthorizedBirth? || claim.phase.Active?)
                 && (claim.generation.Some? ==> context.legacyAliasEpoch.None?)
                 && (claim.generation.None? ==> !claim.requireBinding)
                 && forall gate: nat | gate < |w.gates| && w.gates[gate].claim.key == claim.key ::
                      !w.gates[gate].open && w.permits[gate] == 0 && w.gates[gate].claim.epoch < claim.epoch
  {
    var claim := context.claim;
    forall gate: nat | gate < |w.gates| && w.gates[gate].claim.key == claim.key
      ensures claim.key in w.registry && gate <= w.registry[claim.key]
      ensures gate < w.registry[claim.key] ==>
                !w.gates[gate].open && w.permits[gate] == 0
                && w.gates[gate].claim.epoch < w.gates[w.registry[claim.key]].claim.epoch
    {
      assert GateOk(w, gate);
      if gate < w.registry[claim.key] {
        assert EpochsOrdered(w.gates[gate].claim, w.gates[w.registry[claim.key]].claim);
      }
    }
    if claim.key in w.registry { assert GateOk(w, w.registry[claim.key]); }
  }

  /** Work is admitted exactly on an open gate whose counter has room. */
  lemma AdmitsExactly(w: World, gate: nat)
    requires Invariant(w) && gate < |w.gates|
    ensures BeginEffectsDenial(w, gate).None? <==> w.gates[gate].open && w.permits[gate] < USIZE_MAX
    ensures BeginEffectsDenial(w, gate).None? ==>
              AfterBeginEffects(w, gate).permits == w.permits + multiset{gate}
  {
    assert GateOk(w, gate);
  }

  /** A ticket is given for the registered gate of the very authority while it is open; otherwise the reply
      names what is missing. */
  lemma TicketsExactly(w: World, context: OwnedHookContext)
    requires Invariant(w)
    ensures var claim, reply := context.claim, TicketReply(w, context);
            && (reply == Denied(UnknownTarget) <==> claim.key !in w.registry)
            && (claim.key in w.registry ==>
                  && var gate := w.registry[claim.key];
                     && (reply == Denied(StaleClaim) <==> !OwnGate(w, claim.key, gate, claim))
                     && (reply == Denied(RetiringGate) <==> OwnGate(w, claim.key, gate, claim) && !w.gates[gate].open)
                     && (reply == Ok(gate) <==> OwnGate(w, claim.key, gate, claim) && w.gates[gate].open))
  {}

  /** The retire fence closes the registered gate of the very authority and nothing else: from then on no
      ticket is given for it and no work is admitted on it. */
  lemma FenceCloses(w: World, expected: Claim)
    requires Invariant(w)
    ensures var reply, w' := Registered(w, expected), AfterBeginRetire(w, expected);
            && (reply == Denied(UnknownTarget) <==> expected.key !in w.registry)
            && (expected.key in w.registry ==>
                  && var gate := w.registry[expected.key];
                     if !OwnGate(w, expected.key, gate, expected) then reply == Denied(StaleClaim)
                     else
                       && reply == Ok(gate) && WellIndexed(w')
                       && BeginEffectsDenial(w', gate) == Some(RetiringGate)
                       && TicketReply(w', OwnedHookContext(expected, None)) == Denied(RetiringGate)
                       && w'.permits == w.permits && w'.registry == w.registry
                       && w'.gates[gate] == w.gates[gate].(open := false)
                       && forall g: nat | g < |w.gates| && g != gate :: w'.gates[g] == w.gates[g])
            && (reply.Denied? ==> w' == w)
  {}
}
