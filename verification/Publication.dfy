/** The publication handshake between the ledger worker and the UI: one job, all its retries. */
module Publication {
  import opened Identity
  import A = Authority

  datatype PublicationState = Offered | Claimed | Finished | Abandoned

  /** One envelope handed to the UI. `held` until the UI drops it; `claimed` once it was claimed. */
  datatype Envelope = Envelope(state: PublicationState, held: bool, claimed: bool)

  datatype Stage = Queued | Admitted | Waiting | Done

  datatype Job = Job(ticket: A.TicketId, auth: A.World, attempts: seq<Envelope>, stage: Stage, transaction: bool)

  datatype Event =
    | Postpone                       // the birth is not installed yet
    | Refuse                         // the ticket is no longer valid
    | Admit
    | StoreFails                     // no writer transaction for this claim
    | SendFull(committed: bool)
    | SendGone(committed: bool)
    | Offer
    | ClaimEnvelope(envelope: nat)
    | DropEnvelope(envelope: nat)
    | Timeout(committed: bool)
    | SeeFinished(committed: bool)
    | Gates(change: A.Event)

  predicate Enabled(j: Job, e: Event) {
    && A.WellIndexed(j.auth)
    && match e
       case Postpone => j.stage.Queued? && A.ValidateReply(j.auth, j.ticket) == Denied(PendingBirth)
       case Refuse => j.stage.Queued? && A.ValidateReply(j.auth, j.ticket).Denied?
                      && A.ValidateReply(j.auth, j.ticket) != Denied(PendingBirth)
       case Admit => j.stage.Queued? && A.ValidateReply(j.auth, j.ticket).Ok?
       case StoreFails => j.stage.Admitted?
       case SendFull(committed) => j.stage.Admitted?
       case SendGone(committed) => j.stage.Admitted?
       case Offer => j.stage.Admitted?
       case ClaimEnvelope(i) => i < |j.attempts| && j.attempts[i].held
       case DropEnvelope(i) => i < |j.attempts| && j.attempts[i].held
       case Timeout(committed) => j.stage.Waiting? && j.attempts != [] && j.attempts[|j.attempts| - 1].state.Offered?
       case SeeFinished(committed) => j.stage.Waiting? && j.attempts != [] && j.attempts[|j.attempts| - 1].state.Finished?
       case Gates(change) => A.Enabled(j.auth, change)
  }

  /** What the UI gets when it tries to claim an envelope. */
  function ClaimReply(j: Job, i: nat): Reply<Claim>
    requires A.WellIndexed(j.auth) && i < |j.attempts|
  {
    if !j.attempts[i].state.Offered? then Denied(StaleClaim) else A.ValidateReply(j.auth, j.ticket)
  }

  function Dropped(envelope: Envelope): Envelope {
    if envelope.state.Abandoned? then envelope.(held := false) else envelope.(held := false, state := Finished)
  }

  function Next(j: Job, e: Event): Job
    requires Enabled(j, e)
  {
    match e
    case Postpone => j
    case Refuse => j.(stage := Done)
    case Admit => j.(stage := Admitted)
    case StoreFails => j.(stage := Done)
    case SendFull(committed) =>
      j.(stage := if committed then Queued else Done, attempts := j.attempts + [Envelope(Finished, false, false)])
    case SendGone(committed) => j.(stage := Done, attempts := j.attempts + [Envelope(Finished, false, false)])
    case Offer => j.(stage := Waiting, transaction := true, attempts := j.attempts + [Envelope(Offered, true, false)])
    case ClaimEnvelope(i) =>
      if ClaimReply(j, i).Denied? then j
      else j.(attempts := j.attempts[i := j.attempts[i].(state := Claimed, claimed := true)])
    case DropEnvelope(i) => j.(attempts := j.attempts[i := Dropped(j.attempts[i])])
    case Timeout(committed) =>
      var last := |j.attempts| - 1;
      j.(stage := if committed then Queued else Done, transaction := false,
         attempts := j.attempts[last := j.attempts[last].(state := Abandoned)])
    case SeeFinished(committed) => j.(stage := Done, transaction := false)
    case Gates(change) => j.(auth := A.Next(j.auth, change))
  }

  /** An event that is not enabled is skipped. */
  function Step(j: Job, e: Event): Job {
    if Enabled(j, e) then Next(j, e) else j
  }

  ghost predicate Reaches(j: Job, events: seq<Event>, j': Job)
    decreases |events|
  {
    if events == [] then j' == j else Reaches(Step(j, events[0]), events[1..], j')
  }

  // ---------------------------------------------------------------------------------------------
  // What every run keeps

  ghost predicate EnvelopeOk(j: Job, i: nat)
    requires i < |j.attempts|
  {
    var e := j.attempts[i];
    && (e.state.Offered? ==> e.held && !e.claimed && j.stage.Waiting? && i == |j.attempts| - 1)
    && (e.state.Claimed? ==> e.held && e.claimed && j.stage.Waiting? && i == |j.attempts| - 1)
    && (e.state.Finished? ==> !e.held)
    && (e.state.Abandoned? ==> !e.claimed)
    && (e.claimed ==> i == |j.attempts| - 1 && (j.stage.Waiting? || j.stage.Done?))
  }

  /** Only the newest envelope can be offered, claimed or have been claimed, and the transaction is
      open exactly while the worker waits for it. */
  ghost predicate Invariant(j: Job) {
    && A.Invariant(j.auth)
    && (j.transaction <==> j.stage.Waiting?)
    && (forall i: nat | i < |j.attempts| :: EnvelopeOk(j, i))
  }

  predicate EnvelopeProgress(e: Envelope, e': Envelope) {
    && (e.state.Abandoned? ==> e'.state.Abandoned? && !e'.claimed)
    && (e.claimed ==> e'.claimed)
    && (!e.held ==> e' == e)
  }

  ghost predicate Progress(j: Job, j': Job) {
    && j'.ticket == j.ticket && A.Progress(j.auth, j'.auth)
    && |j.attempts| <= |j'.attempts|
    && (forall i: nat | i < |j.attempts| :: EnvelopeProgress(j.attempts[i], j'.attempts[i]))
    && (j.stage.Done? ==> j'.stage.Done?)
  }

  lemma GatesKeep(auth: A.World)
    ensures A.Progress(auth, auth)
  {}

  lemma StepIsSafe(j: Job, e: Event)
    requires Invariant(j)
    ensures Invariant(Step(j, e)) && Progress(j, Step(j, e))
  {
    hide A.Invariant, A.Progress, A.ValidateReply, A.Next;
    var j' := Step(j, e);
    GatesKeep(j.auth);
    if e.Gates? && Enabled(j, e) { A.NextIsSafe(j.auth, e.change); }
    forall i: nat | i < |j'.attempts|
      ensures EnvelopeOk(j', i)
    {
      if i < |j.attempts| { assert EnvelopeOk(j, i); }
    }
    forall i: nat | i < |j.attempts|
      ensures EnvelopeProgress(j.attempts[i], j'.attempts[i])
    {
      assert EnvelopeOk(j, i);
    }
  }

  lemma {:induction false} RunIsSafe(j: Job, events: seq<Event>, j': Job)
    requires Invariant(j) && Reaches(j, events, j')
    ensures Invariant(j') && Progress(j, j')
    decreases |events|
  {
    GatesKeep(j.auth);
    if events == [] {
      forall i: nat | i < |j.attempts|
        ensures EnvelopeProgress(j.attempts[i], j.attempts[i])
      {
        assert EnvelopeOk(j, i);
      }
    } else {
      var next := Step(j, events[0]);
      StepIsSafe(j, events[0]);
      RunIsSafe(next, events[1..], j');
      forall i | 0 <= i < |j.auth.gates|
        ensures A.Forward(j.auth.gates[i], j'.auth.gates[i])
      {
        assert A.Forward(j.auth.gates[i], next.auth.gates[i]) && A.Forward(next.auth.gates[i], j'.auth.gates[i]);
      }
      forall i: nat | i < |j.attempts|
        ensures EnvelopeProgress(j.attempts[i], j'.attempts[i])
      {
        assert EnvelopeProgress(j.attempts[i], next.attempts[i]) && EnvelopeProgress(next.attempts[i], j'.attempts[i]);
      }
    }
  }

  predicate Fresh(j: Job) {
    j.attempts == [] && j.stage.Queued? && !j.transaction
  }

  ghost predicate AtMostOneClaim(j: Job) {
    forall a, b | 0 <= a < |j.attempts| && 0 <= b < |j.attempts| :: j.attempts[a].claimed && j.attempts[b].claimed ==> a == b
  }

  ghost predicate Unclaimed(j: Job) {
    forall a | 0 <= a < |j.attempts| :: !j.attempts[a].claimed
  }

  /** Over all retries the UI claims a job at most once; while the claim lasts the writer transaction
      is open; and a job that was ever claimed is not queued again. */
  lemma ClaimedAtMostOnce(j: Job, events: seq<Event>, j': Job)
    requires Fresh(j) && A.Invariant(j.auth) && Reaches(j, events, j')
    ensures AtMostOneClaim(j')
    ensures forall a | 0 <= a < |j'.attempts| && j'.attempts[a].state.Claimed? :: j'.transaction
    ensures j'.stage.Queued? ==> Unclaimed(j')
  {
    RunIsSafe(j, events, j');
    forall a: nat | a < |j'.attempts|
      ensures j'.attempts[a].claimed ==> a == |j'.attempts| - 1 && !j'.stage.Queued?
      ensures j'.attempts[a].state.Claimed? ==> j'.transaction
    {
      assert EnvelopeOk(j', a);
    }
  }

  /** Once claimed, never requeued; once abandoned, abandoned and unclaimed for good. */
  lemma ClaimIsFinal(j: Job, events: seq<Event>, j': Job, i: nat)
    requires Invariant(j) && Reaches(j, events, j') && i < |j.attempts|
    ensures i < |j'.attempts|
    ensures j.attempts[i].claimed ==> |j'.attempts| == |j.attempts| && (j'.stage.Waiting? || j'.stage.Done?)
    ensures j.attempts[i].state.Abandoned? ==> j'.attempts[i].state.Abandoned? && !j'.attempts[i].claimed
  {
    RunIsSafe(j, events, j');
    assert EnvelopeProgress(j.attempts[i], j'.attempts[i]) && EnvelopeOk(j', i);
    assert EnvelopeOk(j, i);
  }

  /** After the gate of its ticket closes or is replaced, a job that is not yet claimed never is. */
  lemma {:induction false} ClosedTicketIsNeverClaimed(j: Job, events: seq<Event>, j': Job)
    requires Invariant(j) && Reaches(j, events, j')
    requires j.ticket.gate < |j.auth.gates|
    requires !j.auth.gates[j.ticket.gate].open
    requires forall i | 0 <= i < |j.attempts| :: !j.attempts[i].claimed
    ensures forall i | 0 <= i < |j'.attempts| :: !j'.attempts[i].claimed
    decreases |events|
  {
    if events != [] {
      var next := Step(j, events[0]);
      StepIsSafe(j, events[0]);
      assert A.Forward(j.auth.gates[j.ticket.gate], next.auth.gates[j.ticket.gate]);
      A.ClosedTicketNeverValidates(j.auth, [], j.auth, j.ticket);
      ClosedTicketIsNeverClaimed(next, events[1..], j');
    }
  }

  lemma {:induction false} ReachesFurther(j: Job, first: seq<Event>, m: Job, second: seq<Event>, j': Job)
    requires Reaches(j, first, m) && Reaches(m, second, j')
    ensures Reaches(j, first + second, j')
    decreases |first|
  {
    if first == [] {
      assert first + second == second;
    } else {
      ReachesFurther(Step(j, first[0]), first[1..], m, second, j');
      assert (first + second)[1..] == first[1..] + second;
    }
  }

  lemma ReachesOne(j: Job, e: Event)
    ensures Reaches(j, [e], Step(j, e))
  {}

  // ---------------------------------------------------------------------------------------------
  // One job as the threads see it

  datatype SendResult = Delivered | Full | Disconnected

  /** What the UI and the authority do while the worker waits, and whether that wait timed out. */
  datatype Wake = Wake(others: seq<Event>, timedOut: bool)

  /** Everything the outside decides during one attempt: what the UI and the authority do before and
      between its sections, and how the store, the channel, the waits and the commit end. */
  datatype Script = Script(
    before: seq<Event>, between: seq<Event>, answers: bool, send: SendResult, wakes: seq<Wake>, commits: bool)

  datatype AttemptReply = Settled | Requeue | Failed | StillWaiting

  /** The job after some events, those that are not enabled being skipped. */
  function After(j: Job, events: seq<Event>): Job
    decreases |events|
  {
    if events == [] then j else After(Step(j, events[0]), events[1..])
  }

  lemma {:induction false} ReachesAfter(j: Job, events: seq<Event>)
    ensures Reaches(j, events, After(j, events))
    decreases |events|
  {
    if events != [] { ReachesAfter(Step(j, events[0]), events[1..]); }
  }

  lemma {:induction false} AfterOneMore(j: Job, events: seq<Event>, e: Event)
    ensures After(j, events + [e]) == Step(After(j, events), e)
    decreases |events|
  {
    if events == [] {
      assert [e][1..] == [];
    } else {
      AfterOneMore(Step(j, events[0]), events[1..], e);
      assert (events + [e])[1..] == events[1..] + [e];
    }
  }

  predicate NewestIs(j: Job, state: PublicationState) {
    j.attempts != [] && j.attempts[|j.attempts| - 1].state == state
  }

  /** The job before the `k`-th wake of a wait. */
  function AtWake(j: Job, wakes: seq<Wake>, k: nat): Job
    requires k <= |wakes|
  {
    if k == 0 then j else After(AtWake(j, wakes, k - 1), wakes[k - 1].others)
  }

  /** The wait ends here: the UI has finished, or the time is up while the envelope is still offered. */
  predicate EndsAt(j: Job, wakes: seq<Wake>, k: nat)
    requires k < |wakes|
  {
    || NewestIs(AtWake(j, wakes, k), PublicationState.Finished)
    || (wakes[k].timedOut && NewestIs(AtWake(j, wakes, k + 1), Offered))
  }

  /** How a wait ends: settled after the UI has finished, queued again after an abandoned offer, failed when
      the transaction cannot be committed after either. */
  predicate WaitOutcome(reply: AttemptReply, commits: bool, j: Job) {
    && (reply.Requeue? ==> commits && NewestIs(j, Abandoned))
    && (reply.Settled? ==> commits && NewestIs(j, PublicationState.Finished))
    && (reply.Failed? ==> !commits && (NewestIs(j, Abandoned) || NewestIs(j, PublicationState.Finished)))
  }

  predicate WaitsOn(j: Job, wakes: seq<Wake>) {
    forall k | 0 <= k < |wakes| :: !EndsAt(j, wakes, k)
  }

  function OfferedTo(j: Job): Job {
    j.(stage := Waiting, transaction := true, attempts := j.attempts + [Envelope(Offered, true, false)])
  }

  /** The outcome of an attempt that was admitted but could not offer anything: a store that does not answer
      fails it; a full channel queues it again and a closed one settles it, if the transaction commits. */
  predicate NotOffered(reply: AttemptReply, script: Script, j: Job, attempts: seq<Envelope>) {
    if !script.answers then reply.Failed? && attempts == j.attempts
    else
      && attempts == j.attempts + [Envelope(PublicationState.Finished, false, false)]
      && reply == if !script.commits then Failed else if script.send.Full? then Requeue else Settled
  }

  predicate Foreign(e: Event) {
    e.ClaimEnvelope? || e.DropEnvelope? || e.Gates?
  }

  ghost predicate ScriptOk(script: Script) {
    && (forall e | e in script.before || e in script.between :: Foreign(e))
    && (forall w, e | w in script.wakes && e in w.others :: Foreign(e))
  }

  class PublicationJob {
    const ticket: A.TicketId
    var auth: A.World
    var attempts: seq<Envelope>
    var stage: Stage
    var transaction: bool

    /** The job as it was submitted, and everything that has happened to it since. */
    ghost const start: Job
    ghost var trace: seq<Event>

    ghost function State(): Job
      reads this
    {
      Job(ticket, auth, attempts, stage, transaction)
    }

    ghost predicate Valid()
      reads this
    {
      && Fresh(start) && A.Invariant(start.auth) && start.ticket == ticket
      && Invariant(State()) && Reaches(start, trace, State())
    }

    constructor (ticket: A.TicketId, auth: A.World)
      requires A.Invariant(auth)
      ensures Valid() && Fresh(State()) && this.ticket == ticket && this.auth == auth
    {
      this.ticket, this.auth := ticket, auth;
      attempts, stage, transaction := [], Queued, false;
      start, trace := Job(ticket, auth, [], Queued, false), [];
    }

    /** Over its whole life the job was claimed at most once, and never while it was queued. */
    lemma ClaimedOnce()
      requires Valid()
      ensures AtMostOneClaim(State()) && (stage.Queued? ==> !transaction && Unclaimed(State()))
    {
      ClaimedAtMostOnce(start, trace, State());
    }

    lemma Extend(e: Event)
      requires Valid()
      ensures Invariant(Step(State(), e)) && Reaches(start, trace + [e], Step(State(), e))
    {
      StepIsSafe(State(), e);
      ReachesOne(State(), e);
      ReachesFurther(start, trace, State(), [e], Step(State(), e));
    }

    lemma TicketPasses()
      requires Valid()
      ensures A.WellIndexed(auth)
      ensures A.ValidateReply(auth, ticket).Ok?
              <==> && A.OwnGate(auth, ticket.context.claim.key, ticket.gate, ticket.context.claim)
                   && auth.gates[ticket.gate].open && auth.gates[ticket.gate].installed
    {
      A.ValidatesExactly(auth, ticket);
    }

    lemma IndexedGates()
      requires Valid()
      ensures A.WellIndexed(auth)
    {}

    /** The UI claims an envelope: only one that is still offered, with a ticket valid right now. */
    method BeginPublication(i: nat) returns (reply: Reply<Claim>)
      requires Valid() && i < |attempts| && attempts[i].held
      modifies `attempts, `trace
      ensures Valid() && trace == old(trace) + [ClaimEnvelope(i)]
      ensures A.WellIndexed(auth) && reply == ClaimReply(old(State()), i)
      ensures reply.Ok? <==>
                && old(attempts)[i].state.Offered? && A.OwnGate(auth, ticket.context.claim.key, ticket.gate, ticket.context.claim)
                && auth.gates[ticket.gate].open && auth.gates[ticket.gate].installed
      ensures reply.Ok? ==> attempts == old(attempts)[i := Envelope(Claimed, true, true)]
      ensures reply.Denied? ==> attempts == old(attempts)
    {
      hide Reaches, A.Invariant, A.ValidateReply, A.OwnGate;
      Extend(ClaimEnvelope(i));
      IndexedGates();
      TicketPasses();
      trace := trace + [ClaimEnvelope(i)];
      if !attempts[i].state.Offered? { return Denied(StaleClaim); }
      reply := A.ValidateReply(auth, ticket);
      if reply.Denied? { return; }
      attempts := attempts[i := attempts[i].(state := Claimed, claimed := true)];
    }

    method Drop(i: nat)
      requires Valid() && i < |attempts| && attempts[i].held
      modifies `attempts, `trace
      ensures Valid() && trace == old(trace) + [DropEnvelope(i)]
      ensures attempts == old(attempts)[i := Dropped(old(attempts)[i])]
    {
      hide Reaches, A.Invariant, A.ValidateReply;
      Extend(DropEnvelope(i));
      IndexedGates();
      trace := trace + [DropEnvelope(i)];
      attempts := attempts[i := Dropped(attempts[i])];
    }

    /** The UI and the authority run; they never move the worker's stage or its transaction. */
    method Interfere(events: seq<Event>)
      requires Valid() && forall e | e in events :: Foreign(e)
      modifies this
      ensures Valid() && trace == old(trace) + events && A.WellIndexed(auth)
      ensures stage == old(stage) && transaction == old(transaction) && |attempts| == |old(attempts)|
      ensures State() == After(old(State()), events)
    {
      hide Reaches, Enabled, Next, Invariant, A.Invariant;
      for k := 0 to |events|
        invariant Valid() && trace == old(trace) + events[..k]
        invariant stage == old(stage) && transaction == old(transaction) && |attempts| == |old(attempts)|
        invariant State() == After(old(State()), events[..k])
      {
        AfterOneMore(old(State()), events[..k], events[k]);
        assert events[..k + 1] == events[..k] + [events[k]];
        Extend(events[k]);
        ForeignKeepsStage(State(), events[k]);
        trace := trace + [events[k]];
        var next := Step(Job(ticket, auth, attempts, stage, transaction), events[k]);
        auth, attempts, stage, transaction := next.auth, next.attempts, next.stage, next.transaction;
      }
      assert events[..|events|] == events;
      IndexedGates();
    }

    /** A step of the worker itself. */
    method Move(e: Event)
      requires Valid() && Enabled(State(), e) && !Foreign(e)
      modifies `stage, `transaction, `attempts, `trace
      ensures Valid() && trace == old(trace) + [e]
      ensures State() == Next(old(State()), e)
    {
      hide Reaches, A.ValidateReply, A.Invariant;
      Extend(e);
      trace := trace + [e];
      var next := Next(Job(ticket, auth, attempts, stage, transaction), e);
      stage, transaction, attempts := next.stage, next.transaction, next.attempts;
    }

    /** What the worker finds when it validates the ticket. */
    ghost function Seen(script: Script): Job
      reads this
    {
      After(State(), script.before)
    }

    /** What it finds when the store has answered. */
    ghost function Admitted(script: Script): Job
      reads this
    {
      After(Seen(script).(stage := Stage.Admitted), script.between)
    }

    /** One attempt to publish the job. It is queued again only when its birth is not installed yet, when
        the channel to the UI is full, or when its offer was abandoned; and not when the transaction could
        not be committed. An offer is a new, held envelope behind all earlier ones. */
    method PublicationAttempt(script: Script) returns (reply: AttemptReply)
      requires Valid() && stage.Queued? && ScriptOk(script)
      modifies this
      ensures Valid() && old(trace) <= trace
      ensures reply.Requeue? <==> stage.Queued?
      ensures reply.Requeue? ==> !transaction && Unclaimed(State())
      ensures reply.Settled? || reply.Failed? ==> stage.Done? && !transaction
      ensures reply.StillWaiting? ==> stage.Waiting? && transaction
      ensures A.WellIndexed(old(Seen(script)).auth)
      ensures var validated := A.ValidateReply(old(Seen(script)).auth, ticket);
              if validated.Denied? then
                attempts == old(Seen(script)).attempts
                && reply == if validated.denial.PendingBirth? then Requeue else Settled
              else if !script.answers || !script.send.Delivered? then
                NotOffered(reply, script, old(Admitted(script)), attempts)
              else
                && |attempts| == |old(attempts)| + 1 && WaitOutcome(reply, script.commits, State())
                && (reply.StillWaiting? <==> WaitsOn(OfferedTo(old(Admitted(script))), script.wakes))
                && (script.wakes == [] ==> State() == OfferedTo(old(Admitted(script))))
    {
      hide Reaches, Invariant, After, WaitsOn, WaitOutcome, OfferedTo, NotOffered, Unclaimed, A.ValidateReply, A.Invariant,
        A.Next;
      Interfere(script.before);
      ClaimedOnce();
      var valid := A.ValidateReply(auth, ticket);
      if valid == Denied(PendingBirth) { return Requeue; }
      if valid.Denied? {
        Move(Refuse);
        return Settled;
      }
      Move(Admit);
      Interfere(script.between);
      reply := PublishAdmitted(script);
    }

    /** The transaction of an admitted job. */
    method PublishAdmitted(script: Script) returns (reply: AttemptReply)
      requires Valid() && stage.Admitted? && !transaction && ScriptOk(script)
      modifies this
      ensures Valid() && old(trace) <= trace
      ensures reply.Requeue? <==> stage.Queued?
      ensures reply.Requeue? ==> !transaction && Unclaimed(State())
      ensures reply.Settled? || reply.Failed? ==> stage.Done? && !transaction
      ensures reply.StillWaiting? ==> stage.Waiting? && transaction
      ensures if !script.answers || !script.send.Delivered? then NotOffered(reply, script, old(State()), attempts)
              else
                && |attempts| == |old(attempts)| + 1 && WaitOutcome(reply, script.commits, State())
                && (reply.StillWaiting? <==> WaitsOn(OfferedTo(old(State())), script.wakes))
                && (script.wakes == [] ==> State() == OfferedTo(old(State())))
    {
      hide Reaches, Invariant, After, WaitsOn, WaitOutcome, A.ValidateReply, A.Invariant, A.Next;
      IndexedGates();
      if !script.answers {
        Move(StoreFails);
        return Failed;
      }
      if script.send.Full? {
        Move(SendFull(script.commits));
        if !script.commits { return Failed; }
        ClaimedOnce();
        return Requeue;
      }
      if script.send.Disconnected? {
        Move(SendGone(script.commits));
        return if script.commits then Settled else Failed;
      }
      Move(Offer);
      reply := AwaitUi(script.wakes, script.commits);
    }

    /** After an error the worker closes the gate of the job's claim, if it is still the registered one. */
    method Invalidate()
      requires Valid()
      modifies this
      ensures Valid() && old(trace) <= trace && stage == old(stage) && transaction == old(transaction)
      ensures A.WellIndexed(old(auth)) && auth == A.AfterBeginRetire(old(auth), ticket.context.claim)
      ensures A.WellIndexed(auth) && A.ValidateReply(auth, ticket).Denied?
    {
      hide Reaches, A.Invariant, A.AfterBeginRetire;
      IndexedGates();
      FencedIsDenied(auth, ticket);
      GateEventApplies(State(), A.BeginRetire(ticket.context.claim));
      Extend(Gates(A.BeginRetire(ticket.context.claim)));
      trace := trace + [Gates(A.BeginRetire(ticket.context.claim))];
      auth := A.AfterBeginRetire(auth, ticket.context.claim);
    }

    /** Wait for the UI to finish with the newest envelope, or abandon it while it is still offered. */
    method AwaitUi(wakes: seq<Wake>, commits: bool) returns (reply: AttemptReply)
      requires Valid() && stage.Waiting? && transaction && attempts != []
      requires forall w, e | w in wakes && e in w.others :: Foreign(e)
      modifies this
      ensures Valid() && old(trace) <= trace && |attempts| == |old(attempts)|
      ensures reply.Requeue? <==> stage.Queued?
      ensures reply.Requeue? ==> !transaction && Unclaimed(State())
      ensures reply.Settled? || reply.Failed? ==> stage.Done? && !transaction
      ensures reply.StillWaiting? ==> stage.Waiting? && transaction
      ensures WaitOutcome(reply, commits, State())
      ensures reply.StillWaiting? <==> WaitsOn(old(State()), wakes)
      ensures wakes == [] ==> State() == old(State())
    {
      hide Reaches, Invariant, After, A.ValidateReply, A.Invariant, A.Next;
      IndexedGates();
      for k := 0 to |wakes|
        invariant Valid() && old(trace) <= trace && stage.Waiting? && transaction && |attempts| == |old(attempts)|
        invariant A.WellIndexed(auth)
        invariant State() == AtWake(old(State()), wakes, k)
        invariant forall i | 0 <= i < k :: !EndsAt(old(State()), wakes, i)
      {
        if attempts[|attempts| - 1].state.Finished? {
          assert EndsAt(old(State()), wakes, k);
          Move(SeeFinished(commits));
          return if commits then Settled else Failed;
        }
        Interfere(wakes[k].others);
        if wakes[k].timedOut && attempts[|attempts| - 1].state.Offered? {
          assert EndsAt(old(State()), wakes, k);
          Move(Timeout(commits));
          if !commits { return Failed; }
          ClaimedOnce();
          return Requeue;
        }
      }
      reply := StillWaiting;
    }
  }

  lemma FencedIsDenied(auth: A.World, ticket: A.TicketId)
    requires A.WellIndexed(auth)
    ensures var auth' := A.AfterBeginRetire(auth, ticket.context.claim);
            A.WellIndexed(auth') && A.ValidateReply(auth', ticket).Denied?
  {}

  lemma GateEventApplies(j: Job, change: A.Event)
    requires A.WellIndexed(j.auth) && A.Enabled(j.auth, change)
    ensures Step(j, Gates(change)) == j.(auth := A.Next(j.auth, change))
  {}

  lemma ForeignKeepsStage(j: Job, e: Event)
    requires Foreign(e)
    ensures var j' := Step(j, e);
            && j'.ticket == j.ticket && j'.stage == j.stage && j'.transaction == j.transaction
            && |j'.attempts| == |j.attempts|
  {}

  // ---------------------------------------------------------------------------------------------
  // The retry ring

  const RING: nat := 256

  ghost predicate Distinct<T>(jobs: seq<T>) {
    forall a, b | 0 <= a < b < |jobs| :: jobs[a] != jobs[b]
  }

  lemma Rotated<T>(job: T, rest: seq<T>, channel: seq<T>)
    requires Distinct([job] + rest + channel)
    ensures Distinct(rest + channel) && job !in rest + channel
    ensures Distinct(rest + [job] + channel)
    ensures forall j :: j in [job] + rest + channel <==> j == job || j in rest + channel
    ensures forall j :: j in rest + [job] + channel <==> j == job || j in rest + channel
  {
    var all, others, rotated := [job] + rest + channel, rest + channel, rest + [job] + channel;
    forall k | 0 <= k < |others|
      ensures others[k] == all[k + 1] && others[k] != job
    {
      assert all[0] != all[k + 1];
    }
    forall a, b | 0 <= a < b < |rotated|
      ensures rotated[a] != rotated[b]
    {
      assert a < |rest| ==> rotated[a] == others[a];
      assert a > |rest| ==> rotated[a] == others[a - 1];
      assert b < |rest| ==> rotated[b] == others[b];
      assert b > |rest| ==> rotated[b] == others[b - 1];
    }
  }

  lemma FirstIsNew<T>(tried: seq<T>, rest: seq<T>)
    requires Distinct(tried + rest) && rest != []
    ensures rest[0] !in tried && tried + rest == (tried + [rest[0]]) + rest[1..]
    ensures rest[0] in tried + rest
  {
    assert (tried + rest)[|tried|] == rest[0];
    forall k | 0 <= k < |tried|
      ensures tried[k] != rest[0]
    {
      assert (tried + rest)[k] != (tried + rest)[|tried|];
    }
  }

  /** The jobs that are still queued, in their order. */
  ghost function StillQueued(jobs: seq<PublicationJob>): (kept: seq<PublicationJob>)
    reads jobs
    ensures |kept| <= |jobs| && forall job | job in kept :: job in jobs && job.stage.Queued?
  {
    if jobs == [] then []
    else
      var last := |jobs| - 1;
      StillQueued(jobs[..last]) + if jobs[last].stage.Queued? then [jobs[last]] else []
  }

  /** The worker with its retry ring and the channel behind it. `submitted` are all jobs the channel
      ever accepted; `current` is the job whose attempt has not ended. */
  class PublicationWorker {
    var pending: seq<PublicationJob>
    var channel: seq<PublicationJob>
    ghost var submitted: set<PublicationJob>
    ghost var current: Option<PublicationJob>

    /** Every job that was ever accepted is valid, is waiting in the ring or the channel exactly once,
        is being published right now, or is done for good. */
    ghost predicate Valid()
      reads this, submitted
    {
      && |pending| <= RING && |channel| <= RING
      && Distinct(pending + channel)
      && (forall job | job in submitted :: job.Valid())
      && (forall job | job in pending + channel :: job in submitted && job.stage.Queued?)
      && (forall job | job in submitted && job !in pending + channel && Some(job) != current :: job.stage.Done?)
      && (current.Some? ==> current.value in submitted && current.value !in pending + channel)
    }

    constructor ()
      ensures Valid() && pending == [] && channel == [] && submitted == {} && current == None
    {
      pending, channel, submitted, current := [], [], {}, None;
    }

    /** No job is ever claimed twice, over all its retries and all rounds of the worker. */
    lemma NothingIsClaimedTwice()
      requires Valid()
      ensures forall job | job in submitted :: AtMostOneClaim(job.State())
      ensures forall job | job in pending + channel :: Unclaimed(job.State()) && !job.transaction
    {
      forall job | job in submitted
        ensures AtMostOneClaim(job.State()) && (job.stage.Queued? ==> !job.transaction && Unclaimed(job.State()))
      {
        job.ClaimedOnce();
      }
    }

    /** A new job enters the channel unless it is full. */
    method Publish(job: PublicationJob) returns (ok: bool)
      requires Valid() && job.Valid() && job.stage.Queued? && job !in submitted
      modifies this
      ensures Valid() && pending == old(pending) && current == old(current)
      ensures ok <==> |old(channel)| < RING
      ensures channel == (if ok then old(channel) + [job] else old(channel))
      ensures submitted == (if ok then old(submitted) + {job} else old(submitted))
    {
      ok := |channel| < RING;
      if ok {
        channel := channel + [job];
        submitted := submitted + {job};
        assert pending + channel == old(pending + channel) + [job];
      }
    }

    /** Fill the ring from the channel, in order. */
    method Refill()
      requires Valid()
      modifies `pending, `channel
      ensures Valid()
      ensures var all := old(pending) + old(channel);
              var taken := if |all| <= RING then |all| else RING;
              pending == all[..taken] && channel == all[taken..]
    {
      ghost var all := pending + channel;
      while |pending| < RING && channel != []
        invariant pending + channel == all && |pending| <= RING && |channel| <= RING
        decreases |channel|
      {
        pending, channel := pending + [channel[0]], channel[1..];
      }
      assert pending == all[..|pending|] && channel == all[|pending|..];
    }

    /** Take the first job of the ring and try it: it goes behind the others if it is still queued, and
        an error closes the gate of its claim. */
    method TryNext(script: Script) returns (blocked: bool, reply: AttemptReply)
      requires Valid() && current.None? && pending != [] && ScriptOk(script)
      modifies `pending, `current, pending[0]
      ensures Valid() && (blocked <==> current.Some?) && (blocked ==> current == Some(old(pending[0])))
      ensures var job := old(pending[0]);
              && pending == old(pending)[1..] + (if job.stage.Queued? then [job] else [])
              && old(job.trace) <= job.trace
              && (blocked <==> reply.StillWaiting?) && (reply.Requeue? <==> job.stage.Queued?)
              && A.WellIndexed(job.auth)
              && (reply.Failed? ==> A.ValidateReply(job.auth, job.ticket).Denied?)
    {
      hide PublicationJob.Valid, StillQueued, WaitOutcome, WaitsOn, OfferedTo, NotOffered, After, Unclaimed, A.ValidateReply,
        A.AfterBeginRetire, ScriptOk;
      var job := pending[0];
      ghost var rest := pending[1..];
      assert pending + channel == [job] + rest + channel;
      Rotated(job, rest, channel);
      pending := pending[1..];
      reply := job.PublicationAttempt(script);
      if reply.Failed? { job.Invalidate(); }
      job.IndexedGates();
      if reply.StillWaiting? {
        current := Some(job);
        return true, reply;
      }
      if reply.Requeue? { pending := pending + [job]; }
      blocked := false;
    }

    /** One round: refill the ring from the channel and try every job once. Those that are still queued
        stay, in their order; nothing is lost or duplicated, and no job behind them is touched. */
    method Round(script: nat -> Script) returns (blocked: bool)
      requires Valid() && current.None? && forall k :: ScriptOk(script(k))
      modifies `pending, `channel, `current, pending, channel
      ensures Valid() && (blocked <==> current.Some?)
      ensures var all := old(pending) + old(channel);
              var taken := if |all| <= RING then |all| else RING;
              && channel == all[taken..]
              && (!blocked ==> pending == StillQueued(all[..taken]))
    {
      Refill();
      blocked := TryAll(script);
    }

    /** Every job now in the ring is tried once. */
    method TryAll(script: nat -> Script) returns (blocked: bool)
      requires Valid() && current.None? && forall k :: ScriptOk(script(k))
      modifies `pending, `current, pending
      ensures Valid() && (blocked <==> current.Some?)
      ensures !blocked ==> pending == StillQueued(old(pending))
    {
      ghost var tried, rest := [], pending;
      hide *;
      RingIsDistinct();
      NoneQueued();
      var count := |pending|;
      for k := 0 to count
        invariant Valid() && current.None? && |rest| == count - k
        invariant tried + rest == old(pending) && Distinct(old(pending))
        invariant pending == rest + StillQueued(tried)
      {
        ghost var kept, job := StillQueued(tried), rest[0];
        FirstIsNew(tried, rest);
        assert pending[0] == job && pending[1..] == rest[1..] + kept;
        var reply;
        blocked, reply := TryNext(script(k));
        assert StillQueued(tried) == kept;
        if blocked { return; }
        OneMoreTried(tried, job);
        tried, rest := tried + [job], rest[1..];
      }
      assert rest == [] && tried == old(pending);
      blocked := false;
    }

    method ServeOne(job: PublicationJob, script: nat -> Script) returns (blocked: bool)
      requires Valid() && current.None? && job.Valid() && job.stage.Queued? && job !in submitted
      requires forall k :: ScriptOk(script(k))
      modifies this, submitted, job
      ensures Valid() && (blocked <==> current.Some?)
      ensures old(submitted) <= submitted <= old(submitted) + {job}
    {
      hide *;
      var ok := Publish(job);
      NothingElseQueued();
      blocked := Round(script);
    }

    /** Jobs arrive one at a time, with a round of the worker after each: whatever the UI, the authority,
        the store and the channels do, no accepted job is ever claimed twice, and one that is no longer
        queued is done for good or is the one being published. */
    method Serve(inbox: seq<PublicationJob>, script: (nat, nat) -> Script) returns (blocked: bool)
      requires Valid() && current.None? && Distinct(inbox)
      requires forall job | job in inbox :: job.Valid() && job.stage.Queued? && job !in submitted
      requires forall i, k :: ScriptOk(script(i, k))
      modifies this, submitted, inbox
      ensures Valid() && old(submitted) <= submitted && (blocked <==> current.Some?)
      ensures forall job | job in submitted :: AtMostOneClaim(job.State())
    {
      blocked := false;
      for i := 0 to |inbox|
        invariant Valid() && current.None? && old(submitted) <= submitted
        invariant forall job | job in submitted :: job in old(submitted) || job in inbox
        invariant forall k | i <= k < |inbox| :: inbox[k].Valid() && inbox[k].stage.Queued? && inbox[k] !in submitted
      {
        hide *;
        LaterOnes(inbox, i);
        blocked := ServeOne(inbox[i], (k: nat) => script(i, k));
        if blocked { break; }
      }
      NothingIsClaimedTwice();
    }

    lemma LaterOnes(inbox: seq<PublicationJob>, i: nat)
      requires Distinct(inbox) && i < |inbox|
      ensures forall k | i < k < |inbox| :: inbox[k] != inbox[i]
    {}

    lemma NothingElseQueued()
      requires Valid()
      ensures forall job | job in pending || job in channel :: job in submitted
    {
      assert forall job | job in pending || job in channel :: job in pending + channel;
    }

    lemma RingIsDistinct()
      requires Valid()
      ensures Distinct(pending)
    {
      assert forall a | 0 <= a < |pending| :: (pending + channel)[a] == pending[a];
    }
  }

  lemma NoneQueued()
    ensures StillQueued([]) == []
  {}

  lemma OneMoreTried(tried: seq<PublicationJob>, job: PublicationJob)
    ensures StillQueued(tried + [job]) == StillQueued(tried) + if job.stage.Queued? then [job] else []
  {
    assert (tried + [job])[..|tried|] == tried;
  }
}
