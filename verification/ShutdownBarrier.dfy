/** The shutdown flush of the conversation worker over two bounded FIFO queues. */
module ShutdownBarrier {
  import opened Identity

  /** `Resolve` is the user's own verdict on a transfer; `Other` stands for the jobs that store no
      receipt. */
  datatype Job = Delivered(transfer: nat) | Resolve(transfer: nat) | Flush | Other

  datatype Event = Deliver(transfer: nat) | Failure | Notice

  /** The worker and both queues. `emitted` are the transfers it sent out for delivery, `stored` those
      whose receipt it stored, `failures` how often something failed; the `acked` fields are these three as
      they were at the last acknowledgement. */
  datatype Hub = Hub(
    capacity: nat, jobs: seq<Job>, events: seq<Event>, outbox: Option<Event>, alive: bool,
    answer: Option<bool>, receiptErrors: set<nat>,
    emitted: set<nat>, stored: set<nat>, failures: nat,
    ackedEmitted: set<nat>, ackedStored: set<nat>, ackedFailures: nat)

  datatype WorkerStep =
    | Take(stores: bool, event: Option<Event>)
    | Send
    | Idle(notice: Event)
    | Stop

  /** A transfer is claimed from the store, and so sent out, at most once. */
  predicate MayEmit(h: Hub, event: Option<Event>) {
    event.Some? && event.value.Deliver? ==> event.value.transfer !in h.emitted
  }

  predicate Enabled(h: Hub, step: WorkerStep) {
    && h.alive
    && match step
       case Take(stores, event) => h.outbox.None? && h.jobs != [] && MayEmit(h, event)
       case Send => h.outbox.Some? && |h.events| < h.capacity
       case Idle(event) => h.outbox.None? && MayEmit(h, Some(event))
       case Stop => true
  }

  function Emit(h: Hub, event: Option<Event>): Hub {
    h.(outbox := event,
       emitted := if event.Some? && event.value.Deliver? then h.emitted + {event.value.transfer} else h.emitted)
  }

  function TakeJob(h: Hub, stores: bool, event: Option<Event>): Hub
    requires h.jobs != []
  {
    var h' := h.(jobs := h.jobs[1..]);
    match h.jobs[0]
    case Delivered(id) =>
      if stores then h'.(stored := h.stored + {id}, receiptErrors := h.receiptErrors - {id})
      else h'.(receiptErrors := h.receiptErrors + {id}, outbox := Some(Failure))
    case Resolve(id) =>
      if stores then h'.(stored := h.stored + {id}, receiptErrors := h.receiptErrors - {id})
      else h'.(outbox := Some(Failure))
    case Flush =>
      h'.(answer := Some(h.receiptErrors == {}),
          ackedEmitted := h.emitted, ackedStored := h.stored, ackedFailures := h.failures)
    case Other => Emit(h', event)
  }

  /** The worker could not store something, or ran into another error. */
  predicate Fails(h: Hub, step: WorkerStep) {
    Enabled(h, step) &&
    match step
    case Take(stores, event) =>
      if h.jobs[0].Delivered? || h.jobs[0].Resolve? then !stores else h.jobs[0].Other? && event == Some(Failure)
    case Idle(event) => event.Failure?
    case _ => false
  }

  function Next(h: Hub, step: WorkerStep): Hub {
    Moved(h, step).(failures := h.failures + if Fails(h, step) then 1 else 0)
  }

  function Moved(h: Hub, step: WorkerStep): Hub {
    if !Enabled(h, step) then h
    else
      match step
      case Take(stores, event) => TakeJob(h, stores, event)
      case Send => h.(events := h.events + [h.outbox.value], outbox := None)
      case Idle(event) => Emit(h, Some(event))
      case Stop => h.(alive := false)
  }

  function Run(h: Hub, steps: seq<WorkerStep>): Hub
    decreases |steps|
  {
    if steps == [] then h else Run(Next(h, steps[0]), steps[1..])
  }

  // ---------------------------------------------------------------------------------------------
  // What the worker keeps while the UI waits

  /** Where the receipt of an emitted transfer can be. */
  predicate Somewhere(h: Hub, receipts: seq<nat>, id: nat) {
    || Deliver(id) in h.events || h.outbox == Some(Deliver(id)) || id in receipts
    || Delivered(id) in h.jobs || id in h.stored || id in h.receiptErrors
  }

  predicate NothingLost(h: Hub, receipts: seq<nat>) {
    forall id | id in h.emitted :: Somewhere(h, receipts, id)
  }

  /** At most one flush is queued, and only while its answer is awaited. */
  predicate OneFlush(h: Hub, awaiting: bool) {
    && (Flush in h.jobs ==> awaiting && h.answer.None?)
    && (!awaiting ==> h.answer.None?)
    && forall a, b | 0 <= a < b < |h.jobs| :: !(h.jobs[a].Flush? && h.jobs[b].Flush?)
  }

  predicate NoReceiptBehindFlush(jobs: seq<Job>) {
    forall a, b | 0 <= a < b < |jobs| && jobs[a].Flush? :: !jobs[b].Delivered?
  }

  predicate Covered(h: Hub, receipts: seq<nat>, id: nat) {
    id in h.ackedStored || Deliver(id) in h.events || id in receipts
  }

  /** As long as no receipt was queued behind the flush, its positive answer accounts for every
      transfer sent out before it. */
  predicate BarrierHolds(h: Hub, receipts: seq<nat>, awaiting: bool, receiptsAfter: bool) {
    awaiting && !receiptsAfter ==>
      && NoReceiptBehindFlush(h.jobs)
      && (h.answer.None? ==> Flush in h.jobs)
      && (h.answer.Some? ==> forall job | job in h.jobs :: !job.Delivered?)
      && (h.answer == Some(true) ==> forall id | id in h.ackedEmitted :: Covered(h, receipts, id))
  }

  predicate Sound(h: Hub, receipts: seq<nat>, awaiting: bool, receiptsAfter: bool, since: set<nat>) {
    && NothingLost(h, receipts)
    && OneFlush(h, awaiting)
    && BarrierHolds(h, receipts, awaiting, receiptsAfter)
    && since <= h.emitted
    && (h.answer.Some? ==> since <= h.ackedEmitted)
  }

  /** Every failure after the first `base` was seen by the UI or is on its way to it; those before the
      acknowledgement have at least reached the queue. */
  predicate Reported(h: Hub, failed: bool, first: nat, base: int) {
    && base <= first <= h.failures
    && (h.failures > base ==> failed || Failure in h.events || h.outbox == Some(Failure))
    && (h.answer.Some? ==> first <= h.ackedFailures && (h.ackedFailures > base ==> failed || Failure in h.events))
  }

  lemma StepReports(h: Hub, step: WorkerStep, failed: bool, first: nat, base: int)
    requires Reported(h, failed, first, base)
    ensures Reported(Next(h, step), failed, first, base) && h.events <= Next(h, step).events
  {
    if Enabled(h, step) && step.Send? {
      assert Next(h, step).events[|h.events|] == h.outbox.value;
      assert forall e | e in h.events :: e in Next(h, step).events;
    }
  }

  lemma {:induction false} RunReports(h: Hub, steps: seq<WorkerStep>, failed: bool, first: nat, base: int)
    requires Reported(h, failed, first, base)
    ensures Reported(Run(h, steps), failed, first, base) && h.events <= Run(h, steps).events
    decreases |steps|
  {
    hide Reported, Next;
    if steps != [] {
      StepReports(h, steps[0], failed, first, base);
      RunReports(Next(h, steps[0]), steps[1..], failed, first, base);
    }
  }

  predicate FailureOnItsWay(h: Hub) {
    Failure in h.events || h.outbox == Some(Failure)
  }

  lemma StepHasItsCause(h: Hub, step: WorkerStep)
    ensures FailureOnItsWay(Next(h, step)) ==> FailureOnItsWay(h) || Next(h, step).failures > h.failures
    ensures Next(h, step).failures >= h.failures
  {}

  /** The worker never reports a failure that did not happen. */
  lemma {:induction false} FailuresHappened(h: Hub, steps: seq<WorkerStep>)
    ensures FailureOnItsWay(Run(h, steps)) ==> FailureOnItsWay(h) || Run(h, steps).failures > h.failures
    ensures Run(h, steps).failures >= h.failures
    decreases |steps|
  {
    hide FailureOnItsWay, Next;
    if steps != [] {
      StepHasItsCause(h, steps[0]);
      FailuresHappened(Next(h, steps[0]), steps[1..]);
    }
  }

  lemma TakeKeepsReceipts(h: Hub, step: WorkerStep, receipts: seq<nat>)
    requires NothingLost(h, receipts) && Enabled(h, step) && step.Take?
    ensures NothingLost(Next(h, step), receipts)
  {
    var h' := Next(h, step);
    assert forall j | j in h.jobs :: j == h.jobs[0] || j in h'.jobs;
    forall id | id in h'.emitted
      ensures Somewhere(h', receipts, id)
    {
      if id in h.emitted { assert Somewhere(h, receipts, id); }
    }
  }

  lemma TakeKeepsBarrier(h: Hub, step: WorkerStep, receipts: seq<nat>, awaiting: bool, receiptsAfter: bool, since: set<nat>)
    requires Sound(h, receipts, awaiting, receiptsAfter, since) && Enabled(h, step) && step.Take?
    ensures var h' := Next(h, step);
            && OneFlush(h', awaiting) && BarrierHolds(h', receipts, awaiting, receiptsAfter) && since <= h'.emitted
            && (h'.answer.Some? ==> since <= h'.ackedEmitted)
  {
    var h' := Next(h, step);
    assert forall j | j in h.jobs :: j == h.jobs[0] || j in h'.jobs;
    assert forall a | 0 <= a < |h'.jobs| :: h'.jobs[a] == h.jobs[a + 1];
  }

  lemma StepKeeps(h: Hub, step: WorkerStep, receipts: seq<nat>, awaiting: bool, receiptsAfter: bool, since: set<nat>)
    requires Sound(h, receipts, awaiting, receiptsAfter, since)
    ensures Sound(Next(h, step), receipts, awaiting, receiptsAfter, since)
  {
    if Enabled(h, step) && step.Take? {
      TakeKeepsReceipts(h, step, receipts);
      TakeKeepsBarrier(h, step, receipts, awaiting, receiptsAfter, since);
      hide Next, NothingLost, OneFlush, BarrierHolds;
    } else {
      forall id | id in Next(h, step).emitted
        ensures Somewhere(Next(h, step), receipts, id)
      {
        if id in h.emitted { assert Somewhere(h, receipts, id); }
      }
    }
  }

  lemma {:induction false} RunKeeps(h: Hub, steps: seq<WorkerStep>, receipts: seq<nat>, awaiting: bool,
                                    receiptsAfter: bool, since: set<nat>)
    requires Sound(h, receipts, awaiting, receiptsAfter, since)
    ensures Sound(Run(h, steps), receipts, awaiting, receiptsAfter, since)
    ensures Run(h, steps).capacity == h.capacity && (h.answer.Some? ==> Run(h, steps).answer == h.answer)
    decreases |steps|
  {
    hide Sound;
    if steps != [] {
      StepKeeps(h, steps[0], receipts, awaiting, receiptsAfter, since);
      AnswerStays(h, steps[0], receipts, awaiting, receiptsAfter, since);
      RunKeeps(Next(h, steps[0]), steps[1..], receipts, awaiting, receiptsAfter, since);
    }
  }

  lemma AnswerStays(h: Hub, step: WorkerStep, receipts: seq<nat>, awaiting: bool, receiptsAfter: bool, since: set<nat>)
    requires Sound(h, receipts, awaiting, receiptsAfter, since)
    ensures Next(h, step).capacity == h.capacity && (h.answer.Some? ==> Next(h, step).answer == h.answer)
  {}

  // ---------------------------------------------------------------------------------------------
  // What a flush answers

  /** The worker takes the job and stores the receipt that it carries, or fails to. */
  predicate Settles(h: Hub, step: WorkerStep, job: Job, stores: bool) {
    Enabled(h, step) && step.Take? && step.stores == stores && h.jobs[0] == job
  }

  predicate StoresReceipt(h: Hub, step: WorkerStep, id: nat) {
    Settles(h, step, Delivered(id), true) || Settles(h, step, Resolve(id), true)
  }

  /** Before step `k` of a run. */
  function Before(h: Hub, steps: seq<WorkerStep>, k: nat): Hub
    requires k <= |steps|
  {
    Run(h, steps[..k])
  }

  /** Storing the receipt failed at step `k`, and no later step stored it. */
  ghost predicate LostAt(h: Hub, steps: seq<WorkerStep>, id: nat, k: nat)
    requires k < |steps|
  {
    && Settles(Before(h, steps, k), steps[k], Delivered(id), false)
    && forall j | k < j < |steps| :: !StoresReceipt(Before(h, steps, j), steps[j], id)
  }

  ghost predicate Missing(h: Hub, steps: seq<WorkerStep>, id: nat) {
    || (id in h.receiptErrors && forall j | 0 <= j < |steps| :: !StoresReceipt(Before(h, steps, j), steps[j], id))
    || exists k :: 0 <= k < |steps| && LostAt(h, steps, id, k)
  }

  lemma {:induction false} RunLast(h: Hub, steps: seq<WorkerStep>)
    requires steps != []
    ensures var last := |steps| - 1; Run(h, steps) == Next(Run(h, steps[..last]), steps[last])
    decreases |steps|
  {
    if |steps| > 1 {
      RunLast(Next(h, steps[0]), steps[1..]);
      assert steps[..|steps| - 1][1..] == steps[1..][..|steps| - 2];
    }
  }

  /** A shorter run passes through the same states. */
  lemma SamePrefix(h: Hub, steps: seq<WorkerStep>)
    requires steps != []
    ensures forall k: nat | k < |steps| :: Before(h, steps[..|steps| - 1], k) == Before(h, steps, k)
  {
    forall k: nat | k < |steps|
      ensures steps[..|steps| - 1][..k] == steps[..k]
    {}
  }

  lemma {:induction false} MissingExactly(h: Hub, steps: seq<WorkerStep>, id: nat)
    ensures id in Run(h, steps).receiptErrors <==> Missing(h, steps, id)
    decreases |steps|
  {
    hide Run;
    if steps == [] {
      assert Run(h, steps) == h by { NoSteps(h); }
    } else {
      var last := |steps| - 1;
      var init, m := steps[..last], Before(h, steps, last);
      MissingExactly(h, init, id);
      RunLast(h, steps);
      SamePrefix(h, steps);
      assert forall k | 0 <= k < last :: init[k] == steps[k];
      if StoresReceipt(m, steps[last], id) {
        assert forall k | 0 <= k < |steps| :: !LostAt(h, steps, id, k);
      } else {
        assert forall k | 0 <= k < last :: LostAt(h, steps, id, k) <==> LostAt(h, init, id, k);
        assert LostAt(h, steps, id, last) <==> Settles(m, steps[last], Delivered(id), false);
      }
    }
  }

  lemma NoSteps(h: Hub)
    ensures Run(h, []) == h
  {}

  /** A flush answers that all is well exactly when no receipt is missing: none that could not be stored
      and was not stored afterwards. */
  lemma FlushTellsTheTruth(h: Hub, steps: seq<WorkerStep>, step: WorkerStep)
    requires var m := Run(h, steps); Enabled(m, step) && step.Take? && m.jobs[0] == Flush
    ensures Next(Run(h, steps), step).answer == Some(forall id: nat :: !Missing(h, steps, id))
  {
    hide Run, Missing;
    forall id: nat
      ensures id in Run(h, steps).receiptErrors <==> Missing(h, steps, id)
    {
      MissingExactly(h, steps, id);
    }
  }

  // ---------------------------------------------------------------------------------------------
  // The closing UI

  /** What the worker does in each gap; a loop that drains a queue has several gaps. */
  type Gaps = seq<seq<WorkerStep>>

  /** The transfers that a sequence of events wanted delivered, in order. */
  function Deliveries(events: seq<Event>): seq<nat> {
    if events == [] then []
    else
      var last := events[|events| - 1];
      Deliveries(events[..|events| - 1]) + if last.Deliver? then [last.transfer] else []
  }

  /** Receipts as the jobs that store them. */
  function ReceiptJobs(receipts: seq<nat>): (jobs: seq<Job>)
    ensures |jobs| == |receipts| && forall k | 0 <= k < |jobs| :: jobs[k] == Delivered(receipts[k])
  {
    seq(|receipts|, k requires 0 <= k < |receipts| => Delivered(receipts[k]))
  }

  /** Everything was stored and nothing is on its way. */
  predicate AtRest(h: Hub) {
    && h.alive && h.capacity > 0 && h.jobs == [] && h.events == [] && h.outbox.None? && h.answer.None?
    && h.receiptErrors == {}
  }

  /** A flush that found nothing missing. */
  function Flushed(h: Hub): Hub {
    h.(answer := Some(true), ackedEmitted := h.emitted, ackedStored := h.stored, ackedFailures := h.failures)
  }

  /** A Failure that is still on its way counts as not yet reported. */
  function Base(begun: Hub): int {
    if Failure in begun.events || begun.outbox == Some(Failure) then begun.failures - 1 else begun.failures
  }

  function Popped(h: Hub): Hub
    requires h.events != []
  {
    h.(events := h.events[1..])
  }

  function Pushed(h: Hub, job: Job): Hub {
    h.(jobs := h.jobs + [job])
  }

  lemma QueueEnds(h: Hub, job: Job)
    ensures Pushed(h, job).events == h.events && Pushed(h, job).answer == h.answer && Pushed(h, job).alive == h.alive
    ensures h.events != [] ==> Popped(h).events == h.events[1..] && Popped(h).answer == h.answer
  {}

  /** The UI has taken `taken` from the queue: each Deliver became a receipt, each Failure is remembered. */
  predicate Took(before: Hub, receiptsBefore: seq<nat>, failedBefore: bool, taken: seq<Event>, h: Hub,
                 receipts: seq<nat>, failed: bool) {
    && before.events <= taken + h.events
    && (failed <==> failedBefore || Failure in taken)
    && receipts == receiptsBefore + Deliveries(taken)
  }

  /** Only the queue of events became shorter. */
  predicate OnlyTook(before: Hub, taken: seq<Event>, h: Hub) {
    h == before.(events := h.events) && taken + h.events == before.events
  }

  ghost predicate Silent(gaps: nat -> seq<WorkerStep>) {
    forall k :: gaps(k) == []
  }

  lemma SilentAt(gaps: nat -> seq<WorkerStep>, k: nat)
    ensures Silent(gaps) ==> gaps(k) == []
  {}

  /** What is left of the receipts, in their order. */
  predicate Rest(receiptsBefore: seq<nat>, receipts: seq<nat>, afterBefore: bool, receiptsAfter: bool) {
    && |receipts| <= |receiptsBefore| && receipts == receiptsBefore[|receiptsBefore| - |receipts|..]
    && (receiptsAfter <==> afterBefore || |receipts| < |receiptsBefore|)
  }

  /** The receipts that are no longer held were queued in their order; nobody else touched the jobs. */
  predicate OnlySent(before: Hub, receiptsBefore: seq<nat>, h: Hub, receipts: seq<nat>) {
    && |receipts| <= |receiptsBefore|
    && h == before.(jobs := before.jobs + ReceiptJobs(receiptsBefore[..|receiptsBefore| - |receipts|]))
  }

  class ConversationUi {
    var hub: Hub
    var receipts: seq<nat>
    /** Every event that the closing UI has taken from the queue. */
    ghost var drained: seq<Event>

    constructor (capacity: nat)
      ensures hub == Hub(capacity, [], [], None, true, None, {}, {}, {}, 0, {}, {}, 0) && receipts == [] && drained == []
    {
      hub := Hub(capacity, [], [], None, true, None, {}, {}, {}, 0, {}, {}, 0);
      receipts, drained := [], [];
    }

    /** What holds while a call that started from `begun` runs. */
    ghost predicate Holds(awaiting: bool, receiptsAfter: bool, failed: bool, begun: Hub)
      reads `hub, `receipts
    {
      Sound(hub, receipts, awaiting, receiptsAfter, begun.emitted) && Reported(hub, failed, begun.failures, Base(begun))
    }

    method Interfere(steps: seq<WorkerStep>, ghost awaiting: bool, ghost receiptsAfter: bool, ghost failed: bool,
                     ghost begun: Hub)
      requires Holds(awaiting, receiptsAfter, failed, begun)
      modifies `hub
      ensures Holds(awaiting, receiptsAfter, failed, begun) && hub == Run(old(hub), steps)
      ensures old(hub).answer.Some? ==> hub.answer == old(hub).answer
      ensures steps == [] ==> hub == old(hub)
      ensures old(hub).events <= hub.events
    {
      RunKeeps(hub, steps, receipts, awaiting, receiptsAfter, begun.emitted);
      RunReports(hub, steps, failed, begun.failures, Base(begun));
      hub := Run(hub, steps);
    }

    method TakeEvent(failedBefore: bool, ghost awaiting: bool, ghost receiptsAfter: bool, ghost begun: Hub)
      returns (failed: bool)
      requires Holds(awaiting, receiptsAfter, failedBefore, begun) && hub.events != []
      modifies this
      ensures Holds(awaiting, receiptsAfter, failed, begun)
      ensures hub == Popped(old(hub)) && drained == old(drained) + [old(hub).events[0]]
      ensures receipts == old(receipts) + Deliveries(old(hub).events[..1])
      ensures failed <==> failedBefore || old(hub).events[0].Failure?
    {
      hide Sound, Reported, Base;
      var event := hub.events[0];
      assert hub.events[..1] == [event] && [event][..0] == [];
      PopKeeps(hub, receipts, awaiting, receiptsAfter, begun.emitted);
      PopReports(hub, failedBefore, begun.failures, Base(begun));
      hub, drained, failed := Popped(hub), drained + [event], failedBefore;
      match event
      case Deliver(id) => receipts := receipts + [id];
      case Failure => failed := true;
      case Notice =>
    }

    /** Every Deliver that will not be delivered any more gets a receipt instead, and any Failure among the
        events taken is remembered. */
    method DrainShutdownEvents(gaps: Gaps, failedBefore: bool, ghost awaiting: bool, ghost receiptsAfter: bool,
                               ghost begun: Hub)
      returns (failed: bool)
      requires Holds(awaiting, receiptsAfter, failedBefore, begun)
      modifies this
      ensures Holds(awaiting, receiptsAfter, failed, begun)
      ensures hub.events == [] && old(drained) + old(hub).events <= drained
      ensures gaps == [] ==> hub == old(hub).(events := []) && drained == old(drained) + old(hub).events
      ensures failed <==> failedBefore || Failure in drained[|old(drained)|..]
      ensures receipts == old(receipts) + Deliveries(drained[|old(drained)|..])
      ensures gaps == [] && old(hub).events == [] ==>
                hub == old(hub) && receipts == old(receipts) && failed == failedBefore
      ensures old(hub).answer.Some? ==> hub.answer == old(hub).answer
    {
      hide *;
      failed := failedBefore;
      var k := 0;
      ghost var taken: seq<Event> := [];
      NothingTaken(hub, receipts, failed);
      while k < |gaps| || hub.events != []
        invariant Holds(awaiting, receiptsAfter, failed, begun) && k <= |gaps|
        invariant drained == old(drained) + taken
        invariant Took(old(hub), old(receipts), failedBefore, taken, hub, receipts, failed)
        invariant gaps == [] ==> OnlyTook(old(hub), taken, hub)
        invariant old(hub).answer.Some? ==> hub.answer == old(hub).answer
        decreases |gaps| - k, |hub.events|
      {
        if k < |gaps| {
          ghost var previous := hub;
          Interfere(gaps[k], awaiting, receiptsAfter, failed, begun);
          MoreToTake(old(hub), old(receipts), failedBefore, taken, previous, hub, receipts, failed);
          k := k + 1;
        }
        if hub.events != [] {
          QueueEnds(hub, Flush);
          OneMoreTaken(old(hub), old(receipts), failedBefore, taken, hub, receipts, failed);
          taken := taken + [hub.events[0]];
          failed := TakeEvent(failed, awaiting, receiptsAfter, begun);
        }
      }
      assert drained[|old(drained)|..] == taken;
      NoDeliveries(old(hub), old(receipts));
      AllTaken(old(hub), old(receipts), failedBefore, taken, hub, receipts, failed);
    }

    method SendReceipt(ghost awaiting: bool, ghost receiptsAfter: bool, ghost failed: bool, ghost begun: Hub)
      requires Holds(awaiting, receiptsAfter, failed, begun) && receipts != []
      modifies `hub, `receipts
      ensures Holds(awaiting, true, failed, begun)
      ensures hub == Pushed(old(hub), Delivered(old(receipts)[0])) && receipts == old(receipts)[1..]
    {
      hide Sound, Reported, Base;
      PushKeeps(hub, receipts, awaiting, receiptsAfter, begun.emitted);
      PushReports(hub, failed, begun.failures, Base(begun), Delivered(receipts[0]));
      hub, receipts := Pushed(hub, Delivered(receipts[0])), receipts[1..];
    }

    /** Queue the receipts in their order, as far as the worker takes them. */
    method SendReceipts(gaps: nat -> seq<WorkerStep>, afterBefore: bool, ghost awaiting: bool, ghost failed: bool,
                        ghost begun: Hub)
      returns (connected: bool, receiptsAfter: bool)
      requires Holds(awaiting, afterBefore, failed, begun)
      modifies `hub, `receipts
      ensures Holds(awaiting, receiptsAfter, failed, begun)
      ensures Rest(old(receipts), receipts, afterBefore, receiptsAfter)
      ensures !connected ==> !hub.alive
      ensures connected && receipts != [] ==> hub.alive && |hub.jobs| >= hub.capacity
      ensures old(receipts) == [] ==> connected && hub == old(hub) && receipts == [] && receiptsAfter == afterBefore
      ensures Silent(gaps) ==> OnlySent(old(hub), old(receipts), hub, receipts)
    {
      hide *;
      receiptsAfter := afterBefore;
      var k := 0;
      NothingSent(hub, receipts, receiptsAfter);
      while receipts != []
        invariant Holds(awaiting, receiptsAfter, failed, begun)
        invariant Rest(old(receipts), receipts, afterBefore, receiptsAfter)
        invariant old(receipts) == [] ==> hub == old(hub) && receipts == [] && receiptsAfter == afterBefore
        invariant Silent(gaps) ==> OnlySent(old(hub), old(receipts), hub, receipts)
        decreases |receipts|
      {
        SilentAt(gaps, k);
        Interfere(gaps(k), awaiting, receiptsAfter, failed, begun);
        k := k + 1;
        if !hub.alive { return false, receiptsAfter; }
        if |hub.jobs| >= hub.capacity { return true, receiptsAfter; }
        OneMoreSent(old(hub), old(receipts), hub, receipts, afterBefore, receiptsAfter);
        SendReceipt(awaiting, receiptsAfter, failed, begun);
        receiptsAfter := true;
      }
      connected := true;
    }

    /** Look at the answer: the verdict of the whole call, if it is known now. A Deliver that becomes visible
        only now still needs its own receipt and another flush. */
    method CheckAnswer(gaps: Gaps, receiptsAfter: bool, failedBefore: bool, ghost begun: Hub)
      returns (verdict: Option<bool>, awaiting: bool, failed: bool)
      requires Holds(true, receiptsAfter, failedBefore, begun)
      modifies this
      ensures old(drained) <= drained
      ensures old(hub).answer.None? ==>
                && drained == old(drained) && hub == old(hub) && awaiting && failed == failedBefore
                && verdict == if hub.alive then None else Some(false)
      ensures old(hub).answer.Some? ==>
                && hub.events == [] && old(drained) + old(hub).events <= drained && awaiting == verdict.Some?
                && (failed <==> failedBefore || old(hub).answer == Some(false) || Failure in drained[|old(drained)|..])
                && verdict == if receiptsAfter || receipts != [] then None else Some(!failed)
      ensures verdict.None? ==> Holds(awaiting, receiptsAfter, failed, begun)
      ensures verdict == Some(true) ==>
                && begun.emitted <= hub.ackedEmitted <= hub.ackedStored
                && hub.ackedFailures == begun.failures && begun.outbox != Some(Failure)
      ensures old(hub).answer.Some? && gaps == [] && old(hub).events == [] ==>
                receipts == old(receipts) && (failed <==> failedBefore || old(hub).answer == Some(false))
    {
      hide Sound, Reported, Run, Base;
      verdict, awaiting, failed := None, true, failedBefore;
      if hub.answer.Some? {
        failed := failed || !hub.answer.value;
        StillReported(hub, failedBefore, failed, begun);
        failed := DrainShutdownEvents(gaps, failed, true, receiptsAfter, begun);
        if !receiptsAfter && receipts == [] {
          if failed { return Some(false), true, failed; }
          AnswerCovers(hub, begun.emitted);
          AnswerReports(hub, begun);
          return Some(true), true, failed;
        }
        AnswerTaken(hub, receipts, receiptsAfter, begun.emitted);
        AnswerStillReported(hub, failed, begun);
        awaiting := false;
        hub := hub.(answer := None);
      } else if !hub.alive {
        verdict := Some(false);
      }
    }

    /** Ask for a flush when none is awaited and no receipt is held back. */
    method QueueFlush(awaitingBefore: bool, afterBefore: bool, ghost failed: bool, ghost begun: Hub)
      returns (connected: bool, awaiting: bool, receiptsAfter: bool)
      requires Holds(awaitingBefore, afterBefore, failed, begun)
      modifies `hub
      ensures Holds(awaiting, receiptsAfter, failed, begun)
      ensures connected <==> awaitingBefore || receipts != [] || old(hub).alive
      ensures awaiting <==> awaitingBefore || (receipts == [] && old(hub).alive && |old(hub).jobs| < old(hub).capacity)
      ensures hub == if awaiting && !awaitingBefore then Pushed(old(hub), Flush) else old(hub)
      ensures receiptsAfter == if awaiting && !awaitingBefore then false else afterBefore
    {
      hide Sound, Reported, Run, Base;
      connected, awaiting, receiptsAfter := true, awaitingBefore, afterBefore;
      if !awaiting && receipts == [] {
        if !hub.alive { return false, awaiting, receiptsAfter; }
        if |hub.jobs| < hub.capacity {
          FlushQueued(hub, receiptsAfter, begun.emitted);
          PushReports(hub, failed, begun.failures, Base(begun), Flush);
          hub := Pushed(hub, Flush);
          awaiting, receiptsAfter := true, false;
        }
      }
    }

    /** Close down: flush, and succeed only when every transfer sent out before the last
        acknowledgement had its receipt stored before that acknowledgement, and nothing had failed: neither
        between the call and that acknowledgement, nor in what was still on its way to the UI at the call. */
    method Finish(rounds: nat, drains: (nat, nat) -> Gaps, sends: (nat, nat) -> seq<WorkerStep>,
                  gaps: (nat, nat) -> seq<WorkerStep>)
      returns (ok: bool)
      requires NothingLost(hub, receipts) && Flush !in hub.jobs && hub.answer.None?
      modifies this
      ensures ok ==> old(hub).emitted <= hub.ackedEmitted <= hub.ackedStored
      ensures ok ==> old(drained) + old(hub).events <= drained && Failure !in drained[|old(drained)|..]
      ensures ok ==> hub.ackedFailures == old(hub).failures && old(hub).outbox != Some(Failure) && hub.events == []
      ensures Untroubled(old(hub), old(receipts), rounds, drains, gaps) ==> ok
    {
      hide *;
      ghost var begun, simple := hub, Untroubled(hub, receipts, rounds, drains, gaps);
      var awaiting, receiptsAfter, failed := false, false, false;
      Begins(receipts);
      if simple { NoTrouble(begun, receipts, rounds, drains, gaps, 0); }
      for round := 0 to rounds
        invariant Holds(awaiting, receiptsAfter, failed, begun)
        invariant if round == 0 then hub == begun && drained == old(drained) && !failed
                  else Seen(old(drained), begun.events, drained, failed)
        invariant simple ==> receipts == [] && !failed && round < 2
        invariant simple && round == 0 ==> !awaiting
        invariant simple && round == 1 ==> awaiting && !receiptsAfter && hub == Flushed(begun)
      {
        if simple {
          NoTrouble(begun, receipts, rounds, drains, gaps, round);
          RestIsEmpty(begun);
        }
        ghost var d, f := drained, failed;
        failed := DrainShutdownEvents(drains(round, 0), failed, awaiting, receiptsAfter, begun);
        if round == 0 {
          SeesFirst(d, begun.events, drained, failed);
        } else {
          SeesMore(old(drained), begun.events, d, f, drained, failed);
        }
        var connected;
        connected, receiptsAfter := SendReceipts((k: nat) => sends(round, k), receiptsAfter, awaiting, failed, begun);
        if !connected { return false; }
        Interfere(gaps(round, 0), awaiting, receiptsAfter, failed, begun);
        if awaiting {
          var verdict;
          ghost var d, f := drained, failed;
          verdict, awaiting, failed := CheckAnswer(drains(round, 1), receiptsAfter, failed, begun);
          SeesMore(old(drained), begun.events, d, f, drained, failed);
          if verdict.Some? {
            SeenNothing(old(drained), begun.events, drained, failed);
            return verdict.value;
          }
        }
        Interfere(gaps(round, 1), awaiting, receiptsAfter, failed, begun);
        connected, awaiting, receiptsAfter := QueueFlush(awaiting, receiptsAfter, failed, begun);
        if !connected { return false; }
        if simple { FlushIsTaken(hub, begun); }
        Interfere(gaps(round, 2), awaiting, receiptsAfter, failed, begun);
      }
      ok := false;
    }

    lemma Begins(receipts: seq<nat>)
      requires NothingLost(hub, receipts) && Flush !in hub.jobs && hub.answer.None? && receipts == this.receipts
      ensures Holds(false, false, false, hub)
    {}
  }

  /** What the UI has taken since the call began holds all that was queued then, and no unnoticed Failure. */
  predicate Seen(before: seq<Event>, first: seq<Event>, drained: seq<Event>, failed: bool) {
    before + first <= drained && (Failure in drained[|before|..] ==> failed)
  }

  lemma SeesFirst(before: seq<Event>, first: seq<Event>, drained: seq<Event>, failed: bool)
    requires before + first <= drained && (failed <==> Failure in drained[|before|..])
    ensures Seen(before, first, drained, failed)
  {}

  lemma SeesMore(before: seq<Event>, first: seq<Event>, drained: seq<Event>, failed: bool, drained': seq<Event>, failed': bool)
    requires Seen(before, first, drained, failed) && drained <= drained' && (failed ==> failed')
    requires Failure in drained'[|drained|..] ==> failed'
    ensures Seen(before, first, drained', failed')
  {
    assert drained'[|before|..] == drained[|before|..] + drained'[|drained|..];
  }

  lemma SeenNothing(before: seq<Event>, first: seq<Event>, drained: seq<Event>, failed: bool)
    requires Seen(before, first, drained, failed)
    ensures before + first <= drained && (!failed ==> Failure !in drained[|before|..])
  {}

  lemma RestIsEmpty(h: Hub)
    requires AtRest(h)
    ensures h.alive && h.events == [] && h.jobs == [] && h.answer.None? && 0 < h.capacity
    ensures h.(events := []) == h
    ensures Flushed(h).events == [] && Flushed(h).answer == Some(true) && Flushed(h).(events := []) == Flushed(h)
    ensures Pushed(h, Flush) == h.(jobs := [Flush])
  {
    assert h.jobs + [Flush] == [Flush];
  }

  /** Nothing is under way and the worker answers the flush at once. */
  ghost predicate Untroubled(h: Hub, receipts: seq<nat>, rounds: nat, drains: (nat, nat) -> Gaps,
                             gaps: (nat, nat) -> seq<WorkerStep>) {
    && AtRest(h) && receipts == [] && rounds >= 2
    && (forall r: nat, c: nat :: drains(r, c) == [])
    && (forall r: nat, c: nat :: gaps(r, c) == if r == 0 && c == 2 then [Take(true, None)] else [])
  }

  lemma NoTrouble(h: Hub, receipts: seq<nat>, rounds: nat, drains: (nat, nat) -> Gaps,
                  gaps: (nat, nat) -> seq<WorkerStep>, round: nat)
    requires Untroubled(h, receipts, rounds, drains, gaps)
    ensures AtRest(h) && receipts == [] && rounds >= 2
    ensures drains(round, 0) == drains(round, 1) == [] && gaps(round, 0) == gaps(round, 1) == []
    ensures round == 0 ==> gaps(round, 2) == [Take(true, None)]
  {}

  lemma FlushIsTaken(h: Hub, begun: Hub)
    requires AtRest(begun)
    ensures h == Pushed(begun, Flush) ==> Run(h, [Take(true, None)]) == Flushed(begun)
  {}

  // ---------------------------------------------------------------------------------------------
  // What the UI's own steps keep

  lemma PopKeeps(h: Hub, receipts: seq<nat>, awaiting: bool, receiptsAfter: bool, since: set<nat>)
    requires Sound(h, receipts, awaiting, receiptsAfter, since) && h.events != []
    ensures var h' := Popped(h);
            match h.events[0]
            case Deliver(id) => Sound(h', receipts + [id], awaiting, receiptsAfter, since)
            case _ => Sound(h', receipts, awaiting, receiptsAfter, since)
  {}

  lemma PushKeeps(h: Hub, receipts: seq<nat>, awaiting: bool, receiptsAfter: bool, since: set<nat>)
    requires Sound(h, receipts, awaiting, receiptsAfter, since) && receipts != []
    ensures Sound(Pushed(h, Delivered(receipts[0])), receipts[1..], awaiting, true, since)
  {}

  lemma AnswerCovers(h: Hub, since: set<nat>)
    requires Sound(h, [], true, false, since) && h.answer == Some(true) && h.events == []
    ensures since <= h.ackedEmitted <= h.ackedStored
  {}

  lemma AnswerTaken(h: Hub, receipts: seq<nat>, receiptsAfter: bool, since: set<nat>)
    requires Sound(h, receipts, true, receiptsAfter, since) && h.answer.Some?
    ensures Sound(h.(answer := None), receipts, false, receiptsAfter, since)
  {}

  lemma FlushQueued(h: Hub, receiptsAfter: bool, since: set<nat>)
    requires Sound(h, [], false, receiptsAfter, since)
    ensures Sound(Pushed(h, Flush), [], true, false, since)
  {}

  lemma BegunReported(h: Hub)
    requires h.answer.None?
    ensures Reported(h, false, h.failures, Base(h))
  {}

  lemma StillReported(h: Hub, before: bool, failed: bool, begun: Hub)
    requires Reported(h, before, begun.failures, Base(begun)) && (before ==> failed)
    ensures Reported(h, failed, begun.failures, Base(begun))
  {}

  lemma AnswerStillReported(h: Hub, failed: bool, begun: Hub)
    requires Reported(h, failed, begun.failures, Base(begun))
    ensures Reported(h.(answer := None), failed, begun.failures, Base(begun))
  {}

  lemma AnswerReports(h: Hub, begun: Hub)
    requires Reported(h, false, begun.failures, Base(begun)) && h.answer.Some? && h.events == []
    ensures h.ackedFailures == begun.failures && begun.outbox != Some(Failure)
  {}

  lemma PopReports(h: Hub, failed: bool, first: nat, base: int)
    requires Reported(h, failed, first, base) && h.events != []
    ensures Reported(Popped(h), failed || h.events[0].Failure?, first, base)
  {}

  lemma PushReports(h: Hub, failed: bool, first: nat, base: int, job: Job)
    requires Reported(h, failed, first, base)
    ensures Reported(Pushed(h, job), failed, first, base)
  {}

  lemma NoDeliveries(h: Hub, receipts: seq<nat>)
    ensures receipts + Deliveries([]) == receipts
    ensures h.events == [] ==> h.(events := []) == h
  {}

  lemma NothingTaken(h: Hub, receipts: seq<nat>, failed: bool)
    ensures Took(h, receipts, failed, [], h, receipts, failed) && OnlyTook(h, [], h)
  {}

  lemma MoreToTake(before: Hub, receiptsBefore: seq<nat>, failedBefore: bool, taken: seq<Event>, h: Hub, h': Hub,
                   receipts: seq<nat>, failed: bool)
    requires Took(before, receiptsBefore, failedBefore, taken, h, receipts, failed) && h.events <= h'.events
    ensures Took(before, receiptsBefore, failedBefore, taken, h', receipts, failed)
  {
    assert taken + h.events <= taken + h'.events;
  }

  lemma OneMoreTaken(before: Hub, receiptsBefore: seq<nat>, failedBefore: bool, taken: seq<Event>, h: Hub,
                     receipts: seq<nat>, failed: bool)
    requires Took(before, receiptsBefore, failedBefore, taken, h, receipts, failed) && h.events != []
    ensures var h', taken' := Popped(h), taken + [h.events[0]];
            && Took(before, receiptsBefore, failedBefore, taken', h',
                    receipts + Deliveries(h.events[..1]),
                    failed || h.events[0].Failure?)
            && (OnlyTook(before, taken, h) ==> OnlyTook(before, taken', h'))
  {
    assert h.events[..1] == [h.events[0]] && [h.events[0]][..0] == [];
    assert (taken + [h.events[0]])[..|taken|] == taken;
    assert taken + [h.events[0]] + h.events[1..] == taken + h.events;
  }

  lemma AllTaken(before: Hub, receiptsBefore: seq<nat>, failedBefore: bool, taken: seq<Event>, h: Hub,
                 receipts: seq<nat>, failed: bool)
    requires Took(before, receiptsBefore, failedBefore, taken, h, receipts, failed) && h.events == []
    ensures before.events <= taken && (failed <==> failedBefore || Failure in taken)
    ensures receipts == receiptsBefore + Deliveries(taken)
    ensures OnlyTook(before, taken, h) ==> h == before.(events := []) && taken == before.events
  {
    assert taken + h.events == taken;
  }

  lemma NothingSent(h: Hub, receipts: seq<nat>, receiptsAfter: bool)
    ensures OnlySent(h, receipts, h, receipts) && Rest(receipts, receipts, receiptsAfter, receiptsAfter)
  {
    assert h.jobs + ReceiptJobs(receipts[..0]) == h.jobs;
  }

  lemma OneMoreSent(before: Hub, receiptsBefore: seq<nat>, h: Hub, receipts: seq<nat>, afterBefore: bool,
                    receiptsAfter: bool)
    requires receipts != [] && Rest(receiptsBefore, receipts, afterBefore, receiptsAfter)
    ensures receiptsBefore != [] && Rest(receiptsBefore, receipts[1..], afterBefore, true)
    ensures OnlySent(before, receiptsBefore, h, receipts) ==>
              OnlySent(before, receiptsBefore, Pushed(h, Delivered(receipts[0])), receipts[1..])
  {
    var sent := |receiptsBefore| - |receipts|;
    assert before.jobs + ReceiptJobs(receiptsBefore[..sent]) + [Delivered(receiptsBefore[sent])]
        == before.jobs + ReceiptJobs(receiptsBefore[..sent + 1]);
  }
}
