/** The highlighter's two replaceable slots: one pending request, one completed result. */
module HighlighterSlots {
  import opened Identity
  import opened Octets
  import opened HighlightText

  type Highlighted = seq<seq<Span>>

  datatype HighlightRequest = HighlightRequest(token: nat, fileName: string, text: Bytes)

  datatype HighlightResult = HighlightResult(token: nat, lines: Highlighted)

  datatype WorkerStage = Idle | Working(request: HighlightRequest) | Notifying(token: nat) | Gone

  /** The slots, the worker, and the history of tokens: what was asked under each, which results were
      stored, notified and polled. */
  datatype Slots = Slots(
    nextToken: nat, latest: nat, closed: bool,
    pending: Option<HighlightRequest>, completed: Option<HighlightResult>, worker: WorkerStage,
    requests: map<nat, HighlightRequest>, stored: seq<nat>, notified: seq<nat>, polled: seq<HighlightResult>)

  datatype Action =
    | Ask(fileName: string, text: Bytes)
    | Cancel
    | Poll
    | Close
    | TakeJob
    | GiveUp
    | Store(lines: Highlighted)
    | Notify
    | WorkerExits

  const Initial := Slots(0, 0, false, None, None, Idle, map[], [], [], [])

  predicate Cancelled(s: Slots, token: nat) {
    s.closed || s.latest != token
  }

  /** `process` is what the worker computes from a request. */
  type Process = (string, Bytes) -> Highlighted

  predicate Enabled(s: Slots, a: Action, process: Process) {
    match a
    case TakeJob => s.worker.Idle? && s.pending.Some? && !s.closed
    case GiveUp => s.worker.Working?
    case Store(lines) => s.worker.Working? && lines == process(s.worker.request.fileName, s.worker.request.text)
    case Notify => s.worker.Notifying?
    case WorkerExits => !s.worker.Gone?
    case _ => true
  }

  function PollReply(s: Slots): Option<HighlightResult> {
    if s.completed.Some? && s.completed.value.token == s.latest then s.completed else None
  }

  function Next(s: Slots, a: Action): Slots
    requires match a case TakeJob => s.pending.Some? case Store(_) => s.worker.Working? case Notify => s.worker.Notifying?
             case _ => true
  {
    match a
    case Ask(fileName, text) =>
      var request := HighlightRequest(s.nextToken + 1, fileName, text);
      s.(nextToken := s.nextToken + 1, latest := s.nextToken + 1, completed := None,
         pending := if s.closed then None else Some(request),
         requests := s.requests[s.nextToken + 1 := request])
    case Cancel => s.(nextToken := s.nextToken + 1, latest := s.nextToken + 1, pending := None, completed := None)
    case Poll =>
      s.(completed := None, polled := if PollReply(s).Some? then s.polled + [PollReply(s).value] else s.polled)
    case Close => s.(closed := true, pending := None, completed := None)
    case TakeJob => s.(pending := None, worker := Working(s.pending.value))
    case GiveUp => s.(worker := Idle)
    case Store(lines) =>
      var token := s.worker.request.token;
      if Cancelled(s, token) then s.(worker := Idle)
      else s.(completed := Some(HighlightResult(token, lines)), worker := Notifying(token), stored := s.stored + [token])
    case Notify => s.(worker := Idle, notified := s.notified + [s.worker.token])
    case WorkerExits => s.(closed := true, pending := None, worker := Gone)
  }

  function Step(s: Slots, a: Action, process: Process): Slots {
    if Enabled(s, a, process) then Next(s, a) else s
  }

  function Run(s: Slots, actions: seq<Action>, process: Process): Slots
    decreases |actions|
  {
    if actions == [] then s else Run(Step(s, actions[0], process), actions[1..], process)
  }

  // ---------------------------------------------------------------------------------------------
  // What every run keeps

  /** The result is what the request under that token computes to. */
  predicate Genuine(s: Slots, result: HighlightResult, process: Process) {
    && result.token in s.requests
    && result.lines == process(s.requests[result.token].fileName, s.requests[result.token].text)
  }

  predicate Distinct(tokens: seq<nat>) {
    forall i, j | 0 <= i < j < |tokens| :: tokens[i] != tokens[j]
  }

  predicate Asked(s: Slots, request: HighlightRequest) {
    request.token in s.requests && s.requests[request.token] == request
  }

  predicate WorksOnNewest(s: Slots) {
    s.worker.Working? && s.worker.request.token == s.latest
  }

  /** The newest request is in one place: pending, being worked on, or completed. */
  predicate OnePlace(s: Slots) {
    && (s.pending.Some? ==> s.pending.value.token == s.latest && s.completed.None? && !WorksOnNewest(s))
    && (s.completed.Some? ==> s.completed.value.token == s.latest && !WorksOnNewest(s))
    && (s.pending.Some? || WorksOnNewest(s) ==> s.latest !in s.stored)
  }

  predicate TokensKnown(s: Slots) {
    && s.latest == s.nextToken
    && (forall token | token in s.requests :: token <= s.nextToken)
    && (forall token | token in s.stored :: token in s.requests)
    && (s.pending.Some? ==> Asked(s, s.pending.value))
    && (s.worker.Working? ==> Asked(s, s.worker.request) && s.worker.request.token !in s.stored)
  }

  /** A notification follows the storing of its own result, and happens once. */
  predicate Notified(s: Slots) {
    && Distinct(s.stored) && Distinct(s.notified)
    && (forall token | token in s.notified :: token in s.stored)
    && (s.worker.Notifying? ==> s.worker.token in s.stored && s.worker.token !in s.notified)
  }

  predicate Invariant(s: Slots, process: Process) {
    && TokensKnown(s) && OnePlace(s) && Notified(s)
    && (s.completed.Some? ==> Genuine(s, s.completed.value, process) && s.completed.value.token in s.stored)
    && (forall result | result in s.polled :: Genuine(s, result, process) && result.token in s.stored)
    && PolledOnce(s)
  }

  /** No result is handed out twice, and the stored one was not handed out yet. */
  predicate PolledOnce(s: Slots) {
    && (forall i, j | 0 <= i < j < |s.polled| :: s.polled[i].token != s.polled[j].token)
    && (s.completed.Some? ==> forall result | result in s.polled :: result.token != s.completed.value.token)
  }

  lemma AskIsSafe(s: Slots, fileName: string, text: Bytes, process: Process)
    requires Invariant(s, process)
    ensures Invariant(Next(s, Ask(fileName, text)), process)
  {}

  lemma StoreIsSafe(s: Slots, a: Action, process: Process)
    requires Invariant(s, process) && (a.Store? || a.Notify?)
    ensures Invariant(Step(s, a, process), process)
  {}

  lemma ClearIsSafe(s: Slots, a: Action, process: Process)
    requires Invariant(s, process) && (a.Cancel? || a.Poll? || a.Close?)
    ensures Invariant(Step(s, a, process), process)
  {}

  lemma WorkerIsSafe(s: Slots, a: Action, process: Process)
    requires Invariant(s, process) && (a.TakeJob? || a.GiveUp? || a.WorkerExits?)
    ensures Invariant(Step(s, a, process), process)
  {}

  lemma StepIsSafe(s: Slots, a: Action, process: Process)
    requires Invariant(s, process)
    ensures Invariant(Step(s, a, process), process)
  {
    hide Invariant;
    match a
    case Ask(fileName, text) => AskIsSafe(s, fileName, text, process);
    case Store(_) => StoreIsSafe(s, a, process);
    case Notify => StoreIsSafe(s, a, process);
    case Cancel => ClearIsSafe(s, a, process);
    case Poll => ClearIsSafe(s, a, process);
    case Close => ClearIsSafe(s, a, process);
    case _ => WorkerIsSafe(s, a, process);
  }

  lemma {:induction false} RunIsSafe(s: Slots, actions: seq<Action>, process: Process)
    requires Invariant(s, process)
    ensures Invariant(Run(s, actions, process), process)
    decreases |actions|
  {
    hide Invariant, Step;
    if actions != [] {
      StepIsSafe(s, actions[0], process);
      RunIsSafe(Step(s, actions[0], process), actions[1..], process);
    }
  }

  /** Whatever the interleaving: a poll returns the newest request's own result or nothing, and every
      notification ran once and only after its result was stored. */
  lemma PublishesOnlyTheNewest(actions: seq<Action>, process: Process)
    ensures var s := Run(Initial, actions, process);
            && (PollReply(s).Some? ==> PollReply(s).value.token == s.latest && Genuine(s, PollReply(s).value, process))
            && (s.completed.Some? ==> PollReply(s) == s.completed)
            && (forall result | result in s.polled :: Genuine(s, result, process))
            && (forall i, j | 0 <= i < j < |s.polled| :: s.polled[i].token != s.polled[j].token)
            && Distinct(s.notified) && forall token | token in s.notified :: token in s.stored
  {
    assert Invariant(Initial, process);
    RunIsSafe(Initial, actions, process);
  }

  /** Everything that was polled since belongs to a request that is no older than `token`. */
  ghost predicate PolledFrom(s: Slots, s': Slots, token: nat) {
    && s.polled <= s'.polled
    && forall k | |s.polled| <= k < |s'.polled| :: s'.polled[k].token >= token
  }

  lemma StepPollsNewest(s: Slots, a: Action, process: Process)
    requires Invariant(s, process)
    ensures var s' := Step(s, a, process); PolledFrom(s, s', s.latest) && s.latest <= s'.latest
  {}

  /** Once a request is superseded, no result of it is handed out any more, whatever else happens. */
  lemma {:induction false} PolledAreRecent(s: Slots, actions: seq<Action>, process: Process)
    requires Invariant(s, process)
    ensures var s' := Run(s, actions, process); PolledFrom(s, s', s.latest) && s.latest <= s'.latest
    decreases |actions|
  {
    hide Invariant, Step;
    if actions != [] {
      var next := Step(s, actions[0], process);
      StepIsSafe(s, actions[0], process);
      StepPollsNewest(s, actions[0], process);
      PolledAreRecent(next, actions[1..], process);
    }
  }

  /** Asking again and cancelling invalidate all work requested so far, pending, under way or completed:
      whatever is polled afterwards was asked for later. */
  lemma OlderWorkIsDropped(s: Slots, a: Action, actions: seq<Action>, process: Process)
    requires Invariant(s, process) && (a.Ask? || a.Cancel?)
    ensures var s' := Run(Step(s, a, process), actions, process);
            && s.polled <= s'.polled
            && forall k | |s.polled| <= k < |s'.polled| :: s'.polled[k].token !in s.requests
  {
    StepIsSafe(s, a, process);
    PolledAreRecent(Step(s, a, process), actions, process);
  }

  lemma {:induction false} ClosedIsSilent(s: Slots, actions: seq<Action>, process: Process)
    requires s.closed && s.pending.None? && s.completed.None?
    ensures var s' := Run(s, actions, process);
            s'.closed && s'.pending.None? && s'.completed.None? && s'.polled == s.polled && s'.stored == s.stored
    decreases |actions|
  {
    if actions != [] { ClosedIsSilent(Step(s, actions[0], process), actions[1..], process); }
  }

  /** After closing, nothing is accepted, stored or handed out any more. */
  lemma NothingAfterClosing(s: Slots, actions: seq<Action>, process: Process)
    requires Invariant(s, process)
    ensures var s' := Run(Step(s, Close, process), actions, process);
            s'.pending.None? && s'.completed.None? && s'.polled == s.polled && s'.stored == s.stored
  {
    ClosedIsSilent(Step(s, Close, process), actions, process);
  }

  lemma RunOne(s: Slots, a: Action, rest: seq<Action>, process: Process)
    ensures Run(s, [a] + rest, process) == Run(Step(s, a, process), rest, process)
    ensures rest == [] ==> Run(s, [a] + rest, process) == Step(s, a, process)
  {
    assert ([a] + rest)[1..] == rest;
  }

  lemma RunFive(s: Slots, a: Action, b: Action, c: Action, d: Action, e: Action, process: Process)
    ensures Run(s, [a, b, c, d, e], process)
            == Step(Step(Step(Step(Step(s, a, process), b, process), c, process), d, process), e, process)
  {
    hide Step;
    var s1 := Step(s, a, process);
    var s2 := Step(s1, b, process);
    var s3 := Step(s2, c, process);
    RunOne(s, a, [b, c, d, e], process);
    RunOne(s1, b, [c, d, e], process);
    RunOne(s2, c, [d, e], process);
    RunOne(s3, d, [e], process);
    RunOne(Step(s3, d, process), e, [], process);
    assert [a, b, c, d, e] == [a] + [b, c, d, e] && [b, c, d, e] == [b] + [c, d, e];
    assert [c, d, e] == [c] + [d, e] && [d, e] == [d] + [e] && [e] == [e] + [];
  }

  /** A request that nobody supersedes is computed, notified once and handed out. */
  lemma LoneRequestIsServed(s: Slots, fileName: string, text: Bytes, process: Process)
    requires TokensKnown(s) && !s.closed && s.worker.Idle?
    ensures var lines := process(fileName, text);
            var s' := Run(s, [Ask(fileName, text), TakeJob, Store(lines), Notify, Poll], process);
            && s'.latest !in s.requests && s'.worker.Idle? && s'.pending.None? && s'.completed.None?
            && s'.polled == s.polled + [HighlightResult(s'.latest, lines)]
            && s'.stored == s.stored + [s'.latest] && s'.notified == s.notified + [s'.latest]
  {
    hide Run;
    var lines := process(fileName, text);
    var s1 := Step(s, Ask(fileName, text), process);
    var s2 := Step(s1, TakeJob, process);
    var s3 := Step(s2, Store(lines), process);
    var s4 := Step(s3, Notify, process);
    RunFive(s, Ask(fileName, text), TakeJob, Store(lines), Notify, Poll, process);
  }

  // ---------------------------------------------------------------------------------------------
  // The highlighter as its two threads see it

  class Highlighter {
    const process: Process
    var nextToken: nat
    var latest: nat
    var closed: bool
    var pending: Option<HighlightRequest>
    var completed: Option<HighlightResult>
    var worker: WorkerStage
    ghost var requests: map<nat, HighlightRequest>
    ghost var stored: seq<nat>
    ghost var notified: seq<nat>
    ghost var polled: seq<HighlightResult>

    ghost function State(): Slots
      reads this
    {
      Slots(nextToken, latest, closed, pending, completed, worker, requests, stored, notified, polled)
    }

    ghost predicate Valid()
      reads this
    {
      Invariant(State(), process)
    }

    constructor (process: Process)
      ensures Valid() && State() == Initial && this.process == process
    {
      this.process := process;
      nextToken, latest, closed, pending, completed, worker := 0, 0, false, None, None, Idle;
      requests, stored, notified, polled := map[], [], [], [];
    }

    method RequestWithNotify(fileName: string, text: Bytes) returns (token: nat)
      requires Valid()
      modifies `nextToken, `latest, `closed, `pending, `completed, `requests, `polled
      ensures Valid() && State() == Next(old(State()), Ask(fileName, text))
      ensures token == latest && token !in old(requests) && token in requests
    {
      StepIsSafe(State(), Ask(fileName, text), process);
      nextToken := nextToken + 1;
      token := nextToken;
      latest := token;
      var request := HighlightRequest(token, fileName, text);
      completed, pending := None, None;
      if !closed { pending := Some(request); }
      requests := requests[token := request];
    }

    method CancelAll()
      requires Valid()
      modifies `nextToken, `latest, `closed, `pending, `completed, `requests, `polled
      ensures Valid() && State() == Next(old(State()), Cancel)
    {
      StepIsSafe(State(), Cancel, process);
      nextToken := nextToken + 1;
      latest, pending, completed := nextToken, None, None;
    }

    method PollResult() returns (result: Option<HighlightResult>)
      requires Valid()
      modifies `nextToken, `latest, `closed, `pending, `completed, `requests, `polled
      ensures Valid() && State() == Next(old(State()), Poll)
      ensures result == PollReply(old(State())) == old(completed)
    {
      StepIsSafe(State(), Poll, process);
      result := if completed.Some? && completed.value.token == latest then completed else None;
      completed := None;
      if result.Some? { polled := polled + [result.value]; }
    }

    method CloseDown()
      requires Valid()
      modifies `nextToken, `latest, `closed, `pending, `completed, `requests, `polled
      ensures Valid() && State() == Next(old(State()), Close)
    {
      StepIsSafe(State(), Close, process);
      closed, pending, completed := true, None, None;
    }

    /** What the UI does while the worker runs. */
    method Interfere(actions: seq<Action>)
      requires Valid() && forall a | a in actions :: a.Ask? || a.Cancel? || a.Poll? || a.Close?
      modifies `nextToken, `latest, `closed, `pending, `completed, `requests, `polled
      ensures Valid() && (actions == [] ==> State() == old(State()))
    {
      for k := 0 to |actions|
        invariant Valid() && (actions == [] ==> State() == old(State()))
      {
        match actions[k]
        case Ask(fileName, text) => var _ := RequestWithNotify(fileName, text);
        case Cancel => CancelAll();
        case Poll => var _ := PollResult();
        case _ => CloseDown();
      }
    }

    /** One turn of the worker loop: take the pending request, compute without the lock, publish only
        if the request is still the newest, and then notify. */
    method WorkerTurn(computing: seq<Action>, beforeNotify: seq<Action>) returns (ran: bool)
      requires Valid() && worker.Idle?
      requires forall a | a in computing + beforeNotify :: a.Ask? || a.Cancel? || a.Poll? || a.Close?
      modifies this
      ensures Valid() && (worker.Idle? || worker.Gone?)
      ensures ran <==> old(pending).Some? && !old(closed)
      ensures ran && computing == [] ==> stored == old(stored) + [old(pending).value.token]
      ensures (notified == old(notified) && stored == old(stored))
              || (ran && stored == old(stored) + [old(pending).value.token]
                      && notified == old(notified) + [old(pending).value.token])
    {
      hide Invariant;
      ran := false;
      if closed {
        WorkerLeaves();
      } else if pending.Some? {
        ran := true;
        PendingIsNewest();
        var request := TakePending();
        var lines := process(request.fileName, request.text);
        Interfere(computing);
        var published := Publish(request, lines);
        if published {
          Interfere(beforeNotify);
          Wake();
        }
      }
    }

    lemma PendingIsNewest()
      requires Valid() && pending.Some?
      ensures pending.value.token == latest
    {}

    method WorkerLeaves()
      requires Valid() && !worker.Gone?
      modifies `closed, `pending, `worker
      ensures Valid() && State() == Next(old(State()), WorkerExits)
    {
      StepIsSafe(State(), WorkerExits, process);
      closed, pending, worker := true, None, Gone;
    }

    method TakePending() returns (request: HighlightRequest)
      requires Valid() && worker.Idle? && pending.Some? && !closed
      modifies `pending, `worker
      ensures Valid() && State() == Next(old(State()), TakeJob)
      ensures worker == Working(request) && old(pending) == Some(request)
    {
      StepIsSafe(State(), TakeJob, process);
      request := pending.value;
      pending, worker := None, Working(request);
    }

    /** Under the lock: a result that is no longer wanted is dropped, else it is stored. */
    method Publish(request: HighlightRequest, lines: Highlighted) returns (published: bool)
      requires Valid() && worker == Working(request) && lines == process(request.fileName, request.text)
      modifies `completed, `worker, `stored
      ensures Valid() && State() == Next(old(State()), Store(lines))
      ensures published <==> !closed && latest == request.token
      ensures published ==> completed == Some(HighlightResult(request.token, lines)) && worker == Notifying(request.token)
                            && stored == old(stored) + [request.token]
      ensures !published ==> worker.Idle? && stored == old(stored)
    {
      StepIsSafe(State(), Store(lines), process);
      published := !closed && latest == request.token;
      if published {
        completed, worker := Some(HighlightResult(request.token, lines)), Notifying(request.token);
        stored := stored + [request.token];
      } else {
        worker := Idle;
      }
    }

    method Wake()
      requires Valid() && worker.Notifying?
      modifies `worker, `notified
      ensures Valid() && State() == Next(old(State()), Notify)
    {
      StepIsSafe(State(), Notify, process);
      notified := notified + [worker.token];
      worker := Idle;
    }
  }
}
