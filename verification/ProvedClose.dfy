/** The local coordinator and the registries together: the worker polls the retirement of one terminal,
    and a birth is proved closed only with its whole output in the journal. */
module ProvedClose {
  import opened Identity
  import P = Protocol
  import opened ProtocolSafety
  import H = HookRuntime
  import opened Retirement

  ghost predicate Fenced(hook: H.HookRuntime, host: HostEvidence)
    reads hook
  {
    var birth := P.Birth(host.runtime, host.generation);
    P.BoundClosed(birth) in hook.facts && P.Prepared(birth) in hook.facts
  }

  ghost predicate Started(hook: H.HookRuntime, host: HostEvidence)
    reads hook
  {
    && host.generation.Some? && host.generation.value in hook.life
    && (hook.life[host.generation.value].Running? || hook.life[host.generation.value].Over?)
  }

  predicate Ended(hook: H.HookRuntime, host: HostEvidence)
    reads hook
  {
    host.generation.Some? && host.generation.value in hook.life && hook.life[host.generation.value].Over?
  }

  /** The handle belongs to a birth that was started; the coordinator counts as fenced only once the
      registries have prepared the close of this very birth; and a terminal that has wound down, its
      child reaped, belongs to a process that has ended. */
  ghost predicate Linked(hook: H.HookRuntime, local: LocalRetirement, host: HostEvidence)
    reads hook, local
  {
    && local.Valid() && Started(hook, host)
    && (local.fenced ==> Fenced(hook, host))
    && (local.pty.woundDown ==> Ended(hook, host))
  }

  /** The close of the birth is proved, its process has ended, its handle is let go, and the journal
      holds everything it ever produced, exactly once and in order. */
  ghost predicate ClosedWithOutput(hook: H.HookRuntime, local: LocalRetirement, host: HostEvidence)
    reads hook, local
  {
    var birth := P.Birth(host.runtime, host.generation);
    && P.CloseProved(birth) in hook.facts && birth !in hook.observed && Ended(hook, host)
    && Frames(local.journal) == Renumber(local.pty.produced, 1) && PhysicalComplete(local.pty)
  }

  function WithoutWindDown(events: seq<PtyEvent>): (rest: seq<PtyEvent>)
    ensures WindDown !in rest
  {
    if events == [] then []
    else (if events[0].WindDown? then [] else [events[0]]) + WithoutWindDown(events[1..])
  }

  /** What a call can meet: as long as the process runs, its child is not reaped and the terminal does
      not wind down. */
  function Reapable(turn: Turn, ended: bool): (t: Turn)
    ensures t.fenced == turn.fenced && (ended ==> t == turn) && (!ended ==> !Winds(t))
  {
    if ended then turn
    else turn.(beforePrefix := WithoutWindDown(turn.beforePrefix), beforeDrain := WithoutWindDown(turn.beforeDrain),
               beforeSample := WithoutWindDown(turn.beforeSample), beforeTail := WithoutWindDown(turn.beforeTail),
               beforeCheckpoint := WithoutWindDown(turn.beforeCheckpoint))
  }

  /** Everybody else runs, and processes end. */
  method Others(hook: H.HookRuntime, host: HostEvidence, schedule: seq<P.Action>, ghost s0: P.State)
    requires hook.Since(s0) && Started(hook, host)
    modifies hook
    ensures Started(hook, host) && (old(Fenced(hook, host)) ==> Fenced(hook, host))
    ensures old(Ended(hook, host)) ==> Ended(hook, host)
    ensures hook.Since(s0) && old(hook.facts) <= hook.facts
  {
    hide Run, LeavesQueue, LeavesAdmission, FreshStays, BarrierKept, P.Invariant, P.Grows, P.Enabled, P.Apply;
    hook.Interfere(schedule, s0);
  }

  /** Nobody else runs, and the close of the birth can be fenced at once. */
  ghost predicate MayFenceAtOnce(hook: H.HookRuntime, host: HostEvidence, tries: nat, gaps: H.Gaps)
    reads hook
  {
    H.Quiet(gaps) && tries > 0 && H.ClosesCleanly(hook.State(), host)
  }

  method Fence(hook: H.HookRuntime, host: HostEvidence, tries: nat, gaps: H.Gaps, ghost s0: P.State) returns (ok: bool)
    requires hook.Since(s0) && Started(hook, host)
    modifies hook
    ensures Started(hook, host) && (ok || old(Fenced(hook, host)) ==> Fenced(hook, host))
    ensures old(MayFenceAtOnce(hook, host, tries, gaps)) ==> ok
    ensures old(Ended(hook, host)) ==> Ended(hook, host)
    ensures hook.Since(s0) && old(hook.facts) <= hook.facts
  {
    hide P.Invariant, P.Grows, P.Enabled, P.Apply;
    ok := hook.PreparePhysicalClose(host.runtime, Some(host), tries, gaps, s0);
  }

  lemma SmoothFence(turn: Turn, fenced: bool)
    ensures Smooth(turn) && fenced ==> Smooth(turn.(fenced := fenced))
  {}

  /** One poll: fence through the registries, move output, and when the journal confirms, conclude the
      close in the registries. Everybody else runs in between; what they do while the coordinator moves
      output touches none of its state, so it is placed before and after. */
  method Advance(hook: H.HookRuntime, local: LocalRetirement, host: HostEvidence, tries: nat, turn: Turn,
                 sent: bool, gaps: H.Gaps, ghost s0: P.State)
    returns (done: bool, work: set<(Uuid, bool)>)
    requires hook.Since(s0) && Linked(hook, local, host)
    modifies hook, local
    ensures hook.PendingOk(work)
    ensures done ==> ClosedWithOutput(hook, local, host)
    ensures !done ==> Linked(hook, local, host)
    ensures (old(local.fenced || MayFenceAtOnce(hook, host, tries, gaps)) && old(local.Room() && Ended(hook, host))
             && Smooth(turn)) ==> done
    ensures hook.Since(s0) && old(hook.facts) <= hook.facts && old(local.pty.produced) <= local.pty.produced
  {
    hide H.HookRuntime.Since, H.HookRuntime.State, LocalRetirement.Valid, Fenced, Started, Ended, Winds, Reapable, Frames, Renumber,
      H.Quiet, Within, Smooth, LocalRetirement.Room, MayFenceAtOnce;
    var fenced := local.fenced;
    if !fenced { fenced := Fence(hook, host, tries, gaps, s0); }
    Others(hook, host, gaps(tries + 6).others, s0);
    SmoothFence(turn, fenced);
    var progress := local.Advance(Reapable(turn.(fenced := fenced), Ended(hook, host)));
    Others(hook, host, gaps(tries + 7).others, s0);
    if !progress.Confirmed? { return false, {}; }
    work := Conclude(hook, host, sent, H.Later(gaps, tries + 8), s0);
    done := true;
  }

  /** The registries conclude the close of a birth whose process has ended. */
  method Conclude(hook: H.HookRuntime, host: HostEvidence, sent: bool, gaps: H.Gaps, ghost s0: P.State)
    returns (work: set<(Uuid, bool)>)
    requires hook.Since(s0) && Ended(hook, host) && Fenced(hook, host)
    modifies hook
    ensures hook.PendingOk(work) && Ended(hook, host)
    ensures var birth := P.Birth(host.runtime, host.generation); P.CloseProved(birth) in hook.facts && birth !in hook.observed
    ensures hook.Since(s0) && old(hook.facts) <= hook.facts
  {
    hide H.HookRuntime.Since, H.HookRuntime.State;
    work := hook.CompleteRetirement(host, sent, gaps, s0);
  }

  /** The worker polls until the close is proved; between two polls everybody else runs. */
  method Retire(hook: H.HookRuntime, local: LocalRetirement, host: HostEvidence, tries: nat, turns: seq<Turn>,
                sent: bool, gaps: (nat, nat) -> H.Gap, ghost s0: P.State)
    returns (done: bool, work: set<(Uuid, bool)>)
    requires hook.Since(s0) && Linked(hook, local, host)
    modifies hook, local
    ensures hook.PendingOk(work)
    ensures done ==> ClosedWithOutput(hook, local, host)
    ensures hook.Since(s0) && old(hook.facts) <= hook.facts && old(local.pty.produced) <= local.pty.produced
  {
    hide H.HookRuntime.Since, H.HookRuntime.State, LocalRetirement.Valid, Fenced, Started, Ended;
    done, work := false, {};
    for i := 0 to |turns|
      invariant hook.Since(s0) && Linked(hook, local, host) && hook.PendingOk(work)
      invariant old(hook.facts) <= hook.facts && old(local.pty.produced) <= local.pty.produced
    {
      done, work := Advance(hook, local, host, tries, turns[i], sent, (k: nat) => gaps(i, k), s0);
      if done { return; }
      Others(hook, host, gaps(i, tries + 15).others, s0);
    }
  }
}
