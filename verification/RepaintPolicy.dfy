/** The repaint rate policy: when a pending terminal event may repaint. Times are in nanoseconds of a
    monotone clock. */
module RepaintPolicy {
  import opened Identity

  const FOCUSED_WINDOW: nat := 16_000_000

  datatype Policy = Policy(batchWindow: nat, pending: bool, focused: bool, last: Option<nat>)
  {
    function Window(): nat {
      if focused then FOCUSED_WINDOW else batchWindow
    }

    function Elapsed(now: nat, last: nat): nat {
      if now < last then 0 else now - last
    }

    predicate Ready(now: nat) {
      pending && (last.Some? ==> Elapsed(now, last.value) >= Window())
    }

    function NextDelay(now: nat): Option<nat> {
      if !pending then None
      else
        var elapsed := if last.Some? then Elapsed(now, last.value) else Window();
        Some(if elapsed < Window() then Window() - elapsed else 0)
    }
  }

  datatype Event = Noted(focused: bool) | Asked(now: nat)

  function Next(p: Policy, e: Event): Policy {
    match e
    case Noted(focused) => p.(pending := true, focused := p.focused || focused)
    case Asked(now) => if p.Ready(now) then p.(last := Some(now), pending := false, focused := false) else p
  }

  /** The times at which a run repaints. */
  function Repaints(p: Policy, events: seq<Event>): seq<nat>
    decreases |events|
  {
    if events == [] then []
    else
      (if events[0].Asked? && p.Ready(events[0].now) then [events[0].now] else [])
      + Repaints(Next(p, events[0]), events[1..])
  }

  function Run(p: Policy, events: seq<Event>): Policy
    decreases |events|
  {
    if events == [] then p else Run(Next(p, events[0]), events[1..])
  }

  function Least(a: nat, b: nat): nat {
    if a <= b then a else b
  }

  /** The clock never runs backwards, neither between two questions nor since the last repaint. */
  predicate Monotone(p: Policy, events: seq<Event>) {
    && (forall i, j | 0 <= i < j < |events| && events[i].Asked? && events[j].Asked? :: events[i].now <= events[j].now)
    && (forall i | 0 <= i < |events| && events[i].Asked? && p.last.Some? :: p.last.value <= events[i].now)
  }

  predicate Spaced(times: seq<nat>, gap: nat) {
    forall i | 0 <= i < |times| - 1 :: times[i] + gap <= times[i + 1]
  }

  lemma MonotoneAfter(p: Policy, events: seq<Event>)
    requires Monotone(p, events) && events != []
    ensures Monotone(Next(p, events[0]), events[1..])
  {}

  /** Repaints keep the smaller of the two windows between them, from the last repaint on. */
  lemma {:induction false} RepaintsAreSpaced(p: Policy, events: seq<Event>)
    requires Monotone(p, events)
    ensures var times, gap := Repaints(p, events), Least(FOCUSED_WINDOW, p.batchWindow);
            && Spaced(times, gap)
            && (times != [] && p.last.Some? ==> p.last.value + gap <= times[0])
    decreases |events|
  {
    if events != [] {
      MonotoneAfter(p, events);
      RepaintsAreSpaced(Next(p, events[0]), events[1..]);
    }
  }

  lemma {:induction false} SpanHolds(times: seq<nat>, gap: nat, i: nat, j: nat)
    requires Spaced(times, gap) && i <= j < |times|
    ensures times[i] + (j - i) * gap <= times[j]
    decreases j - i
  {
    if i < j {
      SpanHolds(times, gap, i, j - 1);
      assert (j - i) * gap == (j - 1 - i) * gap + gap;
    }
  }

  lemma Quotient(n: nat, gap: nat, span: nat)
    requires gap > 0 && n * gap <= span
    ensures n <= span / gap
  {
    var q := span / gap;
    assert span < q * gap + gap;
    if q < n { Product(q + 1, n, gap); }
  }

  lemma Product(a: nat, b: nat, gap: nat)
    requires a <= b
    ensures a * gap <= b * gap
  {}

  /** How many of the first `n` repaints lie in a span of time. */
  function CountIn(times: seq<nat>, lo: nat, hi: nat, n: nat): nat
    requires n <= |times|
  {
    if n == 0 then 0 else CountIn(times, lo, hi, n - 1) + if lo <= times[n - 1] <= hi then 1 else 0
  }

  /** The last counted repaint lies behind all the windows between those counted before it. */
  lemma {:induction false} CountedFit(times: seq<nat>, gap: nat, lo: nat, hi: nat, n: nat) returns (last: nat)
    requires Spaced(times, gap) && n <= |times|
    ensures var count := CountIn(times, lo, hi, n);
            count > 0 ==> last < n && lo + (count - 1) * gap <= times[last] <= hi
  {
    last := 0;
    if n > 0 {
      last := CountedFit(times, gap, lo, hi, n - 1);
      if lo <= times[n - 1] <= hi {
        var before := CountIn(times, lo, hi, n - 1);
        if before > 0 {
          SpanHolds(times, gap, last, n - 1);
          Product(1, n - 1 - last, gap);
          assert before * gap == (before - 1) * gap + gap;
        }
        last := n - 1;
      }
    }
  }

  /** Any span of time, wherever it begins and ends, holds at most one repaint more than the windows
      that fit into it. */
  lemma RateIsBounded(p: Policy, events: seq<Event>, lo: nat, hi: nat)
    requires Monotone(p, events) && p.batchWindow > 0 && lo <= hi
    ensures var times, gap := Repaints(p, events), Least(FOCUSED_WINDOW, p.batchWindow);
            CountIn(times, lo, hi, |times|) <= 1 + (hi - lo) / gap
  {
    hide Repaints, Monotone, Spaced, CountIn;
    var times, gap := Repaints(p, events), Least(FOCUSED_WINDOW, p.batchWindow);
    RepaintsAreSpaced(p, events);
    var last := CountedFit(times, gap, lo, hi, |times|);
    var count := CountIn(times, lo, hi, |times|);
    if count > 0 { Quotient(count - 1, gap, hi - lo); }
  }

  /** A noted event stays pending until a repaint. */
  lemma {:induction false} PendingUntilRepaint(p: Policy, events: seq<Event>)
    requires p.pending && Repaints(p, events) == []
    ensures Run(p, events).pending
    decreases |events|
  {
    if events != [] { PendingUntilRepaint(Next(p, events[0]), events[1..]); }
  }

  /** Without an event there is no repaint. */
  lemma {:induction false} NoEventNoRepaint(p: Policy, events: seq<Event>)
    requires !p.pending && forall e | e in events :: e.Asked?
    ensures Repaints(p, events) == []
    decreases |events|
  {
    if events != [] {
      assert events[0] in events;
      NoEventNoRepaint(Next(p, events[0]), events[1..]);
    }
  }

  /** After a repaint, any series of events makes the next one due 16 ms after it if one of them came from the
      focused terminal, and otherwise after the batch window; without an event none is due. */
  lemma {:induction false} FocusShortensTheWait(p: Policy, events: seq<Event>, now: nat)
    requires !p.pending && !p.focused && forall e | e in events :: e.Noted?
    ensures var noted := Run(p, events); var wait := if Noted(true) in events then 16_000_000 else p.batchWindow;
            && (noted.pending <==> events != []) && (noted.focused <==> Noted(true) in events)
            && noted.last == p.last && noted.batchWindow == p.batchWindow
            && (noted.Ready(now) <==> events != [] && (p.last.None? || wait == 0 || p.last.value + wait <= now))
    decreases |events|
  {
    if events != [] {
      var init, last := events[..|events| - 1], events[|events| - 1];
      assert events == init + [last];
      RunLast(p, init, last);
      FocusShortensTheWait(p, init, now);
    }
  }

  /** A repaint forgets the focus: what comes after it counts from there, whatever was noted before. */
  lemma RepaintStartsAfresh(p: Policy, at: nat, events: seq<Event>, now: nat)
    requires p.Ready(at) && forall e | e in events :: e.Noted?
    ensures var wait := if Noted(true) in events then 16_000_000 else p.batchWindow;
            Run(p, [Asked(at)] + events).Ready(now) <==> events != [] && (wait == 0 || at + wait <= now)
  {
    assert ([Asked(at)] + events)[1..] == events;
    FocusShortensTheWait(Next(p, Asked(at)), events, now);
  }

  lemma {:induction false} RunLast(p: Policy, events: seq<Event>, e: Event)
    ensures Run(p, events + [e]) == Next(Run(p, events), e)
    decreases |events|
  {
    if events == [] {
      assert [e][1..] == [];
    } else {
      RunLast(Next(p, events[0]), events[1..], e);
      assert (events + [e])[1..] == events[1..] + [e];
    }
  }

  predicate ReadyAfter(p: Policy, now: nat, wait: nat) {
    p.Ready(now + wait)
  }

  /** The delay is the exact least wait after which a repaint is granted, precisely when the clock has
      not run behind the last repaint (or the window is empty anyway). */
  lemma DelayIsExact(p: Policy, now: nat)
    requires p.pending
    ensures p.NextDelay(now).Some?
    ensures (forall wait: nat :: ReadyAfter(p, now, wait) <==> p.NextDelay(now).value <= wait)
            <==> (p.last.None? || p.last.value <= now || p.Window() == 0)
  {
    var delay := p.NextDelay(now).value;
    assert p.last.Some? && now < p.last.value && p.Window() > 0 ==> !ReadyAfter(p, now, delay);
  }

  /** With the clock behind the last repaint, the reported delay does not lead to a repaint. */
  lemma DelayFailsBehindTheClock()
    ensures var p := Policy(10, true, false, Some(100));
            p.NextDelay(50) == Some(10) && !ReadyAfter(p, 50, 10)
  {}

  class RepaintScheduler {
    var batchWindow: nat
    var pendingRuntimeEvent: bool
    var focusedRuntimeEvent: bool
    var lastRepaintAt: Option<nat>

    ghost function State(): Policy
      reads this
    {
      Policy(batchWindow, pendingRuntimeEvent, focusedRuntimeEvent, lastRepaintAt)
    }

    constructor (batchWindow: nat)
      ensures State() == Policy(batchWindow, false, false, None)
    {
      this.batchWindow := batchWindow;
      pendingRuntimeEvent, focusedRuntimeEvent, lastRepaintAt := false, false, None;
    }

    method NoteRuntimeEvent()
      modifies this
      ensures State() == Next(old(State()), Noted(false))
    {
      pendingRuntimeEvent := true;
    }

    method NoteFocusedRuntimeEvent()
      modifies this
      ensures State() == Next(old(State()), Noted(true))
    {
      pendingRuntimeEvent := true;
      focusedRuntimeEvent := true;
    }

    method ShouldRepaintNowAt(now: nat) returns (ready: bool)
      modifies this
      ensures ready == old(State()).Ready(now)
      ensures State() == Next(old(State()), Asked(now))
    {
      if !pendingRuntimeEvent { return false; }
      var window := CurrentWindow();
      ready := true;
      if lastRepaintAt.Some? {
        var elapsed := if now < lastRepaintAt.value then 0 else now - lastRepaintAt.value;
        ready := elapsed >= window;
      }
      if ready {
        lastRepaintAt := Some(now);
        pendingRuntimeEvent := false;
        focusedRuntimeEvent := false;
      }
    }

    method CurrentWindow() returns (window: nat)
      ensures window == State().Window()
    {
      window := if focusedRuntimeEvent then FOCUSED_WINDOW else batchWindow;
    }

    method NextRepaintDelay(now: nat) returns (delay: Option<nat>)
      ensures delay == State().NextDelay(now)
    {
      if !pendingRuntimeEvent { return None; }
      var window := CurrentWindow();
      var elapsed := window;
      if lastRepaintAt.Some? {
        elapsed := if now < lastRepaintAt.value then 0 else now - lastRepaintAt.value;
      }
      delay := Some(if elapsed < window then window - elapsed else 0);
    }
  }
}
