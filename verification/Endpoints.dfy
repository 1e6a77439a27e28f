/** Any number of endpoints over one ledger, each running the protocol: what one endpoint assumes of the
    others is what every one of them does. */
module Endpoints {
  import opened Identity
  import A = Authority
  import L = Ledger
  import opened Protocol
  import opened ProtocolSafety

  /** An endpoint acts, the physical world acts, or a new process joins under a fresh owner id. An
      endpoint that crashed is one that never acts again. */
  datatype Move =
    | By(endpoint: nat, action: Action)
    | World(action: Action)
    | Join(owner: Uuid, remote: set<Uuid>, leafOf: Uuid -> LeafKey)

  /** Whether a birth was handed out is known to its own endpoint alone. */
  function Seen(life: Life): Life {
    if Unreceived(life) then Handed else life
  }

  ghost predicate SameBirths(s: State, t: State) {
    && s.books == t.books && s.life.Keys == t.life.Keys
    && forall g | g in s.life :: Seen(s.life[g]) == Seen(t.life[g])
  }

  /** The endpoints are sound, have owner ids of their own and see one ledger and one world. */
  ghost predicate Sound(c: seq<State>) {
    && c != []
    && (forall i | 0 <= i < |c| :: Invariant(c[i]))
    && (forall i, j | 0 <= i < j < |c| :: c[i].owner != c[j].owner)
    && (forall i | 0 <= i < |c| :: SameBirths(c[i], c[0]))
  }

  /** The ledger transition that an action of an endpoint commits, if any. */
  function IntentOf(s: State, a: Action): Option<L.Intent> {
    match a
    case ReserveBirth(key, runtime, generation, expected) => Some(L.Reserve(expected, key, runtime, generation))
    case InstallBirth(claim, host) => Some(L.Install(claim, host))
    case AdoptBirth(claim, host) => Some(L.Adopt(claim, host))
    case CommitFence(_, current) => Some(L.FenceRetire(current))
    case FinishCommit(_, permanent, _, current, release) => Some(FinishIntent(permanent, current, release))
    case _ => None
  }

  /** What another endpoint sees of a committed transition. */
  function Mirrored(s: State, owner: Uuid, intent: Option<L.Intent>): State {
    if intent.Some? && Enabled(s, ForeignCommit(owner, intent.value)) then Apply(s, ForeignCommit(owner, intent.value)) else s
  }

  function Joined(s: State, owner: Uuid, remote: set<Uuid>, leafOf: Uuid -> LeafKey): State {
    State(owner, remote, leafOf, A.Initial, map[], map[], {}, false, {}, map[], {}, s.books,
          map g | g in s.life :: Seen(s.life[g]), {}, {})
  }

  ghost predicate MoveEnabled(c: seq<State>, m: Move) {
    match m
    case By(i, a) => i < |c| && !WorldAction(a) && Enabled(c[i], a)
    case World(a) => WorldAction(a) && !a.ForeignCommit? && forall i | 0 <= i < |c| :: Enabled(c[i], a)
    case Join(owner, _, _) =>
      && c != [] && (forall i | 0 <= i < |c| :: c[i].owner != owner)
      && forall g | g in c[0].books.births :: c[0].books.births[g].owner != owner
  }

  ghost function After(c: seq<State>, m: Move): (c': seq<State>)
    requires MoveEnabled(c, m)
    ensures |c'| == if m.Join? then |c| + 1 else |c|
  {
    match m
    case By(i, a) =>
      seq(|c|, j requires 0 <= j < |c| =>
        if j == i then Apply(c[i], a) else Mirrored(c[j], c[i].owner, IntentOf(c[i], a)))
    case World(a) => seq(|c|, j requires 0 <= j < |c| => Apply(c[j], a))
    case Join(owner, remote, leafOf) => c + [Joined(c[0], owner, remote, leafOf)]
  }

  // ---------------------------------------------------------------------------------------------
  // The endpoint that acts

  lemma BirthKeepsSeen(s: State, a: Action)
    requires A.WellIndexed(s.auth) && BirthEnabled(s, a) && IntentOf(s, a).None?
    ensures SameBirths(BirthApply(s, a), s)
  {
    hide L.Commit, A.AfterInstall, A.AfterMarkInstalled, A.AfterBeginEffects, A.AfterDrop;
  }

  lemma CloseKeepsSeen(s: State, a: Action)
    requires A.WellIndexed(s.auth) && CloseEnabled(s, a) && IntentOf(s, a).None?
    ensures SameBirths(CloseApply(s, a), s)
  {
    hide L.Commit, A.AfterBeginRetire, A.Registered;
  }

  lemma LocalKeepsSeen(s: State, a: Action)
    requires A.WellIndexed(s.auth) && LocalEnabled(s, a)
    ensures SameBirths(LocalApply(s, a), s)
  {
    hide A.AfterBeginRetire;
  }

  /** An action that commits nothing is invisible to the others. */
  lemma QuietAction(s: State, a: Action)
    requires Enabled(s, a) && !WorldAction(a) && IntentOf(s, a).None?
    ensures SameBirths(Apply(s, a), s)
  {
    hide Enabled, Apply, BirthEnabled, CloseEnabled, LocalEnabled, BirthApply, CloseApply, LocalApply, SameBirths;
    if BirthAction(a) {
      OnlyBirth(s, a);
      BirthKeepsSeen(s, a);
    } else if CloseAction(a) {
      OnlyClose(s, a);
      CloseKeepsSeen(s, a);
    } else {
      OnlyLocal(s, a);
      LocalKeepsSeen(s, a);
    }
  }

  /** An action that commits a transition changes the ledger by it, and the lives by a reservation
      alone. */
  lemma CommittingAction(s: State, a: Action, intent: L.Intent)
    requires Enabled(s, a) && IntentOf(s, a) == Some(intent)
    ensures L.Commit(s.books, s.owner, intent).Some?
    ensures Apply(s, a).books == Committed(s, s.owner, intent).books
    ensures Apply(s, a).life == if intent.Reserve? then s.life[intent.generation := Fresh] else s.life
  {
    hide Enabled, Apply, L.Commit;
    if CloseAction(a) { OnlyClose(s, a); } else { OnlyBirth(s, a); }
  }

  /** It never retires a birth that runs. */
  lemma CommitSparesRunning(s: State, a: Action, intent: L.Intent)
    requires Invariant(s) && Enabled(s, a) && IntentOf(s, a) == Some(intent) && intent.Retire?
    requires intent.claim.generation.Some? && intent.claim.generation.value in s.life
    ensures !s.life[intent.claim.generation.value].Running?
  {
    hide Invariant, Enabled, Apply, L.Commit;
    assert a.FinishCommit?;
    RetiresOnlyWhatIsOver(s, a.prior, a.permanent, a.gate, a.current, a.release);
  }

  // ---------------------------------------------------------------------------------------------
  // The endpoints that watch

  lemma SameAsTransitive(s: State, t: State, u: State)
    requires SameBirths(s, t) && SameBirths(t, u)
    ensures SameBirths(s, u) && SameBirths(t, s)
  {}

  lemma ForeignEffect(s: State, actor: Uuid, intent: L.Intent)
    requires A.WellIndexed(s.auth) && actor != s.owner && L.Commit(s.books, actor, intent).Some?
    requires intent.Retire? && intent.claim.generation.Some? && intent.claim.generation.value in s.life ==>
               !s.life[intent.claim.generation.value].Running?
    ensures Enabled(s, ForeignCommit(actor, intent))
    ensures var s' := Apply(s, ForeignCommit(actor, intent));
            && s'.books == Committed(s, actor, intent).books
            && s'.life == (if intent.Reserve? then s.life[intent.generation := Handed] else s.life)
            && s'.owner == s.owner
  {
    hide L.Commit;
  }

  lemma MirrorCommit(s: State, actor: State, a: Action, intent: L.Intent)
    requires Invariant(s) && Invariant(actor) && SameBirths(s, actor) && s.owner != actor.owner
    requires Enabled(actor, a) && IntentOf(actor, a) == Some(intent)
    ensures Enabled(s, ForeignCommit(actor.owner, intent))
    ensures var s' := Apply(s, ForeignCommit(actor.owner, intent)); s'.owner == s.owner && SameBirths(s', Apply(actor, a))
  {
    hide Invariant, Enabled, Apply, IntentOf, L.Commit;
    CommittingAction(actor, a, intent);
    if intent.Retire? && intent.claim.generation.Some? && intent.claim.generation.value in s.life {
      CommitSparesRunning(actor, a, intent);
    }
    GatesHold(s);
    ForeignEffect(s, actor.owner, intent);
  }

  /** Whatever one endpoint commits is something every other endpoint allows for, and afterwards they
      see the same ledger and the same world again. */
  lemma MirrorAgrees(s: State, actor: State, a: Action)
    requires Invariant(s) && Invariant(actor) && SameBirths(s, actor) && s.owner != actor.owner
    requires Enabled(actor, a) && !WorldAction(a)
    ensures var s' := Mirrored(s, actor.owner, IntentOf(actor, a));
            Invariant(s') && Grows(s, s') && s'.owner == s.owner && SameBirths(s', Apply(actor, a))
  {
    hide Invariant, Grows, Enabled, Apply, SameBirths, IntentOf;
    var intent := IntentOf(actor, a);
    if intent.None? {
      QuietAction(actor, a);
      SameAsItself(actor);
      SameAsTransitive(Apply(actor, a), actor, actor);
      SameAsTransitive(s, actor, Apply(actor, a));
      NothingGrows(s);
    } else {
      MirrorCommit(s, actor, a, intent.value);
      StepIsSafe(s, ForeignCommit(actor.owner, intent.value));
    }
  }

  /** The physical world changes for all endpoints alike. */
  lemma WorldAgrees(s: State, t: State, a: Action)
    requires SameBirths(s, t) && WorldAction(a) && !a.ForeignCommit? && Enabled(s, a) && Enabled(t, a)
    ensures SameBirths(Apply(s, a), Apply(t, a))
  {
    hide Enabled, Apply, L.Consume, L.MaySpawn;
    OnlyWorld(s, a);
    OnlyWorld(t, a);
  }

  lemma JoinedIsSound(s: State, owner: Uuid, remote: set<Uuid>, leafOf: Uuid -> LeafKey)
    requires Invariant(s) && forall g | g in s.books.births :: s.books.births[g].owner != owner
    ensures var joined := Joined(s, owner, remote, leafOf); Invariant(joined) && SameBirths(joined, s)
  {
    A.InitialInvariant();
    BirthsHold(s);
    var joined := Joined(s, owner, remote, leafOf);
    forall g | g in joined.life
      ensures BirthOk(joined, g)
    {
      BirthHolds(s, g);
    }
    hide L.Consistent;
  }

  // ---------------------------------------------------------------------------------------------
  // Every move and every run

  lemma MoveIsSound(c: seq<State>, m: Move)
    requires Sound(c) && MoveEnabled(c, m)
    ensures Sound(After(c, m)) && |c| <= |After(c, m)|
    ensures forall i | 0 <= i < |c| :: Grows(c[i], After(c, m)[i])
  {
    hide Invariant, Grows, Enabled, Apply, SameBirths, Mirrored, IntentOf, Joined;
    match m
    case By(i, a) => ByIsSound(c, i, a);
    case World(a) => WorldIsSound(c, a);
    case Join(owner, remote, leafOf) =>
      JoinedIsSound(c[0], owner, remote, leafOf);
      JoinedOwner(c[0], owner, remote, leafOf);
      forall i | 0 <= i < |c|
        ensures Grows(c[i], After(c, m)[i])
      {
        NothingGrows(c[i]);
      }
  }

  lemma JoinedOwner(s: State, owner: Uuid, remote: set<Uuid>, leafOf: Uuid -> LeafKey)
    ensures Joined(s, owner, remote, leafOf).owner == owner
  {}

  lemma ByIsSound(c: seq<State>, i: nat, a: Action)
    requires Sound(c) && MoveEnabled(c, By(i, a))
    ensures Sound(After(c, By(i, a)))
    ensures forall j | 0 <= j < |c| :: Grows(c[j], After(c, By(i, a))[j])
  {
    hide Invariant, Grows, Enabled, Apply, SameBirths, Mirrored, IntentOf;
    var c' := After(c, By(i, a));
    StepIsSafe(c[i], a);
    GrowthKeeps(c[i], c'[i]);
    forall j | 0 <= j < |c|
      ensures Invariant(c'[j]) && Grows(c[j], c'[j]) && c'[j].owner == c[j].owner && SameBirths(c'[j], c'[i])
    {
      if j == i {
        SameAsItself(c'[i]);
      } else {
        SameAsTransitive(c[i], c[0], c[0]);
        SameAsTransitive(c[j], c[0], c[i]);
        MirrorAgrees(c[j], c[i], a);
      }
    }
    forall j | 0 <= j < |c|
      ensures SameBirths(c'[j], c'[0])
    {
      SameAsTransitive(c'[0], c'[i], c'[i]);
      SameAsTransitive(c'[j], c'[i], c'[0]);
    }
  }

  lemma SameAsItself(s: State)
    ensures SameBirths(s, s)
  {}

  lemma WorldIsSound(c: seq<State>, a: Action)
    requires Sound(c) && MoveEnabled(c, World(a))
    ensures Sound(After(c, World(a)))
    ensures forall j | 0 <= j < |c| :: Grows(c[j], After(c, World(a))[j])
  {
    hide Invariant, Grows, Enabled, Apply, SameBirths;
    var c' := After(c, World(a));
    forall j | 0 <= j < |c|
      ensures Invariant(c'[j]) && Grows(c[j], c'[j]) && c'[j].owner == c[j].owner && SameBirths(c'[j], c'[0])
    {
      StepIsSafe(c[j], a);
      GrowthKeeps(c[j], c'[j]);
      WorldAgrees(c[j], c[0], a);
    }
  }

  /** A run of all endpoints under some schedule; a move that is not enabled is skipped. */
  ghost function RunAll(c: seq<State>, schedule: seq<Move>): seq<State>
    decreases |schedule|
  {
    if schedule == [] then c
    else RunAll(if MoveEnabled(c, schedule[0]) then After(c, schedule[0]) else c, schedule[1..])
  }

  /** Every run of any number of endpoints keeps each of them sound, with no assumption about any. */
  lemma {:induction false} RunAllIsSound(c: seq<State>, schedule: seq<Move>)
    requires Sound(c)
    ensures Sound(RunAll(c, schedule)) && |c| <= |RunAll(c, schedule)|
    ensures forall i | 0 <= i < |c| :: Grows(c[i], RunAll(c, schedule)[i])
    decreases |schedule|
  {
    hide Sound, Grows, MoveEnabled, After;
    if schedule == [] {
      forall i | 0 <= i < |c|
        ensures Grows(c[i], c[i])
      {
        NothingGrows(c[i]);
      }
    } else {
      if MoveEnabled(c, schedule[0]) { MoveIsSound(c, schedule[0]); }
      var next := if MoveEnabled(c, schedule[0]) then After(c, schedule[0]) else c;
      RunAllIsSound(next, schedule[1..]);
      forall i | 0 <= i < |c|
        ensures Grows(c[i], RunAll(c, schedule)[i])
      {
        if MoveEnabled(c, schedule[0]) { GrowsTransitive(c[i], next[i], RunAll(c, schedule)[i]); }
      }
    }
  }

  /** In no run of any number of endpoints do two births of one leaf run at the same time, whichever
      endpoints see them run, and a running birth is the leaf's current, unretired one. */
  lemma RunningBirthsNeverOverlap(c: seq<State>, schedule: seq<Move>, i: nat, j: nat, a: Uuid, b: Uuid)
    requires Sound(c)
    requires var c' := RunAll(c, schedule);
             && i < |c'| && a in c'[i].life && c'[i].life[a].Running?
             && j < |c'| && b in c'[j].life && c'[j].life[b].Running?
    ensures var c' := RunAll(c, schedule);
            && a in c'[i].books.births && b in c'[i].books.births && !c'[i].books.births[a].phase.Retired?
            && (c'[i].books.births[a].key == c'[i].books.births[b].key ==> a == b)
  {
    hide Invariant, Grows, RunAll, Run;
    RunAllIsSound(c, schedule);
    var c' := RunAll(c, schedule);
    SameAsTransitive(c'[i], c'[0], c'[0]);
    SameAsTransitive(c'[j], c'[0], c'[i]);
    RunNothing(c'[i]);
    ProtocolSafety.RunningBirthsNeverOverlap(c'[i], [], a, b);
  }

  /** A first endpoint over a ledger nobody uses yet. */
  lemma FirstEndpointIsSound(owner: Uuid, remote: set<Uuid>, leafOf: Uuid -> LeafKey)
    ensures Sound([State(owner, remote, leafOf, A.Initial, map[], map[], {}, false, {}, map[], {},
                         L.Books(map[], map[]), map[], {}, {})])
  {
    A.InitialInvariant();
  }
}
