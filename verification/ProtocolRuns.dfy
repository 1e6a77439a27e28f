/** Two concrete runs: a runtime id that stands for a second birth of its leaf, and an exit scan in the
    wrong order that passes over an unretired birth. */
module ProtocolRuns {
  import opened Identity
  import A = Authority
  import L = Ledger
  import opened Protocol
  import opened ProtocolSafety

  ghost predicate Goes(s: State, a: Action, s': State) {
    Enabled(s, a) && Apply(s, a) == s'
  }

  /** A sequence of states, each one action after the one before. */
  ghost predicate Path(states: seq<State>, actions: seq<Action>) {
    |states| == |actions| + 1 && forall i | 0 <= i < |actions| :: Goes(states[i], actions[i], states[i + 1])
  }

  lemma {:induction false} RunAlong(states: seq<State>, actions: seq<Action>)
    requires Path(states, actions)
    ensures Run(states[0], actions) == states[|actions|]
    decreases |actions|
  {
    if actions != [] {
      assert Goes(states[0], actions[0], states[1]);
      RunAlong(states[1..], actions[1..]);
    }
  }

  lemma FourSteps(s0: State, s1: State, s2: State, s3: State, s4: State, actions: seq<Action>)
    requires |actions| == 4 && Goes(s0, actions[0], s1) && Goes(s1, actions[1], s2)
    requires Goes(s2, actions[2], s3) && Goes(s3, actions[3], s4)
    ensures Run(s0, actions) == s4
  {
    hide Goes, Run;
    var states := [s0, s1, s2, s3, s4];
    RunAlong(states, actions);
  }

  lemma ThreeSteps(s0: State, s1: State, s2: State, s3: State, actions: seq<Action>)
    requires |actions| == 3 && Goes(s0, actions[0], s1) && Goes(s1, actions[1], s2) && Goes(s2, actions[2], s3)
    ensures Run(s0, actions) == s3
  {
    hide Goes, Run;
    var states := [s0, s1, s2, s3];
    RunAlong(states, actions);
  }

  lemma TwoSteps(s0: State, s1: State, s2: State, actions: seq<Action>)
    requires |actions| == 2 && Goes(s0, actions[0], s1) && Goes(s1, actions[1], s2)
    ensures Run(s0, actions) == s2
  {
    hide Goes, Run;
    var states := [s0, s1, s2];
    RunAlong(states, actions);
  }

  // ---------------------------------------------------------------------------------------------
  // What single actions do

  lemma ReserveGoes(s: State, claim: Claim, expected: Option<Claim>, books: L.Books)
    requires A.WellIndexed(s.auth) && !s.admissionClosed && s.leafOf(claim.runtime) == claim.key && claim.generation.Some?
    requires L.Commit(s.books, s.owner, L.Reserve(expected, claim.key, claim.runtime, claim.generation.value)) == Some((books, claim))
    ensures var generation := claim.generation.value;
            Goes(s, ReserveBirth(claim.key, claim.runtime, generation, expected),
                 s.(books := books, life := s.life[generation := Fresh], known := s.known + {generation},
                    facts := s.facts + {Registrable(claim)}))
  {
    hide L.Commit;
  }

  lemma RegisterNewGoes(s: State, claim: Claim)
    requires A.WellIndexed(s.auth) && Registrable(claim) in s.facts && A.InstallDenial(s.auth, Context(claim)).None?
    ensures Goes(s, RegisterNew(claim),
                 s.(auth := A.AfterInstall(s.auth, Context(claim)), facts := s.facts + {GateReady(claim)}))
  {
    hide A.InstallDenial, A.AfterInstall;
  }

  lemma HandOutGoes(s: State, claim: Claim)
    requires A.WellIndexed(s.auth) && !s.admissionClosed && GateReady(claim) in s.facts && claim.runtime !in s.cancelled
    requires claim.generation.Some? && claim.generation.value in s.life && s.life[claim.generation.value].Fresh?
    ensures Goes(s, HandOut(claim), s.(life := s.life[claim.generation.value := Handed]))
  {}

  lemma ConsumeGoes(s: State, claim: Claim, books: L.Books)
    requires A.WellIndexed(s.auth) && L.Consume(s.books, claim) == Some(books)
    requires claim.generation.value in s.life && s.life[claim.generation.value].Handed?
    ensures Goes(s, ConsumeBirth(claim), s.(books := books))
  {
    hide L.Consume;
  }

  lemma ForeignGoes(s: State, actor: Uuid, intent: L.Intent, books: L.Books, claim: Claim)
    requires A.WellIndexed(s.auth) && actor != s.owner && !intent.Reserve?
    requires L.Commit(s.books, actor, intent) == Some((books, claim))
    requires intent.Retire? && intent.claim.generation.Some? && intent.claim.generation.value in s.life ==>
               !s.life[intent.claim.generation.value].Running?
    ensures Goes(s, ForeignCommit(actor, intent), s.(books := books))
  {
    hide L.Commit;
  }

  lemma RefreshGoes(s: State, claim: Claim)
    requires A.WellIndexed(s.auth)
    ensures Goes(s, ReadForRefresh(claim), s.(facts := s.facts + {StaleSnapshot(claim)}))
    ensures StaleSnapshot(claim) in s.facts ==> Goes(s, InvalidateStale(claim), s.(auth := A.AfterBeginRetire(s.auth, claim)))
  {
    hide A.AfterBeginRetire;
  }

  // ---------------------------------------------------------------------------------------------
  // A second birth under one runtime id

  function Start(owner: Uuid, key: LeafKey): State {
    State(owner, {}, (runtime: Uuid) => key, A.Initial, map[], map[], {}, false, {}, map[], {},
          L.Books(map[], map[]), map[], {}, {})
  }

  lemma StartIsSafe(owner: Uuid, key: LeafKey)
    ensures Invariant(Start(owner, key))
  {
    A.InitialInvariant();
  }

  /** The claim with which an endpoint reserves a birth. */
  function Reserved(owner: Uuid, key: LeafKey, runtime: Uuid, generation: Uuid, epoch: int): Claim {
    Claim(key, runtime, Some(generation), epoch, Some(owner), AuthorizedBirth, true)
  }

  function Row(owner: Uuid, key: LeafKey, runtime: Uuid, born: int, consumed: bool, phase: Phase): L.BirthRow {
    L.BirthRow(key, runtime, owner, born, consumed, phase)
  }

  function OneBirth(claim: Claim, row: L.BirthRow): L.Books
    requires claim.generation.Some?
  {
    L.Books(map[claim.key := claim], map[claim.generation.value := row])
  }

  lemma FirstReservation(owner: Uuid, key: LeafKey, runtime: Uuid, generation: Uuid)
    ensures var claim := Reserved(owner, key, runtime, generation, 1);
            && L.Commit(L.Books(map[], map[]), owner, L.Reserve(None, key, runtime, generation))
               == Some((OneBirth(claim, Row(owner, key, runtime, 1, false, AuthorizedBirth)), claim))
            && L.Consume(OneBirth(claim, Row(owner, key, runtime, 1, false, AuthorizedBirth)), claim)
               == Some(OneBirth(claim, Row(owner, key, runtime, 1, true, AuthorizedBirth)))
  {
    var row := Row(owner, key, runtime, 1, false, AuthorizedBirth);
    assert map[generation := row][generation := row.(consumed := true)] == map[generation := row.(consumed := true)];
  }

  function OneGate(claim: Claim, open: bool): A.World {
    A.World(map[claim.key := 0], [A.GateRecord(claim, open, 0, false)], multiset{})
  }

  lemma FirstGate(claim: Claim)
    requires claim.owner.Some? && claim.phase.AuthorizedBirth? && claim.generation.Some?
    ensures A.InstallDenial(A.Initial, Context(claim)).None?
    ensures A.AfterInstall(A.Initial, Context(claim)) == OneGate(claim, true)
    ensures A.WellIndexed(A.Initial) && A.WellIndexed(OneGate(claim, true))
  {}

  /** The first birth of a leaf, registered, handed out and consumed. */
  lemma FirstBirth(owner: Uuid, key: LeafKey, runtime: Uuid, generation: Uuid)
    returns (actions: seq<Action>, s: State)
    ensures Run(Start(owner, key), actions) == s
    ensures var claim := Reserved(owner, key, runtime, generation, 1);
            s == Start(owner, key).(
                   auth := OneGate(claim, true), books := OneBirth(claim, Row(owner, key, runtime, 1, true, AuthorizedBirth)),
                   life := map[generation := Handed], known := {generation}, facts := {Registrable(claim), GateReady(claim)})
  {
    hide Goes, Run, Path, Invariant, OneBirth, OneGate, L.Commit, L.Consume, A.AfterInstall, A.InstallDenial, A.WellIndexed;
    var claim := Reserved(owner, key, runtime, generation, 1);
    FirstReservation(owner, key, runtime, generation);
    FirstGate(claim);
    var s0 := Start(owner, key);
    var books := OneBirth(claim, Row(owner, key, runtime, 1, false, AuthorizedBirth));
    var consumed := OneBirth(claim, Row(owner, key, runtime, 1, true, AuthorizedBirth));
    assert s0.life[generation := Fresh] == map[generation := Fresh] && s0.known + {generation} == {generation};
    assert map[generation := Fresh][generation := Handed] == map[generation := Handed];
    assert s0.facts + {Registrable(claim)} == {Registrable(claim)};
    assert {Registrable(claim)} + {GateReady(claim)} == {Registrable(claim), GateReady(claim)};
    ReserveGoes(s0, claim, None, books);
    var s1 := s0.(books := books, life := map[generation := Fresh], known := {generation}, facts := {Registrable(claim)});
    RegisterNewGoes(s1, claim);
    var s2 := s1.(auth := OneGate(claim, true), facts := {Registrable(claim), GateReady(claim)});
    HandOutGoes(s2, claim);
    var s3 := s2.(life := map[generation := Handed]);
    ConsumeGoes(s3, claim, consumed);
    s := s3.(books := consumed);
    actions := [ReserveBirth(key, runtime, generation, None), RegisterNew(claim), HandOut(claim), ConsumeBirth(claim)];
    FourSteps(s0, s1, s2, s3, s, actions);
  }

  /** Another endpoint adopts the birth and retires it. */
  lemma AdoptedAndRetired(owner: Uuid, other: Uuid, key: LeafKey, runtime: Uuid, generation: Uuid)
    ensures var claim := Reserved(owner, key, runtime, generation, 1);
            var adopted := claim.(epoch := 2, owner := Some(other), phase := Active);
            var retired := adopted.(epoch := 3, phase := Retired);
            var host := HostEvidence(runtime, Some(generation), Some(key));
            && L.Commit(OneBirth(claim, Row(owner, key, runtime, 1, true, AuthorizedBirth)), other, L.Adopt(claim, host))
               == Some((OneBirth(adopted, Row(owner, key, runtime, 1, true, Active)), adopted))
            && L.Commit(OneBirth(adopted, Row(owner, key, runtime, 1, true, Active)), other, L.Retire(adopted))
               == Some((OneBirth(retired, Row(owner, key, runtime, 1, true, Retired)), retired))
  {
    var claim := Reserved(owner, key, runtime, generation, 1);
    var adopted := claim.(epoch := 2, owner := Some(other), phase := Active);
    var retired := adopted.(epoch := 3, phase := Retired);
    var row := Row(owner, key, runtime, 1, true, AuthorizedBirth);
    assert map[generation := row][generation := row.(phase := Active)] == map[generation := row.(phase := Active)];
    assert map[generation := row.(phase := Active)][generation := row.(phase := Retired)] == map[generation := row.(phase := Retired)];
    assert map[key := claim][key := adopted] == map[key := adopted] && map[key := adopted][key := retired] == map[key := retired];
  }

  /** The gate of the first birth closes, and a second one is installed over it. */
  lemma SecondGate(first: Claim, second: Claim)
    requires second.owner.Some? && second.phase.AuthorizedBirth? && second.generation.Some? && first.generation.Some?
    requires SameAuthority(first, first) && second.key == first.key && first.epoch < second.epoch
    ensures A.WellIndexed(OneGate(first, true)) && A.WellIndexed(OneGate(first, false))
    ensures A.AfterBeginRetire(OneGate(first, true), first) == OneGate(first, false)
    ensures A.InstallDenial(OneGate(first, false), Context(second)).None?
    ensures A.WellIndexed(A.AfterInstall(OneGate(first, false), Context(second)))
  {}

  lemma SecondReservation(books: L.Books, owner: Uuid, key: LeafKey, runtime: Uuid, first: Uuid, second: Uuid, retired: Claim)
    requires first != second && retired.generation == Some(first) && retired.key == key && retired.phase.Retired? && retired.epoch == 3
    requires books == OneBirth(retired, Row(owner, key, runtime, 1, true, Retired))
    ensures var claim := Reserved(owner, key, runtime, second, 4);
            var reply := L.Commit(books, owner, L.Reserve(Some(retired), key, runtime, second));
            && reply.Some? && reply.value.1 == claim
            && first in reply.value.0.births && reply.value.0.births[first] == Row(owner, key, runtime, 1, true, Retired)
            && second in reply.value.0.births && reply.value.0.births[second] == Row(owner, key, runtime, 4, false, AuthorizedBirth)
  {
    assert |books.births| <= 1 by { assert books.births == map[first := Row(owner, key, runtime, 1, true, Retired)]; }
  }

  /** The same session id may stand for a second birth of its leaf: another endpoint adopts and retires
      the first one, and the id, which was never cancelled, is reserved and handed out again. */
  lemma SecondBirthUnderOneRuntime(owner: Uuid, other: Uuid, key: LeafKey, runtime: Uuid, first: Uuid, second: Uuid)
    returns (schedule: seq<Action>)
    requires owner != other && first != second
    ensures Invariant(Start(owner, key))
    ensures var s := Run(Start(owner, key), schedule);
            && Under(s, first, runtime) && Under(s, second, runtime) && runtime !in s.cancelled
            && RowRetired(s, first) && !RowRetired(s, second)
            && second in s.life && s.life[second].Handed?
  {
    hide Goes, Run, Path, Invariant, OneBirth, OneGate, L.Commit, A.AfterInstall, A.InstallDenial, A.AfterBeginRetire, A.WellIndexed;
    StartIsSafe(owner, key);
    var claim, next := Reserved(owner, key, runtime, first, 1), Reserved(owner, key, runtime, second, 4);
    var adopted := claim.(epoch := 2, owner := Some(other), phase := Active);
    var retired := adopted.(epoch := 3, phase := Retired);
    var host := HostEvidence(runtime, Some(first), Some(key));
    var lived, s0 := FirstBirth(owner, key, runtime, first);
    FirstGate(claim);
    AdoptedAndRetired(owner, other, key, runtime, first);
    ForeignGoes(s0, other, L.Adopt(claim, host), OneBirth(adopted, Row(owner, key, runtime, 1, true, Active)), adopted);
    var s1 := s0.(books := OneBirth(adopted, Row(owner, key, runtime, 1, true, Active)));
    ForeignGoes(s1, other, L.Retire(adopted), OneBirth(retired, Row(owner, key, runtime, 1, true, Retired)), retired);
    var s2 := s1.(books := OneBirth(retired, Row(owner, key, runtime, 1, true, Retired)));
    SecondGate(claim, next);
    RefreshGoes(s2, claim);
    var s3 := s2.(facts := s2.facts + {StaleSnapshot(claim)});
    RefreshGoes(s3, claim);
    var s4 := s3.(auth := OneGate(claim, false));
    SecondReservation(s4.books, owner, key, runtime, first, second, retired);
    var books := L.Commit(s4.books, owner, L.Reserve(Some(retired), key, runtime, second)).value.0;
    ReserveGoes(s4, next, Some(retired), books);
    var s5 := s4.(books := books, life := s4.life[second := Fresh], known := s4.known + {second},
                  facts := s4.facts + {Registrable(next)});
    RegisterNewGoes(s5, next);
    var s6 := s5.(auth := A.AfterInstall(s5.auth, Context(next)), facts := s5.facts + {GateReady(next)});
    HandOutGoes(s6, next);
    var s7 := s6.(life := s6.life[second := Handed]);
    var retiredThen := [ForeignCommit(other, L.Adopt(claim, host)), ForeignCommit(other, L.Retire(adopted)),
                        ReadForRefresh(claim), InvalidateStale(claim)];
    FourSteps(s0, s1, s2, s3, s4, retiredThen);
    var reservedThen := [ReserveBirth(key, runtime, second, Some(retired)), RegisterNew(next), HandOut(next)];
    ThreeSteps(s4, s5, s6, s7, reservedThen);
    RunAppends(Start(owner, key), lived, retiredThen);
    RunAppends(Start(owner, key), lived + retiredThen, reservedThen);
    schedule := lived + retiredThen + reservedThen;
  }

  // ---------------------------------------------------------------------------------------------
  // The order of the exit barrier's reads

  lemma AcceptGoes(s: State, claim: Claim)
    requires A.WellIndexed(s.auth) && !s.admissionClosed && claim.owner == Some(s.owner) && Permitted(s, claim)
    ensures Goes(s, AcceptFactory(claim), s.(factories := s.factories + {BirthOf(claim)}, facts := s.facts + {Accepted(BirthOf(claim))}))
  {}

  lemma CloseGoes(s: State)
    requires A.WellIndexed(s.auth)
    ensures Goes(s, CloseAdmission, s.(admissionClosed := true))
  {}

  lemma ObserveGoes(s: State, birth: Birth)
    requires A.WellIndexed(s.auth)
    ensures Goes(s, Observe(birth), s.(observed := s.observed + {birth}, facts := s.facts + {Observed(birth)}))
    ensures Observed(birth) in s.facts ==> Goes(s, DropFactory(birth), s.(factories := s.factories - {birth}))
  {}

  /** Reading the handles first and the pending factories afterwards can find both empty, with nothing
      registered, queued or closing, while an accepted birth is not retired. */
  lemma ScanOrderMatters(owner: Uuid, key: LeafKey, runtime: Uuid, generation: Uuid)
    returns (before: seq<Action>, between: seq<Action>)
    ensures Invariant(Start(owner, key)) && Start(owner, key).remote == {}
    ensures var handlesRead := Run(Start(owner, key), before);
            var factoriesRead := Run(handlesRead, between);
            var birth := Birth(runtime, Some(generation));
            && handlesRead.admissionClosed && handlesRead.observed == {}
            && factoriesRead.factories == {} && factoriesRead.claims == map[]
            && factoriesRead.closing == map[] && factoriesRead.queued == map[]
            && Accepted(birth) in factoriesRead.facts && !RetiredInLedger(factoriesRead, birth)
  {
    hide Goes, Run, Path, Invariant, OneGate, A.WellIndexed;
    StartIsSafe(owner, key);
    var claim := Reserved(owner, key, runtime, generation, 1);
    var birth := BirthOf(claim);
    var lived, s0 := FirstBirth(owner, key, runtime, generation);
    FirstGate(claim);
    AcceptGoes(s0, claim);
    var s1 := s0.(factories := {birth}, facts := s0.facts + {Accepted(birth)});
    assert s0.factories + {birth} == {birth};
    CloseGoes(s1);
    var s2 := s1.(admissionClosed := true);
    ObserveGoes(s2, birth);
    var s3 := s2.(observed := s2.observed + {birth}, facts := s2.facts + {Observed(birth)});
    ObserveGoes(s3, birth);
    var s4 := s3.(factories := s3.factories - {birth});
    TwoSteps(s0, s1, s2, [AcceptFactory(claim), CloseAdmission]);
    TwoSteps(s2, s3, s4, [Observe(birth), DropFactory(birth)]);
    RunAppends(Start(owner, key), lived, [AcceptFactory(claim), CloseAdmission]);
    before, between := lived + [AcceptFactory(claim), CloseAdmission], [Observe(birth), DropFactory(birth)];
  }
}
