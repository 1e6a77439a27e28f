/** The durable ledger of managed births, reduced to its compare-and-swap transitions. */
module Ledger {
  import opened Identity

  const I64_MAX: int := 0x7FFF_FFFF_FFFF_FFFF
  const MAX_GENERATIONS: nat := 1_000_000

  /** The row of one birth, never deleted: who reserved it and at which epoch of its leaf, whether
      its spawn permit was consumed, and whether it is authorized, active or retired. */
  datatype BirthRow = BirthRow(key: LeafKey, runtime: Uuid, owner: Uuid, born: int, consumed: bool, phase: Phase)

  datatype Books = Books(claims: map<LeafKey, Claim>, births: map<Uuid, BirthRow>)

  datatype Intent =
    | Reserve(expected: Option<Claim>, key: LeafKey, runtime: Uuid, generation: Uuid)
    | Install(claim: Claim, host: HostEvidence)
    | FenceRetire(claim: Claim)
    | Retire(claim: Claim)
    | Release(claim: Claim)
    | Adopt(claim: Claim, host: HostEvidence)

  function Current(books: Books, key: LeafKey): Option<Claim> {
    if key in books.claims then Some(books.claims[key]) else None
  }

  /** The row of a managed claim still names it and is not retired. */
  predicate Live(books: Books, claim: Claim, consumed: bool) {
    && claim.generation.Some? && claim.generation.value in books.births
    && var row := books.births[claim.generation.value];
       row.key == claim.key && row.runtime == claim.runtime && !row.phase.Retired? && (consumed ==> row.consumed)
  }

  function Update(books: Books, claim: Claim): Books {
    books.(claims := books.claims[claim.key := claim])
  }

  /** The row of a birth enters another phase together with its claim. */
  function Moved(books: Books, claim: Claim, phase: Phase): Books
    requires claim.generation.Some? && claim.generation.value in books.births
  {
    var row := books.births[claim.generation.value].(phase := phase);
    Update(books.(births := books.births[claim.generation.value := row]), claim)
  }

  /** One transaction of `actor`; None when any of its checks fails, and then nothing changed. */
  function Commit(books: Books, actor: Uuid, intent: Intent): Option<(Books, Claim)> {
    match intent
    case Reserve(expected, key, runtime, generation) =>
      if Current(books, key) != expected then None
      else if expected.Some? && (!expected.value.phase.Retired? || expected.value.epoch >= I64_MAX) then None
      else if generation in books.births || |books.births| >= MAX_GENERATIONS then None
      else
        var epoch := if expected.Some? then expected.value.epoch + 1 else 1;
        var claim := Claim(key, runtime, Some(generation), epoch, Some(actor), AuthorizedBirth, true);
        var row := BirthRow(key, runtime, actor, epoch, false, AuthorizedBirth);
        Some((Update(books.(births := books.births[generation := row]), claim), claim))
    case Install(claim, host) =>
      if claim.owner != Some(actor) || Current(books, claim.key) != Some(claim) then None
      else if !claim.phase.AuthorizedBirth? || !Proves(host, claim) || !Live(books, claim, true) then None
      else
        var next := claim.(phase := Active);
        var row := books.births[claim.generation.value];
        Some((Moved(books, next, if row.phase.AuthorizedBirth? then Active else row.phase), next))
    case FenceRetire(claim) =>
      if claim.owner != Some(actor) || Current(books, claim.key) != Some(claim) then None
      else if !Admissible(claim.phase) || claim.epoch >= I64_MAX then None
      else
        var next := claim.(epoch := claim.epoch + 1, phase := Retiring, requireBinding := true);
        Some((Update(books, next), next))
    case Retire(claim) =>
      if claim.owner != Some(actor) || Current(books, claim.key) != Some(claim) then None
      else if claim.phase.Retired? || claim.epoch >= I64_MAX then None
      else
        var next := claim.(epoch := claim.epoch + 1, phase := Retired, requireBinding := true);
        if claim.generation.None? then Some((Update(books, next), next))
        else if claim.generation.value !in books.births || books.births[claim.generation.value].phase.Retired? then None
        else Some((Moved(books, next, Retired), next))
    case Release(claim) =>
      if claim.owner != Some(actor) || Current(books, claim.key) != Some(claim) then None
      else if !claim.phase.Active? || claim.epoch >= I64_MAX then None
      else
        var next := claim.(epoch := claim.epoch + 1, owner := None, phase := Detached);
        Some((Update(books, next), next))
    case Adopt(claim, host) =>
      if Current(books, claim.key) != Some(claim) then None
      else if !(Admissible(claim.phase) || claim.phase.Detached?) || !Proves(host, claim) then None
      else if !Live(books, claim, true) || claim.epoch >= I64_MAX then None
      else
        var next := claim.(epoch := claim.epoch + 1, owner := Some(actor), phase := Active);
        Some((Moved(books, next, Active), next))
  }

  /** The one-shot consumption of a birth, by the claim it was reserved with. */
  function Consume(books: Books, claim: Claim): Option<Books> {
    if Current(books, claim.key) != Some(claim) || !claim.phase.AuthorizedBirth? || claim.owner.None? then None
    else if !Live(books, claim, false) then None
    else
      var generation := claim.generation.value;
      var row := books.births[generation];
      if !row.phase.AuthorizedBirth? || row.consumed || row.runtime != claim.runtime
         || Some(row.owner) != claim.owner || row.born != claim.epoch
      then None
      else Some(books.(births := books.births[generation := row.(consumed := true)]))
  }

  /** The check made inside the transaction that runs the factory. */
  predicate MaySpawn(books: Books, claim: Claim) {
    Current(books, claim.key) == Some(claim) && claim.phase.AuthorizedBirth? && Live(books, claim, true)
  }

  // ---------------------------------------------------------------------------------------------

  /** An unretired row is the current birth of its leaf; while its permit is not consumed, only the
      endpoint that reserved it has ever moved it. */
  ghost predicate RowOk(books: Books, generation: Uuid)
    requires generation in books.births
  {
    var row := books.births[generation];
    && row.key in books.claims
    && var claim := books.claims[row.key];
       && row.born <= claim.epoch
       && (!row.phase.Retired? ==>
             && claim.generation == Some(generation) && claim.runtime == row.runtime && !claim.phase.Retired?
             && (!row.consumed ==> claim.owner == Some(row.owner) && (claim.phase.AuthorizedBirth? || claim.phase.Retiring?)))
  }

  /** A managed claim names the latest birth of its leaf, and is active or retired only together with it. */
  ghost predicate ClaimOk(books: Books, key: LeafKey)
    requires key in books.claims
  {
    var claim := books.claims[key];
    && claim.key == key
    && (claim.generation.Some? ==>
          && claim.generation.value in books.births
          && var row := books.births[claim.generation.value];
             && row.key == key && row.runtime == claim.runtime
             && (claim.phase.Retired? <==> row.phase.Retired?)
             && (claim.phase.Active? || claim.phase.Detached? ==> row.phase.Active?)
             && (claim.phase.AuthorizedBirth? ==>
                   claim.owner == Some(row.owner) && claim.epoch == row.born && row.phase.AuthorizedBirth?)
             && Latest(books, key, claim.generation.value))
  }

  ghost predicate Latest(books: Books, key: LeafKey, generation: Uuid)
    requires generation in books.births
  {
    forall g | g in books.births && books.births[g].key == key && g != generation ::
      books.births[g].born < books.births[generation].born
  }

  ghost predicate Consistent(books: Books) {
    && (forall generation | generation in books.births :: RowOk(books, generation))
    && (forall key | key in books.claims :: ClaimOk(books, key))
  }

  predicate RowExtends(row: BirthRow, row': BirthRow) {
    && row'.key == row.key && row'.runtime == row.runtime && row'.owner == row.owner && row'.born == row.born
    && (row.phase.Retired? ==> row'.phase.Retired?) && (row.consumed ==> row'.consumed)
  }

  /** What survives any transition: rows keep their identity, retired and consumed rows stay so, the
      epoch of a leaf never falls, and a new birth is born above every epoch its leaf has had. */
  ghost predicate Extends(books: Books, books': Books) {
    && (forall g | g in books.births :: g in books'.births && RowExtends(books.births[g], books'.births[g]))
    && (forall key | key in books.claims :: key in books'.claims && books.claims[key].epoch <= books'.claims[key].epoch)
    && (forall g | g in books'.births && g !in books.births :: BornAbove(books, books'.births[g]))
  }

  predicate BornAbove(books: Books, row: BirthRow) {
    row.key in books.claims ==> books.claims[row.key].epoch < row.born
  }

  lemma NothingChanges(books: Books)
    ensures Extends(books, books)
  {}

  lemma ExtendsTransitive(a: Books, b: Books, c: Books)
    requires Extends(a, b) && Extends(b, c)
    ensures Extends(a, c)
  {}

  lemma ReserveKeeps(books: Books, actor: Uuid, intent: Intent)
    requires Consistent(books) && intent.Reserve? && Commit(books, actor, intent).Some?
    ensures var (books', claim) := Commit(books, actor, intent).value;
            Consistent(books') && Extends(books, books')
  {
    var (books', claim) := Commit(books, actor, intent).value;
    forall g | g in books'.births
      ensures RowOk(books', g)
    {
      if g != intent.generation { assert RowOk(books, g); }
    }
    forall key | key in books'.claims
      ensures ClaimOk(books', key)
    {
      if key != intent.key { assert ClaimOk(books, key); }
      else if key in books.claims { assert ClaimOk(books, key); }
    }
  }

  /** What a reservation does to the rows: it adds one. */
  lemma ReserveAdds(books: Books, actor: Uuid, intent: Intent)
    requires intent.Reserve? && Commit(books, actor, intent).Some?
    ensures intent.generation !in books.births
    ensures var births := Commit(books, actor, intent).value.0.births;
            && intent.generation in births && births == books.births[intent.generation := births[intent.generation]]
            && var row := births[intent.generation];
               && row.key == intent.key && row.runtime == intent.runtime && row.owner == actor
               && !row.consumed && row.phase.AuthorizedBirth?
  {}

  /** What any other transition does: it moves the current claim of one leaf, and at most the phase
      of the row this claim names. */
  ghost predicate Moves(books: Books, claim: Claim, books': Books, next: Claim) {
    && Current(books, claim.key) == Some(claim) && books'.claims == books.claims[claim.key := next]
    && next.key == claim.key && next.runtime == claim.runtime && next.generation == claim.generation
    && claim.epoch <= next.epoch && !next.phase.AuthorizedBirth?
    && (claim.generation.None? ==> books'.births == books.births)
    && (claim.generation.Some? ==>
          && claim.generation.value in books.births && claim.generation.value in books'.births
          && var row, row' := books.births[claim.generation.value], books'.births[claim.generation.value];
             && books'.births == books.births[claim.generation.value := row']
             && row' == row.(phase := row'.phase)
             && (row.phase.Retired? ==> row'.phase.Retired?) && (next.phase.Retired? <==> row'.phase.Retired?)
             && (next.phase.Active? || next.phase.Detached? ==> row'.phase.Active?)
             && (!row.consumed && !row'.phase.Retired? ==> next.owner == Some(row.owner) && next.phase.Retiring?))
  }

  lemma CommitMoves(books: Books, actor: Uuid, intent: Intent)
    requires Consistent(books) && !intent.Reserve? && Commit(books, actor, intent).Some?
    ensures var (books', next) := Commit(books, actor, intent).value; Moves(books, intent.claim, books', next)
  {
    var claim := intent.claim;
    assert ClaimOk(books, claim.key);
    if claim.generation.Some? {
      assert RowOk(books, claim.generation.value);
      assert books.births == books.births[claim.generation.value := books.births[claim.generation.value]];
    }
  }

  lemma OnlyRetireRetires(books: Books, actor: Uuid, intent: Intent)
    requires Commit(books, actor, intent).Some? && Commit(books, actor, intent).value.1.phase.Retired?
    ensures intent.Retire?
  {}

  lemma MoveKeepsRow(books: Books, claim: Claim, books': Books, next: Claim, generation: Uuid)
    requires Consistent(books) && Moves(books, claim, books', next) && generation in books.births
    ensures generation in books'.births && RowOk(books', generation)
    ensures RowExtends(books.births[generation], books'.births[generation])
  {
    assert ClaimOk(books, claim.key) && RowOk(books, generation);
  }

  lemma MoveKeepsClaim(books: Books, claim: Claim, books': Books, next: Claim, key: LeafKey)
    requires Consistent(books) && Moves(books, claim, books', next) && key in books.claims
    ensures key in books'.claims && ClaimOk(books', key)
    ensures books.claims[key].epoch <= books'.claims[key].epoch
  {
    assert ClaimOk(books, claim.key) && ClaimOk(books, key);
  }

  lemma MoveKeeps(books: Books, claim: Claim, books': Books, next: Claim)
    requires Consistent(books) && Moves(books, claim, books', next)
    ensures Consistent(books') && Extends(books, books')
  {
    assert books'.births.Keys == books.births.Keys && books'.claims.Keys == books.claims.Keys;
    hide RowOk, ClaimOk, RowExtends, Moves;
    forall g | g in books.births
      ensures RowOk(books', g) && RowExtends(books.births[g], books'.births[g])
    {
      MoveKeepsRow(books, claim, books', next, g);
    }
    forall key | key in books.claims
      ensures ClaimOk(books', key) && books.claims[key].epoch <= books'.claims[key].epoch
    {
      MoveKeepsClaim(books, claim, books', next, key);
    }
  }

  /** Every transition keeps the books consistent and only extends them. */
  lemma CommitKeeps(books: Books, actor: Uuid, intent: Intent)
    requires Consistent(books) && Commit(books, actor, intent).Some?
    ensures var (books', claim) := Commit(books, actor, intent).value;
            Consistent(books') && Extends(books, books')
  {
    hide *;
    if intent.Reserve? {
      ReserveKeeps(books, actor, intent);
    } else {
      var (books', next) := Commit(books, actor, intent).value;
      CommitMoves(books, actor, intent);
      MoveKeeps(books, intent.claim, books', next);
    }
  }

  lemma ConsumeKeeps(books: Books, claim: Claim)
    requires Consistent(books) && Consume(books, claim).Some?
    ensures Consistent(Consume(books, claim).value) && Extends(books, Consume(books, claim).value)
  {
    var books' := Consume(books, claim).value;
    forall g | g in books'.births
      ensures RowOk(books', g)
    {
      assert RowOk(books, g);
    }
    forall key | key in books'.claims
      ensures ClaimOk(books', key)
    {
      assert ClaimOk(books, key);
    }
  }

  /** The current claim of an authorized birth can be consumed exactly once: the owner, epoch and
      runtime that the consumption compares can never differ from those of the row. */
  lemma ConsumesExactlyOnce(books: Books, claim: Claim)
    requires Consistent(books) && Current(books, claim.key) == Some(claim)
    requires claim.phase.AuthorizedBirth? && claim.generation.Some?
    ensures Consume(books, claim).Some? <==> !books.births[claim.generation.value].consumed
    ensures Consume(books, claim).Some? ==> Consume(Consume(books, claim).value, claim).None?
  {
    assert ClaimOk(books, claim.key);
  }

  /** A leaf has at most one unretired birth, and a reservation finds none. */
  lemma OneLiveBirthPerLeaf(books: Books, a: Uuid, b: Uuid)
    requires Consistent(books)
    requires a in books.births && !books.births[a].phase.Retired?
    requires b in books.births && !books.births[b].phase.Retired?
    requires books.births[a].key == books.births[b].key
    ensures a == b
  {
    assert RowOk(books, a) && RowOk(books, b);
  }

  lemma ReserveFindsNoLiveBirth(books: Books, actor: Uuid, intent: Intent, generation: Uuid)
    requires Consistent(books) && intent.Reserve? && Commit(books, actor, intent).Some?
    requires generation in books.births && books.births[generation].key == intent.key
    ensures books.births[generation].phase.Retired?
  {
    assert RowOk(books, generation);
  }

  /** Until its permit is consumed, no other endpoint can move a birth. */
  lemma OthersLeaveUnconsumed(books: Books, actor: Uuid, intent: Intent, generation: Uuid)
    requires Consistent(books) && Commit(books, actor, intent).Some?
    requires generation in books.births && !books.births[generation].phase.Retired?
    requires !books.births[generation].consumed && books.births[generation].owner != actor
    ensures generation in Commit(books, actor, intent).value.0.births
    ensures Commit(books, actor, intent).value.0.births[generation] == books.births[generation]
  {
    assert RowOk(books, generation);
    if !intent.Reserve? { assert ClaimOk(books, intent.claim.key); }
  }

  // ---------------------------------------------------------------------------------------------

  /** The claim was the current claim of its leaf at some time: its epoch lies between the birth it
      names and the next birth of the leaf. */
  ghost predicate Dated(books: Books, claim: Claim) {
    && claim.generation.Some? && claim.generation.value in books.births
    && var row := books.births[claim.generation.value];
       && row.key == claim.key && row.runtime == claim.runtime && row.born <= claim.epoch
       && claim.key in books.claims && claim.epoch <= books.claims[claim.key].epoch
       && forall g | g in books.births && books.births[g].key == claim.key && row.born < books.births[g].born ::
            claim.epoch < books.births[g].born
  }

  lemma CurrentIsDated(books: Books, claim: Claim)
    requires Consistent(books) && Current(books, claim.key) == Some(claim) && claim.generation.Some?
    ensures Dated(books, claim)
  {
    assert ClaimOk(books, claim.key) && RowOk(books, claim.generation.value);
  }

  lemma StaysDated(books: Books, books': Books, claim: Claim)
    requires Dated(books, claim) && Extends(books, books')
    ensures Dated(books', claim)
  {}

  /** The claim a transition leaves behind is the current one of its leaf. */
  lemma CommittedIsCurrent(books: Books, actor: Uuid, intent: Intent)
    requires Consistent(books) && Commit(books, actor, intent).Some?
    ensures var (books', claim) := Commit(books, actor, intent).value;
            Current(books', claim.key) == Some(claim)
            && (intent.Reserve? ==> claim.key == intent.key)
            && (!intent.Reserve? ==> claim.key == intent.claim.key && claim.runtime == intent.claim.runtime
                                     && claim.generation == intent.claim.generation)
  {}

  // ---------------------------------------------------------------------------------------------
  // What each transition does to the current claim of a leaf

  /** The claim of one leaf and the row it names become these; nothing else changes. */
  predicate Becomes(books: Books, outcome: Option<(Books, Claim)>, next: Claim, row: BirthRow)
    requires next.generation.Some?
  {
    outcome == Some((Books(books.claims[next.key := next], books.births[next.generation.value := row]), next))
  }

  predicate OnlyClaim(books: Books, outcome: Option<(Books, Claim)>, next: Claim) {
    outcome == Some((Books(books.claims[next.key := next], books.births), next))
  }

  lemma SameRow(books: Books, generation: Uuid)
    requires generation in books.births
    ensures books.births[generation := books.births[generation]] == books.births
  {}

  /** The owner installs its authorized birth once its permit is consumed and the host proves it: the claim
      becomes active within its epoch, and so does its row. */
  lemma InstallsExactly(books: Books, actor: Uuid, claim: Claim, host: HostEvidence)
    requires Consistent(books) && Current(books, claim.key) == Some(claim) && claim.generation.Some?
    ensures claim.generation.value in books.births
    ensures var row, outcome := books.births[claim.generation.value], Commit(books, actor, Install(claim, host));
            && (outcome.Some? <==>
                  claim.owner == Some(actor) && claim.phase.AuthorizedBirth? && Proves(host, claim) && row.consumed)
            && (outcome.Some? ==> Becomes(books, outcome, claim.(phase := Active), row.(phase := Active)))
  {
    assert ClaimOk(books, claim.key) && RowOk(books, claim.generation.value);
  }

  /** Any endpoint whose host proves a birth that is authorized, active or detached adopts it: at the next
      epoch it owns the active claim. */
  lemma AdoptsExactly(books: Books, actor: Uuid, claim: Claim, host: HostEvidence)
    requires Consistent(books) && Current(books, claim.key) == Some(claim) && claim.generation.Some?
    ensures claim.generation.value in books.births
    ensures var row, outcome := books.births[claim.generation.value], Commit(books, actor, Adopt(claim, host));
            && (outcome.Some? <==>
                  && claim.phase in {AuthorizedBirth, Active, Detached}
                  && Proves(host, claim) && row.consumed && claim.epoch < I64_MAX)
            && (outcome.Some? ==>
                  Becomes(books, outcome, claim.(epoch := claim.epoch + 1, owner := Some(actor), phase := Active),
                          row.(phase := Active)))
  {
    assert ClaimOk(books, claim.key) && RowOk(books, claim.generation.value);
  }

  /** The owner fences, retires or releases its claim at the next epoch. The fence and the release leave the
      row as it is; the retirement retires it. */
  lemma ClosesExactly(books: Books, actor: Uuid, claim: Claim)
    requires Consistent(books) && Current(books, claim.key) == Some(claim) && claim.generation.Some?
    ensures claim.generation.value in books.births
    ensures var row, next := books.births[claim.generation.value], claim.(epoch := claim.epoch + 1);
            var fence, retire, release :=
              Commit(books, actor, FenceRetire(claim)), Commit(books, actor, Retire(claim)), Commit(books, actor, Release(claim));
            var mayMove := claim.owner == Some(actor) && claim.epoch < I64_MAX;
            && (fence.Some? <==> mayMove && claim.phase in {AuthorizedBirth, Active})
            && (retire.Some? <==> mayMove && !claim.phase.Retired?)
            && (release.Some? <==> mayMove && claim.phase.Active?)
            && (fence.Some? ==> Becomes(books, fence, next.(phase := Retiring, requireBinding := true), row))
            && (retire.Some? ==> Becomes(books, retire, next.(phase := Retired, requireBinding := true), row.(phase := Retired)))
            && (release.Some? ==> Becomes(books, release, next.(phase := Detached, owner := None), row))
  {
    assert ClaimOk(books, claim.key) && RowOk(books, claim.generation.value);
    SameRow(books, claim.generation.value);
  }

  /** The durable fence, for any current claim. */
  lemma FencesExactly(books: Books, actor: Uuid, claim: Claim)
    requires Current(books, claim.key) == Some(claim)
    ensures var outcome := Commit(books, actor, FenceRetire(claim));
            && (outcome.Some? <==>
                  claim.owner == Some(actor) && claim.phase in {AuthorizedBirth, Active} && claim.epoch < I64_MAX)
            && (outcome.Some? ==>
                  OnlyClaim(books, outcome, claim.(epoch := claim.epoch + 1, phase := Retiring, requireBinding := true)))
  {}

  /** A claim without a birth can be fenced, retired and released like any other; no host can prove it. */
  lemma ClosesUnbound(books: Books, actor: Uuid, claim: Claim, host: HostEvidence)
    requires Current(books, claim.key) == Some(claim) && claim.generation.None?
    ensures var next := claim.(epoch := claim.epoch + 1);
            var fence, retire, release :=
              Commit(books, actor, FenceRetire(claim)), Commit(books, actor, Retire(claim)), Commit(books, actor, Release(claim));
            var mayMove := claim.owner == Some(actor) && claim.epoch < I64_MAX;
            && (fence.Some? <==> mayMove && claim.phase in {AuthorizedBirth, Active})
            && (retire.Some? <==> mayMove && !claim.phase.Retired?)
            && (release.Some? <==> mayMove && claim.phase.Active?)
            && (fence.Some? ==> OnlyClaim(books, fence, next.(phase := Retiring, requireBinding := true)))
            && (retire.Some? ==> OnlyClaim(books, retire, next.(phase := Retired, requireBinding := true)))
            && (release.Some? ==> OnlyClaim(books, release, next.(phase := Detached, owner := None)))
            && Commit(books, actor, Install(claim, host)).None? && Commit(books, actor, Adopt(claim, host)).None?
  {}

  /** A compare-and-swap against anything but the current claim fails. */
  lemma StaleIsRefused(books: Books, actor: Uuid, intent: Intent)
    requires if intent.Reserve? then Current(books, intent.key) != intent.expected
             else Current(books, intent.claim.key) != Some(intent.claim)
    ensures Commit(books, actor, intent).None?
  {}

  /** A birth is reserved with an unused id over no claim or a retired one, while there is room; it is the
      first of its leaf or follows the epoch of the one before. */
  lemma ReservesExactly(books: Books, actor: Uuid, key: LeafKey, runtime: Uuid, generation: Uuid)
    requires Consistent(books)
    ensures var prior := Current(books, key);
            var outcome := Commit(books, actor, Reserve(prior, key, runtime, generation));
            && (outcome.Some? <==>
                  && generation !in books.births && |books.births| < MAX_GENERATIONS
                  && (prior.Some? ==> prior.value.phase.Retired? && prior.value.epoch < I64_MAX))
            && (outcome.Some? ==>
                  var epoch := if prior.Some? then prior.value.epoch + 1 else 1;
                  Becomes(books, outcome, Claim(key, runtime, Some(generation), epoch, Some(actor), AuthorizedBirth, true),
                          BirthRow(key, runtime, actor, epoch, false, AuthorizedBirth)))
  {}

  /** The factory may run exactly when the permit of the current authorized claim was consumed. */
  lemma SpawnsExactly(books: Books, claim: Claim)
    requires Consistent(books) && claim.generation.Some?
    ensures MaySpawn(books, claim)
            <==> && Current(books, claim.key) == Some(claim) && claim.phase.AuthorizedBirth?
                 && claim.generation.value in books.births && books.births[claim.generation.value].consumed
  {
    if Current(books, claim.key) == Some(claim) { assert ClaimOk(books, claim.key); }
  }

  /** Consuming the permit marks the row and leaves everything else. */
  lemma ConsumesOnly(books: Books, claim: Claim)
    requires Consume(books, claim).Some?
    ensures claim.generation.Some? && claim.generation.value in books.births
    ensures var row := books.births[claim.generation.value];
            Consume(books, claim).value == Books(books.claims, books.births[claim.generation.value := row.(consumed := true)])
  {}

  /** While one birth of a leaf is unretired, every other birth of the leaf is retired and older. */
  lemma OnlyTheLatestLives(books: Books, generation: Uuid, other: Uuid)
    requires Consistent(books)
    requires generation in books.births && !books.births[generation].phase.Retired?
    requires other in books.births && books.births[other].key == books.births[generation].key && other != generation
    ensures books.births[other].phase.Retired? && books.births[other].born < books.births[generation].born
  {
    assert RowOk(books, generation) && RowOk(books, other);
    assert ClaimOk(books, books.births[generation].key);
  }
}
