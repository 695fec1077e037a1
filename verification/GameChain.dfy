/** The fault-proof proposer (op-succinct/fault-proof/src/proposer.rs): its task map, the transactions it
    has sent, and the games they create, among invalid games that others create at any moment. */
module GameChain {
  import opened Requests
  import opened GameWindows

  datatype Config = Config(
    anchor: nat,               // the L2 block of the anchor game
    interval: nat,             // proposal_interval_in_blocks
    rootAt: nat -> nat,        // the true output root after a block
    maxGamesToDefend: nat,
    fastFinality: bool)

  /** A creation transaction. It may land long after its task, or its process, is gone. */
  datatype Fate = Pending | Landed(game: nat) | Refused

  datatype Transaction = Transaction(block: nat, parent: nat, fate: Fate)

  /** A creation task decides what to propose, then waits for the receipt of its transaction. */
  datatype Phase = Deciding | Waiting(tx: nat)

  datatype Work =
    | GameCreation(phase: Phase)
    | GameProving(game: nat, start: nat, end: nat)
    | GameResolution
    | BondClaim

  datatype Task = Task(work: Work, finished: bool)

  datatype State = State(games: seq<Game>, txs: seq<Transaction>, tasks: map<nat, Task>, nextTaskId: nat)

  datatype Event =
    // the environment: somebody else's game, a change of a game's status, a transaction that is mined
    | OtherGame(game: Game)
    | GameChanges(index: nat, status: ProposalStatus, inProgress: bool, deadline: nat)
    | Mined(tx: nat, deadline: nat)
    // tasks: one ends, one decides and sends, one gets its receipt
    | TaskEnds(id: nat)
    | Decide(id: nat, finalized: Option<nat>)
    | Receipt(id: nat)
    // the loop
    | ReapFinished
    | SpawnCreation(finalized: Option<nat>)
    | SpawnDefense(now: Option<nat>)   // None when the scan fails
    | SpawnResolution
    | SpawnBondClaim(claimable: bool)
    | Restart

  // ---------------------------------------------------------------- what to propose

  /** Block number and parent index of the next proposal. */
  function NextProposal(c: Config, games: seq<Game>): (nat, nat) {
    match LatestValid(c.rootAt, games)
    case Some(k) => (games[k].block + c.interval, k)
    case None => (c.anchor + c.interval, NO_PARENT)
  }

  /** A new game is due when the next block lies strictly below the finalized one. */
  predicate Due(c: Config, games: seq<Game>, finalized: Option<nat>) {
    finalized.Some? && finalized.value > NextProposal(c, games).0
  }

  // ---------------------------------------------------------------- tasks

  predicate SameKind(a: Work, b: Work) {
    || (a.GameCreation? && b.GameCreation?)
    || (a.GameResolution? && b.GameResolution?)
    || (a.BondClaim? && b.BondClaim?)
  }

  /** `has_active_task_of_type`: a finished task counts until it is reaped. */
  predicate HasActive(s: State, w: Work) { exists id :: id in s.tasks && SameKind(s.tasks[id].work, w) }

  predicate Proves(w: Work, game: nat) { w.GameProving? && w.game == game }

  /** `has_active_proving_for_game`. */
  predicate ProvingActive(s: State, game: nat) { exists id :: id in s.tasks && Proves(s.tasks[id].work, game) }

  function Spawn(s: State, w: Work): State {
    s.(tasks := s.tasks[s.nextTaskId := Task(w, false)], nextTaskId := s.nextTaskId + 1)
  }

  function IsChallenged(): ProposalStatus -> bool { status => status == Challenged }

  function ClaimHolds(c: Config): Game -> bool { g => Valid(c.rootAt, g) }

  function Defensible(c: Config, games: seq<Game>, now: nat): nat -> bool {
    Passing(games, now, IsChallenged(), ClaimHolds(c))
  }

  /** `get_oldest_defensible_game_address`. */
  function OldestDefensible(c: Config, games: seq<Game>, now: nat): Option<nat> {
    FirstIn(Defensible(c, games, now), SaturatingSub(|games|, c.maxGamesToDefend + 1), |games|)
  }

  /** The start block is an unsigned difference: for a block below the interval no task is spawned. */
  predicate Provable(c: Config, s: State, game: nat) {
    game < |s.games| && s.games[game].block >= c.interval
  }

  /** `spawn_game_proving_task`, which does not look for a task that already proves the game. */
  function SpawnProving(c: Config, s: State, game: nat): State {
    if Provable(c, s, game)
    then Spawn(s, GameProving(game, s.games[game].block - c.interval, s.games[game].block))
    else s
  }

  predicate Running(s: State, id: nat, w: Work) { id in s.tasks && s.tasks[id] == Task(w, false) }

  function SetTask(s: State, id: nat, t: Task): State { s.(tasks := s.tasks[id := t]) }

  /** `handle_game_creation`, up to the transaction that `create_game` sends. An index that does not fit
      32 bits is a panic. */
  function DecideStep(c: Config, s: State, id: nat, finalized: Option<nat>): State {
    var (block, parent) := NextProposal(c, s.games);
    if Due(c, s.games, finalized) && parent <= NO_PARENT
    then
      var sent := s.(txs := s.txs + [Transaction(block, parent, Pending)]);
      SetTask(sent, id, Task(GameCreation(Waiting(|s.txs|)), false))
    else SetTask(s, id, Task(GameCreation(Deciding), true))
  }

  /** The factory has a game with this claim, block and parent, and refuses another one. */
  predicate Exists(c: Config, games: seq<Game>, block: nat, parent: nat) {
    exists i :: 0 <= i < |games| && games[i].block == block && games[i].parent == parent && Valid(c.rootAt, games[i])
  }

  function NewGame(c: Config, block: nat, parent: nat, deadline: nat): Game {
    Game(block, c.rootAt(block), parent, Unchallenged, true, deadline)
  }

  function MineStep(c: Config, s: State, k: nat, deadline: nat): State
    requires k < |s.txs|
  {
    var tx := s.txs[k];
    if Exists(c, s.games, tx.block, tx.parent) then s.(txs := s.txs[k := tx.(fate := Refused)])
    else s.(txs := s.txs[k := tx.(fate := Landed(|s.games|))],
            games := s.games + [NewGame(c, tx.block, tx.parent, deadline)])
  }

  /** The task waits for a transaction that has been mined. */
  predicate HasReceipt(s: State, id: nat) {
    && id in s.tasks && !s.tasks[id].finished
    && s.tasks[id].work.GameCreation? && s.tasks[id].work.phase.Waiting?
    && s.tasks[id].work.phase.tx < |s.txs| && s.txs[s.tasks[id].work.phase.tx].fate != Pending
  }

  function FateOf(s: State, id: nat): Fate
    requires HasReceipt(s, id)
  {
    s.txs[s.tasks[id].work.phase.tx].fate
  }

  function Ended(s: State, id: nat): State
    requires id in s.tasks
  {
    SetTask(s, id, s.tasks[id].(finished := true))
  }

  /** The rest of `create_game`: in fast finality mode the proof of the new game is started. */
  function ReceiptStep(c: Config, s: State, id: nat): State
    requires HasReceipt(s, id)
  {
    match FateOf(s, id)
    case Landed(game) => if c.fastFinality then SpawnProving(c, Ended(s, id), game) else Ended(s, id)
    case _ => Ended(s, id)
  }

  function Reaped(tasks: map<nat, Task>): map<nat, Task> {
    map id | id in tasks && !tasks[id].finished :: tasks[id]
  }

  function Apply(c: Config, s: State, e: Event): State {
    match e
    case OtherGame(game) => if Valid(c.rootAt, game) then s else s.(games := s.games + [game])
    case GameChanges(i, status, inProgress, deadline) =>
      if i < |s.games|
      then s.(games := s.games[i := s.games[i].(status := status, inProgress := inProgress, deadline := deadline)])
      else s
    case Mined(k, deadline) => if k < |s.txs| && s.txs[k].fate == Pending then MineStep(c, s, k, deadline) else s
    case TaskEnds(id) => if id in s.tasks then Ended(s, id) else s
    case Decide(id, finalized) => if Running(s, id, GameCreation(Deciding)) then DecideStep(c, s, id, finalized) else s
    case Receipt(id) => if HasReceipt(s, id) then ReceiptStep(c, s, id) else s
    case ReapFinished => s.(tasks := Reaped(s.tasks))
    case SpawnCreation(finalized) =>
      if !HasActive(s, GameCreation(Deciding)) && Due(c, s.games, finalized)
      then Spawn(s, GameCreation(Deciding)) else s
    case SpawnDefense(None) => s
    case SpawnDefense(Some(now)) =>
      (match OldestDefensible(c, s.games, now)
       case None => s
       case Some(game) => if ProvingActive(s, game) then s else SpawnProving(c, s, game))
    case SpawnResolution => if HasActive(s, GameResolution) then s else Spawn(s, GameResolution)
    case SpawnBondClaim(claimable) => if HasActive(s, BondClaim) || !claimable then s else Spawn(s, BondClaim)
    case Restart => s.(tasks := map[], nextTaskId := 1)
  }

  function ApplyAll(c: Config, s: State, es: seq<Event>): State
    decreases |es|
  {
    if es == [] then s else ApplyAll(c, Apply(c, s, es[0]), es[1..])
  }

  // ---------------------------------------------------------------- the invariant

  /** Game `i`, if valid, extends the latest valid game before it. */
  ghost predicate Extends(c: Config, games: seq<Game>, i: nat)
    requires i < |games|
  {
    Valid(c.rootAt, games[i]) ==> (games[i].block, games[i].parent) == NextProposal(c, games[..i])
  }

  ghost predicate OneChain(c: Config, games: seq<Game>) {
    forall i :: 0 <= i < |games| ==> Extends(c, games, i)
  }

  /** A pending transaction proposes the next block, or a game that is there already; a landed one has
      created a valid game. */
  ghost predicate TxOk(c: Config, games: seq<Game>, tx: Transaction) {
    match tx.fate
    case Pending => (tx.block, tx.parent) == NextProposal(c, games) || Exists(c, games, tx.block, tx.parent)
    case Landed(game) => game < |games| && Valid(c.rootAt, games[game])
    case Refused => true
  }

  ghost predicate TxsOk(c: Config, games: seq<Game>, txs: seq<Transaction>) {
    forall tx :: tx in txs ==> TxOk(c, games, tx)
  }

  /** A proving task covers the interval that ends at a valid game. */
  ghost predicate WorkOk(c: Config, games: seq<Game>, w: Work) {
    w.GameProving? ==>
      w.game < |games| && Valid(c.rootAt, games[w.game]) && w.end == games[w.game].block
        && w.start + c.interval == w.end
  }

  ghost predicate WorksOk(c: Config, games: seq<Game>, tasks: map<nat, Task>, nextTaskId: nat) {
    forall id :: id in tasks ==> id < nextTaskId && WorkOk(c, games, tasks[id].work)
  }

  /** At most one task of each kind that is meant to be alone. */
  ghost predicate KindsApart(tasks: map<nat, Task>) {
    forall x, y :: x in tasks && y in tasks && SameKind(tasks[x].work, tasks[y].work) ==> x == y
  }

  ghost predicate Inv(c: Config, s: State) {
    && OneChain(c, s.games)
    && TxsOk(c, s.games, s.txs)
    && WorksOk(c, s.games, s.tasks, s.nextTaskId)
    && KindsApart(s.tasks)
  }

  /** No game is proven by two tasks. This is not part of the invariant: see ReceiptKeepsProofsApartIff. */
  ghost predicate ProofsApart(tasks: map<nat, Task>) {
    forall x, y ::
      x in tasks && y in tasks && tasks[x].work.GameProving? && Proves(tasks[y].work, tasks[x].work.game) ==> x == y
  }

  // ---------------------------------------------------------------- every step keeps it

  lemma {:induction false} InvalidKeepsLatest(rootAt: nat -> nat, games: seq<Game>, g: Game)
    requires !Valid(rootAt, g)
    ensures LatestValid(rootAt, games + [g]) == LatestValid(rootAt, games)
  {
    assert (games + [g])[..|games|] == games;
  }

  lemma AppendKeepsChain(c: Config, games: seq<Game>, g: Game)
    requires OneChain(c, games) && (Valid(c.rootAt, g) ==> (g.block, g.parent) == NextProposal(c, games))
    ensures OneChain(c, games + [g])
  {
    forall i | 0 <= i < |games| + 1 ensures Extends(c, games + [g], i) {
      if i < |games| {
        assert Extends(c, games, i) && (games + [g])[..i] == games[..i];
      } else {
        assert (games + [g])[..i] == games;
      }
    }
  }

  /** An invalid game changes nothing about the next proposal. */
  lemma InvalidKeepsNext(c: Config, games: seq<Game>, g: Game)
    requires !Valid(c.rootAt, g)
    ensures NextProposal(c, games + [g]) == NextProposal(c, games)
  {
    InvalidKeepsLatest(c.rootAt, games, g);
    LatestValidMeaning(c.rootAt, games);
  }

  lemma ExistsGrows(c: Config, games: seq<Game>, g: Game, block: nat, parent: nat)
    ensures Exists(c, games, block, parent) ==> Exists(c, games + [g], block, parent)
    ensures Valid(c.rootAt, g) ==> Exists(c, games + [g], g.block, g.parent)
  {
    if i :| 0 <= i < |games| && games[i].block == block && games[i].parent == parent && Valid(c.rootAt, games[i]) {
      assert (games + [g])[i] == games[i];
    }
    assert (games + [g])[|games|] == g;
  }

  /** The next game, or an invalid one, leaves every transaction and task as it should be. */
  lemma AppendKeepsTxs(c: Config, games: seq<Game>, g: Game, txs: seq<Transaction>)
    requires TxsOk(c, games, txs) && (Valid(c.rootAt, g) ==> (g.block, g.parent) == NextProposal(c, games))
    ensures TxsOk(c, games + [g], txs)
  {
    forall tx | tx in txs ensures TxOk(c, games + [g], tx) {
      assert TxOk(c, games, tx);
      ExistsGrows(c, games, g, tx.block, tx.parent);
      if !Valid(c.rootAt, g) { InvalidKeepsNext(c, games, g); }
    }
  }

  lemma AppendKeepsWorks(c: Config, games: seq<Game>, g: Game, tasks: map<nat, Task>, nextTaskId: nat)
    requires WorksOk(c, games, tasks, nextTaskId)
    ensures WorksOk(c, games + [g], tasks, nextTaskId)
  {
    forall id | id in tasks ensures WorkOk(c, games + [g], tasks[id].work) {
      assert WorkOk(c, games, tasks[id].work);
    }
  }

  lemma AppendKeepsInv(c: Config, s: State, g: Game)
    requires Inv(c, s) && (Valid(c.rootAt, g) ==> (g.block, g.parent) == NextProposal(c, s.games))
    ensures Inv(c, s.(games := s.games + [g]))
  {
    AppendKeepsChain(c, s.games, g);
    AppendKeepsTxs(c, s.games, g, s.txs);
    AppendKeepsWorks(c, s.games, g, s.tasks, s.nextTaskId);
    hide OneChain, TxsOk, WorksOk, KindsApart, NextProposal;
  }

  lemma MinedKeepsInv(c: Config, s: State, k: nat, deadline: nat)
    requires Inv(c, s) && k < |s.txs| && s.txs[k].fate == Pending
    ensures Inv(c, MineStep(c, s, k, deadline))
  {
    var tx := s.txs[k];
    assert TxOk(c, s.games, tx);
    var s' := MineStep(c, s, k, deadline);
    var appended := s.(games := s'.games);
    assert Inv(c, appended) by {
      if Exists(c, s.games, tx.block, tx.parent) {
        assert appended == s;
      } else {
        var g := NewGame(c, tx.block, tx.parent, deadline);
        AppendKeepsInv(c, s, g);
      }
    }
    forall t | t in s'.txs ensures TxOk(c, s'.games, t) {
      if t in s.txs { assert TxOk(c, appended.games, t); }
    }
    hide OneChain, WorksOk, KindsApart, Exists, TxOk;
  }

  /** Status, progress and deadline of a game play no part in the chain. */
  ghost predicate SameClaims(a: seq<Game>, b: seq<Game>) {
    |a| == |b| && forall i :: 0 <= i < |a| ==>
      a[i].block == b[i].block && a[i].claim == b[i].claim && a[i].parent == b[i].parent
  }

  lemma {:induction false} SameClaimsSameLatest(rootAt: nat -> nat, a: seq<Game>, b: seq<Game>)
    requires SameClaims(a, b)
    ensures LatestValid(rootAt, a) == LatestValid(rootAt, b)
    decreases |a|
  {
    if a != [] { SameClaimsSameLatest(rootAt, a[..|a| - 1], b[..|b| - 1]); }
  }

  lemma SameClaimsSameTx(c: Config, a: seq<Game>, b: seq<Game>, tx: Transaction)
    requires SameClaims(a, b) && TxOk(c, a, tx)
    ensures TxOk(c, b, tx)
  {
    SameClaimsSameLatest(c.rootAt, a, b);
    if i :| 0 <= i < |a| && a[i].block == tx.block && a[i].parent == tx.parent && Valid(c.rootAt, a[i]) {
      assert b[i].block == tx.block && b[i].parent == tx.parent && Valid(c.rootAt, b[i]);
    }
  }

  lemma GameChangesKeepsInv(c: Config, s: State, e: Event)
    requires Inv(c, s) && e.GameChanges?
    ensures Inv(c, Apply(c, s, e))
  {
    var a, b := s.games, Apply(c, s, e).games;
    assert SameClaims(a, b);
    forall i | 0 <= i < |b| ensures Extends(c, b, i) {
      assert Extends(c, a, i) && SameClaims(a[..i], b[..i]);
      SameClaimsSameLatest(c.rootAt, a[..i], b[..i]);
    }
    forall tx | tx in s.txs ensures TxOk(c, b, tx) {
      assert TxOk(c, a, tx);
      SameClaimsSameTx(c, a, b, tx);
    }
    forall id | id in s.tasks ensures WorkOk(c, b, s.tasks[id].work) {
      assert WorkOk(c, a, s.tasks[id].work);
    }
    hide Extends, TxOk, WorkOk, KindsApart;
  }

  lemma SpawnKeepsInv(c: Config, s: State, w: Work)
    requires Inv(c, s) && WorkOk(c, s.games, w)
    requires forall id :: id in s.tasks ==> !SameKind(s.tasks[id].work, w)
    ensures Inv(c, Spawn(s, w))
  {
    hide OneChain, TxsOk, WorkOk;
  }

  lemma ProvingKeepsInv(c: Config, s: State, game: nat)
    requires Inv(c, s) && (game < |s.games| ==> Valid(c.rootAt, s.games[game]))
    ensures Inv(c, SpawnProving(c, s, game))
  {
    if Provable(c, s, game) {
      SpawnKeepsInv(c, s, GameProving(game, s.games[game].block - c.interval, s.games[game].block));
    }
  }

  lemma EndedKeepsInv(c: Config, s: State, id: nat)
    requires Inv(c, s) && id in s.tasks
    ensures Inv(c, Ended(s, id))
  {
    hide OneChain, TxsOk, WorkOk;
  }

  lemma ReceiptKeepsInv(c: Config, s: State, id: nat)
    requires Inv(c, s) && HasReceipt(s, id)
    ensures Inv(c, ReceiptStep(c, s, id))
  {
    var tx := s.txs[s.tasks[id].work.phase.tx];
    assert tx in s.txs && TxOk(c, s.games, tx);
    hide Inv, SpawnProving;
    EndedKeepsInv(c, s, id);
    if tx.fate.Landed? && c.fastFinality { ProvingKeepsInv(c, Ended(s, id), tx.fate.game); }
  }

  lemma DecideKeepsInv(c: Config, s: State, id: nat, finalized: Option<nat>)
    requires Inv(c, s) && Running(s, id, GameCreation(Deciding))
    ensures Inv(c, DecideStep(c, s, id, finalized))
  {
    var s' := DecideStep(c, s, id, finalized);
    hide OneChain, NextProposal, Exists;
    forall tx | tx in s'.txs ensures TxOk(c, s.games, tx) {
      if tx in s.txs { assert TxOk(c, s.games, tx); }
    }
  }

  lemma SpawnsKeepInv(c: Config, s: State, e: Event)
    requires Inv(c, s) && (e.SpawnCreation? || e.SpawnResolution? || e.SpawnBondClaim? || e.SpawnDefense?)
    ensures Inv(c, Apply(c, s, e))
  {
    match e
    case SpawnCreation(_) => if !HasActive(s, GameCreation(Deciding)) { SpawnKeepsInv(c, s, GameCreation(Deciding)); }
    case SpawnResolution => if !HasActive(s, GameResolution) { SpawnKeepsInv(c, s, GameResolution); }
    case SpawnBondClaim(_) => if !HasActive(s, BondClaim) { SpawnKeepsInv(c, s, BondClaim); }
    case SpawnDefense(None) =>
    case SpawnDefense(Some(now)) =>
      DefensibleIsValid(c, s.games, now);
      var game := OldestDefensible(c, s.games, now);
      if game.Some? { ProvingKeepsInv(c, s, game.value); }
  }

  lemma DefensibleIsValid(c: Config, games: seq<Game>, now: nat)
    ensures var r := OldestDefensible(c, games, now); r.Some? ==> r.value < |games| && Valid(c.rootAt, games[r.value])
  {
    FirstInMeaning(Defensible(c, games, now), SaturatingSub(|games|, c.maxGamesToDefend + 1), |games|);
  }

  lemma StepKeepsInv(c: Config, s: State, e: Event)
    requires Inv(c, s)
    ensures Inv(c, Apply(c, s, e))
  {
    match e
    case OtherGame(game) => if !Valid(c.rootAt, game) { AppendKeepsInv(c, s, game); }
    case GameChanges(_, _, _, _) => GameChangesKeepsInv(c, s, e);
    case Mined(k, deadline) => if k < |s.txs| && s.txs[k].fate == Pending { MinedKeepsInv(c, s, k, deadline); }
    case TaskEnds(id) => if id in s.tasks { EndedKeepsInv(c, s, id); }
    case Decide(id, finalized) =>
      if Running(s, id, GameCreation(Deciding)) { DecideKeepsInv(c, s, id, finalized); }
    case Receipt(id) => if HasReceipt(s, id) { ReceiptKeepsInv(c, s, id); }
    case ReapFinished =>
    case Restart =>
    case _ => SpawnsKeepInv(c, s, e);
  }

  /** Every state on the way of a run keeps it. */
  lemma {:induction false} RunKeepsInv(c: Config, s: State, es: seq<Event>, n: nat)
    requires Inv(c, s) && n <= |es|
    ensures Inv(c, ApplyAll(c, s, es[..n]))
    decreases n
  {
    if n > 0 {
      StepKeepsInv(c, s, es[0]);
      assert es[..n][1..] == es[1..][..n - 1];
      RunKeepsInv(c, Apply(c, s, es[0]), es[1..], n - 1);
    }
  }

  /** A proposer started on an empty factory. */
  function Fresh(): State { State([], [], map[], 1) }

  lemma ReachableInv(c: Config, es: seq<Event>)
    ensures Inv(c, ApplyAll(c, Fresh(), es))
  {
    RunKeepsInv(c, Fresh(), es, |es|);
    assert es[..|es|] == es;
  }

  /** Never two tasks of a kind that is meant to be alone. */
  lemma KindsNeverClash(c: Config, es: seq<Event>, x: nat, y: nat)
    requires var s := ApplyAll(c, Fresh(), es); x in s.tasks && y in s.tasks && x != y
    ensures var s := ApplyAll(c, Fresh(), es); !SameKind(s.tasks[x].work, s.tasks[y].work)
  {
    ReachableInv(c, es);
  }

  // ---------------------------------------------------------------- the chain over a run

  function CountValid(rootAt: nat -> nat, games: seq<Game>): nat {
    if games == [] then 0
    else CountValid(rootAt, games[..|games| - 1]) + if Valid(rootAt, games[|games| - 1]) then 1 else 0
  }

  lemma {:induction false} NextBlock(c: Config, games: seq<Game>)
    requires OneChain(c, games)
    ensures NextProposal(c, games).0 == c.anchor + (CountValid(c.rootAt, games) + 1) * c.interval
    decreases |games|
  {
    if games != [] {
      var init, last := games[..|games| - 1], games[|games| - 1];
      assert games == init + [last];
      forall i | 0 <= i < |init| ensures Extends(c, init, i) { assert Extends(c, games, i) && games[..i] == init[..i]; }
      NextBlock(c, init);
      if Valid(c.rootAt, last) {
        assert Extends(c, games, |games| - 1);
      } else {
        InvalidKeepsNext(c, init, last);
      }
    }
  }

  /** From an empty factory, whatever others add, however often the process restarts and however late a
      transaction lands: the valid games propose the blocks anchor + interval, anchor + 2 * interval, and
      so on, in order, and each names the valid game before it as its parent. */
  lemma ValidGamesFormChain(c: Config, es: seq<Event>, i: nat)
    requires i < |ApplyAll(c, Fresh(), es).games|
    requires Valid(c.rootAt, ApplyAll(c, Fresh(), es).games[i])
    ensures var games := ApplyAll(c, Fresh(), es).games;
            && games[i].block == c.anchor + (CountValid(c.rootAt, games[..i]) + 1) * c.interval
            && games[i].parent == match LatestValid(c.rootAt, games[..i]) case None => NO_PARENT case Some(k) => k
  {
    ReachableInv(c, es);
    var games := ApplyAll(c, Fresh(), es).games;
    assert Extends(c, games, i);
    forall j | 0 <= j < i ensures Extends(c, games[..i], j) {
      assert Extends(c, games, j) && games[..i][..j] == games[..j];
    }
    NextBlock(c, games[..i]);
    LatestValidMeaning(c.rootAt, games[..i]);
  }

  /** The chain has no branches, as long as game indices stay below the marker of a game without parent. */
  lemma NoTwoChildren(c: Config, es: seq<Event>, i: nat, j: nat)
    requires i < j < |ApplyAll(c, Fresh(), es).games| <= NO_PARENT
    requires Valid(c.rootAt, ApplyAll(c, Fresh(), es).games[i])
    requires Valid(c.rootAt, ApplyAll(c, Fresh(), es).games[j])
    ensures var games := ApplyAll(c, Fresh(), es).games;
            games[i].parent != games[j].parent && i <= games[j].parent < j
  {
    ValidGamesFormChain(c, es, i);
    ValidGamesFormChain(c, es, j);
    var games := ApplyAll(c, Fresh(), es).games;
    LatestValidMeaning(c.rootAt, games[..i]);
    LatestValidMeaning(c.rootAt, games[..j]);
    assert games[..j][i] == games[i];
    hide ApplyAll, LatestValid, Valid;
  }

  /** The block from which a game is proven is the block of its parent, or the anchor for the first one;
      so what all proofs together show is the whole way from the anchor. */
  lemma ProvesFromParent(c: Config, es: seq<Event>, id: nat)
    requires var s := ApplyAll(c, Fresh(), es); id in s.tasks && s.tasks[id].work.GameProving?
    ensures var s := ApplyAll(c, Fresh(), es);
            var w := s.tasks[id].work;
            && w.game < |s.games| && w.end == s.games[w.game].block
            && w.start == match LatestValid(c.rootAt, s.games[..w.game])
                          case None => c.anchor
                          case Some(k) => s.games[k].block
  {
    ReachableInv(c, es);
    var s := ApplyAll(c, Fresh(), es);
    var w := s.tasks[id].work;
    assert WorkOk(c, s.games, w);
    assert Extends(c, s.games, w.game);
    LatestValidMeaning(c.rootAt, s.games[..w.game]);
  }

  // ---------------------------------------------------------------- two proofs of one game

  /** A receipt after which a game has two proving tasks: the game has been visible since its transaction
      was mined, and the loop has started to defend it before the receipt came back. */
  predicate Doubles(c: Config, s: State, e: Event) {
    && e.Receipt? && HasReceipt(s, e.id) && FateOf(s, e.id).Landed?
    && c.fastFinality && Provable(c, s, FateOf(s, e.id).game) && ProvingActive(s, FateOf(s, e.id).game)
  }

  lemma SpawnKeepsProofsApart(c: Config, s: State, w: Work)
    requires WorksOk(c, s.games, s.tasks, s.nextTaskId) && ProofsApart(s.tasks)
    ensures ProofsApart(Spawn(s, w).tasks) <==> !(w.GameProving? && ProvingActive(s, w.game))
  {
    var id, tasks := s.nextTaskId, Spawn(s, w).tasks;
    assert id !in s.tasks && tasks[id].work == w;
    assert forall x :: x in s.tasks ==> x in tasks && tasks[x] == s.tasks[x];
    if x :| w.GameProving? && x in s.tasks && Proves(s.tasks[x].work, w.game) {
      assert Proves(tasks[id].work, tasks[x].work.game) && x != id;
    }
  }

  lemma EndedKeepsProofs(s: State, id: nat, game: nat)
    requires id in s.tasks
    ensures ProofsApart(Ended(s, id).tasks) <==> ProofsApart(s.tasks)
    ensures ProvingActive(Ended(s, id), game) <==> ProvingActive(s, game)
  {
    var tasks := Ended(s, id).tasks;
    assert forall x :: x in tasks <==> x in s.tasks;
    assert forall x :: x in s.tasks ==> tasks[x].work == s.tasks[x].work;
  }

  lemma ReceiptKeepsProofsApartIff(c: Config, s: State, id: nat)
    requires Inv(c, s) && ProofsApart(s.tasks) && HasReceipt(s, id)
    ensures ProofsApart(ReceiptStep(c, s, id).tasks) <==> !Doubles(c, s, Receipt(id))
  {
    var ended, fate := Ended(s, id), FateOf(s, id);
    EndedKeepsInv(c, s, id);
    hide OneChain, TxsOk, WorksOk, KindsApart, ProofsApart, ProvingActive, Ended;
    if fate.Landed? {
      EndedKeepsProofs(s, id, fate.game);
      if c.fastFinality && Provable(c, s, fate.game) {
        assert ended.games == s.games && ended.nextTaskId == s.nextTaskId by { EndedFrame(s, id); }
        var w := GameProving(fate.game, s.games[fate.game].block - c.interval, s.games[fate.game].block);
        SpawnKeepsProofsApart(c, ended, w);
      } else {
        EndedFrame(s, id);
      }
    } else {
      EndedKeepsProofs(s, id, 0);
    }
  }

  lemma EndedFrame(s: State, id: nat)
    requires id in s.tasks
    ensures Ended(s, id).games == s.games && Ended(s, id).nextTaskId == s.nextTaskId
  {
  }

  /** An event makes two tasks prove one game if and only if it is such a receipt. */
  lemma StepKeepsProofsApartIff(c: Config, s: State, e: Event)
    requires Inv(c, s) && ProofsApart(s.tasks)
    ensures ProofsApart(Apply(c, s, e).tasks) <==> !Doubles(c, s, e)
  {
    match e
    case Receipt(id) => if HasReceipt(s, id) { ReceiptKeepsProofsApartIff(c, s, id); }
    case SpawnDefense(None) =>
    case SpawnDefense(Some(now)) =>
      var game := OldestDefensible(c, s.games, now);
      if game.Some? && Provable(c, s, game.value) {
        var block := s.games[game.value].block;
        SpawnKeepsProofsApart(c, s, GameProving(game.value, block - c.interval, block));
      }
    case SpawnCreation(_) => SpawnKeepsProofsApart(c, s, GameCreation(Deciding));
    case SpawnResolution => SpawnKeepsProofsApart(c, s, GameResolution);
    case SpawnBondClaim(_) => SpawnKeepsProofsApart(c, s, BondClaim);
    case _ =>
  }

  /** As long as no such receipt occurs, no game is ever proven twice at a time. */
  lemma {:induction false} RunKeepsProofsApart(c: Config, s: State, es: seq<Event>)
    requires Inv(c, s) && ProofsApart(s.tasks)
    requires forall i :: 0 <= i < |es| ==> !Doubles(c, ApplyAll(c, s, es[..i]), es[i])
    ensures ProofsApart(ApplyAll(c, s, es).tasks)
    decreases |es|
  {
    if es != [] {
      assert es[..0] == [];
      StepKeepsInv(c, s, es[0]);
      StepKeepsProofsApartIff(c, s, es[0]);
      var next, rest := Apply(c, s, es[0]), es[1..];
      forall i | 0 <= i < |rest| ensures !Doubles(c, ApplyAll(c, next, rest[..i]), rest[i]) {
        assert es[..i + 1][0] == es[0] && es[..i + 1][1..] == rest[..i];
        assert !Doubles(c, ApplyAll(c, s, es[..i + 1]), es[i + 1]);
      }
      hide Inv, Apply, Doubles, ProofsApart;
      RunKeepsProofsApart(c, next, rest);
    }
  }

  /** Without fast finality two tasks in the map never prove the same game. */
  lemma ProofsNeverClash(c: Config, es: seq<Event>, x: nat, y: nat)
    requires !c.fastFinality
    requires var s := ApplyAll(c, Fresh(), es); x in s.tasks && y in s.tasks && x != y && s.tasks[x].work.GameProving?
    ensures var s := ApplyAll(c, Fresh(), es); !Proves(s.tasks[y].work, s.tasks[x].work.game)
  {
    RunKeepsProofsApart(c, Fresh(), es);
  }

  function RacyConfig(): Config { Config(0, 10, block => block, 100, true) }

  /** The transaction of a creation task is mined, its game is challenged, the loop starts to defend it,
      and only then the receipt arrives. */
  function RacyRun(): seq<Event> {
    [SpawnCreation(Some(11)), Decide(1, Some(11)), Mined(0, 5), GameChanges(0, Challenged, true, 5),
     SpawnDefense(Some(0)), Receipt(1)]
  }

  function RacyGame(status: ProposalStatus): Game { Game(10, 10, NO_PARENT, status, true, 5) }

  function RacyState(fate: Fate, games: seq<Game>, tasks: map<nat, Task>, nextTaskId: nat): State {
    State(games, [Transaction(10, NO_PARENT, fate)], tasks, nextTaskId)
  }

  lemma RacySteps()
    ensures var c := RacyConfig();
            var deciding, waiting := Task(GameCreation(Deciding), false), Task(GameCreation(Waiting(0)), false);
            var s1 := State([], [], map[1 := deciding], 2);
            var s2 := RacyState(Pending, [], map[1 := waiting], 2);
            var s3 := RacyState(Landed(0), [RacyGame(Unchallenged)], map[1 := waiting], 2);
            var s4 := RacyState(Landed(0), [RacyGame(Challenged)], map[1 := waiting], 2);
            && Apply(c, Fresh(), SpawnCreation(Some(11))) == s1
            && Apply(c, s1, Decide(1, Some(11))) == s2
            && Apply(c, s2, Mined(0, 5)) == s3
            && Apply(c, s3, GameChanges(0, Challenged, true, 5)) == s4
  {
  }

  lemma Unroll(c: Config, s: State, es: seq<Event>, i: nat)
    requires i < |es|
    ensures ApplyAll(c, s, es[i..]) == ApplyAll(c, Apply(c, s, es[i]), es[i + 1..])
    ensures i == 0 ==> es[i..] == es
    ensures i + 1 == |es| ==> ApplyAll(c, Apply(c, s, es[i]), es[i + 1..]) == Apply(c, s, es[i])
  {
    assert es[i..][1..] == es[i + 1..];
  }

  lemma RacyDefense(s: State)
    requires s.games == [RacyGame(Challenged)]
    ensures OldestDefensible(RacyConfig(), s.games, 0) == Some(0)
  {
    assert Asked(s.games, 0, IsChallenged())(0);
    assert Defensible(RacyConfig(), s.games, 0)(0);
  }

  function RacyEnd(finished: bool, proofs: nat): State {
    var creating, proving := Task(GameCreation(Waiting(0)), finished), Task(GameProving(0, 0, 10), false);
    var tasks := map[1 := creating, 2 := proving];
    RacyState(Landed(0), [RacyGame(Challenged)], if proofs == 2 then tasks[3 := proving] else tasks, proofs + 2)
  }

  lemma RacyDefends()
    ensures var s4 := RacyState(Landed(0), [RacyGame(Challenged)], map[1 := Task(GameCreation(Waiting(0)), false)], 2);
            Apply(RacyConfig(), s4, SpawnDefense(Some(0))) == RacyEnd(false, 1)
  {
    var s4 := RacyState(Landed(0), [RacyGame(Challenged)], map[1 := Task(GameCreation(Waiting(0)), false)], 2);
    RacyDefense(s4);
    hide OldestDefensible;
    assert !ProvingActive(s4, 0) && Provable(RacyConfig(), s4, 0);
  }

  lemma RacyReceipt()
    ensures Apply(RacyConfig(), RacyEnd(false, 1), Receipt(1)) == RacyEnd(true, 2)
  {
    var s5 := RacyEnd(false, 1);
    assert HasReceipt(s5, 1) && FateOf(s5, 1) == Landed(0) && Provable(RacyConfig(), Ended(s5, 1), 0);
  }

  /** In fast finality mode a game can be proven twice at a time: this run starts from an empty factory. */
  lemma FastFinalityDoublesProof()
    ensures var s := ApplyAll(RacyConfig(), Fresh(), RacyRun());
            && 2 in s.tasks && 3 in s.tasks
            && s.tasks[2] == s.tasks[3] == Task(GameProving(0, 0, 10), false)
            && !ProofsApart(s.tasks)
  {
    var c, es := RacyConfig(), RacyRun();
    var waiting := Task(GameCreation(Waiting(0)), false);
    RacySteps();
    RacyDefends();
    RacyReceipt();
    assert Proves(RacyEnd(true, 2).tasks[3].work, RacyEnd(true, 2).tasks[2].work.game);
    hide Apply;
    Unroll(c, Fresh(), es, 0);
    Unroll(c, Apply(c, Fresh(), es[0]), es, 1);
    Unroll(c, RacyState(Pending, [], map[1 := waiting], 2), es, 2);
    Unroll(c, RacyState(Landed(0), [RacyGame(Unchallenged)], map[1 := waiting], 2), es, 3);
    Unroll(c, RacyState(Landed(0), [RacyGame(Challenged)], map[1 := waiting], 2), es, 4);
    Unroll(c, RacyEnd(false, 1), es, 5);
  }
}
