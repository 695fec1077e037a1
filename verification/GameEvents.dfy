/** What each event of the fault-proof proposer does, and when it does nothing (`handle_completed_tasks`,
    `spawn_pending_operations` and `create_game` in op-succinct/fault-proof/src/proposer.rs). Creation tasks
    are the subject of FinalizedProposals. */
module GameEvents {
  import opened Requests
  import opened GameWindows
  import opened GameChain

  /** A new task under the next id; nothing else changes. */
  ghost predicate Spawned(s: State, s': State, w: Work) {
    s' == s.(tasks := s.tasks[s.nextTaskId := Task(w, false)], nextTaskId := s.nextTaskId + 1)
  }

  /** Exactly the finished tasks leave the map. */
  lemma ReapFinishedIff(c: Config, s: State, id: nat)
    ensures var s' := Apply(c, s, ReapFinished);
            && (id in s'.tasks <==> id in s.tasks && !s.tasks[id].finished)
            && (id in s'.tasks ==> s'.tasks[id] == s.tasks[id])
            && s'.games == s.games && s'.txs == s.txs && s'.nextTaskId == s.nextTaskId
  {
  }

  lemma TaskEndsIff(c: Config, s: State, id: nat)
    ensures Apply(c, s, TaskEnds(id))
         == if id in s.tasks then s.(tasks := s.tasks[id := Task(s.tasks[id].work, true)]) else s
  {
  }

  // ---------------------------------------------------------------- defending

  /** Game `i` was challenged, its deadline has not passed, and its claim is true. */
  predicate ToDefend(c: Config, games: seq<Game>, now: nat, i: nat) {
    && i < |games| && games[i].status == Challenged && games[i].deadline >= now
    && games[i].claim == c.rootAt(games[i].block)
  }

  /** The oldest such game among the latest game and the `maxGamesToDefend` before it. */
  ghost predicate OldestToDefend(c: Config, games: seq<Game>, now: nat, g: nat) {
    && ToDefend(c, games, now, g) && |games| <= g + c.maxGamesToDefend + 1
    && forall i: nat :: i < g && |games| <= i + c.maxGamesToDefend + 1 ==> !ToDefend(c, games, now, i)
  }

  lemma DefensibleIff(c: Config, games: seq<Game>, now: nat, i: nat)
    ensures Defensible(c, games, now)(i) <==> ToDefend(c, games, now, i)
  {
    var asked := Asked(games, now, IsChallenged());
    assert asked(i) <==> i < |games| && games[i].status == Challenged && games[i].deadline >= now;
    if asked(i) { assert ClaimHolds(c)(games[i]) <==> games[i].claim == c.rootAt(games[i].block); }
  }

  lemma OldestIff(c: Config, games: seq<Game>, now: nat, g: nat)
    ensures OldestDefensible(c, games, now) == Some(g) <==> OldestToDefend(c, games, now, g)
  {
    var p, lo := Defensible(c, games, now), SaturatingSub(|games|, c.maxGamesToDefend + 1);
    FirstInMeaning(p, lo, |games|);
    forall i: nat ensures p(i) <==> ToDefend(c, games, now, i) { DefensibleIff(c, games, now, i); }
    var r := FirstIn(p, lo, |games|);
    if OldestToDefend(c, games, now, g) { assert p(g); }
    if r.Some? { assert p(r.value); }
    hide FirstIn;
  }

  /** A task of the map, finished or not, proves game `g`. */
  predicate BeingProven(s: State, g: nat) {
    exists id :: id in s.tasks && s.tasks[id].work.GameProving? && s.tasks[id].work.game == g
  }

  /** A proof is started for the oldest game to defend, from one interval below it, unless the map has one. */
  lemma SpawnDefenseIff(c: Config, s: State, now: nat, g: nat)
    ensures var s' := Apply(c, s, SpawnDefense(Some(now)));
            && (OldestToDefend(c, s.games, now, g) && !BeingProven(s, g) && s.games[g].block >= c.interval ==>
                  Spawned(s, s', GameProving(g, s.games[g].block - c.interval, s.games[g].block)))
            && (OldestToDefend(c, s.games, now, g) && (BeingProven(s, g) || s.games[g].block < c.interval) ==> s' == s)
            && ((forall x :: !OldestToDefend(c, s.games, now, x)) ==> s' == s)
    ensures Apply(c, s, SpawnDefense(None)) == s
  {
    OldestIff(c, s.games, now, g);
    var oldest := OldestDefensible(c, s.games, now);
    if oldest.Some? { OldestIff(c, s.games, now, oldest.value); }
    assert BeingProven(s, g) <==> ProvingActive(s, g) by {
      if id :| id in s.tasks && s.tasks[id].work.GameProving? && s.tasks[id].work.game == g {
        assert Proves(s.tasks[id].work, g);
      }
    }
    hide OldestDefensible, OldestToDefend, ProvingActive, BeingProven;
  }

  // ---------------------------------------------------------------- the tasks that are alone

  lemma SpawnResolutionIff(c: Config, s: State)
    ensures var s' := Apply(c, s, SpawnResolution);
            if exists id :: id in s.tasks && s.tasks[id].work == GameResolution then s' == s
            else Spawned(s, s', GameResolution)
  {
    if id :| id in s.tasks && s.tasks[id].work == GameResolution {
      assert SameKind(s.tasks[id].work, GameResolution);
    }
  }

  lemma SpawnBondClaimIff(c: Config, s: State, claimable: bool)
    ensures var s' := Apply(c, s, SpawnBondClaim(claimable));
            if !claimable || exists id :: id in s.tasks && s.tasks[id].work == BondClaim then s' == s
            else Spawned(s, s', BondClaim)
  {
    if id :| id in s.tasks && s.tasks[id].work == BondClaim {
      assert SameKind(s.tasks[id].work, BondClaim);
    }
  }

  lemma RestartIff(c: Config, s: State)
    ensures Apply(c, s, Restart) == State(s.games, s.txs, map[], 1)
  {
  }

  // ---------------------------------------------------------------- transactions

  /** The factory refuses a transaction if it has a game with the claim, block and parent, and else appends the
      game with the true root as its claim. */
  lemma MinedIff(c: Config, s: State, k: nat, deadline: nat)
    requires k < |s.txs| && s.txs[k].fate == Pending
    ensures var (s', tx) := (Apply(c, s, Mined(k, deadline)), s.txs[k]);
            && s'.tasks == s.tasks && s'.nextTaskId == s.nextTaskId
            && if exists g :: g in s.games && g.block == tx.block && g.parent == tx.parent
                              && g.claim == c.rootAt(tx.block)
               then s'.games == s.games && s'.txs == s.txs[k := tx.(fate := Refused)]
               else && s'.txs == s.txs[k := tx.(fate := Landed(|s.games|))]
                    && s'.games == s.games
                         + [Game(tx.block, c.rootAt(tx.block), tx.parent, Unchallenged, true, deadline)]
  {
    var tx := s.txs[k];
    if i :| 0 <= i < |s.games| && s.games[i].block == tx.block && s.games[i].parent == tx.parent
            && Valid(c.rootAt, s.games[i]) {
      assert s.games[i] in s.games;
    }
    if g :| g in s.games && g.block == tx.block && g.parent == tx.parent && g.claim == c.rootAt(tx.block) {
      var i :| 0 <= i < |s.games| && s.games[i] == g;
    }
  }

  /** When the receipt is there the task ends; in fast finality mode the proof of the game that has landed is
      started, whether or not a task proves it already. */
  lemma ReceiptIff(c: Config, s: State, id: nat, tx: nat)
    requires id in s.tasks && s.tasks[id] == Task(GameCreation(Waiting(tx)), false) && tx < |s.txs|
    ensures var (s', fate) := (Apply(c, s, Receipt(id)), s.txs[tx].fate);
            var ended := s.(tasks := s.tasks[id := Task(GameCreation(Waiting(tx)), true)]);
            match fate
            case Pending => s' == s
            case Refused => s' == ended
            case Landed(g) =>
              if c.fastFinality && g < |s.games| && s.games[g].block >= c.interval
              then Spawned(ended, s', GameProving(g, s.games[g].block - c.interval, s.games[g].block))
              else s' == ended
  {
  }

  /** The task waits for transaction `tx`, which has been mined. */
  predicate WaitsForMined(s: State, id: nat, tx: nat) {
    && id in s.tasks && s.tasks[id] == Task(GameCreation(Waiting(tx)), false)
    && tx < |s.txs| && s.txs[tx].fate != Pending
  }

  /** Nothing happens for any other task. */
  lemma NoReceiptIff(c: Config, s: State, id: nat)
    ensures (forall tx: nat :: !WaitsForMined(s, id, tx)) ==> Apply(c, s, Receipt(id)) == s
  {
    if HasReceipt(s, id) { assert WaitsForMined(s, id, s.tasks[id].work.phase.tx); }
  }

  // ---------------------------------------------------------------- the environment

  /** Others add games with wrong claims. */
  lemma OtherGameIff(c: Config, s: State, g: Game)
    ensures Apply(c, s, OtherGame(g)) == if g.claim == c.rootAt(g.block) then s else s.(games := s.games + [g])
  {
  }

  /** The status of a game changes, its proposal does not. */
  lemma GameChangesIff(c: Config, s: State, e: Event, i: nat)
    requires e.GameChanges? && i < |s.games|
    ensures var s' := Apply(c, s, e);
            && |s'.games| == |s.games| && s'.txs == s.txs && s'.tasks == s.tasks && s'.nextTaskId == s.nextTaskId
            && s'.games[i] == if i == e.index
                 then Game(s.games[i].block, s.games[i].claim, s.games[i].parent, e.status, e.inProgress, e.deadline)
                 else s.games[i]
  {
  }
}
