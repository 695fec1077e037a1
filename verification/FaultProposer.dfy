/** The fault-proof proposer as it runs: one pass of its loop, and a game creation task before and after
    its transaction (op-succinct/fault-proof/src/proposer.rs), each against the machine of GameChain. */
module FaultProposer {
  import opened Requests
  import opened GameWindows
  import opened GameChain

  class Proposer {
    const config: Config
    var games: seq<Game>            // the factory's list
    var txs: seq<Transaction>       // the creation transactions sent so far
    var tasks: map<nat, Task>
    var nextTaskId: nat

    constructor (c: Config)
      ensures config == c && View() == Fresh() && Inv(c, View())
    {
      config := c;
      games := [];
      txs := [];
      tasks := map[];
      nextTaskId := 1;
    }

    ghost function View(): State
      reads this
    {
      State(games, txs, tasks, nextTaskId)
    }

    /** `handle_completed_tasks`: first the finished ones are listed, then each is removed. */
    method HandleCompletedTasks()
      modifies this`tasks
      ensures View() == Apply(config, old(View()), ReapFinished)
    {
      var completed := set id | id in tasks && tasks[id].finished;
      var left := completed;
      while left != {}
        invariant left <= completed
        invariant tasks == map id | id in old(tasks) && (!old(tasks)[id].finished || id in left) :: old(tasks)[id]
        decreases |left|
      {
        var id :| id in left;
        tasks := tasks - {id};
        left := left - {id};
      }
    }

    method SpawnTask(w: Work)
      modifies this`tasks, this`nextTaskId
      ensures View() == Spawn(old(View()), w)
    {
      var id := nextTaskId;
      nextTaskId := nextTaskId + 1;
      tasks := tasks[id := Task(w, false)];
    }

    method HasActiveTaskOfType(w: Work) returns (active: bool)
      ensures active == HasActive(View(), w)
    {
      active := exists id :: id in tasks && SameKind(tasks[id].work, w);
    }

    /** What a creation can go by: nothing, if the scan for the latest valid game fails. */
    ghost function Heard(finalized: Option<nat>, known: nat -> bool): Option<nat>
      reads this
    {
      if MeetsUnknown(config.rootAt, known, games) then None else finalized
    }

    /** `should_create_game`; an error counts as no. */
    method ShouldCreateGame(finalized: Option<nat>, known: nat -> bool) returns (due: bool)
      ensures due == Due(config, games, Heard(finalized, known))
    {
      var latest := GetLatestValidProposal(config.rootAt, known, games);
      if latest.RootUnknown? { return false; }
      var next := match latest
        case Latest(block, _) => block + config.interval
        case _ => config.anchor + config.interval;
      due := finalized.Some? && finalized.value > next;
    }

    method SpawnGameCreationTask(finalized: Option<nat>, known: nat -> bool)
      modifies this`tasks, this`nextTaskId
      ensures View() == Apply(config, old(View()), SpawnCreation(old(Heard(finalized, known))))
    {
      var active := HasActiveTaskOfType(GameCreation(Deciding));
      if active { return; }
      var due := ShouldCreateGame(finalized, known);
      if due { SpawnTask(GameCreation(Deciding)); }
    }

    method SpawnGameProvingTask(game: nat)
      modifies this`tasks, this`nextTaskId
      ensures View() == SpawnProving(config, old(View()), game)
    {
      if game >= |games| { return; }
      var block := games[game].block;
      if block >= config.interval { SpawnTask(GameProving(game, block - config.interval, block)); }
    }

    /** The time that a defense can go by: none, if its scan fails. */
    ghost function DefenseTime(now: nat, known: nat -> bool): Option<nat>
      reads this
    {
      if AsksUnknown(games, config.maxGamesToDefend, now, known, IsChallenged(), ClaimHolds(config)) then None
      else Some(now)
    }

    method SpawnGameDefenseTasks(now: nat, known: nat -> bool)
      modifies this`tasks, this`nextTaskId
      ensures View() == Apply(config, old(View()), SpawnDefense(old(DefenseTime(now, known))))
    {
      var ok, game := GetOldestGame(games, config.maxGamesToDefend, now, known, IsChallenged(), ClaimHolds(config));
      if !ok || game == None { return; }
      if exists id :: id in tasks && tasks[id].work.GameProving? && tasks[id].work.game == game.value { return; }
      SpawnGameProvingTask(game.value);
    }

    method SpawnGameResolutionTask()
      modifies this`tasks, this`nextTaskId
      ensures View() == Apply(config, old(View()), SpawnResolution)
    {
      var active := HasActiveTaskOfType(GameResolution);
      if !active { SpawnTask(GameResolution); }
    }

    method SpawnBondClaimTask(claimable: bool)
      modifies this`tasks, this`nextTaskId
      ensures View() == Apply(config, old(View()), Event.SpawnBondClaim(claimable))
    {
      var active := HasActiveTaskOfType(BondClaim);
      if !active && claimable { SpawnTask(BondClaim); }
    }

    /** One pass of `run`: the answers of the chain are parameters. The pass keeps the invariant. */
    method RunOnce(finalized: Option<nat>, known: nat -> bool, now: nat, claimable: bool)
      requires Inv(config, View())
      modifies this`tasks, this`nextTaskId
      ensures View() == ApplyAll(config, old(View()),
                                 Pass(old(Heard(finalized, known)), old(DefenseTime(now, known)), claimable))
      ensures Inv(config, View())
    {
      ghost var s, heard, time := View(), Heard(finalized, known), DefenseTime(now, known);
      hide Inv, MeetsUnknown, AsksUnknown;
      HandleCompletedTasks();
      SpawnGameCreationTask(finalized, known);
      SpawnGameDefenseTasks(now, known);
      SpawnGameResolutionTask();
      SpawnBondClaimTask(claimable);
      hide Apply;
      ghost var pass := Pass(heard, time, claimable);
      FiveSteps(config, s, pass[0], pass[1], pass[2], pass[3], pass[4]);
      RunKeepsInv(config, s, pass, |pass|);
      assert pass[..|pass|] == pass == [pass[0], pass[1], pass[2], pass[3], pass[4]];
    }

    /** `handle_game_creation` in the task `id`, up to the transaction of `create_game`. */
    method DecideProposal(id: nat, finalized: Option<nat>, known: nat -> bool)
      requires Running(View(), id, GameCreation(Deciding))
      modifies this`tasks, this`txs
      ensures View() == Apply(config, old(View()), Decide(id, old(Heard(finalized, known))))
    {
      var latest := GetLatestValidProposal(config.rootAt, known, games);
      var (next, parent) := match latest
        case Latest(block, k) => (block + config.interval, k)
        case _ => (config.anchor + config.interval, NO_PARENT);
      if !latest.RootUnknown? && finalized.Some? && finalized.value > next && parent <= NO_PARENT {
        tasks := tasks[id := Task(GameCreation(Waiting(|txs|)), false)];
        txs := txs + [Transaction(next, parent, Pending)];
      } else {
        tasks := tasks[id := Task(GameCreation(Deciding), true)];
      }
    }

    /** The rest of `create_game`, once the receipt is there: its logs name the new game, or the task
        fails. */
    method CreateGameReceipt(id: nat)
      requires HasReceipt(View(), id)
      modifies this`tasks, this`nextTaskId
      ensures View() == Apply(config, old(View()), Receipt(id))
    {
      var fate := txs[tasks[id].work.phase.tx].fate;
      tasks := tasks[id := tasks[id].(finished := true)];
      if fate.Landed? && config.fastFinality { SpawnGameProvingTask(fate.game); }
    }
  }

  /** The events of one pass. */
  function Pass(heard: Option<nat>, time: Option<nat>, claimable: bool): seq<Event> {
    [ReapFinished, SpawnCreation(heard), SpawnDefense(time), SpawnResolution, SpawnBondClaim(claimable)]
  }

  lemma FiveSteps(c: Config, s: State, a: Event, b: Event, d: Event, e: Event, f: Event)
    ensures ApplyAll(c, s, [a, b, d, e, f]) == Apply(c, Apply(c, Apply(c, Apply(c, Apply(c, s, a), b), d), e), f)
  {
    hide Apply;
    assert [a, b, d, e, f][1..] == [b, d, e, f] && [b, d, e, f][1..] == [d, e, f] && [d, e, f][1..] == [e, f]
      && [e, f][1..] == [f];
    var t := Apply(c, Apply(c, Apply(c, s, a), b), d);
    assert ApplyAll(c, t, [e, f]) == ApplyAll(c, Apply(c, t, e), [f]);
    assert ApplyAll(c, Apply(c, t, e), [f]) == ApplyAll(c, Apply(c, Apply(c, t, e), f), []);
    assert ApplyAll(c, s, [a, b, d, e, f]) == ApplyAll(c, Apply(c, s, a), [b, d, e, f]);
    assert ApplyAll(c, Apply(c, s, a), [b, d, e, f]) == ApplyAll(c, Apply(c, Apply(c, s, a), b), [d, e, f]);
  }
}
