/** What the fault-proof proposer (op-succinct/fault-proof/src/proposer.rs) makes of the finalized L2 block:
    when a proposal is sent, and that no run ever proposes a block that is not finalized. */
module FinalizedProposals {
  import opened Requests
  import BlockSpans
  import opened GameWindows
  import opened GameChain

  // ---------------------------------------------------------------- when a proposal is sent

  /** The block to build on: that of the last game with a true claim, or the anchor if there is none. */
  ghost predicate BuildsOn(c: Config, games: seq<Game>, block: nat, parent: Option<nat>) {
    match parent
    case Some(k) =>
      && k < |games| && games[k].claim == c.rootAt(games[k].block) && block == games[k].block
      && forall i :: k < i < |games| ==> games[i].claim != c.rootAt(games[i].block)
    case None => block == c.anchor && forall i :: 0 <= i < |games| ==> games[i].claim != c.rootAt(games[i].block)
  }

  const U32_MAX: nat := 0xFFFF_FFFF

  function ParentIndex(parent: Option<nat>): nat { match parent case Some(k) => k case None => U32_MAX }

  lemma NextBuildsOn(c: Config, games: seq<Game>, block: nat, parent: Option<nat>)
    requires BuildsOn(c, games, block, parent)
    ensures NextProposal(c, games) == (block + c.interval, ParentIndex(parent))
  {
    LatestValidMeaning(c.rootAt, games);
  }

  /** There is always exactly one block to build on. */
  lemma SomethingToBuildOn(c: Config, games: seq<Game>) returns (block: nat, parent: Option<nat>)
    ensures BuildsOn(c, games, block, parent)
    ensures forall b, p :: BuildsOn(c, games, b, p) ==> b == block && p == parent
  {
    LatestValidMeaning(c.rootAt, games);
    parent := LatestValid(c.rootAt, games);
    block := if parent.Some? then games[parent.value].block else c.anchor;
  }

  /** A deciding task sends a transaction if and only if a finalized block is known, the next block lies
      strictly below it, and the parent index fits 32 bits; otherwise the task ends and nothing is sent. */
  lemma DecideSendsIff(c: Config, s: State, id: nat, finalized: Option<nat>, block: nat, parent: Option<nat>)
    requires Running(s, id, GameCreation(Deciding)) && BuildsOn(c, s.games, block, parent)
    ensures var s', next := Apply(c, s, Decide(id, finalized)), block + c.interval;
            if finalized.Some? && next < finalized.value && ParentIndex(parent) <= U32_MAX
            then s' == s.(txs := s.txs + [Transaction(next, ParentIndex(parent), Pending)],
                          tasks := s.tasks[id := Task(GameCreation(Waiting(|s.txs|)), false)])
            else s' == s.(tasks := s.tasks[id := Task(GameCreation(Deciding), true)])
  {
    NextBuildsOn(c, s.games, block, parent);
    hide NextProposal, BuildsOn;
  }

  /** The loop spawns a creation task if and only if none is there and the next block lies strictly below the
      finalized one. */
  lemma SpawnsCreationIff(c: Config, s: State, finalized: Option<nat>, block: nat, parent: Option<nat>)
    requires BuildsOn(c, s.games, block, parent)
    ensures var s' := Apply(c, s, SpawnCreation(finalized));
            if finalized.Some? && block + c.interval < finalized.value
               && forall id :: id in s.tasks ==> !s.tasks[id].work.GameCreation?
            then s' == s.(tasks := s.tasks[s.nextTaskId := Task(GameCreation(Deciding), false)],
                          nextTaskId := s.nextTaskId + 1)
            else s' == s
  {
    NextBuildsOn(c, s.games, block, parent);
    hide NextProposal, BuildsOn;
    if x :| x in s.tasks && s.tasks[x].work.GameCreation? {
      assert SameKind(s.tasks[x].work, GameCreation(Deciding));
    }
  }

  // ---------------------------------------------------------------- over any run

  /** The highest finalized block that a creation task of the run has heard of. */
  function HighestHeard(es: seq<Event>): nat {
    if es == [] then 0
    else
      var last := es[|es| - 1];
      BlockSpans.Max(HighestHeard(es[..|es| - 1]),
                     if last.Decide? && last.finalized.Some? then last.finalized.value else 0)
  }

  ghost predicate AllBelow(c: Config, s: State, finalized: nat) {
    && (forall tx :: tx in s.txs ==> tx.block < finalized)
    && (forall g :: g in s.games && g.claim == c.rootAt(g.block) ==> g.block < finalized)
  }

  lemma DecideStaysBelow(c: Config, s: State, id: nat, finalized: Option<nat>, h: nat)
    requires AllBelow(c, s, h) && Running(s, id, GameCreation(Deciding))
    requires finalized.Some? ==> finalized.value <= h
    ensures AllBelow(c, Apply(c, s, Decide(id, finalized)), h)
  {
    var block, parent := SomethingToBuildOn(c, s.games);
    DecideSendsIff(c, s, id, finalized, block, parent);
    hide Apply;
  }

  lemma GamesStayBelow(c: Config, s: State, e: Event, h: nat)
    requires AllBelow(c, s, h) && (e.OtherGame? || e.GameChanges? || e.Mined?)
    ensures AllBelow(c, Apply(c, s, e), h)
  {
    var s' := Apply(c, s, e);
    if e.GameChanges? && e.index < |s.games| {
      forall g | g in s'.games && g.claim == c.rootAt(g.block) ensures g.block < h {
        var i :| 0 <= i < |s'.games| && s'.games[i] == g;
        assert s.games[i] in s.games && s.games[i].claim == g.claim && s.games[i].block == g.block;
      }
    }
    if e.Mined? && e.tx < |s.txs| {
      assert s.txs[e.tx] in s.txs;
    }
  }

  lemma StepStaysBelow(c: Config, s: State, e: Event, h: nat)
    requires AllBelow(c, s, h)
    requires e.Decide? && e.finalized.Some? ==> e.finalized.value <= h
    ensures AllBelow(c, Apply(c, s, e), h)
  {
    match e
    case Decide(id, finalized) =>
      if Running(s, id, GameCreation(Deciding)) { DecideStaysBelow(c, s, id, finalized, h); }
    case OtherGame(_) => GamesStayBelow(c, s, e, h);
    case GameChanges(_, _, _, _) => GamesStayBelow(c, s, e, h);
    case Mined(_, _) => GamesStayBelow(c, s, e, h);
    case _ =>
  }

  lemma LastEvent(c: Config, s: State, es: seq<Event>)
    requires es != []
    ensures ApplyAll(c, s, es) == Apply(c, ApplyAll(c, s, es[..|es| - 1]), es[|es| - 1])
    decreases |es|
  {
    hide Apply;
    if |es| > 1 {
      LastEvent(c, Apply(c, s, es[0]), es[1..]);
      assert es[1..][..|es| - 2] == es[..|es| - 1][1..];
    } else {
      assert es[1..] == [] && es[..0] == [];
    }
  }

  /** Over any run from an empty factory, every transaction that was ever sent, and every valid game,
      proposes a block strictly below a finalized block that was heard of by then. */
  lemma {:induction false} ProposalsAreFinalized(c: Config, es: seq<Event>)
    ensures AllBelow(c, ApplyAll(c, Fresh(), es), HighestHeard(es))
    decreases |es|
  {
    if es != [] {
      var init, e := es[..|es| - 1], es[|es| - 1];
      ProposalsAreFinalized(c, init);
      LastEvent(c, Fresh(), es);
      hide Apply, ApplyAll;
      StepStaysBelow(c, ApplyAll(c, Fresh(), init), e, HighestHeard(es));
    }
  }
}
