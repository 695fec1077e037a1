/** A failed aggregation lends its L1 checkpoint to every later request for the same blocks
    (`create_aggregation_proofs` in op-succinct/validity/src/proposer.rs). What that means over a run. */
module StuckCheckpoint {
  import opened Requests
  import opened BlockSpans
  import opened RequestTable
  import opened ProposerModel
  import opened ProposerInvariant
  import opened ProposerSteps
  import opened ProposerRuns
  import opened RangePlanning
  import opened AppendedRows
  import opened ProposerExamples
  import opened AggregationGuest
  import opened HeaderFetcher
  import opened EndToEnd

  // ---------------------------------------------------------------- one checkpoint per block range

  predicate FailedAgg(r: Request) { r.reqType == Aggregation && r.status == Failed }

  predicate SameBlocks(a: Request, b: Request) { a.startBlock == b.startBlock && a.endBlock == b.endBlock }

  /** A failed aggregation shares its checkpoint with every failed or active one of the same blocks. */
  ghost predicate SharedCheckpoint(rows: seq<Request>) {
    forall f, a :: f in rows && a in rows && FailedAgg(f) && (FailedAgg(a) || ActiveAgg(a)) && SameBlocks(f, a)
                   ==> a.checkpoint == f.checkpoint
  }

  /** An active aggregation shares its checkpoint with every failed or active one of the same blocks. */
  lemma ActiveShares(c: Config, s: State, before: Request, a: Request)
    requires Inv(c, s) && SharedCheckpoint(s.rows) && before in s.rows && ActiveAgg(before)
    requires a in s.rows && (FailedAgg(a) || ActiveAgg(a)) && SameBlocks(before, a)
    ensures a.checkpoint == before.checkpoint
  {
    if a.id == before.id { IdUnique(s.rows, s.nextId, a, before); }
    hide Tiled, RowOk, RelayOk;
  }

  lemma MovedKeepsShared(c: Config, s: State, mid: seq<Request>)
    requires Inv(c, s) && Moved(c, s.rows, mid) && SharedCheckpoint(s.rows)
    ensures SharedCheckpoint(mid)
  {
    if mid != s.rows {
      var k := MovedMember(c, s.rows, mid);
      var before, after := s.rows[k], mid[k];
      assert SameJob(before, after) && (FailedAgg(after) || ActiveAgg(after) ==> ActiveAgg(before));
      hide Inv, Transition, Moved, FailedAgg, ActiveAgg;
      forall a | a in s.rows && (FailedAgg(a) || ActiveAgg(a)) && ActiveAgg(before) && SameBlocks(before, a)
        ensures a.checkpoint == before.checkpoint
      {
        ActiveShares(c, s, before, a);
      }
    }
  }

  lemma FailedRowLends(c: Config, s: State, f: Request, header: Checkpoint)
    requires Inv(c, s) && SharedCheckpoint(s.rows) && f in s.rows && FailedAgg(f) && f.startBlock == s.latest
    ensures f.checkpoint == Some(AggCheckpoint(s, f.endBlock, header))
  {
    var w := FailedAggWithCheckpoint(s.latest, f.endBlock);
    assert RowOk(c, f, s.latest);
    SelectMember(s.rows, w, f);
    var lender := Select(s.rows, w)[0];
    SelectMember(s.rows, w, lender);
    hide Inv, Select;
  }

  lemma AppendKeepsShared(rows: seq<Request>, added: seq<Request>)
    requires SharedCheckpoint(rows) && forall r :: r in added ==> !FailedAgg(r)
    requires forall f, a :: f in rows && a in added && FailedAgg(f) && ActiveAgg(a) && SameBlocks(f, a)
                            ==> a.checkpoint == f.checkpoint
    ensures SharedCheckpoint(rows + added)
  {
    hide FailedAgg, ActiveAgg, SameBlocks;
  }

  lemma AggAdded(c: Config, s: State, header: Checkpoint, a: Request)
    requires a in Added(c, s, CreateAggregation(header))
    ensures a.status == Unrequested && a.startBlock == s.latest
    ensures a.checkpoint == Some(AggCheckpoint(s, a.endBlock, header))
  {
    hide AggTarget, AggCheckpoint;
  }

  lemma CreateKeepsShared(c: Config, s: State, header: Checkpoint)
    requires Inv(c, s) && SharedCheckpoint(s.rows)
    ensures SharedCheckpoint(Apply(c, s, CreateAggregation(header)).rows)
  {
    var added := Added(c, s, CreateAggregation(header));
    assert Apply(c, s, CreateAggregation(header)).rows == s.rows + added;
    hide Inv, Apply, Added, AggCheckpoint;
    forall a | a in added ensures !FailedAgg(a) {
      AggAdded(c, s, header, a);
    }
    forall f, a | f in s.rows && a in added && FailedAgg(f) && ActiveAgg(a) && SameBlocks(f, a)
      ensures a.checkpoint == f.checkpoint
    {
      AggAdded(c, s, header, a);
      FailedRowLends(c, s, f, header);
    }
    AppendKeepsShared(s.rows, added);
  }

  /** The other events append ranges only. */
  lemma OnlyRangesAdded(c: Config, s: State, e: Event)
    requires Inv(c, s) && !e.CreateAggregation?
    ensures forall r :: r in Added(c, s, e) ==> r.reqType == Range
  {
    hide Inv, NewChunks, Apply, Added, SplitBy;
    if SplitBy(c, s, e).Some? {
      var r := SplitAdds(c, s, e);
    } else {
      OthersAdd(c, s, e);
    }
  }

  lemma StepKeepsShared(c: Config, s: State, e: Event)
    requires Inv(c, s) && SharedCheckpoint(s.rows)
    ensures SharedCheckpoint(Apply(c, s, e).rows)
  {
    if e == Restart {
      forall r | r in Reinitialize(s).rows ensures r in s.rows { SelectMember(s.rows, StatusNotIn(UNRECOVERABLE), r); }
    } else if e.CreateAggregation? {
      CreateKeepsShared(c, s, e.header);
    } else {
      hide Inv, Apply, Added, Moved;
      var mid := EventAdds(c, s, e);
      MovedKeepsShared(c, s, mid);
      OnlyRangesAdded(c, s, e);
      AppendKeepsShared(mid, Added(c, s, e));
    }
  }

  lemma {:induction false} RunKeepsShared(c: Config, s: State, es: seq<Event>)
    requires Inv(c, s) && SharedCheckpoint(s.rows)
    ensures SharedCheckpoint(ApplyAll(c, s, es).rows)
    decreases |es|
  {
    if es != [] {
      hide Inv, SharedCheckpoint, Apply;
      StepKeepsInv(c, s, es[0]);
      StepKeepsShared(c, s, es[0]);
      RunKeepsShared(c, Apply(c, s, es[0]), es[1..]);
    }
  }

  lemma ReachableShared(c: Config, es: seq<Event>)
    ensures SharedCheckpoint(ApplyAll(c, Fresh(c), es).rows)
  {
    FreshInv(c);
    assert SharedCheckpoint(Fresh(c).rows);
    hide Inv, SharedCheckpoint, ApplyAll, Fresh;
    RunKeepsShared(c, Fresh(c), es);
  }

  /** The query for a failed aggregation returns one row in no order. In a reachable state it does not
      matter which: every failed aggregation of the blocks has the checkpoint that the next request gets. */
  lemma AnyFailedRowLends(c: Config, es: seq<Event>, f: Request, header: Checkpoint)
    requires var s := ApplyAll(c, Fresh(c), es); f in s.rows && FailedAgg(f) && f.startBlock == s.latest
    ensures f.checkpoint == Some(AggCheckpoint(ApplyAll(c, Fresh(c), es), f.endBlock, header))
  {
    FreshInv(c);
    hide Inv, SharedCheckpoint, ApplyAll, AggCheckpoint, Fresh;
    RunKeepsInv(c, Fresh(c), es);
    ReachableShared(c, es);
    FailedRowLends(c, ApplyAll(c, Fresh(c), es), f, header);
  }

  /** Once an aggregation of some blocks has failed, every later request for them uses its checkpoint,
      whatever the current L1 block is. */
  lemma CheckpointIsStuck(c: Config, es: seq<Event>, later: seq<Event>, f: Request, header: Checkpoint)
    requires f in ApplyAll(c, Fresh(c), es).rows && FailedAgg(f)
    requires ApplyAll(c, ApplyAll(c, Fresh(c), es), later).latest == f.startBlock
    ensures f.checkpoint == Some(AggCheckpoint(ApplyAll(c, ApplyAll(c, Fresh(c), es), later), f.endBlock, header))
  {
    var s := ApplyAll(c, Fresh(c), es);
    FreshInv(c);
    hide Inv, ApplyAll, Fresh;
    RunKeepsInv(c, Fresh(c), es);
    RequestLifecycle(c, s, later);
    var kept :| kept in ApplyAll(c, s, later).rows && kept.id == f.id && Evolves(f, kept);
    ApplyAllConcat(c, Fresh(c), es, later);
    AnyFailedRowLends(c, es + later, kept, header);
  }

  // ---------------------------------------------------------------- what the guest makes of it

  /** A retry at any later point at which the contract has not moved: its witness can always be made, and the
      guest accepts it if and only if no range of the tile was proven against an L1 block above the
      checkpoint of the aggregation that failed. */
  lemma RetriesAcceptedIff(c: Config, es: seq<Event>, later: seq<Event>, f: Request, w: World, header: Checkpoint)
    requires f in ApplyAll(c, Fresh(c), es).rows && FailedAgg(f)
    requires var s := ApplyAll(c, Fresh(c), es);
             Tiled(s.rows, f.startBlock, f.endBlock) && ProofsHold(w, Tile(s.rows, f.startBlock, f.endBlock))
    requires ApplyAll(c, ApplyAll(c, Fresh(c), es), later).latest == f.startBlock
    requires Serves(w.node, w.hashOf, w.canon) && f.checkpoint.Some? && f.checkpoint.value.number < |w.canon|
    requires f.checkpoint.value.hash == w.hashOf(w.canon[f.checkpoint.value.number])
    ensures var s' := ApplyAll(c, ApplyAll(c, Fresh(c), es), later);
            var boots := BootInfos(w, Tile(s'.rows, f.startBlock, f.endBlock));
            var tip := AggCheckpoint(s', f.endBlock, header).hash;
            && boots.Done? && Fetchable(w.node, boots.value, tip)
            && forall headers :: HeadersFor(w.node, boots.value, tip, headers) ==>
                  (Accepts(w.hashOf, w.verifies, Inputs(w, boots.value, tip), headers)
                   <==> forall b :: b in boots.value ==> Height(w.node, b) <= f.checkpoint.value.number)
  {
    hide *;
    CheckpointIsStuck(c, es, later, f, header);
    FreshInv(c);
    RunKeepsInv(c, Fresh(c), es);
    TiledAggregationIsAccepted(c, ApplyAll(c, Fresh(c), es), later, f.startBlock, f.endBlock, w,
                               f.checkpoint.value.number);
  }

  // ---------------------------------------------------------------- a run whose retries are doomed

  /** The L1 block that is checkpointed for the aggregation. */
  const LOW: Checkpoint := Checkpoint(0, 0)

  /** Two ranges are proven, the lower one against a later L1 block; their aggregation has been requested
      before that, with the older block as its checkpoint, and its task errs. */
  function DoomedRun(): seq<Event> {
    EarlyRun() + [CreateAggregation(LOW), TaskCompletes(0, 8), StartNext, TaskErrs(2), Reap(2, NoFault)]
  }

  function Agg(status: RequestStatus): Request { NewAggRequest(0, 20, LOW).(id := 2, status := status) }

  function HighTask(): Task { Task(Ranged(1, Unrequested, 10, 20), Finished(true)) }

  /** The state after the lower range was proven. */
  function BothProven(status: RequestStatus, tasks: map<nat, Task>): State {
    State([ProvenRange(0, 0, 10, 8), ProvenRange(1, 10, 20, 7), Agg(status)], 3, tasks, 0, [])
  }

  function DoomedState(): State {
    BothProven(Failed, map[0 := LowTask(Finished(true)), 1 := HighTask()])
  }

  lemma LowCompletes()
    ensures var s := EarlyWith(LOW, WitnessGeneration, [], EarlyTasks()[0 := LowTask(Witnessing)]);
            Apply(EarlyConfig(), s, TaskCompletes(0, 8))
            == BothProven(Unrequested, map[0 := LowTask(Finished(true)), 1 := HighTask()])
  {
    var rows := EarlyWith(LOW, WitnessGeneration, [], map[]).rows;
    assert rows == [Ranged(0, WitnessGeneration, 0, 10), ProvenRange(1, 10, 20, 7), Agg(Unrequested)];
    assert Update(rows, 0, ToComplete(8)) == BothProven(Unrequested, map[]).rows;
  }

  lemma FirstTwo(a: Request, b: Request, d: Request, w: Where)
    requires Matches(w, a) && Matches(w, b) && !Matches(w, d) && a.startBlock <= b.startBlock
    ensures SelectOrdered([a, b, d], w) == [a, b]
  {
    assert [a, b, d] == [a, b] + [d];
    SelectConcat([a, b], [d], w);
    SelectAll([a, b], w);
    SelectNone([d], w);
    hide Matches;
    assert [a, b][1..] == [b] && [b][1..] == [];
    assert OrderByStart([b]) == InsertByStart(b, OrderByStart([])) == [b];
    assert OrderByStart([a, b]) == InsertByStart(a, [b]) == [a, b];
  }

  /** The rows that tile the blocks 0 to 19, whatever becomes of their aggregation. */
  lemma BothTile(status: RequestStatus)
    ensures var rows := BothProven(status, map[]).rows;
            Tile(rows, 0, 20) == [ProvenRange(0, 0, 10, 8), ProvenRange(1, 10, 20, 7)] && Tiled(rows, 0, 20)
  {
    FirstTwo(ProvenRange(0, 0, 10, 8), ProvenRange(1, 10, 20, 7), Agg(status), ConsecutiveComplete(0, 20));
    hide SelectOrdered;
  }

  lemma NextAggIs(s: State, agg: Request)
    requires agg in s.rows && Matches(UnrequestedAgg(s.latest), agg) && Tiled(s.rows, agg.startBlock, agg.endBlock)
    requires forall x :: x in s.rows && Matches(UnrequestedAgg(s.latest), x) ==> x == agg
    ensures NextUnrequested(s) == Some(agg)
  {
    FirstIsLeast(s.rows, UnrequestedAgg(s.latest));
    hide SelectOrdered, Tiled, Matches;
  }

  lemma OneAgg(status: RequestStatus)
    ensures forall x :: x in BothProven(status, map[]).rows && x.reqType == Aggregation ==> x == Agg(status)
    ensures Agg(status) in BothProven(status, map[]).rows
  {
    assert BothProven(status, map[]).rows[2] == Agg(status);
  }

  lemma AggIsNext(tasks: map<nat, Task>)
    ensures NextUnrequested(BothProven(Unrequested, tasks)) == Some(Agg(Unrequested))
  {
    BothTile(Unrequested);
    OneAgg(Unrequested);
    var s := BothProven(Unrequested, tasks);
    assert s.rows == BothProven(Unrequested, map[]).rows;
    hide SelectOrdered, Tiled, Tile, NextUnrequested, BothProven;
    NextAggIs(s, Agg(Unrequested));
  }

  lemma AggStarts(tasks: map<nat, Task>)
    ensures Apply(EarlyConfig(), BothProven(Unrequested, tasks), StartNext)
         == BothProven(WitnessGeneration, tasks[2 := Task(Agg(Unrequested), Witnessing)])
  {
    AggIsNext(tasks);
    hide Apply, NextUnrequested;
    var s := BothProven(Unrequested, tasks);
    StartIs(EarlyConfig(), s, Agg(Unrequested));
    assert Update(s.rows, 2, ToStatus(WitnessGeneration)) == BothProven(WitnessGeneration, tasks).rows;
  }

  lemma AggFails()
    ensures var c, tasks := EarlyConfig(), map[0 := LowTask(Finished(true)), 1 := HighTask()];
            var s6 := BothProven(WitnessGeneration, tasks[2 := Task(Agg(Unrequested), Witnessing)]);
            var s7 := BothProven(WitnessGeneration, tasks[2 := Task(Agg(Unrequested), Finished(false))]);
            Apply(c, s6, TaskErrs(2)) == s7 && Apply(c, s7, Reap(2, NoFault)) == DoomedState()
  {
    var tasks := map[0 := LowTask(Finished(true)), 1 := HighTask()];
    var s7 := BothProven(WitnessGeneration, tasks[2 := Task(Agg(Unrequested), Finished(false))]);
    assert s7.tasks - {2} == tasks;
    assert Update(s7.rows, 2, ToStatus(Failed)) == DoomedState().rows;
  }

  lemma DoomedReached()
    ensures ApplyAll(EarlyConfig(), Fresh(EarlyConfig()), DoomedRun()) == DoomedState()
  {
    var c, s, tasks := EarlyConfig(), EarlyState(), map[0 := LowTask(Finished(true)), 1 := HighTask()];
    var es := [CreateAggregation(LOW), TaskCompletes(0, 8), StartNext, TaskErrs(2), Reap(2, NoFault)];
    var s4 := EarlyWith(LOW, WitnessGeneration, [], EarlyTasks()[0 := LowTask(Witnessing)]);
    var s6 := BothProven(WitnessGeneration, tasks[2 := Task(Agg(Unrequested), Witnessing)]);
    var s7 := BothProven(WitnessGeneration, tasks[2 := Task(Agg(Unrequested), Finished(false))]);
    EarlyReached();
    EarlyRequest(LOW);
    LowCompletes();
    AggStarts(tasks);
    AggFails();
    hide Apply, Fresh, EarlyState, EarlyWith, BothProven, DoomedState, EarlyRun;
    ApplyAllConcat(c, Fresh(c), EarlyRun(), es);
    Unroll(c, s, es, 0);
    Unroll(c, s4, es, 1);
    Unroll(c, BothProven(Unrequested, tasks), es, 2);
    Unroll(c, s6, es, 3);
    Unroll(c, s7, es, 4);
    assert es[0..] == es;
  }

  // The outside world of that run: an L1 chain of two blocks, numbers as hashes and block numbers as roots.

  function Canon(): seq<Header> { [Header(0, 0, 0), Header(1, 0, 0)] }

  function CanonAt(n: nat): Option<Header> { if n < 2 then Some(Canon()[n]) else None }

  function Values(proof: nat): Option<BootInfo> {
    if proof == 7 then Some(BootInfo(0, 10, 20, 20, 0))
    else if proof == 8 then Some(BootInfo(1, 0, 10, 10, 0)) else None
  }

  function TwoBlocks(): World {
    var node := Node((h: Hash) => CanonAt(h), (n: nat) => CanonAt(n));
    World((h: Header) => h.number, (_, _) => true, Canon(), node, (n: nat) => n, 0, (p: nat) => Values(p), 0, 0)
  }

  lemma TwoBlocksServe()
    ensures var w := TwoBlocks();
            Serves(w.node, w.hashOf, w.canon) && ProofsHold(w, [ProvenRange(0, 0, 10, 8), ProvenRange(1, 10, 20, 7)])
  {
    var w := TwoBlocks();
    assert Canonical(w.hashOf, w.canon, 0) by { assert w.hashOf(w.canon[0]) == 0; }
    assert Canonical(w.hashOf, w.canon, 1) by { assert w.hashOf(w.canon[1]) == 1; }
  }

  lemma TwoBoots()
    ensures BootInfos(TwoBlocks(), [ProvenRange(0, 0, 10, 8), ProvenRange(1, 10, 20, 7)])
         == Done([BootInfo(1, 0, 10, 10, 0), BootInfo(0, 10, 20, 20, 0)])
  {
    var w, a, b := TwoBlocks(), ProvenRange(0, 0, 10, 8), ProvenRange(1, 10, 20, 7);
    var high, low := BootInfo(0, 10, 20, 20, 0), BootInfo(1, 0, 10, 10, 0);
    assert w.publicValues(7) == Some(high) && w.publicValues(8) == Some(low);
    assert [a, b][1..] == [b] && [b][1..] == [];
    assert BootInfos(w, []) == Done([]);
    assert [high] + [] == [high];
    assert BootInfos(w, [b]) == Done([high]);
    assert [low] + [high] == [low, high];
  }

  lemma DoomedCompleted()
    ensures Completed(DoomedState()) == [Span(0, 10), Span(10, 20)]
  {
    var a, b := ProvenRange(0, 0, 10, 8), ProvenRange(1, 10, 20, 7);
    FirstTwo(a, b, Agg(Failed), CompletedRanges(0));
    hide SelectOrdered;
    assert Spans([a, b]) == [Span(0, 10), Span(10, 20)];
  }

  lemma DoomedTarget()
    ensures AggTarget(EarlyConfig(), DoomedState()) == Some(20)
  {
    DoomedCompleted();
    SelectNone(DoomedState().rows, ActiveAggs(0));
    hide Select, Completed;
    var spans := [Span(0, 10), Span(10, 20)];
    assert spans[1..] == [Span(10, 20)] && [Span(10, 20)][1..] == [];
    assert ContiguousEnd(10, [Span(10, 20)]) == ContiguousEnd(20, []);
  }

  /** The lower range was proven against an L1 block above the checkpoint. */
  lemma HighHead()
    ensures var w := TwoBlocks();
            Height(w.node, BootInfo(1, 0, 10, 10, 0)) == 1 && |w.canon| == 2 && w.hashOf(w.canon[0]) == 0
  {
  }

  lemma DoomedRow()
    ensures var failed := Agg(Failed);
            && failed in DoomedState().rows && FailedAgg(failed) && failed.startBlock == 0 && failed.endBlock == 20
            && failed.checkpoint == Some(LOW) && LOW.number == 0 && LOW.hash == 0
  {
    assert DoomedState().rows[2] == Agg(Failed);
  }

  lemma DoomedTile(later: seq<Event>)
    ensures Tile(DoomedState().rows, 0, 20) == [ProvenRange(0, 0, 10, 8), ProvenRange(1, 10, 20, 7)]
    ensures Tiled(DoomedState().rows, 0, 20)
    ensures Tile(ApplyAll(EarlyConfig(), DoomedState(), later).rows, 0, 20) == Tile(DoomedState().rows, 0, 20)
  {
    var c := EarlyConfig();
    BothTile(Failed);
    DoomedReached();
    FreshInv(c);
    assert DoomedState().rows == BothProven(Failed, map[]).rows;
    hide Inv, ApplyAll, Tile, Tiled, DoomedState, DoomedRun, Fresh;
    RunKeepsInv(c, Fresh(c), DoomedRun());
    TileNeverChanges(c, DoomedState(), later, 0, 20);
  }

  /** Some runs reach a state in which every range is proven, the aggregation is requested again, and can
      never succeed: the guest rejects it now and after anything that leaves the latest block where it is. */
  lemma DoomedRetry(later: seq<Event>, header: Checkpoint)
    requires ApplyAll(EarlyConfig(), DoomedState(), later).latest == 0
    ensures ApplyAll(EarlyConfig(), Fresh(EarlyConfig()), DoomedRun()) == DoomedState()
    ensures AggTarget(EarlyConfig(), DoomedState()) == Some(20) && Tiled(DoomedState().rows, 0, 20)
    ensures var w, s' := TwoBlocks(), ApplyAll(EarlyConfig(), DoomedState(), later);
            var boots, tip := BootInfos(w, Tile(s'.rows, 0, 20)), AggCheckpoint(s', 20, header).hash;
            && AggCheckpoint(s', 20, header) == LOW
            && boots.Done? && Fetchable(w.node, boots.value, tip)
            && forall headers :: HeadersFor(w.node, boots.value, tip, headers) ==>
                  !Accepts(w.hashOf, w.verifies, Inputs(w, boots.value, tip), headers)
  {
    hide *;
    DoomedReached();
    DoomedTarget();
    DoomedTile(later);
    DoomedRow();
    TwoBlocksServe();
    TwoBoots();
    HighHead();
    var low, high := BootInfo(1, 0, 10, 10, 0), BootInfo(0, 10, 20, 20, 0);
    assert low in [low, high];
    CheckpointIsStuck(EarlyConfig(), DoomedRun(), later, Agg(Failed), header);
    RetriesAcceptedIff(EarlyConfig(), DoomedRun(), later, Agg(Failed), TwoBlocks(), header);
  }
}
