/** Two runs from an empty table that reach states which the comments in
    op-succinct/validity/src/proposer.rs and utils.rs rule out. */
module ProposerExamples {
  import opened Requests
  import opened BlockSpans
  import opened RequestTable
  import opened ProposerModel
  import opened ProposerInvariant
  import opened ProposerSteps
  import opened ProposerRuns
  import opened RangePlanning
  import opened StartOrder

  // ---------------------------------------------------------------- picking the next request

  lemma NextRangeIs(s: State, r: Request)
    requires r in s.rows && Matches(UnrequestedRange(s.latest), r)
    requires forall x :: x in s.rows ==> !Matches(UnrequestedAgg(s.latest), x)
    requires forall x :: x in s.rows && Matches(UnrequestedRange(s.latest), x) ==> x == r || x.startBlock > r.startBlock
    ensures NextUnrequested(s) == Some(r)
  {
    FirstIsLeast(s.rows, UnrequestedAgg(s.latest));
    FirstIsLeast(s.rows, UnrequestedRange(s.latest));
    hide SelectOrdered, Tiled, Matches;
  }

  lemma {:induction false} CountAtMost(rows: seq<Request>, w: Where)
    ensures Count(rows, w) <= |rows|
  {
    if rows != [] { CountAtMost(rows[1..], w); }
  }

  lemma RoomIfFew(c: Config, rows: seq<Request>)
    requires 3 * |rows| < c.maxConcurrentProofRequests && |rows| < c.maxConcurrentWitnessGen
    ensures HasCapacity(c, rows)
  {
    CountAtMost(rows, WithStatus(WitnessGeneration));
    CountAtMost(rows, WithStatus(Execution));
    CountAtMost(rows, WithStatus(Prove));
    hide Count;
  }

  lemma StartIs(c: Config, s: State, r: Request)
    requires 3 * |s.rows| < c.maxConcurrentProofRequests && |s.rows| < c.maxConcurrentWitnessGen
    requires NextUnrequested(s) == Some(r)
    ensures Apply(c, s, StartNext) == Spawn(s, r)
  {
    RoomIfFew(c, s.rows);
    hide NextUnrequested, HasCapacity, Spawn;
  }

  lemma UpdateTwo(a: Request, b: Request, change: Change)
    requires a.id != b.id
    ensures Update([a, b], a.id, change) == [ApplyChange(a, change), b]
    ensures Update([a, b], b.id, change) == [a, ApplyChange(b, change)]
  {
  }

  lemma UpdateThree(a: Request, b: Request, d: Request, change: Change)
    requires a.id != b.id && b.id != d.id && a.id != d.id
    ensures Update([a, b, d], b.id, change) == [a, ApplyChange(b, change), d]
  {
  }

  function Ranged(id: nat, status: RequestStatus, start: nat, end: nat): Request {
    Request(id, status, Range, start, end, None, None, None)
  }

  // ---------------------------------------------------------------- an aggregation too early

  function EarlyConfig(): Config { Config(10, 10, 10, 100, 100, false, true, 0) }

  /** Two ranges are planned and started; the upper one is proven first. */
  function EarlyRun(): seq<Event> { [AddNewRanges(20), StartNext, StartNext, TaskCompletes(1, 7)] }

  function EarlyRows(low: RequestStatus, high: RequestStatus): seq<Request> {
    [Ranged(0, low, 0, 10), Ranged(1, high, 10, 20)]
  }

  function EarlyState(): State {
    var low, high := Ranged(0, Unrequested, 0, 10), Ranged(1, Unrequested, 10, 20);
    State([Ranged(0, WitnessGeneration, 0, 10), high.(status := Complete, proof := Some(7))], 2,
          map[0 := Task(low, Witnessing), 1 := Task(high, Finished(true))], 0, [])
  }

  lemma EarlyPlan()
    ensures Apply(EarlyConfig(), Fresh(EarlyConfig()), AddNewRanges(20))
      == State(EarlyRows(Unrequested, Unrequested), 2, map[], 0, [])
  {
    var c := EarlyConfig();
    FreshChunks(c, 2);
    assert Chop(0, 20, 10) == [Span(0, 10)] + ([Span(10, 20)] + Chop(20, 20, 10));
    hide NewChunks, Chop;
    var chunks := [Span(0, 10), Span(10, 20)];
    assert NewChunks(c, Fresh(c), 20) == chunks;
    assert Stamp(NewRanges(chunks), 0) == EarlyRows(Unrequested, Unrequested);
  }

  lemma EarlyStarts()
    ensures var c, low, high := EarlyConfig(), Ranged(0, Unrequested, 0, 10), Ranged(1, Unrequested, 10, 20);
            var s1 := State(EarlyRows(Unrequested, Unrequested), 2, map[], 0, []);
            var s2 := State(EarlyRows(WitnessGeneration, Unrequested), 2, map[0 := Task(low, Witnessing)], 0, []);
            var s3 := State(EarlyRows(WitnessGeneration, WitnessGeneration), 2,
                            map[0 := Task(low, Witnessing), 1 := Task(high, Witnessing)], 0, []);
            Apply(c, s1, StartNext) == s2 && Apply(c, s2, StartNext) == s3
  {
    var c, low, high := EarlyConfig(), Ranged(0, Unrequested, 0, 10), Ranged(1, Unrequested, 10, 20);
    var s1 := State(EarlyRows(Unrequested, Unrequested), 2, map[], 0, []);
    var s2 := State(EarlyRows(WitnessGeneration, Unrequested), 2, map[0 := Task(low, Witnessing)], 0, []);
    assert low in s1.rows && high in s2.rows;
    hide Apply, NextUnrequested;
    NextRangeIs(s1, low);
    NextRangeIs(s2, high);
    StartIs(c, s1, low);
    StartIs(c, s2, high);
    UpdateTwo(low, high, ToStatus(WitnessGeneration));
    UpdateTwo(Ranged(0, WitnessGeneration, 0, 10), high, ToStatus(WitnessGeneration));
  }

  lemma EarlyReached()
    ensures ApplyAll(EarlyConfig(), Fresh(EarlyConfig()), EarlyRun()) == EarlyState()
  {
    var c, es, low, high := EarlyConfig(), EarlyRun(), Ranged(0, Unrequested, 0, 10), Ranged(1, Unrequested, 10, 20);
    var s1 := State(EarlyRows(Unrequested, Unrequested), 2, map[], 0, []);
    var s2 := State(EarlyRows(WitnessGeneration, Unrequested), 2, map[0 := Task(low, Witnessing)], 0, []);
    var s3 := State(EarlyRows(WitnessGeneration, WitnessGeneration), 2,
                    map[0 := Task(low, Witnessing), 1 := Task(high, Witnessing)], 0, []);
    EarlyPlan();
    EarlyStarts();
    UpdateTwo(Ranged(0, WitnessGeneration, 0, 10), Ranged(1, WitnessGeneration, 10, 20), ToComplete(7));
    assert Apply(c, s3, TaskCompletes(1, 7)) == EarlyState();
    hide Apply, Fresh, EarlyState;
    Unroll(c, Fresh(c), es, 0);
    Unroll(c, s1, es, 1);
    Unroll(c, s2, es, 2);
    Unroll(c, s3, es, 3);
    assert es[0..] == es;
  }

  lemma EarlyTarget()
    ensures AggTarget(EarlyConfig(), EarlyState()) == Some(20) && Completed(EarlyState()) == [Span(10, 20)]
  {
    var s := EarlyState();
    var done := s.rows[1];
    SelectNone(s.rows, ActiveAggs(0));
    assert s.rows[1..] == [done] && [done][1..] == [];
    assert Select([done], CompletedRanges(0)) == [done];
    assert Select(s.rows, CompletedRanges(0)) == [done];
    assert OrderByStart([done]) == InsertByStart(done, OrderByStart([])) == [done];
    assert Spans([done]) == [Span(10, 20)] + Spans([]);
  }

  lemma EarlyInv()
    ensures Inv(EarlyConfig(), EarlyState())
  {
    hide Inv, ApplyAll;
    EarlyReached();
    FreshInv(EarlyConfig());
    RunKeepsInv(EarlyConfig(), Fresh(EarlyConfig()), EarlyRun());
  }

  lemma EarlyUntiled()
    ensures !Tiled(EarlyState().rows, 0, 20)
  {
    EarlyInv();
    EarlyTarget();
    AggValidAtCreationIff(EarlyConfig(), EarlyState());
    hide Inv, AggTarget, Completed, Tiled;
  }

  /** `create_aggregation_proofs` requests an aggregation of [0, 20) while [0, 10) is still being proven. It is
      not tiled, so the validation refuses it for now. */
  lemma EarlyAggregation(header: Checkpoint)
    ensures ApplyAll(EarlyConfig(), Fresh(EarlyConfig()), EarlyRun()) == EarlyState()
      && Inv(EarlyConfig(), EarlyState())
    ensures AggTarget(EarlyConfig(), EarlyState()) == Some(20) && Completed(EarlyState()) == [Span(10, 20)]
    ensures CreateAgg(EarlyConfig(), EarlyState(), header).rows
         == EarlyState().rows + [NewAggRequest(0, 20, AggCheckpoint(EarlyState(), 20, header)).(id := 2)]
    ensures !Tiled(EarlyState().rows, 0, 20)
  {
    var (c, s) := (EarlyConfig(), EarlyState());
    hide ApplyAll, AggTarget, Completed, Tiled, AggCheckpoint, Inv;
    EarlyReached();
    EarlyInv();
    EarlyTarget();
    EarlyUntiled();
    var agg := NewAggRequest(0, 20, AggCheckpoint(s, 20, header));
    assert Stamp([agg], 2) == [agg.(id := 2)];
  }

  // ---------------------------------------------------------------- the aggregation waits, its range does not

  /** The lower range fails while the aggregation waits for it, and is planned again. */
  function WaitingRun(header: Checkpoint): seq<Event> {
    EarlyRun() + [CreateAggregation(header), TaskErrs(0), Reap(0, NoFault), AddNewRanges(20)]
  }

  function ProvenRange(id: nat, start: nat, end: nat, proof: nat): Request {
    Ranged(id, Complete, start, end).(proof := Some(proof))
  }

  function WaitingAgg(header: Checkpoint): Request { NewAggRequest(0, 20, header).(id := 2) }

  /** The state with the aggregation, at some status of the lower range. */
  function EarlyWith(header: Checkpoint, low: RequestStatus, more: seq<Request>, tasks: map<nat, Task>): State {
    State([Ranged(0, low, 0, 10), ProvenRange(1, 10, 20, 7), WaitingAgg(header)] + more, 3 + |more|, tasks, 0, [])
  }

  function EarlyTasks(): map<nat, Task> { map[1 := Task(Ranged(1, Unrequested, 10, 20), Finished(true))] }

  function LowTask(phase: TaskPhase): Task { Task(Ranged(0, Unrequested, 0, 10), phase) }

  function WaitingState(header: Checkpoint): State {
    EarlyWith(header, Failed, [Ranged(3, Unrequested, 0, 10)], EarlyTasks())
  }

  lemma EarlyCheckpoint(header: Checkpoint)
    ensures AggCheckpoint(EarlyState(), 20, header) == header
  {
    SelectNone(EarlyState().rows, FailedAggWithCheckpoint(0, 20));
    hide Select;
  }

  lemma EarlyRequest(header: Checkpoint)
    ensures Apply(EarlyConfig(), EarlyState(), CreateAggregation(header))
         == EarlyWith(header, WitnessGeneration, [], EarlyTasks()[0 := LowTask(Witnessing)])
  {
    EarlyTarget();
    EarlyCheckpoint(header);
    hide AggTarget, AggCheckpoint;
    assert Stamp([NewAggRequest(0, 20, header)], 2) == [WaitingAgg(header)];
    assert EarlyState().rows + [WaitingAgg(header)]
        == EarlyWith(header, WitnessGeneration, [], EarlyTasks()[0 := LowTask(Witnessing)]).rows;
  }

  lemma FailsOnce(header: Checkpoint)
    ensures Count(EarlyWith(header, Failed, [], map[]).rows, FailedByBlockRange(0, 10)) == 1
  {
    var rows := EarlyWith(header, Failed, [], map[]).rows;
    SelectCons(rows, FailedByBlockRange(0, 10));
    SelectNone(rows[1..], FailedByBlockRange(0, 10));
  }

  lemma LowFails(header: Checkpoint)
    ensures var c := EarlyConfig();
            var s5 := EarlyWith(header, WitnessGeneration, [], EarlyTasks()[0 := LowTask(Witnessing)]);
            var s6 := EarlyWith(header, WitnessGeneration, [], EarlyTasks()[0 := LowTask(Finished(false))]);
            && Apply(c, s5, TaskErrs(0)) == s6
            && Apply(c, s6, Reap(0, NoFault)) == EarlyWith(header, Failed, [], EarlyTasks())
  {
    var s6 := EarlyWith(header, WitnessGeneration, [], EarlyTasks()[0 := LowTask(Finished(false))]);
    FailsOnce(header);
    hide Count;
    assert s6.tasks - {0} == EarlyTasks();
    assert Update(s6.rows, 0, ToStatus(Failed)) == EarlyWith(header, Failed, [], map[]).rows;
  }

  lemma LowPlanned(header: Checkpoint)
    ensures Planned(EarlyWith(header, Failed, [], EarlyTasks())) == [Span(10, 20)]
    ensures Gaps(0, 20, [Span(10, 20)]) == [Span(0, 10)] && ChopAll([Span(0, 10)], 10) == [Span(0, 10)]
  {
    var rows, high := EarlyWith(header, Failed, [], EarlyTasks()).rows, ProvenRange(1, 10, 20, 7);
    var w := RangesAfterBlock(ACTIVE, 0);
    assert rows == [rows[0]] + ([high] + [WaitingAgg(header)]);
    SelectNone([rows[0]], w);
    SelectNone([WaitingAgg(header)], w);
    SelectAll([high], w);
    SelectConcat([high], [WaitingAgg(header)], w);
    SelectConcat([rows[0]], [high] + [WaitingAgg(header)], w);
    assert [high][1..] == [] && Select(rows, w) == [high];
    assert OrderByStart([high]) == InsertByStart(high, OrderByStart([])) == [high];
    assert Spans([high]) == [Span(10, 20)] + Spans([]);
    assert [Span(10, 20)][1..] == [] && [Span(0, 10)][1..] == [];
    assert Gaps(0, 20, [Span(10, 20)]) == [Span(0, 10)] + Gaps(20, 20, []);
    assert Chop(0, 10, 10) == [Span(0, 10)] + Chop(10, 10, 10);
    assert ChopAll([Span(0, 10)], 10) == Chop(0, 10, 10) + ChopAll([], 10);
  }

  lemma LowAgain(header: Checkpoint)
    ensures Apply(EarlyConfig(), EarlyWith(header, Failed, [], EarlyTasks()), AddNewRanges(20)) == WaitingState(header)
  {
    LowPlanned(header);
    hide Planned, Gaps, ChopAll;
    var s := EarlyWith(header, Failed, [], EarlyTasks());
    assert NewChunks(EarlyConfig(), s, 20) == [Span(0, 10)];
    hide NewChunks;
    assert Stamp(NewRanges([Span(0, 10)]), 3) == [Ranged(3, Unrequested, 0, 10)];
    assert s.rows + [Ranged(3, Unrequested, 0, 10)] == WaitingState(header).rows;
  }

  lemma WaitingReached(header: Checkpoint)
    ensures ApplyAll(EarlyConfig(), Fresh(EarlyConfig()), WaitingRun(header)) == WaitingState(header)
  {
    var c, es := EarlyConfig(), [CreateAggregation(header), TaskErrs(0), Reap(0, NoFault), AddNewRanges(20)];
    var s5 := EarlyWith(header, WitnessGeneration, [], EarlyTasks()[0 := LowTask(Witnessing)]);
    var s6 := EarlyWith(header, WitnessGeneration, [], EarlyTasks()[0 := LowTask(Finished(false))]);
    EarlyReached();
    EarlyRequest(header);
    LowFails(header);
    LowAgain(header);
    hide Apply, Fresh, EarlyState, EarlyWith, WaitingState, EarlyRun;
    ApplyAllConcat(c, Fresh(c), EarlyRun(), es);
    Unroll(c, EarlyState(), es, 0);
    Unroll(c, s5, es, 1);
    Unroll(c, s6, es, 2);
    Unroll(c, EarlyWith(header, Failed, [], EarlyTasks()), es, 3);
    assert es[0..] == es;
  }

  lemma WaitingPick(header: Checkpoint)
    ensures var s, r := WaitingState(header), Ranged(3, Unrequested, 0, 10);
            LowestRange(s, r) && s.rows[3] == r && forall a :: !ReadyAgg(s, a)
  {
    var s, agg := WaitingState(header), WaitingAgg(header);
    assert s.rows[3] == Ranged(3, Unrequested, 0, 10);
    forall a ensures !ReadyAgg(s, a) {
      if a == agg { assert !Proven(s.rows, 0, 20, 0); }
    }
  }

  /** The aggregation of [0, 20) is still waiting, but the range [0, 10) that it lacks is started next. */
  lemma RangeStartsBesideAgg(header: Checkpoint)
    ensures var c, s := EarlyConfig(), WaitingState(header);
            && ApplyAll(c, Fresh(c), WaitingRun(header)) == s && WaitingAgg(header) in s.rows
            && Apply(c, s, StartNext).rows == s.rows[3 := s.rows[3].(status := WitnessGeneration)]
            && s.rows[3] == Ranged(3, Unrequested, 0, 10)
  {
    var c, s := EarlyConfig(), WaitingState(header);
    WaitingReached(header);
    WaitingPick(header);
    FreshInv(c);
    RunKeepsInv(c, Fresh(c), WaitingRun(header));
    assert s.rows[2] == WaitingAgg(header) && |s.rows| == 4;
    RoomIfFew(c, s.rows);
    hide Inv, ApplyAll, Apply, WaitingState, WaitingRun, LowestRange, ReadyAgg, Count;
    var i := StartsThatRequest(c, s, s.rows[3]);
  }

  // ---------------------------------------------------------------- a hole between requests

  function HoleConfig(): Config { Config(10, 100, 100, 100, 100, false, false, 0) }

  function ProvingRange(id: nat, start: nat, end: nat): Request {
    Request(id, Prove, Range, start, end, Some(0), None, None)
  }

  function FailedRange(id: nat, start: nat, end: nat): Request {
    Request(id, Failed, Range, start, end, Some(0), None, None)
  }

  /** The range [0, 10) is planned, found unexecutable and split; then its lower half fails as well. */
  function HoleRun(): seq<Event> {
    [AddNewRanges(10), StartNext, TaskRequestsProof(0, 0), ProofFails(ProvingRange(0, 0, 10), true, NoFault),
     StartNext, TaskRequestsProof(1, 0), ProofFails(ProvingRange(1, 0, 5), false, NoFault)]
  }

  function HoleState(): State {
    State([FailedRange(0, 0, 10), FailedRange(1, 0, 5), Ranged(2, Unrequested, 5, 10)], 3,
          map[0 := Task(Ranged(0, Unrequested, 0, 10), Finished(true)),
              1 := Task(Ranged(1, Unrequested, 0, 5), Finished(true))],
          0, [])
  }

  lemma HolePlan()
    ensures Apply(HoleConfig(), Fresh(HoleConfig()), AddNewRanges(10))
      == State([Ranged(0, Unrequested, 0, 10)], 1, map[], 0, [])
  {
    var c := HoleConfig();
    FreshChunks(c, 1);
    assert Chop(0, 10, 10) == [Span(0, 10)] + Chop(10, 10, 10);
    hide NewChunks, Chop;
    assert NewChunks(c, Fresh(c), 10) == [Span(0, 10)];
    assert Stamp(NewRanges([Span(0, 10)]), 0) == [Ranged(0, Unrequested, 0, 10)];
  }

  /** The state after the split, with the rows and tasks of the parent. */
  function SplitState(): State {
    State([FailedRange(0, 0, 10), Ranged(1, Unrequested, 0, 5), Ranged(2, Unrequested, 5, 10)], 3,
          map[0 := Task(Ranged(0, Unrequested, 0, 10), Finished(true))], 0, [])
  }

  lemma HoleSplit()
    ensures ApplyAll(HoleConfig(), Fresh(HoleConfig()), HoleRun())
      == ApplyAll(HoleConfig(), SplitState(), HoleRun()[4..])
  {
    var c, es, r := HoleConfig(), HoleRun(), Ranged(0, Unrequested, 0, 10);
    var s1 := State([r], 1, map[], 0, []);
    var s2 := State([r.(status := WitnessGeneration)], 1, map[0 := Task(r, Witnessing)], 0, []);
    var s3 := State([ProvingRange(0, 0, 10)], 1, map[0 := Task(r, Finished(true))], 0, []);
    HolePlan();
    assert r in s1.rows;
    NextRangeIs(s1, r);
    StartIs(c, s1, r);
    assert Update([r], 0, ToStatus(WitnessGeneration)) == s2.rows;
    assert Spawn(s1, r) == s2;
    assert Apply(c, s2, TaskRequestsProof(0, 0)) == s3 by {
      assert Update(s2.rows, 0, ToProve(0)) == s3.rows;
    }
    SplitsTen(s3);
    hide Apply, Fresh, SplitState, NextUnrequested;
    Unroll(c, Fresh(c), es, 0);
    Unroll(c, s1, es, 1);
    Unroll(c, s2, es, 2);
    Unroll(c, s3, es, 3);
    assert es[0..] == es;
  }

  lemma SplitsTen(s: State)
    requires var parent := Task(Ranged(0, Unrequested, 0, 10), Finished(true));
             s == State([ProvingRange(0, 0, 10)], 1, map[0 := parent], 0, [])
    ensures Apply(HoleConfig(), s, ProofFails(ProvingRange(0, 0, 10), true, NoFault)) == SplitState()
  {
    hide Count;
    assert ProvingRange(0, 0, 10) in s.rows;
    assert Update(s.rows, 0, ToStatus(Failed)) == [FailedRange(0, 0, 10)];
    var halves := [Span(0, 5), Span(5, 10)];
    assert Halves(0, 10) == halves;
    assert Stamp(NewRanges(halves), 1) == [Ranged(1, Unrequested, 0, 5), Ranged(2, Unrequested, 5, 10)];
  }

  function LowerState(lower: Request, phase: TaskPhase): State {
    State([FailedRange(0, 0, 10), lower, Ranged(2, Unrequested, 5, 10)], 3,
          map[0 := Task(Ranged(0, Unrequested, 0, 10), Finished(true)), 1 := Task(Ranged(1, Unrequested, 0, 5), phase)],
          0, [])
  }

  lemma LowerStarts()
    ensures Apply(HoleConfig(), SplitState(), StartNext) == LowerState(Ranged(1, WitnessGeneration, 0, 5), Witnessing)
  {
    var c, s4, b := HoleConfig(), SplitState(), Ranged(1, Unrequested, 0, 5);
    assert b in s4.rows;
    NextRangeIs(s4, b);
    StartIs(c, s4, b);
    hide Apply, NextUnrequested;
    UpdateThree(FailedRange(0, 0, 10), b, Ranged(2, Unrequested, 5, 10), ToStatus(WitnessGeneration));
  }

  lemma LowerProves()
    ensures Apply(HoleConfig(), LowerState(Ranged(1, WitnessGeneration, 0, 5), Witnessing), TaskRequestsProof(1, 0))
         == LowerState(ProvingRange(1, 0, 5), Finished(true))
  {
    UpdateThree(FailedRange(0, 0, 10), Ranged(1, WitnessGeneration, 0, 5), Ranged(2, Unrequested, 5, 10), ToProve(0));
  }

  lemma LowerFails()
    ensures ApplyAll(HoleConfig(), SplitState(), HoleRun()[4..]) == HoleState()
  {
    var c, es := HoleConfig(), HoleRun();
    var s5 := LowerState(Ranged(1, WitnessGeneration, 0, 5), Witnessing);
    var s6 := LowerState(ProvingRange(1, 0, 5), Finished(true));
    FailsUnsplit(s6);
    LowerStarts();
    LowerProves();
    hide Apply, HoleState, SplitState, LowerState;
    Unroll(c, SplitState(), es, 4);
    Unroll(c, s5, es, 5);
    Unroll(c, s6, es, 6);
  }

  lemma FailsUnsplit(s: State)
    requires s == LowerState(ProvingRange(1, 0, 5), Finished(true))
    ensures Apply(HoleConfig(), s, ProofFails(ProvingRange(1, 0, 5), false, NoFault)) == HoleState()
  {
    var a, q, d := FailedRange(0, 0, 10), ProvingRange(1, 0, 5), Ranged(2, Unrequested, 5, 10);
    assert q in s.rows;
    UpdateThree(a, q, d, ToStatus(Failed));
    var failed := [a, FailedRange(1, 0, 5), d];
    assert Update(s.rows, 1, ToStatus(Failed)) == failed;
    CountOfThree(failed, FailedByBlockRange(0, 5));
    hide Count;
  }

  lemma CountOfThree(rows: seq<Request>, w: Where)
    requires |rows| == 3 && !Matches(w, rows[0])
    ensures Count(rows, w) <= 2
  {
    SelectCons(rows, w);
    CountAtMost(rows[1..], w);
  }

  lemma HoleChunks()
    ensures var (c, s) := (HoleConfig(), HoleState());
            && NewChunks(c, s, 10) == [] && Hole(c, s, 10) == Some(Span(0, 5)) && Tip(s, 10) == 10
            && NewChunks(c, s, 11) == [Span(0, 5)]
  {
    var (c, s) := (HoleConfig(), HoleState());
    var w, d := RangesAfterBlock(ACTIVE, 0), s.rows[2];
    SelectCons(s.rows, w);
    SelectCons(s.rows[1..], w);
    SelectCons(s.rows[2..], w);
    assert s.rows[1..][1..] == s.rows[2..] == [d] && [d][1..] == [];
    assert Select(s.rows, w) == [d];
    assert OrderByStart([d]) == InsertByStart(d, OrderByStart([])) == [d];
    assert Planned(s) == [Span(5, 10)] by { assert Spans([d]) == [Span(5, 10)] + Spans([]); }
    hide Select, OrderByStart, Planned, SelectOrdered;
    ShortGap();
    ShortGaps();
    assert [Span(5, 10)][1..] == [];
  }

  lemma ShortGap()
    ensures Gaps(0, 10, [Span(5, 10)]) == [Span(0, 5)] && ChopAll([Span(0, 5)], 10) == [Span(0, 5)]
  {
    assert [Span(5, 10)][1..] == [] && [Span(0, 5)][1..] == [];
    assert Gaps(0, 10, [Span(5, 10)]) == [Span(0, 5)] + Gaps(10, 10, []);
    assert Chop(0, 5, 10) == [Span(0, 5)] + Chop(5, 5, 10);
    assert ChopAll([Span(0, 5)], 10) == Chop(0, 5, 10) + ChopAll([], 10);
  }

  lemma ShortGaps()
    ensures var gaps := [Span(0, 5), Span(10, 11)]; Gaps(0, 11, [Span(5, 10)]) == gaps && ChopAll(gaps, 10) == gaps
  {
    ShortGap();
    var last := Span(10, 11);
    assert [Span(5, 10)][1..] == [] && [Span(0, 5), last][1..] == [last] && [last][1..] == [];
    assert Gaps(0, 11, [Span(5, 10)]) == [Span(0, 5)] + Gaps(10, 11, []);
    assert Chop(0, 5, 10) == [Span(0, 5)] + Chop(5, 5, 10);
    assert Chop(10, 11, 10) == [last] + Chop(11, 11, 10);
    assert ChopAll([last], 10) == Chop(10, 11, 10) + ChopAll([], 10);
    assert ChopAll([Span(0, 5), last], 10) == Chop(0, 5, 10) + ChopAll([last], 10);
  }

  /** The dropped chunk is not the one near the tip: blocks 0 to 4 are left without a request below the active
      request for 5 to 9, until the finalized block has passed the end of that one. */
  lemma InteriorHole()
    ensures var c := HoleConfig();
            var s := ApplyAll(c, Fresh(c), HoleRun());
            && Inv(c, s) && NewChunks(c, s, 10) == [] && Hole(c, s, 10) == Some(Span(0, 5)) && Tip(s, 10) == 10
            && NewChunks(c, s, 11) == [Span(0, 5)]
  {
    var c := HoleConfig();
    RunKeepsInv(c, Fresh(c), HoleRun());
    HoleSplit();
    LowerFails();
    HoleChunks();
    hide Inv, ApplyAll, NewChunks, Hole, Tip, HoleState, HoleRun;
  }
}
