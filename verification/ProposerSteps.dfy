/** Every event of the proposer keeps the invariant. */
module ProposerSteps {
  import opened Requests
  import opened BlockSpans
  import opened RequestTable
  import opened ProposerModel
  import opened ProposerInvariant

  lemma RowIndex(rows: seq<Request>, r: Request) returns (k: nat)
    requires r in rows
    ensures k < |rows| && rows[k] == r
  {
    k :| 0 <= k < |rows| && rows[k] == r;
  }

  /** The row of a task. */
  lemma TaskRow(c: Config, s: State, id: nat) returns (r: Request)
    requires TasksOk(c, s.rows, s.tasks) && id in s.tasks
    ensures r in s.rows && r.id == id && SameJob(r, s.tasks[id].request) && RowFits(c, s.tasks[id].phase, r)
  {
    r :| r in s.rows && r.id == id && SameJob(r, s.tasks[id].request) && RowFits(c, s.tasks[id].phase, r);
  }

  lemma TasksAfterReplace(c: Config, rows: seq<Request>, nextId: nat, k: nat, b: Request, tasks: map<nat, Task>,
                          tasks': map<nat, Task>)
    requires TasksOk(c, rows, tasks) && IdsOk(rows, nextId) && k < |rows| && b.id == rows[k].id
    requires forall id :: id in tasks' && id != b.id ==> id in tasks && tasks'[id] == tasks[id]
    requires b.id in tasks' ==> SameJob(b, tasks'[b.id].request) && RowFits(c, tasks'[b.id].phase, b)
    ensures TasksOk(c, rows[k := b], tasks')
  {
    ReplaceMembers(rows, nextId, k, b);
    forall id | id in tasks'
      ensures exists r ::
        r in rows[k := b] && r.id == id && SameJob(r, tasks'[id].request) && RowFits(c, tasks'[id].phase, r)
    {
      if id == b.id {
        assert b in rows[k := b];
      } else {
        var r :| r in rows && r.id == id && SameJob(r, tasks[id].request) && RowFits(c, tasks[id].phase, r);
        assert r in rows[k := b];
      }
    }
  }

  lemma TasksAfterAppend(c: Config, rows: seq<Request>, more: seq<Request>, tasks: map<nat, Task>)
    requires TasksOk(c, rows, tasks)
    ensures TasksOk(c, rows + more, tasks)
  {
    forall id | id in tasks
      ensures exists r ::
        r in rows + more && r.id == id && SameJob(r, tasks[id].request) && RowFits(c, tasks[id].phase, r)
    {
      var r :| r in rows && r.id == id && SameJob(r, tasks[id].request) && RowFits(c, tasks[id].phase, r);
      assert r in rows + more;
    }
  }

  /** One legal change of one row, with the task map touched at that row only. */
  lemma ChangeKeepsInv(c: Config, s: State, r: Request, change: Change, tasks: map<nat, Task>)
    requires Inv(c, s) && r in s.rows && Transition(c, r, ApplyChange(r, change))
    requires ValidatedAgg(ApplyChange(r, change)) ==> Tiled(s.rows, r.startBlock, r.endBlock)
    requires forall id :: id in tasks && id != r.id ==> id in s.tasks && tasks[id] == s.tasks[id]
    requires r.id in tasks ==> SameJob(r, tasks[r.id].request) && RowFits(c, tasks[r.id].phase, ApplyChange(r, change))
    ensures Inv(c, s.(rows := Update(s.rows, r.id, change), tasks := tasks))
  {
    var k := RowIndex(s.rows, r);
    UpdateIsReplace(s.rows, s.nextId, k, change);
    ReplaceKeepsTable(c, s, k, ApplyChange(r, change));
    TasksAfterReplace(c, s.rows, s.nextId, k, ApplyChange(r, change), s.tasks, tasks);
    var s' := s.(rows := Update(s.rows, r.id, change));
    assert TableOk(c, s');
    assert TableOk(c, s'.(tasks := tasks));
  }

  lemma InsertRangesKeepsInv(c: Config, s: State, spans: seq<Span>)
    requires Inv(c, s) && Insertable(s, spans)
    ensures Inv(c, InsertRanges(s, spans))
  {
    InsertRangesKeepsTable(c, s, spans);
    TasksAfterAppend(c, s.rows, Stamp(NewRanges(spans), s.nextId), s.tasks);
  }

  /** Both halves of a split are non-empty, rejoin to the parent, and differ by at most one block. */
  lemma HalvesShape(start: nat, end: nat)
    requires end > start + 1
    ensures NonEmpty(Halves(start, end)) && Ordered(Halves(start, end))
    ensures var (a, b) := (Halves(start, end)[0], Halves(start, end)[1]);
            && a.lo == start && a.hi == b.lo && b.hi == end
            && 0 <= (b.hi - b.lo) - (a.hi - a.lo) <= 1
  {
  }

  lemma HandleFailedKeepsInv(c: Config, s: State, request: Request, unexecutable: bool, fault: Fault, r: Request)
    requires Inv(c, s) && r in s.rows && SameJob(r, request)
    requires r.status in {WitnessGeneration, Execution, Prove}
    requires r.id in s.tasks ==> s.tasks[r.id].phase == Finished(true)
    ensures Inv(c, HandleFailed(s, request, unexecutable, fault))
  {
    if fault != MarkFails {
      if r.id in s.tasks {
        var t := TaskRow(c, s, r.id);
        IdUnique(s.rows, s.nextId, t, r);
      }
      var change := ToStatus(Failed);
      ChangeKeepsInv(c, s, r, change, s.tasks);
      var failed := s.(rows := Update(s.rows, request.id, change));
      assert failed == s.(rows := Update(s.rows, request.id, change), tasks := s.tasks);
      if Splits(failed.rows, request, unexecutable) {
        HalvesInsertable(c, s, request, r);
        InsertRangesKeepsInv(c, failed, Halves(request.startBlock, request.endBlock));
      }
    }
  }

  /** Once the parent has failed, nothing active lies in the way of its halves. */
  lemma HalvesInsertable(c: Config, s: State, request: Request, r: Request)
    requires Inv(c, s) && r in s.rows && SameJob(r, request) && ActiveRange(r)
    requires request.endBlock > request.startBlock + 1
    ensures Insertable(s.(rows := Update(s.rows, request.id, ToStatus(Failed))),
      Halves(request.startBlock, request.endBlock))
  {
    var change := ToStatus(Failed);
    var failed := s.(rows := Update(s.rows, request.id, change));
    var halves := Halves(request.startBlock, request.endBlock);
    HalvesShape(request.startBlock, request.endBlock);
    var k := RowIndex(s.rows, r);
    UpdateIsReplace(s.rows, s.nextId, k, change);
    ReplaceMembers(s.rows, s.nextId, k, ApplyChange(r, change));
    forall sp, x | sp in halves && x in failed.rows && ActiveRange(x)
      ensures sp.hi <= x.startBlock || x.endBlock <= sp.lo
    {
      assert x in s.rows && x.id != r.id;
    }
  }

  // ---------------------------------------------------------------- planning

  /** The active ranges at or above the latest block come back in order, without overlap. */
  lemma PlannedShape(c: Config, s: State)
    requires TableOk(c, s)
    ensures NonEmpty(Planned(s)) && Ordered(Planned(s)) && SortedByLo(Planned(s))
  {
    var w := RangesAfterBlock(ACTIVE, s.latest);
    SelectOrderedShape(s.rows, w);
  }

  lemma PlannedCovers(s: State, b: nat)
    ensures Covers(Planned(s), b)
       <==> exists r :: r in s.rows && ActiveRange(r) && r.startBlock >= s.latest && InRequest(r, b)
  {
    var w := RangesAfterBlock(ACTIVE, s.latest);
    var rs := SelectOrdered(s.rows, w);
    if Covers(Planned(s), b) {
      var sp :| sp in Planned(s) && Holds(sp, b);
      var i :| 0 <= i < |rs| && Planned(s)[i] == sp;
      OrderedMember(s.rows, w, rs[i]);
    }
    if r :| r in s.rows && ActiveRange(r) && r.startBlock >= s.latest && InRequest(r, b) {
      OrderedMember(s.rows, w, r);
      var i :| 0 <= i < |rs| && rs[i] == r;
      assert Planned(s)[i] in Planned(s) && Holds(Planned(s)[i], b);
    }
  }

  /** All the chunks, before the short last one is dropped. */
  function AllChunks(c: Config, s: State, finalized: nat): seq<Span> {
    ChopAll(Gaps(s.latest, finalized, Planned(s)), c.rangeProofInterval)
  }

  lemma AllChunksShape(c: Config, s: State, finalized: nat)
    requires TableOk(c, s)
    ensures Ordered(AllChunks(c, s, finalized)) && NonEmpty(AllChunks(c, s, finalized))
    ensures forall sp :: sp in AllChunks(c, s, finalized) ==> sp.hi - sp.lo <= c.rangeProofInterval
    ensures forall b: nat :: Covers(AllChunks(c, s, finalized), b) <==>
              s.latest <= b < Reach(finalized, Planned(s)) && !Covers(Planned(s), b)
  {
    PlannedShape(c, s);
    var gaps := Gaps(s.latest, finalized, Planned(s));
    GapsSeparated(s.latest, finalized, Planned(s));
    ChopAllShape(gaps, c.rangeProofInterval);
    forall b: nat ensures Covers(AllChunks(c, s, finalized), b) <==>
              s.latest <= b < Reach(finalized, Planned(s)) && !Covers(Planned(s), b)
    {
      GapsPoints(s.latest, finalized, Planned(s), b);
      ChopAllPoints(gaps, c.rangeProofInterval, b);
    }
  }

  lemma ChunksInsertable(c: Config, s: State, finalized: nat)
    requires TableOk(c, s)
    ensures Insertable(s, NewChunks(c, s, finalized))
  {
    AllChunksShape(c, s, finalized);
    var all := AllChunks(c, s, finalized);
    var chunks := NewChunks(c, s, finalized);
    assert forall sp :: sp in chunks ==> sp in all;
    forall sp, r | sp in chunks && r in s.rows && ActiveRange(r)
      ensures s.latest <= sp.lo
      ensures sp.hi <= r.startBlock || r.endBlock <= sp.lo
    {
      assert Holds(sp, sp.lo) && Covers(all, sp.lo);
      var b := Max(sp.lo, r.startBlock);
      PlannedCovers(s, b);
      assert Holds(sp, b) ==> Covers(all, b);
      assert RowOk(c, r, s.latest);
    }
    forall sp | sp in chunks ensures s.latest <= sp.lo {
      assert Holds(sp, sp.lo) && Covers(all, sp.lo);
    }
  }

  lemma AddRangesKeepsInv(c: Config, s: State, finalized: nat)
    requires Inv(c, s)
    ensures Inv(c, InsertRanges(s, NewChunks(c, s, finalized)))
  {
    ChunksInsertable(c, s, finalized);
    hide Insertable;
    InsertRangesKeepsInv(c, s, NewChunks(c, s, finalized));
  }

  // ---------------------------------------------------------------- aggregation requests

  lemma CompletedShape(c: Config, s: State)
    requires TableOk(c, s)
    ensures NonEmpty(Completed(s)) && Ordered(Completed(s))
    ensures forall sp :: sp in Completed(s) ==> s.latest <= sp.lo
  {
    var w := CompletedRanges(s.latest);
    SelectOrderedShape(s.rows, w);
    var rs := SelectOrdered(s.rows, w);
    forall sp | sp in Completed(s) ensures s.latest <= sp.lo {
      var i :| 0 <= i < |rs| && Completed(s)[i] == sp;
      OrderedMember(s.rows, w, rs[i]);
    }
  }

  lemma {:induction false} ContiguousEndGrows(end: nat, spans: seq<Span>)
    requires NonEmpty(spans)
    ensures ContiguousEnd(end, spans) >= end
    decreases |spans|
  {
    if spans != [] && spans[0].lo == end {
      assert spans[0] in spans;
      ContiguousEndGrows(spans[0].hi, spans[1..]);
    }
  }

  lemma CreateAggKeepsInv(c: Config, s: State, header: Checkpoint)
    requires Inv(c, s)
    ensures Inv(c, CreateAgg(c, s, header))
  {
    if AggTarget(c, s).Some? {
      var end := AggTarget(c, s).value;
      AggTargetShape(c, s);
      var agg := NewAggRequest(s.latest, end, AggCheckpoint(s, end, header)).(id := s.nextId);
      AppendAggKeepsInv(c, s, agg);
      assert Stamp([NewAggRequest(s.latest, end, AggCheckpoint(s, end, header))], s.nextId) == [agg];
    }
  }

  lemma AggTargetShape(c: Config, s: State)
    requires TableOk(c, s) && AggTarget(c, s).Some?
    ensures s.latest < AggTarget(c, s).value && s.latest + MinAggSize(c) <= AggTarget(c, s).value
    ensures NoActiveAggs(s)
  {
    CompletedShape(c, s);
    NoActiveAgg(s);
    hide TableOk, Ordered, Completed, Count, NoActiveAggs;
    var spans := Completed(s);
    assert spans[0] in spans;
    ContiguousEndGrows(spans[0].hi, spans[1..]);
  }

  ghost predicate NoActiveAggs(s: State) {
    forall a :: a in s.rows && ActiveAgg(a) ==> a.startBlock != s.latest
  }

  lemma NoActiveAgg(s: State)
    requires Count(s.rows, ActiveAggs(s.latest)) == 0
    ensures NoActiveAggs(s)
  {
    forall a | a in s.rows && ActiveAgg(a) ensures a.startBlock != s.latest {
      SelectMember(s.rows, ActiveAggs(s.latest), a);
    }
  }

  lemma AppendAggKeepsInv(c: Config, s: State, agg: Request)
    requires Inv(c, s) && agg.id == s.nextId && agg.status == Unrequested && agg.reqType == Aggregation
    requires RowOk(c, agg, s.latest)
    requires forall a :: a in s.rows && ActiveAgg(a) ==> a.startBlock != agg.startBlock
    ensures Inv(c, s.(rows := s.rows + [agg], nextId := s.nextId + 1))
  {
    AppendKeepsTable(c, s, [agg]);
    TasksAfterAppend(c, s.rows, [agg], s.tasks);
  }

  // ---------------------------------------------------------------- starting and submitting

  /** What `get_next_unrequested_proof` picks. */
  lemma NextIsReady(s: State)
    ensures match NextUnrequested(s)
            case None => true
            case Some(r) => r in s.rows && r.status == Unrequested && r.startBlock >= s.latest
                            && (r.reqType == Aggregation ==> Tiled(s.rows, r.startBlock, r.endBlock))
  {
    FirstIsLeast(s.rows, UnrequestedAgg(s.latest));
    FirstIsLeast(s.rows, UnrequestedRange(s.latest));
  }

  lemma StartKeepsInv(c: Config, s: State)
    requires Inv(c, s)
    ensures Inv(c, Start(c, s))
  {
    NextIsReady(s);
    if HasCapacity(c, s.rows) && NextUnrequested(s).Some? {
      var r := NextUnrequested(s).value;
      ChangeKeepsInv(c, s, r, ToStatus(WitnessGeneration), s.tasks[r.id := Task(r, Witnessing)]);
    }
  }

  /** No active range that starts at or after a tiled range crosses its end. */
  lemma TileEndNotStraddled(c: Config, s: State, r: Request, start: nat, end: nat)
    requires TableOk(c, s) && Tiled(s.rows, start, end)
    requires r in s.rows && ActiveRange(r) && start <= r.startBlock
    ensures r.endBlock <= end || end <= r.startBlock
  {
    if r.startBlock < end {
      var w := ConsecutiveComplete(start, end);
      ConsecutiveHolds(Tile(s.rows, start, end), start, end, r.startBlock);
      var x :| x in Tile(s.rows, start, end) && InRequest(x, r.startBlock);
      OrderedMember(s.rows, w, x);
      if x.id == r.id { IdUnique(s.rows, s.nextId, x, r); }
    }
  }

  lemma DeliverableIsReady(s: State)
    ensures match Deliverable(s)
            case None => forall r :: r in s.rows ==> !Matches(CompletedAgg(s.latest), r)
            case Some(agg) => agg in s.rows && Matches(CompletedAgg(s.latest), agg)
  {
    var rs := Select(s.rows, CompletedAgg(s.latest));
    forall r ensures r in rs <==> r in s.rows && Matches(CompletedAgg(s.latest), r) {
      SelectMember(s.rows, CompletedAgg(s.latest), r);
    }
    if rs != [] { assert rs[0] in rs; }
  }

  /** Moving the latest block to the end of the validated aggregation that starts there. */
  lemma AdvanceKeepsInv(c: Config, s: State, agg: Request)
    requires Inv(c, s) && agg in s.rows && Matches(CompletedAgg(s.latest), agg)
    ensures Inv(c, s.(latest := agg.endBlock, relayed := s.relayed + [Relay(agg.id, agg.startBlock, agg.endBlock)]))
  {
    var x := Relay(agg.id, agg.startBlock, agg.endBlock);
    var s' := s.(latest := agg.endBlock, relayed := s.relayed + [x]);
    assert RowOk(c, agg, s.latest) && ValidatedAgg(agg);
    forall r | r in s.rows ensures RowOk(c, r, agg.endBlock) {
      assert RowOk(c, r, s.latest);
      if ActiveRange(r) && s.latest <= r.startBlock { TileEndNotStraddled(c, s, r, agg.startBlock, agg.endBlock); }
    }
    assert RelayOk(s.rows, x);
    assert Chained(c, s'.relayed);
  }

  lemma SubmitKeepsInv(c: Config, s: State, marked: bool)
    requires Inv(c, s)
    ensures Inv(c, Submit(s, marked))
  {
    DeliverableIsReady(s);
    if Deliverable(s).Some? {
      var agg := Deliverable(s).value;
      AdvanceKeepsInv(c, s, agg);
      if marked {
        var s1 := s.(latest := agg.endBlock, relayed := s.relayed + [Relay(agg.id, agg.startBlock, agg.endBlock)]);
        if agg.id in s1.tasks {
          var t := TaskRow(c, s1, agg.id);
          IdUnique(s1.rows, s1.nextId, t, agg);
        }
        ChangeKeepsInv(c, s1, agg, ToStatus(Relayed), s1.tasks);
        assert Submit(s, marked) == s1.(rows := Update(s1.rows, agg.id, ToStatus(Relayed)), tasks := s1.tasks);
      }
    }
  }

  // ---------------------------------------------------------------- background tasks

  lemma TaskStepKeepsInv(c: Config, s: State, id: nat, change: Change, phase: TaskPhase)
    requires Inv(c, s) && id in s.tasks
    requires forall r :: r in s.rows && r.id == id && RowFits(c, s.tasks[id].phase, r) ==>
               Transition(c, r, ApplyChange(r, change)) && RowFits(c, phase, ApplyChange(r, change))
    requires s.tasks[id].phase == Witnessing || s.tasks[id].phase == Executing
    ensures Inv(c, SetPhase(s, id, phase).(rows := Update(s.rows, id, change)))
  {
    var r := TaskRow(c, s, id);
    var s' := SetPhase(s, id, phase);
    ChangeKeepsInv(c, s, r, change, s'.tasks);
    assert s'.(rows := Update(s.rows, id, change)) == s.(rows := Update(s.rows, r.id, change), tasks := s'.tasks);
  }

  lemma TaskErrsKeepsInv(c: Config, s: State, id: nat)
    requires Inv(c, s) && (InPhase(s, id, Witnessing) || InPhase(s, id, Executing))
    ensures Inv(c, SetPhase(s, id, Finished(false)))
  {
    hide RowsOk, AggsTiled, RangesDisjoint, AggsUnique, RelayOk, Chained;
    var r := TaskRow(c, s, id);
    var k := RowIndex(s.rows, r);
    TasksAfterReplace(c, s.rows, s.nextId, k, r, s.tasks, SetPhase(s, id, Finished(false)).tasks);
    assert s.rows[k := r] == s.rows;
  }

  lemma ReapKeepsInv(c: Config, s: State, id: nat, fault: Fault)
    requires Inv(c, s) && id in s.tasks && s.tasks[id].phase.Finished?
    ensures Inv(c, ReapTask(s, id, fault))
  {
    var rest := s.(tasks := s.tasks - {id});
    assert Inv(c, rest);
    if !s.tasks[id].phase.ok {
      var r := TaskRow(c, s, id);
      HandleFailedKeepsInv(c, rest, s.tasks[id].request, false, fault, r);
    }
  }

  /** A request that is being proved has no unfinished task. */
  lemma ProvingTask(c: Config, s: State, r: Request)
    requires Inv(c, s) && r in s.rows && r.status == Prove
    ensures r.id in s.tasks ==> s.tasks[r.id].phase == Finished(true) && SameJob(r, s.tasks[r.id].request)
  {
    if r.id in s.tasks {
      var t := TaskRow(c, s, r.id);
      IdUnique(s.rows, s.nextId, t, r);
    }
  }

  lemma FulfilledKeepsInv(c: Config, s: State, r: Request, proof: nat)
    requires Inv(c, s) && Proving(c, s, r)
    ensures Inv(c, s.(rows := Update(s.rows, r.id, ToComplete(proof))))
  {
    ProvingTask(c, s, r);
    var change := ToComplete(proof);
    assert ValidatedAgg(r) ==> Tiled(s.rows, r.startBlock, r.endBlock);
    hide TableOk;
    ChangeKeepsInv(c, s, r, change, s.tasks);
    assert s.(rows := Update(s.rows, r.id, change)) == s.(rows := Update(s.rows, r.id, change), tasks := s.tasks);
  }

  lemma ProofPollKeepsInv(c: Config, s: State, e: Event)
    requires Inv(c, s) && (e.ProofFulfilled? || e.ProofFails?) && Proving(c, s, e.request)
    ensures Inv(c, Apply(c, s, e))
  {
    ProvingTask(c, s, e.request);
    hide Inv;
    if e.ProofFulfilled? {
      FulfilledKeepsInv(c, s, e.request, e.proof);
    } else {
      HandleFailedKeepsInv(c, s, e.request, e.unexecutable, e.fault, e.request);
    }
  }

  lemma FailOrphanKeepsInv(c: Config, s: State, r: Request)
    requires Inv(c, s) && Orphan(s, r)
    ensures Inv(c, s.(rows := Update(s.rows, r.id, ToStatus(Failed))))
  {
    var change := ToStatus(Failed);
    ChangeKeepsInv(c, s, r, change, s.tasks);
    assert s.(rows := Update(s.rows, r.id, change)) == s.(rows := Update(s.rows, r.id, change), tasks := s.tasks);
  }

  /** The invariant holds again after any event whatever. */
  lemma StepKeepsInv(c: Config, s: State, e: Event)
    requires Inv(c, s)
    ensures Inv(c, Apply(c, s, e))
  {
    hide Inv;
    match e
    case TaskExecutes(id) =>
      if InPhase(s, id, Witnessing) && c.mock { TaskStepKeepsInv(c, s, id, ToStatus(Execution), Executing); }
    case TaskRequestsProof(id, pid) =>
      if InPhase(s, id, Witnessing) && !c.mock { TaskStepKeepsInv(c, s, id, ToProve(pid), Finished(true)); }
    case TaskCompletes(id, proof) =>
      if InPhase(s, id, ProvingPhase(c)) { TaskStepKeepsInv(c, s, id, ToComplete(proof), Finished(true)); }
    case TaskErrs(id) =>
      if InPhase(s, id, Witnessing) || InPhase(s, id, Executing) { TaskErrsKeepsInv(c, s, id); }
    case Reap(id, fault) =>
      if id in s.tasks && s.tasks[id].phase.Finished? { ReapKeepsInv(c, s, id, fault); }
    case FailOrphan(request) => if Orphan(s, request) { FailOrphanKeepsInv(c, s, request); }
    case ProofFulfilled(request, proof) => if Proving(c, s, request) { ProofPollKeepsInv(c, s, e); }
    case ProofFails(request, unexecutable, fault) => if Proving(c, s, request) { ProofPollKeepsInv(c, s, e); }
    case AddNewRanges(finalized) => AddRangesKeepsInv(c, s, finalized);
    case CreateAggregation(header) => CreateAggKeepsInv(c, s, header);
    case StartNext => StartKeepsInv(c, s);
    case SubmitAgg(marked) => SubmitKeepsInv(c, s, marked);
    case Restart => RestartKeepsInv(c, s);
  }
}
