/** When a failed request is split (`handle_failed_request` in op-succinct/validity/src/proof_requester.rs),
    said over the rows of the table. */
module SplitRule {
  import opened Requests
  import opened BlockSpans
  import opened RequestTable
  import opened ProposerModel
  import opened ProposerInvariant
  import opened ProposerSteps
  import opened ProposerRuns
  import opened AppendedRows
  import opened SplitLineage
  import opened Replanning

  /** The requests of these very blocks that were given up. */
  ghost function GivenUp(rows: seq<Request>, start: nat, end: nat): set<nat> {
    set r | r in rows && r.startBlock == start && r.endBlock == end && r.status in {Failed, Cancelled} :: r.id
  }

  lemma GivenUpCons(rows: seq<Request>, start: nat, end: nat)
    requires rows != []
    ensures GivenUp(rows, start, end) == GivenUp(rows[1..], start, end)
              + if Matches(FailedByBlockRange(start, end), rows[0]) then {rows[0].id} else {}
  {
    assert rows == [rows[0]] + rows[1..];
    assert forall r :: r in rows <==> r == rows[0] || r in rows[1..];
  }

  lemma {:induction false} CountsIds(rows: seq<Request>, nextId: nat, start: nat, end: nat)
    requires IdsOk(rows, nextId)
    ensures |GivenUp(rows, start, end)| == Count(rows, FailedByBlockRange(start, end))
  {
    if rows != [] {
      TailIds(rows, nextId);
      CountsIds(rows[1..], nextId, start, end);
      GivenUpCons(rows, start, end);
      assert rows[0].id !in GivenUp(rows[1..], start, end);
      hide IdsOk, Matches, GivenUp;
      SelectCons(rows, FailedByBlockRange(start, end));
    }
  }

  /** The two halves of [start, end), with the next two ids. */
  function HalfRows(start: nat, end: nat, id: nat): seq<Request> {
    var mid := (start + end) / 2;
    [Request(id, Unrequested, Range, start, mid, None, None, None),
     Request(id + 1, Unrequested, Range, mid, end, None, None, None)]
  }

  /** The rows after request `r` has failed, with what is appended to them. */
  ghost predicate FailsTo(s: State, r: Request, rows: seq<Request>, appended: seq<Request>) {
    && |rows| == |s.rows| + |appended| && rows[|s.rows|..] == appended
    && forall i :: 0 <= i < |s.rows| ==>
         rows[i] == if s.rows[i].id == r.id then s.rows[i].(status := Failed) else s.rows[i]
  }

  /** A range of at least two blocks is split when it was found unexecutable, or when with this failure at
      least three requests of these blocks have been given up. */
  ghost predicate MustSplit(s: State, r: Request, unexecutable: bool) {
    && r.reqType == Range && r.endBlock - r.startBlock >= 2
    && (unexecutable || |GivenUp(s.rows, r.startBlock, r.endBlock) + {r.id}| >= 3)
  }

  lemma GivenUpAfter(c: Config, s: State, r: Request, row: Request)
    requires Inv(c, s) && row in s.rows && SameJob(row, r)
    ensures GivenUp(Update(s.rows, r.id, ToStatus(Failed)), r.startBlock, r.endBlock)
         == GivenUp(s.rows, r.startBlock, r.endBlock) + {r.id}
  {
    var after := Update(s.rows, r.id, ToStatus(Failed));
    var k := RowIndex(s.rows, row);
    UpdateIsReplace(s.rows, s.nextId, k, ToStatus(Failed));
    ReplaceMembers(s.rows, s.nextId, k, ApplyChange(row, ToStatus(Failed)));
    forall x | x in s.rows ensures x.id == r.id ==> x == row {
      if x.id == row.id { IdUnique(s.rows, s.nextId, x, row); }
    }
    assert ApplyChange(row, ToStatus(Failed)) in after;
    hide Inv;
  }

  lemma SplitsWhenItMust(c: Config, s: State, r: Request, row: Request, unexecutable: bool)
    requires Inv(c, s) && row in s.rows && SameJob(row, r)
    ensures Splits(Update(s.rows, r.id, ToStatus(Failed)), r, unexecutable) <==> MustSplit(s, r, unexecutable)
  {
    var k := RowIndex(s.rows, row);
    UpdateIsReplace(s.rows, s.nextId, k, ToStatus(Failed));
    ReplaceMembers(s.rows, s.nextId, k, ApplyChange(row, ToStatus(Failed)));
    GivenUpAfter(c, s, r, row);
    hide Inv, Count, GivenUp, IdsOk, Update;
    CountsIds(Update(s.rows, r.id, ToStatus(Failed)), s.nextId, r.startBlock, r.endBlock);
  }

  /** Failing a request gives it up, and appends its two halves if and only if it must be split and no error
      stops that. If the status update itself fails, nothing changes. */
  lemma FailureSplitsIff(c: Config, s: State, r: Request, row: Request, unexecutable: bool, fault: Fault)
    requires Inv(c, s) && row in s.rows && SameJob(row, r)
    ensures var rows := HandleFailed(s, r, unexecutable, fault).rows;
            if fault == MarkFails then rows == s.rows
            else FailsTo(s, r, rows, if fault == NoFault && MustSplit(s, r, unexecutable)
                                     then HalfRows(r.startBlock, r.endBlock, s.nextId) else [])
  {
    SplitsWhenItMust(c, s, r, row, unexecutable);
    hide Inv, Splits, MustSplit;
    var halves := Halves(r.startBlock, r.endBlock);
    assert Stamp(NewRanges(halves), s.nextId) == HalfRows(r.startBlock, r.endBlock, s.nextId);
  }

  /** So do the two events that report a failure: a proof that failed, and a background task that erred. */
  lemma FailedProofSplitsIff(c: Config, s: State, r: Request, unexecutable: bool, fault: Fault)
    requires Inv(c, s) && Proving(c, s, r)
    ensures var rows := Apply(c, s, ProofFails(r, unexecutable, fault)).rows;
            if fault == MarkFails then rows == s.rows
            else FailsTo(s, r, rows, if fault == NoFault && MustSplit(s, r, unexecutable)
                                     then HalfRows(r.startBlock, r.endBlock, s.nextId) else [])
  {
    hide Inv, FailsTo, MustSplit, HalfRows, HandleFailed;
    FailureSplitsIff(c, s, r, r, unexecutable, fault);
  }

  lemma WithoutTask(c: Config, s: State, id: nat)
    requires Inv(c, s)
    ensures Inv(c, s.(tasks := s.tasks - {id}))
  {
    hide TableOk, SameJob, RowFits;
    var rest := s.(tasks := s.tasks - {id});
    assert TableOk(c, rest) by { SameTable(c, s, rest); }
  }

  lemma SameTable(c: Config, s: State, t: State)
    requires TableOk(c, s) && t.rows == s.rows && t.nextId == s.nextId && t.latest == s.latest && t.relayed == s.relayed
    ensures TableOk(c, t)
  {
    hide IdsOk, RowsOk, RangesDisjoint, AggsUnique, AggsTiled, RelayOk, Chained;
  }

  lemma SameRowsFailAlike(s: State, t: State, r: Request, rows: seq<Request>)
    requires t.rows == s.rows
    ensures forall appended :: FailsTo(t, r, rows, appended) <==> FailsTo(s, r, rows, appended)
    ensures MustSplit(t, r, false) <==> MustSplit(s, r, false)
  {
  }

  lemma ReapIsFailure(c: Config, s: State, id: nat, fault: Fault)
    requires id in s.tasks && s.tasks[id].phase == Finished(false)
    ensures Apply(c, s, Reap(id, fault))
         == HandleFailed(s.(tasks := s.tasks - {id}), s.tasks[id].request, false, fault)
  {
    hide HandleFailed;
  }

  lemma FailedTaskRow(c: Config, s: State, id: nat) returns (row: Request)
    requires Inv(c, s) && id in s.tasks
    ensures row in s.rows && SameJob(row, s.tasks[id].request)
  {
    hide TableOk;
    row := TaskRow(c, s, id);
  }

  lemma FailedTaskSplitsIff(c: Config, s: State, id: nat, fault: Fault)
    requires Inv(c, s) && id in s.tasks && s.tasks[id].phase == Finished(false)
    ensures var r, rows := s.tasks[id].request, Apply(c, s, Reap(id, fault)).rows;
            if fault == MarkFails then rows == s.rows
            else FailsTo(s, r, rows, if fault == NoFault && MustSplit(s, r, false)
                                     then HalfRows(r.startBlock, r.endBlock, s.nextId) else [])
  {
    hide *;
    var row := FailedTaskRow(c, s, id);
    var r, rest := s.tasks[id].request, s.(tasks := s.tasks - {id});
    WithoutTask(c, s, id);
    FailureSplitsIff(c, rest, r, row, false, fault);
    ReapIsFailure(c, s, id, fault);
    SameRowsFailAlike(s, rest, r, Apply(c, s, Reap(id, fault)).rows);
  }

  // ---------------------------------------------------------------- a split by the count alone

  function FailedWhole(id: nat): Request { Proving0(id).(status := Failed) }

  /** Both blocks are planned, proven and fail, without being found unexecutable. */
  function PlainRound(n: nat): seq<Event> {
    [AddNewRanges(2), StartNext, TaskRequestsProof(n, 0), ProofFails(Proving0(n), false, NoFault), Reap(n, NoFault)]
  }

  lemma OneMoreFailed(rows: seq<Request>, n: nat)
    ensures Count(rows + [FailedWhole(n)], FailedByBlockRange(0, 2)) == Count(rows, FailedByBlockRange(0, 2)) + 1
  {
    SelectConcat(rows, [FailedWhole(n)], FailedByBlockRange(0, 2));
    SelectAll([FailedWhole(n)], FailedByBlockRange(0, 2));
  }

  lemma PlainFailure(s: State, tasks: map<nat, Task>)
    requires Idle(s)
    ensures var s3 := With(s, Proving0(s.nextId), tasks);
            var failed := With(s, FailedWhole(s.nextId), tasks);
            Apply(RetryConfig(), s3, ProofFails(Proving0(s.nextId), false, NoFault))
            == if Count(s.rows, FailedByBlockRange(0, 2)) >= 2
               then InsertRanges(failed, [Span(0, 1), Span(1, 2)]) else failed
  {
    OlderIds(s);
    OneMoreFailed(s.rows, s.nextId);
    hide Inv, Count, InsertRanges;
    var q := Proving0(s.nextId);
    UpdateLast(s.rows, q, ToStatus(Failed));
    assert q in s.rows + [q];
  }

  lemma ReapsFinished(s: State, n: nat, q: Request)
    ensures var finished := map[n := Task(q, Finished(true))];
            && Apply(RetryConfig(), With(s, FailedWhole(n), finished), Reap(n, NoFault))
               == With(s, FailedWhole(n), map[])
            && Apply(RetryConfig(), InsertRanges(With(s, FailedWhole(n), finished), [Span(0, 1), Span(1, 2)]),
                     Reap(n, NoFault))
               == InsertRanges(With(s, FailedWhole(n), map[]), [Span(0, 1), Span(1, 2)])
  {
    assert map[n := Task(q, Finished(true))] - {n} == map[];
  }

  lemma PlainStates(s: State)
    requires Idle(s)
    ensures var s' := ApplyAll(RetryConfig(), s, PlainRound(s.nextId));
            var failed := With(s, FailedWhole(s.nextId), map[]);
            s' == if Count(s.rows, FailedByBlockRange(0, 2)) >= 2
                  then InsertRanges(failed, [Span(0, 1), Span(1, 2)]) else failed
  {
    var c, n, q := RetryConfig(), s.nextId, Whole(s.nextId);
    var witnessing, finished := map[n := Task(q, Witnessing)], map[n := Task(q, Finished(true))];
    hide Idle, Apply, SplitBy, With, InsertRanges, ApplyAll, SplitLog, Count, RetryConfig;
    PlanStep(s);
    StartStep(s);
    ProveStep(s);
    PlainFailure(s, finished);
    ReapsFinished(s, n, q);
    FiveSteps(c, s, With(s, q, map[]), With(s, q.(status := WitnessGeneration), witnessing),
              With(s, Proving0(n), finished), PlainRound(n));
  }

  lemma PlainRoundKeepsIdle(s: State)
    requires Idle(s) && Count(s.rows, FailedByBlockRange(0, 2)) < 2
    ensures var s' := ApplyAll(RetryConfig(), s, PlainRound(s.nextId));
            && Idle(s') && s'.rows == s.rows + [FailedWhole(s.nextId)] && s'.nextId == s.nextId + 1
            && Count(s'.rows, FailedByBlockRange(0, 2)) == Count(s.rows, FailedByBlockRange(0, 2)) + 1
  {
    PlainStates(s);
    RunKeepsInv(RetryConfig(), s, PlainRound(s.nextId));
    OneMoreFailed(s.rows, s.nextId);
    hide Inv, ApplyAll, Count, PlainRound;
  }

  lemma FreshIsIdle()
    ensures var s := Fresh(RetryConfig());
            Idle(s) && s.rows == [] && s.nextId == 0 && Count(s.rows, FailedByBlockRange(0, 2)) == 0
  {
    FreshInv(RetryConfig());
    hide Inv;
  }

  lemma TwoRounds() returns (s: State)
    ensures s == ApplyAll(RetryConfig(), Fresh(RetryConfig()), PlainRound(0) + PlainRound(1))
    ensures Idle(s) && s.rows == [FailedWhole(0), FailedWhole(1)] && s.nextId == 2
    ensures Count(s.rows, FailedByBlockRange(0, 2)) == 2
  {
    hide *;
    FreshIsIdle();
    var s0 := Fresh(RetryConfig());
    PlainRoundKeepsIdle(s0);
    assert [] + [FailedWhole(0)] == [FailedWhole(0)];
    var s1 := ApplyAll(RetryConfig(), s0, PlainRound(0));
    PlainRoundKeepsIdle(s1);
    ApplyAllConcat(RetryConfig(), s0, PlainRound(0), PlainRound(1));
    s := ApplyAll(RetryConfig(), s1, PlainRound(1));
  }

  function ThreeRounds(): seq<Event> { PlainRound(0) + PlainRound(1) + PlainRound(2) }

  lemma SplitOfTwo(s: State)
    requires s.nextId == 2
    ensures InsertRanges(With(s, FailedWhole(2), map[]), [Span(0, 1), Span(1, 2)]).rows
         == s.rows + [FailedWhole(2)] + HalfRows(0, 2, 3)
  {
    assert Stamp(NewRanges([Span(0, 1), Span(1, 2)]), 3) == HalfRows(0, 2, 3);
  }

  lemma NoneUnexecutable()
    ensures forall e :: e in ThreeRounds() && e.ProofFails? ==> !e.unexecutable
  {
    forall n, e | e in PlainRound(n) && e.ProofFails? ensures !e.unexecutable {}
    hide PlainRound;
  }

  /** Three failures of the same two blocks split them, though none was marked as unexecutable. */
  lemma SplitsByCountAlone()
    ensures ApplyAll(RetryConfig(), Fresh(RetryConfig()), ThreeRounds()).rows
         == [FailedWhole(0), FailedWhole(1), FailedWhole(2)] + HalfRows(0, 2, 3)
    ensures forall e :: e in ThreeRounds() && e.ProofFails? ==> !e.unexecutable
  {
    NoneUnexecutable();
    var s := TwoRounds();
    PlainStates(s);
    SplitOfTwo(s);
    assert s.rows + [FailedWhole(2)] == [FailedWhole(0), FailedWhole(1), FailedWhole(2)];
    hide Apply, ApplyAll, Count, InsertRanges, Fresh, With, Idle, HalfRows, PlainRound;
    ApplyAllConcat(RetryConfig(), Fresh(RetryConfig()), PlainRound(0) + PlainRound(1), PlainRound(2));
  }
}
