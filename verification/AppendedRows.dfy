/** What an event appends to the requests table: the halves of a split, the chunks of a plan, an aggregation,
    or nothing (op-succinct/validity/src/proposer.rs and proof_requester.rs). */
module AppendedRows {
  import opened Requests
  import opened BlockSpans
  import opened RequestTable
  import opened ProposerModel
  import opened ProposerInvariant
  import opened ProposerSteps
  import opened ProposerRuns

  /** Row `parent`, a request for [start, end), failed and was split into the rows `left` and `left + 1`. */
  datatype Split = Split(parent: nat, left: nat, start: nat, end: nat)

  function SplitOnFailure(s: State, request: Request, unexecutable: bool): Option<Split> {
    if Splits(Update(s.rows, request.id, ToStatus(Failed)), request, unexecutable)
    then Some(Split(request.id, s.nextId, request.startBlock, request.endBlock))
    else None
  }

  /** The split that an event makes, if any. */
  function SplitBy(c: Config, s: State, e: Event): Option<Split> {
    match e
    case Reap(id, NoFault) =>
      if id in s.tasks && s.tasks[id].phase == Finished(false)
      then SplitOnFailure(s, s.tasks[id].request, false) else None
    case ProofFails(request, unexecutable, NoFault) =>
      if Proving(c, s, request) then SplitOnFailure(s, request, unexecutable) else None
    case _ => None
  }

  /** The rows that an event appends. */
  function Added(c: Config, s: State, e: Event): seq<Request> {
    var rows := Apply(c, s, e).rows;
    if e == Restart || |rows| < |s.rows| then [] else rows[|s.rows|..]
  }

  ghost predicate InFlight(r: Request) { r.status in {WitnessGeneration, Execution, Prove} }

  lemma FailureAdds(s: State, request: Request, unexecutable: bool, fault: Fault)
    ensures var s' := HandleFailed(s, request, unexecutable, fault);
            && |s'.rows| >= |s.rows|
            && s'.rows[|s.rows|..] == (if fault == NoFault && SplitOnFailure(s, request, unexecutable).Some?
                                       then Stamp(NewRanges(Halves(request.startBlock, request.endBlock)), s.nextId)
                                       else [])
            && (fault != MarkFails ==> s'.rows == Update(s.rows, request.id, ToStatus(Failed)) + s'.rows[|s.rows|..])
  {
  }

  /** A split is made by a failing row that is in progress; the row is Failed from then on, and its halves
      are all that is appended. */
  lemma SplitAdds(c: Config, s: State, e: Event) returns (r: Request)
    requires Inv(c, s) && SplitBy(c, s, e).Some?
    ensures var x := SplitBy(c, s, e).value;
            && r in s.rows && ActiveRange(r) && InFlight(r)
            && x == Split(r.id, s.nextId, r.startBlock, r.endBlock) && r.endBlock > r.startBlock + 1
            && Added(c, s, e) == Stamp(NewRanges(Halves(r.startBlock, r.endBlock)), s.nextId)
            && Apply(c, s, e).rows == Update(s.rows, r.id, ToStatus(Failed)) + Added(c, s, e)
  {
    hide RowsOk, AggsTiled, HistoryOk, RangesDisjoint, AggsUnique, IdsOk;
    match e
    case Reap(id, _) =>
      r := TaskRow(c, s, id);
      FailureAdds(s.(tasks := s.tasks - {id}), s.tasks[id].request, false, NoFault);
    case ProofFails(request, unexecutable, _) =>
      r := request;
      FailureAdds(s, request, unexecutable, NoFault);
  }

  /** Of the other events, planning appends the chunks and `create_aggregation_proofs` an aggregation. */
  lemma OthersAdd(c: Config, s: State, e: Event)
    requires Inv(c, s) && SplitBy(c, s, e) == None
    ensures match e
            case AddNewRanges(finalized) => Added(c, s, e) == Stamp(NewRanges(NewChunks(c, s, finalized)), s.nextId)
            case CreateAggregation(_) => forall r :: r in Added(c, s, e) ==> r.reqType == Aggregation
            case _ => Added(c, s, e) == []
  {
    hide Inv, NewChunks, Splits, Update, AggTarget, NextUnrequested, HasCapacity, Deliverable;
    match e
    case Reap(id, fault) =>
      if id in s.tasks && s.tasks[id].phase == Finished(false) {
        FailureAdds(s.(tasks := s.tasks - {id}), s.tasks[id].request, false, fault);
      }
    case ProofFails(request, unexecutable, fault) =>
      if Proving(c, s, request) { FailureAdds(s, request, unexecutable, fault); }
    case _ =>
  }

  lemma RestartAdds(c: Config, s: State)
    ensures Apply(c, s, Restart) == Reinitialize(s) && Added(c, s, Restart) == []
  {
  }

  lemma EventAdds(c: Config, s: State, e: Event) returns (mid: seq<Request>)
    requires Inv(c, s) && e != Restart
    ensures Moved(c, s.rows, mid) && FreshRows(Added(c, s, e), s.nextId)
    ensures Apply(c, s, e).rows == mid + Added(c, s, e) && Apply(c, s, e).nextId == s.nextId + |Added(c, s, e)|
  {
    hide Inv, Apply;
    mid := StepShape(c, s, e);
    var rows := Apply(c, s, e).rows;
    assert |mid| == |s.rows|;
    assert rows == mid + rows[|mid|..];
  }
}
