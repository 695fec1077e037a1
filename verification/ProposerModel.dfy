/** The validity proposer (op-succinct/validity/src/proposer.rs and proof_requester.rs) as a state
    machine. An event is one database statement group, one finished piece of background work, or one
    answer of the outside world; `Apply` says what the code does with it. An event that the code
    cannot meet in a state leaves the state alone, so every sequence of events is a run. */
module ProposerModel {
  import opened Requests
  import opened BlockSpans
  import opened RequestTable

  type pos = n: nat | n > 0 witness 1

  datatype Config = Config(
    rangeProofInterval: pos,
    submissionInterval: nat,          // from the proposer's environment
    contractSubmissionInterval: nat,  // from the contract
    maxConcurrentProofRequests: nat,
    maxConcurrentWitnessGen: nat,
    mock: bool,
    useLocalProving: bool,
    initialBlock: nat)                // the contract's latest block before any relay

  function MinAggSize(c: Config): nat { Max(c.contractSubmissionInterval, c.submissionInterval) }

  /** Where a spawned `make_proof_request` stands. */
  datatype TaskPhase = Witnessing | Executing | Finished(ok: bool)

  datatype Task = Task(request: Request, phase: TaskPhase)

  datatype Relay = Relay(id: nat, start: nat, end: nat)

  datatype State = State(
    rows: seq<Request>,
    nextId: nat,
    tasks: map<nat, Task>,
    latest: nat,             // latest L2 block proposed on the contract
    relayed: seq<Relay>)     // every aggregation the contract has accepted, oldest first

  /** Where an error stops `handle_failed_request`: at the status update, at the chain ids that it asks for
      next, or at the count, the lookups and the inserts of a split. */
  datatype Fault = NoFault | MarkFails | LookupFails | SplitFails

  datatype Event =
    // a background task advances
    | TaskExecutes(id: nat)
    | TaskRequestsProof(id: nat, proofRequestId: nat)
    | TaskCompletes(id: nat, proof: nat)
    | TaskErrs(id: nat)
    // handle_ongoing_tasks, set_orphaned_tasks_to_failed
    | Reap(id: nat, fault: Fault)
    | FailOrphan(request: Request)
    // process_proof_request_status
    | ProofFulfilled(request: Request, proof: nat)
    | ProofFails(request: Request, unexecutable: bool, fault: Fault)
    // the planning steps
    | AddNewRanges(finalized: nat)
    | CreateAggregation(header: Checkpoint)
    | StartNext
    // submit_agg_proofs: the contract accepts; the row is then marked, unless the process dies first
    | SubmitAgg(marked: bool)
    | Restart

  // ---------------------------------------------------------------- failing and splitting

  predicate Splits(rowsAfterFailing: seq<Request>, request: Request, unexecutable: bool) {
    && request.endBlock > request.startBlock + 1
    && request.reqType == Range
    && (Count(rowsAfterFailing, FailedByBlockRange(request.startBlock, request.endBlock)) > 2 || unexecutable)
  }

  function SplitPoint(start: nat, end: nat): nat { (start + end) / 2 }

  function Halves(start: nat, end: nat): seq<Span> {
    [Span(start, SplitPoint(start, end)), Span(SplitPoint(start, end), end)]
  }

  /** `insert_requests` of fresh range requests. */
  function InsertRanges(s: State, spans: seq<Span>): State {
    s.(rows := s.rows + Stamp(NewRanges(spans), s.nextId), nextId := s.nextId + |spans|)
  }

  /** `handle_failed_request`. */
  function HandleFailed(s: State, request: Request, unexecutable: bool, fault: Fault): State {
    if fault == MarkFails then s
    else
      var failed := s.(rows := Update(s.rows, request.id, ToStatus(Failed)));
      if fault == NoFault && Splits(failed.rows, request, unexecutable)
      then InsertRanges(failed, Halves(request.startBlock, request.endBlock))
      else failed
  }

  // ---------------------------------------------------------------- planning

  /** The active ranges that start at or above the latest proposed block, in block order. */
  function Planned(s: State): seq<Span> {
    Spans(SelectOrdered(s.rows, RangesAfterBlock(ACTIVE, s.latest)))
  }

  function NewChunks(c: Config, s: State, finalized: nat): seq<Span> {
    RangesToProve(Gaps(s.latest, finalized, Planned(s)), c.rangeProofInterval)
  }

  /** The end reached from `end` by following spans that start exactly where the last one ended. */
  function ContiguousEnd(end: nat, spans: seq<Span>): nat
    decreases |spans|
  {
    if spans == [] || spans[0].lo != end then end else ContiguousEnd(spans[0].hi, spans[1..])
  }

  /** `get_highest_proven_contiguous_block`: nothing is asked of the first range's start. */
  function HighestContiguous(spans: seq<Span>): Option<nat> {
    if spans == [] then None else Some(ContiguousEnd(spans[0].hi, spans[1..]))
  }

  function Completed(s: State): seq<Span> {
    Spans(SelectOrdered(s.rows, CompletedRanges(s.latest)))
  }

  /** The end block of the aggregation that `create_aggregation_proofs` would insert now. */
  function AggTarget(c: Config, s: State): Option<nat> {
    if Count(s.rows, ActiveAggs(s.latest)) > 0 then None
    else
      match HighestContiguous(Completed(s))
      case None => None
      case Some(end) => if end >= s.latest + MinAggSize(c) then Some(end) else None
  }

  /** A failed aggregation of the same blocks lends its checkpoint. The query has a LIMIT 1 without an order; which
      row it returns does not matter, by StuckCheckpoint.AnyFailedRowLends. */
  function AggCheckpoint(s: State, end: nat, header: Checkpoint): Checkpoint {
    match First(Select(s.rows, FailedAggWithCheckpoint(s.latest, end)))
    case Some(r) => if r.checkpoint.Some? then r.checkpoint.value else header
    case None => header
  }

  function CreateAgg(c: Config, s: State, header: Checkpoint): State {
    match AggTarget(c, s)
    case None => s
    case Some(end) =>
      var agg := NewAggRequest(s.latest, end, AggCheckpoint(s, end, header));
      s.(rows := s.rows + Stamp([agg], s.nextId), nextId := s.nextId + 1)
  }

  // ---------------------------------------------------------------- starting work

  /** `validate_aggregation_request`: the rows run from `start` to `end` without gap or overlap. */
  predicate Consecutive(rs: seq<Request>, start: nat, end: nat) {
    && rs != []
    && rs[0].startBlock == start
    && rs[|rs| - 1].endBlock == end
    && forall i :: 0 < i < |rs| ==> rs[i - 1].endBlock == rs[i].startBlock
  }

  function Tile(rows: seq<Request>, start: nat, end: nat): seq<Request> {
    SelectOrdered(rows, ConsecutiveComplete(start, end))
  }

  predicate Tiled(rows: seq<Request>, start: nat, end: nat) {
    Consecutive(Tile(rows, start, end), start, end)
  }

  function Load(rows: seq<Request>): nat {
    Count(rows, WithStatus(WitnessGeneration)) + Count(rows, WithStatus(Execution)) + Count(rows, WithStatus(Prove))
  }

  predicate HasCapacity(c: Config, rows: seq<Request>) {
    && Load(rows) < c.maxConcurrentProofRequests
    && Count(rows, WithStatus(WitnessGeneration)) < c.maxConcurrentWitnessGen
  }

  function NextRange(s: State): Option<Request> {
    First(SelectOrdered(s.rows, UnrequestedRange(s.latest)))
  }

  /** `get_next_unrequested_proof`. */
  function NextUnrequested(s: State): Option<Request> {
    match First(SelectOrdered(s.rows, UnrequestedAgg(s.latest)))
    case Some(agg) => if Tiled(s.rows, agg.startBlock, agg.endBlock) then Some(agg) else NextRange(s)
    case None => NextRange(s)
  }

  function Spawn(s: State, request: Request): State {
    s.(rows := Update(s.rows, request.id, ToStatus(WitnessGeneration)),
       tasks := s.tasks[request.id := Task(request, Witnessing)])
  }

  function Start(c: Config, s: State): State {
    if !HasCapacity(c, s.rows) then s
    else match NextUnrequested(s) case None => s case Some(r) => Spawn(s, r)
  }

  // ---------------------------------------------------------------- relaying

  function Deliverable(s: State): Option<Request> {
    First(Select(s.rows, CompletedAgg(s.latest)))
  }

  function Submit(s: State, marked: bool): State {
    match Deliverable(s)
    case None => s
    case Some(agg) =>
      s.(latest := agg.endBlock,
         relayed := s.relayed + [Relay(agg.id, agg.startBlock, agg.endBlock)],
         rows := if marked then Update(s.rows, agg.id, ToStatus(Relayed)) else s.rows)
  }

  /** The process dies with its tasks; `initialize_proposer` then cleans the table. */
  function Reinitialize(s: State): State {
    s.(rows := Select(s.rows, StatusNotIn(UNRECOVERABLE)), tasks := map[])
  }

  // ---------------------------------------------------------------- the machine

  predicate InPhase(s: State, id: nat, phase: TaskPhase) {
    id in s.tasks && s.tasks[id].phase == phase
  }

  function SetPhase(s: State, id: nat, phase: TaskPhase): State
    requires id in s.tasks
  {
    s.(tasks := s.tasks[id := s.tasks[id].(phase := phase)])
  }

  /** In mock mode the proof is made in the Execution status, otherwise straight after the witness. */
  function ProvingPhase(c: Config): TaskPhase { if c.mock then Executing else Witnessing }

  function ReapTask(s: State, id: nat, fault: Fault): State
    requires id in s.tasks && s.tasks[id].phase.Finished?
  {
    var rest := s.(tasks := s.tasks - {id});
    if s.tasks[id].phase.ok then rest else HandleFailed(rest, s.tasks[id].request, false, fault)
  }

  predicate Orphan(s: State, request: Request) {
    request in s.rows && (request.status == WitnessGeneration || request.status == Execution) && request.id !in s.tasks
  }

  predicate Proving(c: Config, s: State, request: Request) {
    request in s.rows && request.status == Prove && request.proofRequestId.Some? && !c.useLocalProving
  }

  function Apply(c: Config, s: State, e: Event): State {
    match e
    case TaskExecutes(id) =>
      if InPhase(s, id, Witnessing) && c.mock
      then SetPhase(s, id, Executing).(rows := Update(s.rows, id, ToStatus(Execution))) else s
    case TaskRequestsProof(id, pid) =>
      if InPhase(s, id, Witnessing) && !c.mock && !c.useLocalProving
      then SetPhase(s, id, Finished(true)).(rows := Update(s.rows, id, ToProve(pid))) else s
    case TaskCompletes(id, proof) =>
      if InPhase(s, id, ProvingPhase(c)) && (c.mock || c.useLocalProving)
      then SetPhase(s, id, Finished(true)).(rows := Update(s.rows, id, ToComplete(proof))) else s
    case TaskErrs(id) =>
      if InPhase(s, id, Witnessing) || InPhase(s, id, Executing) then SetPhase(s, id, Finished(false)) else s
    case Reap(id, fault) =>
      if id in s.tasks && s.tasks[id].phase.Finished? then ReapTask(s, id, fault) else s
    case FailOrphan(request) =>
      if Orphan(s, request) then s.(rows := Update(s.rows, request.id, ToStatus(Failed))) else s
    case ProofFulfilled(request, proof) =>
      if Proving(c, s, request) then s.(rows := Update(s.rows, request.id, ToComplete(proof))) else s
    case ProofFails(request, unexecutable, fault) =>
      if Proving(c, s, request) then HandleFailed(s, request, unexecutable, fault) else s
    case AddNewRanges(finalized) => InsertRanges(s, NewChunks(c, s, finalized))
    case CreateAggregation(header) => CreateAgg(c, s, header)
    case StartNext => Start(c, s)
    case SubmitAgg(marked) => Submit(s, marked)
    case Restart => Reinitialize(s)
  }

  function ApplyAll(c: Config, s: State, es: seq<Event>): State
    decreases |es|
  {
    if es == [] then s else ApplyAll(c, Apply(c, s, es[0]), es[1..])
  }

  lemma {:induction false} ApplyAllConcat(c: Config, s: State, a: seq<Event>, b: seq<Event>)
    ensures ApplyAll(c, s, a + b) == ApplyAll(c, ApplyAll(c, s, a), b)
    decreases |a|
  {
    if a == [] {
      assert a + b == b;
    } else {
      assert (a + b)[1..] == a[1..] + b;
      ApplyAllConcat(c, Apply(c, s, a[0]), a[1..], b);
    }
  }

  /** A proposer started on an empty table. */
  function Fresh(c: Config): State { State([], 0, map[], c.initialBlock, []) }
}
