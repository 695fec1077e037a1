/** The validity proposer as it runs: the methods of op-succinct/validity/src/proposer.rs and
    proof_requester.rs over the requests table, the task map and the contract. Each is proved against
    the state machine; `trace` names the events that a call amounts to. Answers of the outside world
    and faults are parameters. */
module Proposer {
  import opened Requests
  import opened BlockSpans
  import opened RequestTable
  import opened ProposerModel
  import opened ProposerInvariant
  import opened ProposerSteps

  /** What the prover network says of one request. */
  datatype Answer =
    | RpcError
    | TimedOut(unexecutable: bool, fault: Fault)
    | Fulfilled(proof: nat)
    | Unfulfillable(unexecutable: bool, fault: Fault)
    | Pending

  /** Where a database error stops `set_orphaned_tasks_to_failed`: at its two queries, or at the update of a row. */
  datatype OrphanFault = AllMarked | QueryFails | UpdateFails(id: nat)

  datatype RelayOutcome = Reverted | AcceptedThenLost | AcceptedAndMarked

  /** Everything one loop iteration hears from outside. */
  datatype Inputs = Inputs(
    configValid: bool,
    metricsLogged: bool,            // `log_proposer_metrics`, which asks nodes and database, succeeds
    reapFaults: nat -> Fault,
    orphanFault: OrphanFault,
    answers: nat -> Answer,
    finalized: Option<nat>,
    header: Checkpoint,
    checkpointed: bool,             // a checkpoint transaction, if one is sent, succeeds
    relay: RelayOutcome)

  /** What polling one request amounts to: nothing, or one event. */
  function PollEvent(request: Request, answer: Answer): (events: seq<Event>)
    ensures |events| <= 1 && forall e :: e in events ==> (e.ProofFulfilled? || e.ProofFails?) && e.request == request
  {
    match answer
    case RpcError => []
    case Pending => []
    case Fulfilled(proof) => [ProofFulfilled(request, proof)]
    case TimedOut(unexecutable, fault) => [ProofFails(request, unexecutable, fault)]
    case Unfulfillable(unexecutable, fault) => [ProofFails(request, unexecutable, fault)]
  }

  function PollEvents(requests: seq<Request>, answers: nat -> Answer): seq<Event> {
    if requests == [] then []
    else
      var last := requests[|requests| - 1];
      PollEvents(requests[..|requests| - 1], answers) + PollEvent(last, answers(last.id))
  }

  /** Polling a request succeeds unless the network cannot be asked, or the failure of the request cannot be
      handled. */
  ghost predicate PollSucceeds(s: State, request: Request, answer: Answer) {
    match answer
    case RpcError => false
    case Pending => true
    case Fulfilled(_) => true
    case TimedOut(unexecutable, fault) => FailureHandled(s, request, unexecutable, fault)
    case Unfulfillable(unexecutable, fault) => FailureHandled(s, request, unexecutable, fault)
  }

  /** `handle_failed_request` returns without an error. */
  ghost predicate FailureHandled(s: State, request: Request, unexecutable: bool, fault: Fault) {
    || fault == NoFault
    || (fault == SplitFails && !Splits(Update(s.rows, request.id, ToStatus(Failed)), request, unexecutable))
  }

  /** Request `k` is polled with success, in the state that polling the ones before has left. */
  ghost predicate SucceedsAt(c: Config, s: State, requests: seq<Request>, answers: nat -> Answer, k: nat)
    requires k < |requests|
  {
    PollSucceeds(ApplyAll(c, s, PollEvents(requests[..k], answers)), requests[k], answers(requests[k].id))
  }

  /** The requests were polled in order, up to and including the first that did not succeed. */
  ghost predicate PolledInOrder(c: Config, s: State, requests: seq<Request>, answers: nat -> Answer, ok: bool,
                                trace: seq<Event>)
  {
    exists n: nat :: n <= |requests| && trace == PollEvents(requests[..n], answers)
                     && StoppedAt(c, s, requests, answers, ok, n)
  }

  ghost predicate StoppedAt(c: Config, s: State, requests: seq<Request>, answers: nat -> Answer, ok: bool, n: nat)
    requires n <= |requests|
  {
    if ok then n == |requests| && forall k: nat :: k < n ==> SucceedsAt(c, s, requests, answers, k)
    else n > 0 && !SucceedsAt(c, s, requests, answers, n - 1)
         && forall k: nat :: k < n - 1 ==> SucceedsAt(c, s, requests, answers, k)
  }

  /** Only polls, and no request is polled twice. */
  ghost predicate OncePerRequest(trace: seq<Event>) {
    && (forall e :: e in trace ==> e.ProofFulfilled? || e.ProofFails?)
    && (forall i, j :: 0 <= i < j < |trace| ==> IdOf(trace[i]) != IdOf(trace[j]))
  }

  function IdOf(e: Event): Option<nat> {
    match e
    case ProofFulfilled(request, _) => Some(request.id)
    case ProofFails(request, _, _) => Some(request.id)
    case _ => None
  }

  lemma NothingPolled(answers: nat -> Answer)
    ensures PollEvents([], answers) == [] && OncePerRequest([])
  {
  }

  lemma OneMorePolled(requests: seq<Request>, i: nat, answers: nat -> Answer)
    requires i < |requests|
    ensures PollEvents(requests[..i + 1], answers)
         == PollEvents(requests[..i], answers) + PollEvent(requests[i], answers(requests[i].id))
  {
    assert requests[..i + 1][..i] == requests[..i];
  }

  /** Polling distinct requests polls each of them once. */
  lemma {:induction false} PolledOnce(requests: seq<Request>, answers: nat -> Answer)
    requires forall i, j :: 0 <= i < j < |requests| ==> requests[i].id != requests[j].id
    ensures OncePerRequest(PollEvents(requests, answers))
    ensures forall e :: e in PollEvents(requests, answers) ==> exists r :: r in requests && IdOf(e) == Some(r.id)
    decreases |requests|
  {
    if requests != [] {
      var init, last := requests[..|requests| - 1], requests[|requests| - 1];
      assert forall r :: r in init ==> r in requests && r.id != last.id;
      PolledOnce(init, answers);
      var a, b := PollEvents(init, answers), PollEvent(last, answers(last.id));
      forall i | 0 <= i < |a| ensures IdOf(a[i]) != Some(last.id) {
        assert a[i] in a;
      }
      assert forall e :: e in b ==> IdOf(e) == Some(last.id);
      assert last in requests;
      hide PollEvents, PollEvent;
    }
  }

  /** Polling stopped after `n` requests. */
  lemma PolledPrefix(c: Config, s: State, requests: seq<Request>, n: nat, answers: nat -> Answer, ok: bool)
    requires n <= |requests| && StoppedAt(c, s, requests, answers, ok, n) && DistinctIds(requests)
    ensures PolledInOrder(c, s, requests, answers, ok, PollEvents(requests[..n], answers))
    ensures OncePerRequest(PollEvents(requests[..n], answers))
  {
    PolledOnce(requests[..n], answers);
  }

  lemma StillProving(c: Config, s: State, s': State, requests: seq<Request>, i: nat)
    requires i < |requests| && forall k :: i <= k < |requests| ==> Proving(c, s, requests[k])
    requires forall j, k :: 0 <= j < k < |requests| ==> requests[j].id != requests[k].id
    requires forall r :: r in s.rows && r.id != requests[i].id ==> r in s'.rows
    ensures forall k :: i + 1 <= k < |requests| ==> Proving(c, s', requests[k])
  {
  }

  ghost predicate InProgress(r: Request) { r.status == WitnessGeneration || r.status == Execution }

  /** Every row in witness generation or execution has a task that has not finished. */
  ghost predicate AllLive(s: State) {
    forall r :: r in s.rows && InProgress(r) ==> r.id in s.tasks && !s.tasks[r.id].phase.Finished?
  }

  // ---------------------------------------------------------------- loops that only read

  /** `validate_aggregation_request`. */
  method ValidateAggregationRequest(rangeProofs: seq<Request>, startBlock: nat, endBlock: nat) returns (ok: bool)
    ensures ok == Consecutive(rangeProofs, startBlock, endBlock)
  {
    if |rangeProofs| == 0 { return false; }
    if rangeProofs[0].startBlock != startBlock { return false; }
    if rangeProofs[|rangeProofs| - 1].endBlock != endBlock { return false; }
    var i := 1;
    while i < |rangeProofs|
      invariant 1 <= i <= |rangeProofs|
      invariant forall k :: 0 < k < i ==> rangeProofs[k - 1].endBlock == rangeProofs[k].startBlock
    {
      if rangeProofs[i - 1].endBlock != rangeProofs[i].startBlock { return false; }
      i := i + 1;
    }
    return true;
  }

  /** `get_highest_proven_contiguous_block`. */
  method GetHighestProvenContiguousBlock(completed: seq<Span>) returns (r: Option<nat>)
    ensures r == HighestContiguous(completed)
  {
    if |completed| == 0 { return None; }
    var currentEnd := completed[0].hi;
    var i := 1;
    while i < |completed| && completed[i].lo == currentEnd
      invariant 1 <= i <= |completed|
      invariant ContiguousEnd(currentEnd, completed[i..]) == ContiguousEnd(completed[0].hi, completed[1..])
    {
      assert completed[i..][1..] == completed[i + 1..];
      currentEnd := completed[i].hi;
      i := i + 1;
    }
    return Some(currentEnd);
  }

  // ---------------------------------------------------------------- lemmas about the event lists

  lemma OneEvent(c: Config, s: State, e: Event)
    ensures ApplyAll(c, s, [e]) == Apply(c, s, e)
  {
    assert [e][1..] == [];
    assert ApplyAll(c, s, [e]) == ApplyAll(c, Apply(c, s, e), []);
  }

  lemma NoEvent(c: Config, s: State)
    ensures ApplyAll(c, s, []) == s
  {
  }

  lemma UpdateKeepsOthers(rows: seq<Request>, id: nat, change: Change, r: Request)
    requires r in rows && r.id != id
    ensures r in Update(rows, id, change)
  {
    var i :| 0 <= i < |rows| && rows[i] == r;
    assert Update(rows, id, change)[i] == r;
  }

  lemma UpdateOnlyChanges(rows: seq<Request>, id: nat, change: Change, r: Request)
    requires r in Update(rows, id, change)
    ensures (r in rows && r.id != id) || exists a :: a in rows && a.id == id && r == ApplyChange(a, change)
  {
    var i :| 0 <= i < |rows| && Update(rows, id, change)[i] == r;
    assert rows[i] in rows;
  }

  ghost predicate DistinctIds(rs: seq<Request>) {
    forall i, j :: 0 <= i < j < |rs| ==> rs[i].id != rs[j].id
  }

  lemma StatusRows(rows: seq<Request>, nextId: nat, status: RequestStatus)
    requires IdsOk(rows, nextId)
    ensures DistinctIds(Select(rows, WithStatus(status)))
    ensures forall r :: r in Select(rows, WithStatus(status)) <==> r in rows && r.status == status
  {
    SelectIds(rows, nextId, WithStatus(status));
    forall r ensures r in Select(rows, WithStatus(status)) <==> r in rows && r.status == status {
      SelectMember(rows, WithStatus(status), r);
    }
  }

  lemma InProgressRows(rows: seq<Request>, nextId: nat)
    requires IdsOk(rows, nextId)
    ensures var rs := Select(rows, WithStatus(WitnessGeneration)) + Select(rows, WithStatus(Execution));
            DistinctIds(rs) && forall r :: r in rs <==> r in rows && InProgress(r)
  {
    StatusRows(rows, nextId, WitnessGeneration);
    StatusRows(rows, nextId, Execution);
    var a, b := Select(rows, WithStatus(WitnessGeneration)), Select(rows, WithStatus(Execution));
    forall i, j | 0 <= i < |a| && 0 <= j < |b| ensures a[i].id != b[j].id {
      assert a[i] in a && b[j] in b;
      if a[i].id == b[j].id { IdUnique(rows, nextId, a[i], b[j]); }
    }
    var rs := a + b;
    forall i, j | 0 <= i < j < |rs| ensures rs[i].id != rs[j].id {
      if i < |a| <= j { assert rs[j] == b[j - |a|]; }
    }
  }

  lemma PollEffect(c: Config, s: State, e: Event)
    requires (e.ProofFulfilled? || e.ProofFails?) && Proving(c, s, e.request)
    ensures e.ProofFulfilled? ==> Apply(c, s, e) == s.(rows := Update(s.rows, e.request.id, ToComplete(e.proof)))
    ensures e.ProofFails? ==> Apply(c, s, e) == HandleFailed(s, e.request, e.unexecutable, e.fault)
  {
    hide HandleFailed;
  }

  lemma PollKeepsOthers(c: Config, s: State, e: Event)
    requires e.ProofFulfilled? || e.ProofFails?
    ensures forall r :: r in s.rows && r.id != e.request.id ==> r in Apply(c, s, e).rows
  {
    forall r | r in s.rows && r.id != e.request.id ensures r in Apply(c, s, e).rows {
      UpdateKeepsOthers(s.rows, e.request.id, if e.ProofFulfilled? then ToComplete(e.proof) else ToStatus(Failed), r);
      hide Splits;
    }
  }

  lemma ProvingRows(c: Config, s: State)
    requires Inv(c, s) && !c.useLocalProving
    ensures forall r :: r in s.rows && r.status == Prove ==> Proving(c, s, r)
  {
    forall r | r in s.rows && r.status == Prove ensures Proving(c, s, r) { assert RowOk(c, r, s.latest); }
  }

  /** The update of some orphan is going to fail. */
  ghost predicate Blocked(rows: seq<Request>, tasks: map<nat, Task>, fault: OrphanFault) {
    exists r :: r in rows && InProgress(r) && r.id !in tasks && fault == UpdateFails(r.id)
  }

  /** The first requests were marked, unless they had a task. */
  ghost predicate Marked(requests: seq<Request>, tasks: map<nat, Task>, fault: OrphanFault) {
    forall r :: r in requests && r.id !in tasks ==> fault != UpdateFails(r.id)
  }

  lemma MarkedAll(rows: seq<Request>, requests: seq<Request>, tasks: map<nat, Task>, fault: OrphanFault)
    requires forall r :: r in requests <==> r in rows && InProgress(r)
    ensures Marked(requests, tasks, fault) <==> !Blocked(rows, tasks, fault)
  {
  }

  lemma MarkedNext(requests: seq<Request>, i: nat, tasks: map<nat, Task>, fault: OrphanFault)
    requires i < |requests| && Marked(requests[..i], tasks, fault)
    ensures requests[i].id in tasks || fault != UpdateFails(requests[i].id) ==> Marked(requests[..i + 1], tasks, fault)
    ensures requests[i].id !in tasks && fault == UpdateFails(requests[i].id) ==> !Marked(requests, tasks, fault)
  {
    assert requests[..i + 1] == requests[..i] + [requests[i]];
    assert requests[i] in requests;
  }

  lemma OrphanFails(c: Config, s: State, r: Request)
    requires Inv(c, s) && r in s.rows && InProgress(r) && r.id !in s.tasks
    ensures ApplyAll(c, s, [FailOrphan(r)]) == s.(rows := Update(s.rows, r.id, ToStatus(Failed)))
    ensures Inv(c, s.(rows := Update(s.rows, r.id, ToStatus(Failed))))
  {
    hide Inv, ApplyAll;
    StepKeepsInv(c, s, FailOrphan(r));
    OneEvent(c, s, FailOrphan(r));
  }

  lemma NothingBlocks(rows: seq<Request>, tasks: map<nat, Task>)
    ensures !Blocked(rows, tasks, AllMarked)
  {
  }

  /** The requests from `i` on are untouched rows in progress, and the orphans left are among them. */
  ghost predicate OrphansLeft(requests: seq<Request>, i: nat, rows: seq<Request>, tasks: map<nat, Task>) {
    && i <= |requests| && DistinctIds(requests)
    && (forall k :: i <= k < |requests| ==> requests[k] in rows && InProgress(requests[k]))
    && (forall r :: r in rows && InProgress(r) && r.id !in tasks ==> r in requests[i..])
  }

  lemma OrphansAtFirst(requests: seq<Request>, s: State, fault: OrphanFault)
    requires IdsOk(s.rows, s.nextId)
    requires requests == Select(s.rows, WithStatus(WitnessGeneration)) + Select(s.rows, WithStatus(Execution))
    ensures OrphansLeft(requests, 0, s.rows, s.tasks)
    ensures Marked(requests, s.tasks, fault) <==> !Blocked(s.rows, s.tasks, fault)
  {
    InProgressRows(s.rows, s.nextId);
    MarkedAll(s.rows, requests, s.tasks, fault);
    assert requests[0..] == requests;
  }

  lemma OrphanLoopKeeps(requests: seq<Request>, i: nat, before: seq<Request>, rows: seq<Request>, tasks: map<nat, Task>)
    requires i < |requests| && OrphansLeft(requests, i, before, tasks)
    requires requests[i].id in tasks ==> rows == before
    requires requests[i].id !in tasks ==> rows == Update(before, requests[i].id, ToStatus(Failed))
    ensures OrphansLeft(requests, i + 1, rows, tasks)
  {
    var id := requests[i].id;
    forall k | i + 1 <= k < |requests| ensures requests[k] in rows {
      if id !in tasks { UpdateKeepsOthers(before, id, ToStatus(Failed), requests[k]); }
    }
    assert requests[i..] == [requests[i]] + requests[i + 1..];
    forall r | r in rows && InProgress(r) && r.id !in tasks ensures r in requests[i + 1..] {
      if id !in tasks { UpdateOnlyChanges(before, id, ToStatus(Failed), r); }
    }
  }

  lemma NextInProgress(requests: seq<Request>, i: nat, rows: seq<Request>, tasks: map<nat, Task>)
    requires OrphansLeft(requests, i, rows, tasks)
    ensures i < |requests| ==> requests[i] in rows && InProgress(requests[i])
    ensures i >= |requests| ==> i == |requests| && forall r :: r in rows && InProgress(r) ==> r.id in tasks
  {
  }

  // ---------------------------------------------------------------- live tasks

  lemma LiveTasks(s: State)
    requires forall r :: r in s.rows && InProgress(r) ==> r.id in s.tasks
    requires forall id :: id in s.tasks ==> !s.tasks[id].phase.Finished?
    ensures AllLive(s)
  {
  }

  lemma LiveAfterUpdate(s: State, id: nat, change: Change)
    requires AllLive(s)
    requires forall r :: r in s.rows ==> !InProgress(ApplyChange(r, change))
    ensures AllLive(s.(rows := Update(s.rows, id, change)))
  {
    forall r | r in Update(s.rows, id, change) && InProgress(r) ensures r in s.rows {
      UpdateOnlyChanges(s.rows, id, change, r);
    }
  }

  lemma LiveAfterInsert(s: State, spans: seq<Span>)
    requires AllLive(s)
    ensures AllLive(InsertRanges(s, spans))
  {
    forall r | r in InsertRanges(s, spans).rows && InProgress(r) ensures r in s.rows {
      if r !in s.rows { var i := FreshRange(spans, s.nextId, r); }
    }
  }

  lemma PollKeepsLive(c: Config, s: State, e: Event)
    requires AllLive(s) && (e.ProofFulfilled? || e.ProofFails?)
    ensures AllLive(Apply(c, s, e))
  {
    if e.ProofFulfilled? {
      LiveAfterUpdate(s, e.request.id, ToComplete(e.proof));
    } else {
      LiveAfterUpdate(s, e.request.id, ToStatus(Failed));
      LiveAfterInsert(s.(rows := Update(s.rows, e.request.id, ToStatus(Failed))),
        Halves(e.request.startBlock, e.request.endBlock));
    }
    hide AllLive, Splits, Halves;
  }

  lemma {:induction false} PollsKeepLive(c: Config, s: State, es: seq<Event>)
    requires AllLive(s) && forall e :: e in es ==> e.ProofFulfilled? || e.ProofFails?
    ensures AllLive(ApplyAll(c, s, es))
    decreases |es|
  {
    hide AllLive, Apply;
    if es != [] {
      assert es[0] in es;
      PollKeepsLive(c, s, es[0]);
      PollsKeepLive(c, Apply(c, s, es[0]), es[1..]);
    }
  }

  lemma PlanKeepsLive(c: Config, s: State, e: Event)
    requires Inv(c, s) && AllLive(s)
    requires e.AddNewRanges? || e.CreateAggregation? || e.StartNext? || e.SubmitAgg?
    ensures AllLive(Apply(c, s, e))
  {
    hide Inv;
    match e
    case AddNewRanges(f) => LiveAfterInsert(s, NewChunks(c, s, f));
    case CreateAggregation(h) =>
    case StartNext =>
      if HasCapacity(c, s.rows) && NextUnrequested(s).Some? {
        var id := NextUnrequested(s).value.id;
        forall r | r in Update(s.rows, id, ToStatus(WitnessGeneration)) && InProgress(r)
          ensures r.id == id || r in s.rows {
          UpdateOnlyChanges(s.rows, id, ToStatus(WitnessGeneration), r);
        }
      }
    case SubmitAgg(marked) =>
      if Deliverable(s).Some? { LiveAfterUpdate(s, Deliverable(s).value.id, ToStatus(Relayed)); }
  }

  lemma PlanKeepsLiveIf(c: Config, s: State, e: Event)
    requires Inv(c, s) && (e.AddNewRanges? || e.CreateAggregation? || e.StartNext? || e.SubmitAgg?)
    ensures AllLive(s) ==> AllLive(Apply(c, s, e))
  {
    hide AllLive, Apply, Inv;
    if AllLive(s) { PlanKeepsLive(c, s, e); }
  }

  lemma AddNewRangesStep(c: Config, s: State, finalized: nat)
    requires Inv(c, s)
    ensures Apply(c, s, AddNewRanges(finalized)) == InsertRanges(s, NewChunks(c, s, finalized))
    ensures Inv(c, InsertRanges(s, NewChunks(c, s, finalized)))
  {
    hide Inv, InsertRanges, NewChunks;
    StepKeepsInv(c, s, AddNewRanges(finalized));
  }

  /** An aggregation is about to be requested, and no failed one lends its checkpoint. */
  predicate NeedsCheckpoint(c: Config, s: State) {
    AggTarget(c, s).Some? && First(Select(s.rows, FailedAggWithCheckpoint(s.latest, AggTarget(c, s).value))) == None
  }

  lemma FailedAggHasCheckpoint(c: Config, s: State, end: nat)
    ensures var r := First(Select(s.rows, FailedAggWithCheckpoint(s.latest, end))); r.Some? ==> r.value.checkpoint.Some?
  {
    var w := FailedAggWithCheckpoint(s.latest, end);
    if Select(s.rows, w) != [] { SelectMember(s.rows, w, Select(s.rows, w)[0]); }
  }

  /** The walk of one task: the witness, in mock mode its execution, then the proof or the id of its request. */
  function TaskEvents(c: Config, id: nat, witnessOk: bool, proof: Option<nat>): seq<Event> {
    if !witnessOk then [TaskErrs(id)]
    else
      (if c.mock then [TaskExecutes(id)] else [])
      + [if proof.None? then TaskErrs(id)
         else if c.mock || c.useLocalProving then TaskCompletes(id, proof.value)
         else TaskRequestsProof(id, proof.value)]
  }

  /** Each of these tasks is reaped once, in any order. */
  ghost predicate Reaps(trace: seq<Event>, ids: set<nat>, faults: nat -> Fault) {
    && (forall e :: e in trace ==> e.Reap? && e.id in ids && e.fault == faults(e.id))
    && (forall id :: id in ids ==> Reap(id, faults(id)) in trace)
    && (forall i, j :: 0 <= i < j < |trace| ==> trace[i] != trace[j])
  }

  lemma OneMoreReaped(trace: seq<Event>, ids: set<nat>, faults: nat -> Fault, id: nat)
    requires Reaps(trace, ids, faults) && id !in ids
    ensures Reaps(trace + [Reap(id, faults(id))], ids + {id}, faults)
  {
    forall i | 0 <= i < |trace| ensures trace[i] != Reap(id, faults(id)) { assert trace[i] in trace; }
  }

  function FinishedTasks(tasks: map<nat, Task>): set<nat> { set id | id in tasks && tasks[id].phase.Finished? }

  /** The finished tasks of `start` but for those still to do are reaped. */
  ghost predicate Reaping(start: map<nat, Task>, tasks: map<nat, Task>, completed: set<nat>, trace: seq<Event>,
                          faults: nat -> Fault)
  {
    && completed <= FinishedTasks(start)
    && tasks == start - (FinishedTasks(start) - completed)
    && Reaps(trace, FinishedTasks(start) - completed, faults)
  }

  lemma ReapingStarts(start: map<nat, Task>, faults: nat -> Fault)
    ensures Reaping(start, start, FinishedTasks(start), [], faults)
  {
    assert FinishedTasks(start) - FinishedTasks(start) == {};
  }

  lemma ReapingNext(start: map<nat, Task>, tasks: map<nat, Task>, completed: set<nat>, trace: seq<Event>,
                    faults: nat -> Fault, id: nat)
    requires Reaping(start, tasks, completed, trace, faults) && id in completed
    ensures id in tasks && tasks[id].phase.Finished?
    ensures Reaping(start, tasks - {id}, completed - {id}, trace + [Reap(id, faults(id))], faults)
  {
    var done := FinishedTasks(start) - completed;
    assert FinishedTasks(start) - (completed - {id}) == done + {id};
    OneMoreReaped(trace, done, faults, id);
  }

  lemma ReapingEnds(start: map<nat, Task>, tasks: map<nat, Task>, trace: seq<Event>, faults: nat -> Fault)
    requires Reaping(start, tasks, {}, trace, faults)
    ensures tasks == start - FinishedTasks(start) && Reaps(trace, FinishedTasks(start), faults)
    ensures forall id :: id in tasks ==> !tasks[id].phase.Finished?
  {
    assert FinishedTasks(start) - {} == FinishedTasks(start);
  }

  /** What a loop iteration does after polling: the planning steps, the next start and the relay. A reverted
      checkpoint transaction ends it after the new ranges. */
  ghost function LaterSteps(c: Config, s: State, inp: Inputs): seq<Event> {
    var plan := match inp.finalized case None => [] case Some(f) => [AddNewRanges(f)];
    if NeedsCheckpoint(c, ApplyAll(c, s, plan)) && !inp.checkpointed then plan
    else plan + [CreateAggregation(inp.header)] + [StartNext]
         + (if inp.relay == Reverted then [] else [SubmitAgg(inp.relay == AcceptedAndMarked)])
  }

  /** The events of one iteration: reaps, then orphans, then polls unless an orphan cannot be marked, then the
      later steps unless polling ends in an error. */
  ghost predicate IterationIs(c: Config, s: State, inp: Inputs, trace: seq<Event>) {
    exists reaps, fails, polls, later ::
      trace == reaps + fails + polls + later && IterationParts(c, s, inp, reaps, fails, polls, later)
  }

  ghost predicate IterationParts(c: Config, s: State, inp: Inputs, reaps: seq<Event>, fails: seq<Event>,
                                 polls: seq<Event>, later: seq<Event>)
  {
    var reaped := ApplyAll(c, s, reaps);
    var marked := ApplyAll(c, reaped, fails);
    && Reaps(reaps, FinishedTasks(s.tasks), inp.reapFaults)
    && (forall e :: e in fails ==> e.FailOrphan?)
    && if inp.orphanFault == QueryFails || Blocked(reaped.rows, reaped.tasks, inp.orphanFault)
       then polls == [] && later == []
       else exists polledAll ::
              && PollsAre(c, marked, inp.answers, polledAll, polls)
              && later == if polledAll then LaterSteps(c, ApplyAll(c, marked, polls), inp) else []
  }

  /** With local proving nothing is polled. */
  ghost predicate PollsAre(c: Config, s: State, answers: nat -> Answer, ok: bool, polls: seq<Event>) {
    if c.useLocalProving then ok && polls == []
    else PolledInOrder(c, s, Select(s.rows, WithStatus(Prove)), answers, ok, polls)
  }

  // ---------------------------------------------------------------- the proposer

  class Proposer {
    const config: Config
    const db: DriverDBClient
    var tasks: map<nat, Task>
    var latestBlock: nat            // the contract's latest L2 block
    ghost var relayed: seq<Relay>   // what the contract has accepted

    ghost function View(): State
      reads this, db
    {
      State(db.rows, db.nextId, tasks, latestBlock, relayed)
    }

    ghost predicate Valid()
      reads this, db
    {
      Inv(config, View())
    }

    constructor (c: Config)
      ensures Valid() && config == c && View() == Fresh(c) && fresh(db)
    {
      config := c;
      db := new DriverDBClient();
      tasks := map[];
      latestBlock := c.initialBlock;
      relayed := [];
    }

    /** `handle_failed_request`; an early error return is a fault. */
    method HandleFailedRequest(request: Request, unexecutable: bool, fault: Fault) returns (ok: bool)
      modifies db
      ensures View() == HandleFailed(old(View()), request, unexecutable, fault)
      ensures ok == FailureHandled(old(View()), request, unexecutable, fault)
    {
      if fault == MarkFails { return false; }
      db.UpdateRequest(request.id, ToStatus(Failed));
      if fault == LookupFails { return false; }
      if request.endBlock - request.startBlock > 1 && request.reqType == Range {
        var numFailedRequests := Count(db.rows, FailedByBlockRange(request.startBlock, request.endBlock));
        if numFailedRequests > 2 || unexecutable {
          if fault == SplitFails { return false; }
          var midBlock := (request.startBlock + request.endBlock) / 2;
          var halves := [Span(request.startBlock, midBlock), Span(midBlock, request.endBlock)];
          db.InsertRequests(NewRanges(halves));
        }
      }
      return true;
    }

    /** One event of a background task. */
    method TaskStep(id: nat, e: Event, change: Change, phase: TaskPhase)
      requires id in tasks
      requires Apply(config, View(), e) == SetPhase(View(), id, phase).(rows := Update(db.rows, id, change))
      modifies this`tasks, db`rows
      ensures View() == Apply(config, old(View()), e)
      ensures tasks == old(tasks)[id := old(tasks)[id].(phase := phase)]
      ensures db.rows == Update(old(db.rows), id, change)
    {
      hide Apply;
      db.UpdateRequest(id, change);
      tasks := tasks[id := tasks[id].(phase := phase)];
    }

    method TaskFails(id: nat)
      requires Valid() && (InPhase(View(), id, Witnessing) || InPhase(View(), id, Executing))
      modifies this`tasks
      ensures Valid() && View() == Apply(config, old(View()), TaskErrs(id))
      ensures tasks == old(tasks)[id := old(tasks)[id].(phase := Finished(false))]
    {
      StepKeepsInv(config, View(), TaskErrs(id));
      hide Inv;
      tasks := tasks[id := tasks[id].(phase := Finished(false))];
    }

    /** The rest of `make_proof_request`, once the row is marked: the witness, then the proof. */
    method MakeProofRequest(id: nat, witnessOk: bool, proof: Option<nat>) returns (ghost trace: seq<Event>)
      requires Valid() && id in tasks && tasks[id].phase == Witnessing
      modifies this`tasks, db`rows
      ensures Valid() && View() == ApplyAll(config, old(View()), trace)
      ensures tasks == old(tasks)[id := old(tasks)[id].(phase := Finished(witnessOk && proof.Some?))]
      ensures witnessOk && proof.Some? ==>
                forall r :: r in db.rows && r.id == id ==>
                  if config.mock || config.useLocalProving then r.status == Complete && r.proof == proof
                  else r.status == Prove && r.proofRequestId == proof
      ensures trace == TaskEvents(config, id, witnessOk, proof)
    {
      hide Inv, ApplyAll;
      ghost var start := View();
      trace := [];
      NoEvent(config, start);
      if !witnessOk {
        TaskFails(id);
        trace := TraceStep(start, trace, TaskErrs(id));
        return;
      }
      if config.mock {
        StepKeepsInv(config, View(), TaskExecutes(id));
        TaskStep(id, TaskExecutes(id), ToStatus(Execution), Executing);
        trace := TraceStep(start, trace, TaskExecutes(id));
      }
      if proof.None? {
        TaskFails(id);
        trace := TraceStep(start, trace, TaskErrs(id));
      } else if config.mock || config.useLocalProving {
        StepKeepsInv(config, View(), TaskCompletes(id, proof.value));
        TaskStep(id, TaskCompletes(id, proof.value), ToComplete(proof.value), Finished(true));
        trace := TraceStep(start, trace, TaskCompletes(id, proof.value));
      } else {
        StepKeepsInv(config, View(), TaskRequestsProof(id, proof.value));
        TaskStep(id, TaskRequestsProof(id, proof.value), ToProve(proof.value), Finished(true));
        trace := TraceStep(start, trace, TaskRequestsProof(id, proof.value));
      }
    }

    /** A state reached by one more event is reached by the longer trace. */
    lemma TraceStep(start: State, trace: seq<Event>, e: Event) returns (longer: seq<Event>)
      requires View() == Apply(config, ApplyAll(config, start, trace), e)
      ensures longer == trace + [e] && View() == ApplyAll(config, start, longer)
    {
      longer := trace + [e];
      ApplyAllConcat(config, start, trace, [e]);
      OneEvent(config, ApplyAll(config, start, trace), e);
    }

    /** One finished task leaves the map; if it failed, its request is retried. */
    method ReapOne(id: nat, fault: Fault)
      requires Valid() && id in tasks && tasks[id].phase.Finished?
      modifies this`tasks, db
      ensures Valid() && View() == Apply(config, old(View()), Reap(id, fault))
      ensures tasks == old(tasks) - {id}
    {
      hide Inv, HandleFailed;
      StepKeepsInv(config, View(), Reap(id, fault));
      var task := tasks[id];
      tasks := tasks - {id};
      if !task.phase.ok {
        var ok := HandleFailedRequest(task.request, false, fault);
      }
    }

    /** `handle_ongoing_tasks`: the finished tasks leave the map, the failed ones are retried. */
    method HandleOngoingTasks(faults: nat -> Fault) returns (ghost trace: seq<Event>)
      requires Valid()
      modifies this`tasks, db
      ensures Valid() && View() == ApplyAll(config, old(View()), trace)
      ensures tasks == old(tasks) - FinishedTasks(old(tasks))
      ensures forall id :: id in tasks ==> !tasks[id].phase.Finished?
      ensures Reaps(trace, FinishedTasks(old(tasks)), faults)
    {
      hide Inv, Apply, ApplyAll, Reaps, Reaping, FinishedTasks;
      trace := [];
      ghost var start := View();
      NoEvent(config, start);
      ReapingStarts(tasks, faults);
      var completed := FinishedTasks(tasks);
      while completed != {}
        invariant Valid() && View() == ApplyAll(config, start, trace)
        invariant Reaping(start.tasks, tasks, completed, trace, faults)
        decreases |completed|
      {
        var id :| id in completed;
        ReapingNext(start.tasks, tasks, completed, trace, faults, id);
        completed := completed - {id};
        ReapOne(id, faults(id));
        trace := TraceStep(start, trace, Reap(id, faults(id)));
      }
      ReapingEnds(start.tasks, tasks, trace, faults);
    }

    method FailIfOrphan(request: Request, fault: OrphanFault) returns (ok: bool, ghost trace: seq<Event>)
      requires Valid() && request in db.rows && InProgress(request)
      modifies db`rows
      ensures Valid() && View() == ApplyAll(config, old(View()), trace)
      ensures ok == (request.id in tasks || fault != UpdateFails(request.id))
      ensures forall e :: e in trace ==> e.FailOrphan?
      ensures db.rows == if request.id in tasks || !ok then old(db.rows)
        else Update(old(db.rows), request.id, ToStatus(Failed))
    {
      hide Inv, Apply, ApplyAll;
      NoEvent(config, View());
      if request.id in tasks { return true, []; }
      if fault == UpdateFails(request.id) { return false, []; }
      OrphanFails(config, View(), request);
      db.UpdateRequest(request.id, ToStatus(Failed));
      return true, [FailOrphan(request)];
    }

    /** The rows in witness generation, then those in execution. */
    method FetchInProgress(ghost fault: OrphanFault) returns (requests: seq<Request>)
      requires Valid()
      ensures OrphansLeft(requests, 0, db.rows, tasks)
      ensures Marked(requests, tasks, fault) <==> !Blocked(db.rows, tasks, fault)
    {
      requests := Select(db.rows, WithStatus(WitnessGeneration)) + Select(db.rows, WithStatus(Execution));
      OrphansAtFirst(requests, View(), fault);
    }

    /** `set_orphaned_tasks_to_failed`; it fails exactly when a query does, or the update of an orphan. */
    method SetOrphanedTasksToFailed(fault: OrphanFault) returns (ok: bool, ghost trace: seq<Event>)
      requires Valid()
      modifies db`rows
      ensures Valid() && View() == ApplyAll(config, old(View()), trace)
      ensures ok ==> forall r :: r in db.rows && InProgress(r) ==> r.id in tasks
      ensures ok <==> fault != QueryFails && !Blocked(old(db.rows), tasks, fault)
      ensures tasks == old(tasks) && forall e :: e in trace ==> e.FailOrphan?
    {
      hide Inv, Apply, ApplyAll, Blocked, OrphansLeft, InProgress;
      ok, trace := true, [];
      ghost var start := View();
      NoEvent(config, start);
      if fault == QueryFails { return false, []; }
      var requests := FetchInProgress(fault);
      var i := 0;
      while i < |requests|
        invariant 0 <= i <= |requests|
        invariant ok && Valid() && View() == ApplyAll(config, start, trace)
        invariant forall e :: e in trace ==> e.FailOrphan?
        invariant OrphansLeft(requests, i, db.rows, tasks)
        invariant Marked(requests[..i], tasks, fault)
      {
        ghost var before := db.rows;
        ghost var more;
        MarkedNext(requests, i, tasks, fault);
        NextInProgress(requests, i, before, tasks);
        ok, more := FailIfOrphan(requests[i], fault);
        if !ok { return; }
        ApplyAllConcat(config, start, trace, more);
        trace := trace + more;
        OrphanLoopKeeps(requests, i, before, db.rows, tasks);
        i := i + 1;
      }
      NextInProgress(requests, i, db.rows, tasks);
      assert requests[..i] == requests;
    }

    /** `process_proof_request_status`. */
    method ProcessProofRequestStatus(request: Request, answer: Answer) returns (ok: bool, ghost trace: seq<Event>)
      requires Valid() && Proving(config, View(), request)
      modifies db
      ensures Valid() && View() == ApplyAll(config, old(View()), trace)
      ensures forall r :: r in old(db.rows) && r.id != request.id ==> r in db.rows
      ensures trace == PollEvent(request, answer)
      ensures View() == match answer
                        case Fulfilled(proof) => Apply(config, old(View()), ProofFulfilled(request, proof))
                        case TimedOut(unexecutable, fault) =>
                          Apply(config, old(View()), ProofFails(request, unexecutable, fault))
                        case Unfulfillable(unexecutable, fault) =>
                          Apply(config, old(View()), ProofFails(request, unexecutable, fault))
                        case _ => old(View())
      ensures ok == PollSucceeds(old(View()), request, answer)
    {
      ghost var start := View();
      NoEvent(config, start);
      if answer.RpcError? || answer.Pending? { return answer.Pending?, []; }
      ghost var e := match answer
        case Fulfilled(proof) => ProofFulfilled(request, proof)
        case TimedOut(unexecutable, fault) => ProofFails(request, unexecutable, fault)
        case Unfulfillable(unexecutable, fault) => ProofFails(request, unexecutable, fault);
      hide Inv, Apply, ApplyAll, HandleFailed, Proving, FailureHandled;
      StepKeepsInv(config, start, e);
      OneEvent(config, start, e);
      PollKeepsOthers(config, start, e);
      PollEffect(config, start, e);
      trace := [e];
      ok := true;
      match answer {
        case Fulfilled(proof) => db.UpdateRequest(request.id, ToComplete(proof));
        case TimedOut(unexecutable, fault) => ok := HandleFailedRequest(request, unexecutable, fault);
        case Unfulfillable(unexecutable, fault) => ok := HandleFailedRequest(request, unexecutable, fault);
      }
    }

    /** The loop of `handle_proving_requests`. */
    method PollAll(requests: seq<Request>, answers: nat -> Answer) returns (ok: bool, ghost trace: seq<Event>)
      requires Valid() && forall k :: 0 <= k < |requests| ==> Proving(config, View(), requests[k])
      requires DistinctIds(requests)
      modifies db
      ensures Valid() && View() == ApplyAll(config, old(View()), trace)
      ensures PolledInOrder(config, old(View()), requests, answers, ok, trace) && OncePerRequest(trace)
    {
      hide Inv, Apply, ApplyAll, Proving, PollEvent, PollEvents, OncePerRequest, PolledInOrder, PollSucceeds;
      trace := [];
      ghost var start := View();
      NoEvent(config, start);
      NothingPolled(answers);
      assert requests[..0] == [];
      var i := 0;
      while i < |requests|
        invariant 0 <= i <= |requests|
        invariant Valid() && View() == ApplyAll(config, start, trace)
        invariant forall k :: i <= k < |requests| ==> Proving(config, View(), requests[k])
        invariant trace == PollEvents(requests[..i], answers)
        invariant forall k: nat :: k < i ==> SucceedsAt(config, start, requests, answers, k)
      {
        ghost var before := View();
        ghost var more;
        ok, more := ProcessProofRequestStatus(requests[i], answers(requests[i].id));
        ApplyAllConcat(config, start, trace, more);
        StillProving(config, before, View(), requests, i);
        OneMorePolled(requests, i, answers);
        trace := trace + more;
        i := i + 1;
        if !ok {
          PolledPrefix(config, start, requests, i, answers, false);
          return;
        }
      }
      PolledPrefix(config, start, requests, i, answers, true);
      return true, trace;
    }

    /** `handle_proving_requests`: the Prove rows are polled in order, each once, up to the first error. */
    method HandleProvingRequests(answers: nat -> Answer) returns (ok: bool, ghost trace: seq<Event>)
      requires Valid()
      modifies db
      ensures Valid() && View() == ApplyAll(config, old(View()), trace)
      ensures config.useLocalProving ==> ok && trace == []
      ensures !config.useLocalProving ==>
        PolledInOrder(config, old(View()), Select(old(db.rows), WithStatus(Prove)), answers, ok, trace)
      ensures OncePerRequest(trace)
    {
      if config.useLocalProving {
        NoEvent(config, View());
        NothingPolled(answers);
        return true, [];
      }
      StatusRows(db.rows, db.nextId, Prove);
      ProvingRows(config, View());
      hide Inv, Apply, ApplyAll, Proving, OncePerRequest, PolledInOrder, Select;
      var requests := Select(db.rows, WithStatus(Prove));
      ok, trace := PollAll(requests, answers);
    }

    /** The ranges that `add_new_ranges` is going to insert. */
    method PlanRanges(finalized: nat) returns (rangesToProve: seq<Span>)
      ensures rangesToProve == NewChunks(config, View(), finalized)
    {
      hide Gaps, RangesToProve, SelectOrdered;
      var requests := Spans(SelectOrdered(db.rows, RangesAfterBlock(ACTIVE, latestBlock)));
      var disjointRanges := FindGaps(latestBlock, finalized, requests);
      rangesToProve := GetRangesToProve(disjointRanges, config.rangeProofInterval);
    }

    method InsertRangeRequests(ranges: seq<Span>)
      modifies db
      ensures View() == InsertRanges(old(View()), ranges)
    {
      if |ranges| > 0 {
        db.InsertRequests(NewRanges(ranges));
      } else {
        assert Stamp(NewRanges(ranges), db.nextId) == [];
      }
    }

    /** `add_new_ranges`; `None` when no finalized block is known. */
    method AddNewRanges(finalized: Option<nat>)
      requires Valid()
      modifies db
      ensures Valid()
      ensures finalized.None? ==> View() == old(View())
      ensures finalized.Some? ==> View() == Apply(config, old(View()), Event.AddNewRanges(finalized.value))
    {
      if finalized.Some? {
        AddNewRangesStep(config, View(), finalized.value);
        hide Inv, InsertRanges, NewChunks, Apply;
        var ranges := PlanRanges(finalized.value);
        InsertRangeRequests(ranges);
      }
    }

    /** `create_aggregation_proofs`; `header` is the L1 block that a fresh checkpoint would use. If its
        transaction reverts, nothing is inserted and the pass ends. */
    method CreateAggregationProofs(header: Checkpoint, checkpointed: bool) returns (ok: bool)
      requires Valid()
      modifies db
      ensures Valid()
      ensures ok == (checkpointed || !NeedsCheckpoint(config, old(View())))
      ensures View() == if ok then Apply(config, old(View()), CreateAggregation(header)) else old(View())
    {
      hide Inv, SelectOrdered, HighestContiguous, MinAggSize;
      StepKeepsInv(config, View(), CreateAggregation(header));
      var activeAggProofsCount := Count(db.rows, ActiveAggs(latestBlock));
      if activeAggProofsCount > 0 { return true; }
      var completed := Spans(SelectOrdered(db.rows, CompletedRanges(latestBlock)));
      var highest := GetHighestProvenContiguousBlock(completed);
      if highest.None? { return true; }
      var submissionInterval := MinAggSize(config);
      if highest.value >= latestBlock + submissionInterval {
        var existing := First(Select(db.rows, FailedAggWithCheckpoint(latestBlock, highest.value)));
        var checkpoint := header;
        if existing.Some? {
          FailedAggHasCheckpoint(config, View(), highest.value);
          checkpoint := existing.value.checkpoint.value;
        } else if !checkpointed {
          return false;
        }
        db.InsertRequest(NewAggRequest(latestBlock, highest.value, checkpoint));
      }
      return true;
    }

    /** `get_next_unrequested_proof`. */
    method GetNextUnrequestedProof() returns (r: Option<Request>)
      ensures r == NextUnrequested(View())
    {
      var agg := First(SelectOrdered(db.rows, UnrequestedAgg(latestBlock)));
      if agg.Some? {
        var rangeProofs := SelectOrdered(db.rows, ConsecutiveComplete(agg.value.startBlock, agg.value.endBlock));
        var valid := ValidateAggregationRequest(rangeProofs, agg.value.startBlock, agg.value.endBlock);
        if valid { return agg; }
      }
      r := First(SelectOrdered(db.rows, UnrequestedRange(latestBlock)));
    }

    /** `request_queued_proofs`, the spawned task's first status update included. */
    method RequestQueuedProofs()
      requires Valid()
      modifies this`tasks, db`rows
      ensures Valid() && View() == Apply(config, old(View()), StartNext)
    {
      StepKeepsInv(config, View(), StartNext);
      var witnessGenCount := Count(db.rows, WithStatus(WitnessGeneration));
      var executionCount := Count(db.rows, WithStatus(Execution));
      var proveCount := Count(db.rows, WithStatus(Prove));
      if witnessGenCount + executionCount + proveCount >= config.maxConcurrentProofRequests { return; }
      if witnessGenCount >= config.maxConcurrentWitnessGen { return; }
      var request := GetNextUnrequestedProof();
      if request.Some? {
        db.UpdateRequest(request.value.id, ToStatus(WitnessGeneration));
        tasks := tasks[request.value.id := Task(request.value, Witnessing)];
      }
    }

    /** `submit_agg_proofs`: `unwrap` of the proof and of the checkpoint cannot fail. */
    method SubmitAggProofs(outcome: RelayOutcome) returns (ok: bool)
      requires Valid()
      modifies this`latestBlock, this`relayed, db`rows
      ensures Valid() && ok == (Deliverable(old(View())) == None || outcome == AcceptedAndMarked)
      ensures View() == match outcome
                        case Reverted => old(View())
                        case AcceptedThenLost => Apply(config, old(View()), SubmitAgg(false))
                        case AcceptedAndMarked => Apply(config, old(View()), SubmitAgg(true))
    {
      ghost var marked := outcome == AcceptedAndMarked;
      StepKeepsInv(config, View(), SubmitAgg(marked));
      var agg := FetchDeliverable();
      hide Inv;
      if agg.None? { return true; }
      var proof, checkpoint := agg.value.proof.value, agg.value.checkpoint.value;
      if outcome == Reverted { return false; }
      latestBlock := agg.value.endBlock;
      relayed := relayed + [Relay(agg.value.id, agg.value.startBlock, agg.value.endBlock)];
      if outcome == AcceptedThenLost { return false; }
      db.UpdateRequest(agg.value.id, ToStatus(Relayed));
      return true;
    }

    /** `fetch_completed_agg_proof_after_block`. */
    method FetchDeliverable() returns (agg: Option<Request>)
      requires Valid()
      ensures agg == Deliverable(View())
      ensures agg.Some? ==> agg.value.proof.Some? && agg.value.checkpoint.Some?
    {
      DeliverableIsReady(View());
      agg := First(Select(db.rows, CompletedAgg(latestBlock)));
      if agg.Some? { assert RowOk(config, agg.value, latestBlock); }
    }

    /** A new process: the task map is empty, the unrecoverable rows are deleted. */
    method InitializeProposer()
      requires Valid()
      modifies this`tasks, db`rows
      ensures Valid() && View() == Apply(config, old(View()), Restart)
    {
      StepKeepsInv(config, View(), Restart);
      tasks := map[];
      db.DeleteAllRequestsWithStatuses(UNRECOVERABLE);
    }

    /** The steps after polling, in their order. */
    method PlanStartRelay(inp: Inputs) returns (ok: bool, ghost trace: seq<Event>)
      requires Valid()
      modifies this`tasks, this`latestBlock, this`relayed, db
      ensures Valid() && View() == ApplyAll(config, old(View()), trace)
      ensures trace == LaterSteps(config, old(View()), inp)
      ensures old(AllLive(View())) ==> AllLive(View())
    {
      hide Inv, Apply, ApplyAll, AllLive, NeedsCheckpoint;
      ghost var start := View();
      NoEvent(config, start);
      trace := [];
      AddNewRanges(inp.finalized);
      if inp.finalized.Some? {
        trace := TraceStep(start, trace, Event.AddNewRanges(inp.finalized.value));
        assert trace == [Event.AddNewRanges(inp.finalized.value)];
        PlanKeepsLiveIf(config, start, Event.AddNewRanges(inp.finalized.value));
      }
      ghost var s := View();
      ok := CreateAggregationProofs(inp.header, inp.checkpointed);
      if !ok { return; }
      trace := TraceStep(start, trace, CreateAggregation(inp.header));
      PlanKeepsLiveIf(config, s, CreateAggregation(inp.header));
      s := View();
      RequestQueuedProofs();
      trace := TraceStep(start, trace, StartNext);
      PlanKeepsLiveIf(config, s, StartNext);
      s := View();
      ok := SubmitAggProofs(inp.relay);
      if inp.relay != Reverted {
        trace := TraceStep(start, trace, SubmitAgg(inp.relay == AcceptedAndMarked));
        PlanKeepsLiveIf(config, s, SubmitAgg(inp.relay == AcceptedAndMarked));
      }
    }

    /** `run_loop_iteration`: an error of any step ends the iteration. Its events are those of its steps in their
        order: every finished task is reaped, orphans are failed, the rows being proven are polled, and if all
        that succeeds, the later steps follow. Once the orphans are marked, every row in witness generation or
        execution has a live task afterwards, wherever the iteration ended. */
    method RunLoopIteration(inp: Inputs) returns (ok: bool, ghost trace: seq<Event>)
      requires Valid()
      modifies this`tasks, this`latestBlock, this`relayed, db
      ensures Valid() && View() == ApplyAll(config, old(View()), trace)
      ensures inp.configValid && inp.metricsLogged && inp.orphanFault == AllMarked ==> AllLive(View())
      ensures !inp.configValid || !inp.metricsLogged ==> !ok && trace == []
      ensures inp.configValid && inp.metricsLogged ==> IterationIs(config, old(View()), inp, trace)
    {
      hide Inv, Apply, ApplyAll, AllLive, Reaps, FinishedTasks, PolledInOrder, LaterSteps, Select, Blocked;
      ghost var start := View();
      NoEvent(config, start);
      trace := [];
      if !inp.configValid { return false, []; }
      if !inp.metricsLogged { return false, []; }
      ghost var reaps := HandleOngoingTasks(inp.reapFaults);
      ghost var reaped := View();
      ghost var fails;
      ok, fails := SetOrphanedTasksToFailed(inp.orphanFault);
      ApplyAllConcat(config, start, reaps, fails);
      trace := reaps + fails;
      NothingBlocks(reaped.rows, reaped.tasks);
      if !ok {
        assert trace == reaps + fails + [] + [] && IterationParts(config, start, inp, reaps, fails, [], []);
        return;
      }
      LiveTasks(View());
      ghost var marked := View();
      ghost var polls;
      ok, polls := HandleProvingRequests(inp.answers);
      ApplyAllConcat(config, start, trace, polls);
      trace := trace + polls;
      PollsKeepLive(config, marked, polls);
      assert PollsAre(config, marked, inp.answers, ok, polls);
      if !ok {
        assert trace == reaps + fails + polls + [] && IterationParts(config, start, inp, reaps, fails, polls, []);
        return;
      }
      ghost var later;
      ok, later := PlanStartRelay(inp);
      ApplyAllConcat(config, start, trace, later);
      trace := trace + later;
      assert IterationParts(config, start, inp, reaps, fails, polls, later);
    }
  }
}
