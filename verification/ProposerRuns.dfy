/** What holds over every run of the proposer, for any interleaving of events, faults and restarts. */
module ProposerRuns {
  import opened Requests
  import opened BlockSpans
  import opened RequestTable
  import opened ProposerModel
  import opened ProposerInvariant
  import opened ProposerSteps

  // ---------------------------------------------------------------- the shape of one step

  ghost predicate Moved(c: Config, rows: seq<Request>, mid: seq<Request>) {
    || mid == rows
    || exists k :: 0 <= k < |rows| && |mid| == |rows| && mid == rows[k := mid[k]] && Transition(c, rows[k], mid[k])
                   && (rows[k].status == Unrequested ==> HasCapacity(c, rows))
  }

  /** The one row that changed; every other row is an old one. */
  lemma MovedMember(c: Config, rows: seq<Request>, mid: seq<Request>) returns (k: nat)
    requires Moved(c, rows, mid) && mid != rows
    ensures |mid| == |rows| && k < |rows| && mid == rows[k := mid[k]] && Transition(c, rows[k], mid[k])
    ensures rows[k] in rows && mid[k] in mid && forall r :: r in mid ==> r == mid[k] || r in rows
  {
    k :| 0 <= k < |rows| && |mid| == |rows| && mid == rows[k := mid[k]] && Transition(c, rows[k], mid[k]);
    forall r | r in mid ensures r == mid[k] || r in rows {
      var i :| 0 <= i < |mid| && mid[i] == r;
      assert i != k ==> rows[i] == r;
    }
  }

  ghost predicate Grown(mid: seq<Request>, nextId: nat, rows: seq<Request>, nextId': nat) {
    && |mid| <= |rows| && rows[..|mid|] == mid
    && FreshRows(rows[|mid|..], nextId)
    && nextId' == nextId + |rows| - |mid|
  }

  lemma GrownBy(mid: seq<Request>, nextId: nat, more: seq<Request>)
    requires FreshRows(more, nextId)
    ensures Grown(mid, nextId, mid + more, nextId + |more|)
    ensures Grown(mid, nextId, mid, nextId)
  {
    assert (mid + more)[..|mid|] == mid && (mid + more)[|mid|..] == more;
    assert mid[..|mid|] == mid && mid[|mid|..] == [];
  }

  lemma MovedByUpdate(c: Config, s: State, r: Request, change: Change) returns (k: nat)
    requires IdsOk(s.rows, s.nextId) && r in s.rows && Transition(c, r, ApplyChange(r, change))
    requires r.status == Unrequested ==> HasCapacity(c, s.rows)
    ensures k < |s.rows| && s.rows[k] == r
    ensures Moved(c, s.rows, Update(s.rows, r.id, change))
  {
    k := RowIndex(s.rows, r);
    UpdateIsReplace(s.rows, s.nextId, k, change);
    var mid := Update(s.rows, r.id, change);
    assert mid[k] == ApplyChange(s.rows[k], change);
  }

  lemma FailedShape(c: Config, s: State, request: Request, unexecutable: bool, fault: Fault, r: Request)
    returns (mid: seq<Request>)
    requires IdsOk(s.rows, s.nextId) && r in s.rows && r.id == request.id
    requires r.status in {WitnessGeneration, Execution, Prove}
    ensures Moved(c, s.rows, mid)
    ensures var s' := HandleFailed(s, request, unexecutable, fault); Grown(mid, s.nextId, s'.rows, s'.nextId)
  {
    if fault == MarkFails {
      mid := s.rows;
    } else {
      var k := MovedByUpdate(c, s, r, ToStatus(Failed));
      mid := Update(s.rows, request.id, ToStatus(Failed));
    }
    GrownBy(mid, s.nextId, Stamp(NewRanges(Halves(request.startBlock, request.endBlock)), s.nextId));
  }

  /** A background task changes its own row only. */
  lemma TaskShape(c: Config, s: State, e: Event)
    requires Inv(c, s) && (e.TaskExecutes? || e.TaskRequestsProof? || e.TaskCompletes? || e.TaskErrs?)
    ensures Moved(c, s.rows, Apply(c, s, e).rows) && Apply(c, s, e).nextId == s.nextId
  {
    hide RowsOk, AggsTiled, HistoryOk, RangesDisjoint, AggsUnique;
    if e.id in s.tasks {
      var r := TaskRow(c, s, e.id);
      match e
      case TaskExecutes(id) =>
        if InPhase(s, id, Witnessing) && c.mock { var k := MovedByUpdate(c, s, r, ToStatus(Execution)); }
      case TaskRequestsProof(id, pid) =>
        if InPhase(s, id, Witnessing) && !c.mock { var k := MovedByUpdate(c, s, r, ToProve(pid)); }
      case TaskCompletes(id, proof) =>
        if InPhase(s, id, ProvingPhase(c)) { var k := MovedByUpdate(c, s, r, ToComplete(proof)); }
      case TaskErrs(id) =>
    }
  }

  lemma StartShape(c: Config, s: State)
    requires Inv(c, s)
    ensures Moved(c, s.rows, Start(c, s).rows) && Start(c, s).nextId == s.nextId
  {
    hide RowsOk, AggsTiled, HistoryOk, RangesDisjoint, AggsUnique;
    NextIsReady(s);
    if HasCapacity(c, s.rows) && NextUnrequested(s).Some? {
      var k := MovedByUpdate(c, s, NextUnrequested(s).value, ToStatus(WitnessGeneration));
    }
  }

  lemma SubmitShape(c: Config, s: State, marked: bool)
    requires Inv(c, s)
    ensures Moved(c, s.rows, Submit(s, marked).rows) && Submit(s, marked).nextId == s.nextId
  {
    hide RowsOk, AggsTiled, HistoryOk, RangesDisjoint, AggsUnique;
    DeliverableIsReady(s);
    if Deliverable(s).Some? && marked {
      var k := MovedByUpdate(c, s, Deliverable(s).value, ToStatus(Relayed));
    }
  }

  lemma ReapShape(c: Config, s: State, id: nat, fault: Fault) returns (mid: seq<Request>)
    requires Inv(c, s) && id in s.tasks && s.tasks[id].phase.Finished?
    ensures Moved(c, s.rows, mid)
    ensures Grown(mid, s.nextId, ReapTask(s, id, fault).rows, ReapTask(s, id, fault).nextId)
  {
    hide RowsOk, AggsTiled, HistoryOk, RangesDisjoint, AggsUnique;
    mid := s.rows;
    GrownBy(s.rows, s.nextId, []);
    if s.tasks[id].phase == Finished(false) {
      var r := TaskRow(c, s, id);
      mid := FailedShape(c, s.(tasks := s.tasks - {id}), s.tasks[id].request, false, fault, r);
    }
  }

  lemma PollShape(c: Config, s: State, e: Event) returns (mid: seq<Request>)
    requires Inv(c, s) && (e.FailOrphan? || e.ProofFulfilled? || e.ProofFails?)
    ensures Moved(c, s.rows, mid)
    ensures Grown(mid, s.nextId, Apply(c, s, e).rows, Apply(c, s, e).nextId)
  {
    hide RowsOk, AggsTiled, HistoryOk, RangesDisjoint, AggsUnique;
    mid := Apply(c, s, e).rows;
    GrownBy(mid, s.nextId, []);
    if e.FailOrphan? && Orphan(s, e.request) {
      var k := MovedByUpdate(c, s, e.request, ToStatus(Failed));
    } else if e.ProofFulfilled? && Proving(c, s, e.request) {
      var k := MovedByUpdate(c, s, e.request, ToComplete(e.proof));
    } else if e.ProofFails? && Proving(c, s, e.request) {
      mid := FailedShape(c, s, e.request, e.unexecutable, e.fault, e.request);
    }
  }

  lemma PlanShape(c: Config, s: State, e: Event)
    requires Inv(c, s) && (e.AddNewRanges? || e.CreateAggregation?)
    ensures Grown(s.rows, s.nextId, Apply(c, s, e).rows, Apply(c, s, e).nextId)
  {
    hide RowsOk, AggsTiled, HistoryOk, RangesDisjoint, AggsUnique;
    GrownBy(s.rows, s.nextId, []);
    if e.AddNewRanges? {
      GrownBy(s.rows, s.nextId, Stamp(NewRanges(NewChunks(c, s, e.finalized)), s.nextId));
    } else if AggTarget(c, s).Some? {
      var end := AggTarget(c, s).value;
      GrownBy(s.rows, s.nextId, Stamp([NewAggRequest(s.latest, end, AggCheckpoint(s, end, e.header))], s.nextId));
    }
  }

  /** Every event but a restart changes at most one row, legally, and appends fresh requests. */
  lemma StepShape(c: Config, s: State, e: Event) returns (mid: seq<Request>)
    requires Inv(c, s) && e != Restart
    ensures Moved(c, s.rows, mid)
    ensures Grown(mid, s.nextId, Apply(c, s, e).rows, Apply(c, s, e).nextId)
  {
    hide RowsOk, AggsTiled, HistoryOk, RangesDisjoint, AggsUnique;
    var rows := Apply(c, s, e).rows;
    GrownBy(rows, s.nextId, []);
    match e
    case TaskExecutes(_) => TaskShape(c, s, e); mid := rows;
    case TaskRequestsProof(_, _) => TaskShape(c, s, e); mid := rows;
    case TaskCompletes(_, _) => TaskShape(c, s, e); mid := rows;
    case TaskErrs(_) => TaskShape(c, s, e); mid := rows;
    case Reap(id, fault) =>
      if id in s.tasks && s.tasks[id].phase.Finished? { mid := ReapShape(c, s, id, fault); } else { mid := rows; }
    case FailOrphan(_) => mid := PollShape(c, s, e);
    case ProofFulfilled(_, _) => mid := PollShape(c, s, e);
    case ProofFails(_, _, _) => mid := PollShape(c, s, e);
    case AddNewRanges(_) => PlanShape(c, s, e); mid := s.rows;
    case CreateAggregation(_) => PlanShape(c, s, e); mid := s.rows;
    case StartNext => StartShape(c, s); mid := rows;
    case SubmitAgg(marked) => SubmitShape(c, s, marked); mid := rows;
  }

  // ---------------------------------------------------------------- safety over runs

  lemma Unroll(c: Config, s: State, es: seq<Event>, i: nat)
    requires i < |es|
    ensures ApplyAll(c, s, es[i..]) == ApplyAll(c, Apply(c, s, es[i]), es[i + 1..])
    ensures i + 1 == |es| ==> ApplyAll(c, Apply(c, s, es[i]), es[i + 1..]) == Apply(c, s, es[i])
  {
    hide Apply;
    assert es[i..][1..] == es[i + 1..];
  }

  lemma FreshInv(c: Config)
    ensures Inv(c, Fresh(c))
  {
  }

  lemma {:induction false} RunKeepsInv(c: Config, s: State, es: seq<Event>)
    requires Inv(c, s)
    ensures Inv(c, ApplyAll(c, s, es))
    decreases |es|
  {
    if es != [] {
      StepKeepsInv(c, s, es[0]);
      RunKeepsInv(c, Apply(c, s, es[0]), es[1..]);
    }
  }

  /** In every reachable state, active range requests are non-empty, share no block and do not
      straddle the latest block; aggregations start at or below it, one active one per start block. */
  lemma ReachableRangesAreDisjoint(c: Config, es: seq<Event>, a: Request, b: Request)
    requires a in ApplyAll(c, Fresh(c), es).rows && b in ApplyAll(c, Fresh(c), es).rows && a.id != b.id
    ensures var s := ApplyAll(c, Fresh(c), es);
            && a.startBlock < a.endBlock
            && (ActiveRange(a) && ActiveRange(b) ==> Apart(a, b))
            && (ActiveRange(a) ==> a.endBlock <= s.latest || s.latest <= a.startBlock)
            && (ActiveAgg(a) && ActiveAgg(b) ==> a.startBlock != b.startBlock)
            && (a.reqType == Aggregation ==> a.startBlock <= s.latest)
  {
    RunKeepsInv(c, Fresh(c), es);
    assert RowOk(c, a, ApplyAll(c, Fresh(c), es).latest);
  }

  /** The unrequested and the completed aggregation that the two queries can return start at the same
      block, the latest one, although one query asks for `>=` and the other for `=`. */
  lemma AggQueriesAgree(c: Config, s: State)
    requires Inv(c, s)
    ensures match First(SelectOrdered(s.rows, UnrequestedAgg(s.latest)))
            case None => true
            case Some(a) => a.startBlock == s.latest && Deliverable(s) == None
  {
    FirstIsLeast(s.rows, UnrequestedAgg(s.latest));
    DeliverableIsReady(s);
    var next := First(SelectOrdered(s.rows, UnrequestedAgg(s.latest)));
    if next.Some? {
      assert RowOk(c, next.value, s.latest);
      NoCompletedBeside(c, s, next.value);
    }
  }

  lemma NoCompletedBeside(c: Config, s: State, a: Request)
    requires Inv(c, s) && a in s.rows && ActiveAgg(a) && a.status != Complete && a.startBlock == s.latest
    ensures forall r :: r in s.rows ==> !Matches(CompletedAgg(s.latest), r)
  {
    forall r | r in s.rows ensures !Matches(CompletedAgg(s.latest), r) {
      if r.id == a.id { IdUnique(s.rows, s.nextId, r, a); }
    }
  }

  lemma MovedKeepsTile(c: Config, s: State, mid: seq<Request>, start: nat, end: nat)
    requires Inv(c, s) && Tiled(s.rows, start, end) && Moved(c, s.rows, mid)
    ensures Tile(mid, start, end) == Tile(s.rows, start, end)
  {
    if mid != s.rows {
      var k :| 0 <= k < |s.rows| && |mid| == |s.rows| && mid == s.rows[k := mid[k]] && Transition(c, s.rows[k], mid[k]);
      hide TableOk, Tiled, Tile, Transition;
      ReplaceKeepsTile(c, s, k, mid[k], start, end);
    }
  }

  lemma StepKeepsTile(c: Config, s: State, e: Event, start: nat, end: nat)
    requires Inv(c, s) && Tiled(s.rows, start, end)
    ensures Tile(Apply(c, s, e).rows, start, end) == Tile(s.rows, start, end)
  {
    if e == Restart {
      RestartKeepsTile(s.rows, start, end);
    } else {
      var mid := StepShape(c, s, e);
      hide Inv, Tiled, Tile, Apply, Moved;
      MovedKeepsTile(c, s, mid, start, end);
      var rows := Apply(c, s, e).rows;
      AppendKeepsTile(mid, s.nextId, rows[|mid|..], start, end);
      assert rows == mid + rows[|mid|..];
    }
  }

  /** Once Complete range proofs tile a block range, the query for that range returns those very rows
      for the rest of the run: what was validated is what the witness is later built from. */
  lemma {:induction false} TileNeverChanges(c: Config, s: State, es: seq<Event>, start: nat, end: nat)
    requires Inv(c, s) && Tiled(s.rows, start, end)
    ensures Tile(ApplyAll(c, s, es).rows, start, end) == Tile(s.rows, start, end)
    decreases |es|
  {
    if es != [] {
      StepKeepsTile(c, s, es[0], start, end);
      StepKeepsInv(c, s, es[0]);
      TileNeverChanges(c, Apply(c, s, es[0]), es[1..], start, end);
    }
  }

  lemma SubmitHistory(c: Config, s: State, marked: bool)
    requires Inv(c, s)
    ensures s.relayed <= Submit(s, marked).relayed && s.latest <= Submit(s, marked).latest
  {
    DeliverableIsReady(s);
    if Deliverable(s).Some? { assert RowOk(c, Deliverable(s).value, s.latest); }
    hide Inv, Deliverable, RowOk, Matches;
  }

  /** Only an accepted aggregation touches the contract. */
  lemma OnlySubmitMovesContract(c: Config, s: State, e: Event)
    requires !e.SubmitAgg?
    ensures Apply(c, s, e).relayed == s.relayed && Apply(c, s, e).latest == s.latest
  {
  }

  lemma StepHistory(c: Config, s: State, e: Event)
    requires Inv(c, s)
    ensures s.relayed <= Apply(c, s, e).relayed && s.latest <= Apply(c, s, e).latest
  {
    hide Inv;
    if e.SubmitAgg? {
      SubmitHistory(c, s, e.marked);
    } else {
      OnlySubmitMovesContract(c, s, e);
    }
  }

  lemma {:induction false} HistoryGrows(c: Config, s: State, es: seq<Event>)
    requires Inv(c, s)
    ensures s.relayed <= ApplyAll(c, s, es).relayed && s.latest <= ApplyAll(c, s, es).latest
    decreases |es|
  {
    if es != [] {
      StepHistory(c, s, es[0]);
      StepKeepsInv(c, s, es[0]);
      HistoryGrows(c, Apply(c, s, es[0]), es[1..]);
    }
  }

  lemma TileRows(rows: seq<Request>, start: nat, end: nat)
    ensures forall r :: r in Tile(rows, start, end) ==> r in rows && r.reqType == Range && r.status == Complete
  {
    forall r | r in Tile(rows, start, end) ensures r in rows && r.reqType == Range && r.status == Complete {
      OrderedMember(rows, ConsecutiveComplete(start, end), r);
    }
  }

  /** Over any run the relayed aggregations form one chain from the initial block to the latest one:
      each starts where the last ended and is at least the submission interval long. */
  lemma RelaysFormOneChain(c: Config, es: seq<Event>, i: nat)
    requires i < |ApplyAll(c, Fresh(c), es).relayed|
    ensures var s := ApplyAll(c, Fresh(c), es);
            && s.relayed[i].start == (if i == 0 then c.initialBlock else s.relayed[i - 1].end)
            && s.relayed[i].end - s.relayed[i].start >= c.contractSubmissionInterval
            && s.relayed[i].end - s.relayed[i].start >= c.submissionInterval
            && s.relayed[|s.relayed| - 1].end == s.latest
  {
    RunKeepsInv(c, Fresh(c), es);
  }

  /** Each relayed aggregation is tiled by Complete range requests which are still there, unchanged,
      however the run goes on; and what was relayed stays relayed, in order. */
  lemma RelaysStayTiled(c: Config, es: seq<Event>, later: seq<Event>, x: Relay)
    requires x in ApplyAll(c, Fresh(c), es).relayed
    ensures var s := ApplyAll(c, Fresh(c), es);
            var s' := ApplyAll(c, s, later);
            && s.relayed <= s'.relayed
            && Tiled(s.rows, x.start, x.end)
            && Tile(s'.rows, x.start, x.end) == Tile(s.rows, x.start, x.end)
            && (forall r :: r in Tile(s.rows, x.start, x.end) ==>
              r in s'.rows && r.reqType == Range && r.status == Complete)
  {
    RunKeepsInv(c, Fresh(c), es);
    var s := ApplyAll(c, Fresh(c), es);
    assert RelayOk(s.rows, x);
    HistoryGrows(c, s, later);
    TileNeverChanges(c, s, later, x.start, x.end);
    TileRows(ApplyAll(c, s, later).rows, x.start, x.end);
  }

  ghost predicate InRelay(x: Relay, b: nat) { x.start <= b < x.end }

  lemma {:induction false} ChainOrdered(c: Config, relayed: seq<Relay>, i: nat, j: nat)
    requires Chained(c, relayed) && i < j < |relayed|
    ensures relayed[i].end <= relayed[j].start
    decreases j
  {
    if i + 1 < j { ChainOrdered(c, relayed, i, j - 1); }
  }

  lemma {:induction false} ChainHolds(c: Config, relayed: seq<Relay>, n: nat, b: nat)
    requires Chained(c, relayed) && 0 < n <= |relayed| && c.initialBlock <= b < relayed[n - 1].end
    ensures exists i :: 0 <= i < |relayed| && InRelay(relayed[i], b)
    decreases n
  {
    if b >= relayed[n - 1].start {
      assert InRelay(relayed[n - 1], b);
    } else {
      ChainHolds(c, relayed, n - 1, b);
    }
  }

  /** A chain holds every block from the initial one to its end, and each of them exactly once. */
  lemma ChainPartitions(c: Config, relayed: seq<Relay>, b: nat)
    requires Chained(c, relayed)
    ensures c.initialBlock <= b < ChainEnd(c, relayed) <==> exists i :: 0 <= i < |relayed| && InRelay(relayed[i], b)
    ensures forall i, j :: 0 <= i < j < |relayed| ==> !(InRelay(relayed[i], b) && InRelay(relayed[j], b))
  {
    forall i, j | 0 <= i < j < |relayed| ensures relayed[i].end <= relayed[j].start {
      ChainOrdered(c, relayed, i, j);
    }
    if i :| 0 <= i < |relayed| && InRelay(relayed[i], b) {
      assert c.initialBlock <= relayed[i].start && relayed[i].end <= ChainEnd(c, relayed);
    }
    if relayed != [] && c.initialBlock <= b < ChainEnd(c, relayed) {
      ChainHolds(c, relayed, |relayed|, b);
    }
  }

  // ---------------------------------------------------------------- request lifecycle

  /** The statuses a request can have after it had status `a`. */
  predicate Follows(t: RequestType, a: RequestStatus, b: RequestStatus) {
    || a == b
    || match a {
         case Unrequested => b in {WitnessGeneration, Execution, Prove, Complete, Failed}
           || (b == Relayed && t == Aggregation)
         case WitnessGeneration => b in {Execution, Prove, Complete, Failed} || (b == Relayed && t == Aggregation)
         case Execution => b in {Complete, Failed} || (b == Relayed && t == Aggregation)
         case Prove => b in {Complete, Failed} || (b == Relayed && t == Aggregation)
         case Complete => b == Relayed && t == Aggregation
         case Relayed => false
         case Failed => false
         case Cancelled => false
       }
  }

  /** A restart does not touch these. */
  predicate Durable(r: Request) { r.status !in UNRECOVERABLE }

  ghost predicate Evolves(a: Request, b: Request) {
    && SameJob(a, b)
    && Follows(a.reqType, a.status, b.status)
    && (a.status == Complete || a.status == Relayed ==> b.proof == a.proof)
  }

  /** Every old id still in the table belongs to the same, evolved, request. */
  ghost predicate NoIdReused(s: State, s': State) {
    forall b :: b in s'.rows && b.id < s.nextId ==> exists a :: a in s.rows && a.id == b.id && Evolves(a, b)
  }

  ghost predicate DurableStay(s: State, s': State) {
    forall a :: a in s.rows && Durable(a) ==> exists b :: b in s'.rows && a.id == b.id && Evolves(a, b)
  }

  /** Rows keep their job and walk forward; ids are never reused; durable rows stay. */
  ghost predicate TableEvolves(s: State, s': State) {
    s.nextId <= s'.nextId && NoIdReused(s, s') && DurableStay(s, s')
  }

  lemma EvolvesTrans(x: Request, y: Request, z: Request)
    requires Evolves(x, y) && Evolves(y, z)
    ensures Evolves(x, z)
    ensures Durable(x) ==> Durable(y)
  {
  }

  lemma NoIdReusedTrans(s: State, t: State, u: State)
    requires s.nextId <= t.nextId && NoIdReused(s, t) && NoIdReused(t, u)
    ensures NoIdReused(s, u)
  {
    forall b | b in u.rows && b.id < s.nextId ensures exists a :: a in s.rows && a.id == b.id && Evolves(a, b) {
      var m :| m in t.rows && m.id == b.id && Evolves(m, b);
      var a :| a in s.rows && a.id == m.id && Evolves(a, m);
      EvolvesTrans(a, m, b);
    }
  }

  lemma DurableStayTrans(s: State, t: State, u: State)
    requires DurableStay(s, t) && DurableStay(t, u)
    ensures DurableStay(s, u)
  {
    forall a | a in s.rows && Durable(a) ensures exists b :: b in u.rows && a.id == b.id && Evolves(a, b) {
      var m :| m in t.rows && a.id == m.id && Evolves(a, m);
      assert Evolves(m, m);
      EvolvesTrans(a, m, m);
      var b :| b in u.rows && m.id == b.id && Evolves(m, b);
      EvolvesTrans(a, m, b);
    }
  }

  lemma TableEvolvesTrans(s: State, t: State, u: State)
    requires TableEvolves(s, t) && TableEvolves(t, u)
    ensures TableEvolves(s, u)
  {
    NoIdReusedTrans(s, t, u);
    DurableStayTrans(s, t, u);
    hide NoIdReused, DurableStay;
  }

  lemma MovedEvolves(c: Config, s: State, mid: seq<Request>)
    requires IdsOk(s.rows, s.nextId) && Moved(c, s.rows, mid)
    ensures IdsOk(mid, s.nextId)
    ensures TableEvolves(s, s.(rows := mid))
  {
    if mid == s.rows {
      assert forall a :: a in s.rows ==> Evolves(a, a);
    } else {
      var k :| 0 <= k < |s.rows| && |mid| == |s.rows| && mid == s.rows[k := mid[k]] && Transition(c, s.rows[k], mid[k]);
      ReplaceMembers(s.rows, s.nextId, k, mid[k]);
      assert Evolves(s.rows[k], mid[k]);
      ReplaceEvolves(s, k, mid[k]);
    }
  }

  lemma ReplaceEvolves(s: State, k: nat, b: Request)
    requires IdsOk(s.rows, s.nextId) && k < |s.rows| && Evolves(s.rows[k], b)
    ensures TableEvolves(s, s.(rows := s.rows[k := b]))
  {
    var before := s.rows[k];
    ReplaceMembers(s.rows, s.nextId, k, b);
    assert before in s.rows && b in s.rows[k := b];
    forall r ensures Evolves(r, r) {}
    forall a | a in s.rows ensures a == before || a in s.rows[k := b] {
      if a.id == before.id { IdUnique(s.rows, s.nextId, a, before); }
    }
    hide IdsOk, Follows, Durable;
  }

  lemma GrownEvolves(t: State, s': State)
    requires IdsOk(t.rows, t.nextId) && Grown(t.rows, t.nextId, s'.rows, s'.nextId)
    ensures TableEvolves(t, s')
  {
    var more := s'.rows[|t.rows|..];
    assert s'.rows == t.rows + more;
    forall b | b in s'.rows && b.id < t.nextId ensures exists a :: a in t.rows && a.id == b.id && Evolves(a, b) {
      assert b in t.rows && Evolves(b, b);
    }
    forall a | a in t.rows ensures exists b :: b in s'.rows && a.id == b.id && Evolves(a, b) {
      assert a in s'.rows && Evolves(a, a);
    }
  }

  lemma StepEvolves(c: Config, s: State, e: Event)
    requires Inv(c, s)
    ensures TableEvolves(s, Apply(c, s, e))
  {
    var s' := Apply(c, s, e);
    if e == Restart {
      forall r ensures r in s'.rows <==> r in s.rows && Durable(r) {
        SelectMember(s.rows, StatusNotIn(UNRECOVERABLE), r);
      }
      assert forall a :: a in s.rows ==> Evolves(a, a);
    } else {
      var mid := StepShape(c, s, e);
      MovedEvolves(c, s, mid);
      GrownEvolves(s.(rows := mid), s');
      TableEvolvesTrans(s, s.(rows := mid), s');
    }
  }

  /** Over any run: Failed, Cancelled and Relayed are never left, Complete is left only by an
      aggregation and only for Relayed, a finished proof is never overwritten, no id is used twice,
      and a row that reached Prove or a later status is never deleted. */
  lemma {:induction false} RequestLifecycle(c: Config, s: State, es: seq<Event>)
    requires Inv(c, s)
    ensures TableEvolves(s, ApplyAll(c, s, es))
    decreases |es|
  {
    if es == [] {
      assert forall a :: a in s.rows ==> Evolves(a, a);
    } else {
      StepEvolves(c, s, es[0]);
      StepKeepsInv(c, s, es[0]);
      RequestLifecycle(c, Apply(c, s, es[0]), es[1..]);
      TableEvolvesTrans(s, Apply(c, s, es[0]), ApplyAll(c, s, es));
    }
  }

  /** In every reachable state a Complete row has its proof and a Prove row its proof id, so no
      `unwrap` of either can fail; an aggregation always has its checkpoint. */
  lemma ReachablePayloads(c: Config, es: seq<Event>, r: Request)
    requires r in ApplyAll(c, Fresh(c), es).rows
    ensures r.status == Complete ==> r.proof.Some?
    ensures r.status == Prove ==> r.proofRequestId.Some?
    ensures r.reqType == Aggregation ==> r.checkpoint.Some?
  {
    RunKeepsInv(c, Fresh(c), es);
    assert RowOk(c, r, ApplyAll(c, Fresh(c), es).latest);
  }

  // ---------------------------------------------------------------- concurrency caps

  predicate WithinCaps(c: Config, rows: seq<Request>) {
    && Count(rows, WithStatus(WitnessGeneration)) + Count(rows, WithStatus(Execution)) + Count(rows, WithStatus(Prove))
      <= c.maxConcurrentProofRequests
    && Count(rows, WithStatus(WitnessGeneration)) <= c.maxConcurrentWitnessGen
  }

  lemma MovedKeepsCaps(c: Config, rows: seq<Request>, mid: seq<Request>)
    requires WithinCaps(c, rows) && Moved(c, rows, mid)
    ensures WithinCaps(c, mid)
  {
    if mid != rows {
      var k :| 0 <= k < |rows| && |mid| == |rows| && mid == rows[k := mid[k]] && Transition(c, rows[k], mid[k])
               && (rows[k].status == Unrequested ==> HasCapacity(c, rows));
      CountReplace(rows, k, mid[k], WithStatus(WitnessGeneration));
      CountReplace(rows, k, mid[k], WithStatus(Execution));
      CountReplace(rows, k, mid[k], WithStatus(Prove));
    }
  }

  lemma GrownKeepsCounts(mid: seq<Request>, nextId: nat, rows: seq<Request>, nextId': nat, status: RequestStatus)
    requires Grown(mid, nextId, rows, nextId') && status != Unrequested
    ensures Count(rows, WithStatus(status)) == Count(mid, WithStatus(status))
  {
    var more := rows[|mid|..];
    assert rows == mid + more;
    SelectConcat(mid, more, WithStatus(status));
    SelectNone(more, WithStatus(status));
  }

  lemma RestartCounts(rows: seq<Request>, status: RequestStatus)
    ensures Count(Select(rows, StatusNotIn(UNRECOVERABLE)), WithStatus(status))
         == if status in UNRECOVERABLE then 0 else Count(rows, WithStatus(status))
  {
    var kept := Select(rows, StatusNotIn(UNRECOVERABLE));
    if status in UNRECOVERABLE {
      forall i | 0 <= i < |kept| ensures !Matches(WithStatus(status), kept[i]) {
        SelectMember(rows, StatusNotIn(UNRECOVERABLE), kept[i]);
      }
      SelectNone(kept, WithStatus(status));
    } else {
      SelectTwice(rows, StatusNotIn(UNRECOVERABLE), WithStatus(status));
    }
  }

  lemma StepKeepsCaps(c: Config, s: State, e: Event)
    requires Inv(c, s) && WithinCaps(c, s.rows)
    ensures WithinCaps(c, Apply(c, s, e).rows)
  {
    if e == Restart {
      RestartCounts(s.rows, WitnessGeneration);
      RestartCounts(s.rows, Execution);
      RestartCounts(s.rows, Prove);
    } else {
      var mid := StepShape(c, s, e);
      var s' := Apply(c, s, e);
      MovedKeepsCaps(c, s.rows, mid);
      GrownKeepsCounts(mid, s.nextId, s'.rows, s'.nextId, WitnessGeneration);
      GrownKeepsCounts(mid, s.nextId, s'.rows, s'.nextId, Execution);
      GrownKeepsCounts(mid, s.nextId, s'.rows, s'.nextId, Prove);
    }
  }

  /** From any state within the caps, no run exceeds them. */
  lemma {:induction false} RunKeepsCaps(c: Config, s: State, es: seq<Event>)
    requires Inv(c, s) && WithinCaps(c, s.rows)
    ensures WithinCaps(c, ApplyAll(c, s, es).rows)
    decreases |es|
  {
    if es != [] {
      StepKeepsCaps(c, s, es[0]);
      StepKeepsInv(c, s, es[0]);
      RunKeepsCaps(c, Apply(c, s, es[0]), es[1..]);
    }
  }
}
