/** The cap on witness generation. The comment on `request_queued_proofs`
    (op-succinct/validity/src/proposer.rs) counts WitnessGeneration and Execution towards it; the code
    counts WitnessGeneration alone. When does it make a difference? */
module WitnessCap {
  import opened Requests
  import opened BlockSpans
  import opened RequestTable
  import opened ProposerModel
  import opened ProposerInvariant
  import opened ProposerSteps
  import opened ProposerRuns
  import opened RangePlanning

  /** What the documentation counts. */
  function DocumentedLoad(rows: seq<Request>): nat {
    Count(rows, WithStatus(WitnessGeneration)) + Count(rows, WithStatus(Execution))
  }

  /** The step as documented: at the cap nothing is started. */
  function DocumentedStart(c: Config, s: State): State {
    if DocumentedLoad(s.rows) >= c.maxConcurrentWitnessGen then s else Start(c, s)
  }

  /** One step differs from its documentation exactly when there is room by the code's own count, a
      request to start, and none left by the documented count. */
  lemma StartDiffersIff(c: Config, s: State)
    requires Inv(c, s)
    ensures Start(c, s) != DocumentedStart(c, s)
       <==> HasCapacity(c, s.rows) && NextUnrequested(s).Some? && DocumentedLoad(s.rows) >= c.maxConcurrentWitnessGen
  {
    NextIsReady(s);
    hide Inv, HasCapacity, NextUnrequested, DocumentedLoad;
    if HasCapacity(c, s.rows) && NextUnrequested(s).Some? {
      var r := NextUnrequested(s).value;
      var k := RowIndex(s.rows, r);
      assert Spawn(s, r).rows[k].status == WitnessGeneration;
    }
  }

  // ---------------------------------------------------------------- when no run exceeds it

  ghost predicate NoneWith(rows: seq<Request>, status: RequestStatus) {
    forall r :: r in rows ==> r.status != status
  }

  lemma CountNone(rows: seq<Request>, status: RequestStatus)
    requires NoneWith(rows, status)
    ensures Count(rows, WithStatus(status)) == 0
  {
    SelectNone(rows, WithStatus(status));
  }

  lemma GrownMember(mid: seq<Request>, nextId: nat, rows: seq<Request>, nextId': nat, r: Request)
    requires Grown(mid, nextId, rows, nextId') && r in rows
    ensures r in mid || r.status == Unrequested
  {
    assert rows == mid + rows[|mid|..];
    if r !in mid {
      var i :| 0 <= i < |rows[|mid|..]| && rows[|mid|..][i] == r;
    }
  }

  lemma RestartMember(rows: seq<Request>, r: Request)
    requires r in Select(rows, StatusNotIn(UNRECOVERABLE))
    ensures r in rows
  {
    SelectMember(rows, StatusNotIn(UNRECOVERABLE), r);
  }

  lemma GrownKeepsNone(mid: seq<Request>, nextId: nat, rows: seq<Request>, nextId': nat, status: RequestStatus)
    requires Grown(mid, nextId, rows, nextId') && NoneWith(mid, status) && status != Unrequested
    ensures NoneWith(rows, status)
  {
    forall r | r in rows ensures r.status != status { GrownMember(mid, nextId, rows, nextId', r); }
  }

  lemma MovedWithoutMock(c: Config, rows: seq<Request>, mid: seq<Request>)
    requires Moved(c, rows, mid) && !c.mock && NoneWith(rows, Execution)
    ensures NoneWith(mid, Execution)
  {
  }

  lemma StepWithoutMock(c: Config, s: State, e: Event)
    requires Inv(c, s) && !c.mock && NoneWith(s.rows, Execution)
    ensures NoneWith(Apply(c, s, e).rows, Execution)
  {
    var s' := Apply(c, s, e);
    if e == Restart {
      forall r | r in s'.rows ensures r.status != Execution { RestartMember(s.rows, r); }
    } else {
      hide Inv, Apply, Grown;
      var mid := StepShape(c, s, e);
      MovedWithoutMock(c, s.rows, mid);
      hide NoneWith;
      GrownKeepsNone(mid, s.nextId, s'.rows, s'.nextId, Execution);
    }
  }

  /** Outside mock mode no request is ever in execution. */
  lemma {:induction false} NoExecutionWithoutMock(c: Config, s: State, es: seq<Event>)
    requires Inv(c, s) && !c.mock && NoneWith(s.rows, Execution)
    ensures NoneWith(ApplyAll(c, s, es).rows, Execution)
    decreases |es|
  {
    if es != [] {
      StepWithoutMock(c, s, es[0]);
      StepKeepsInv(c, s, es[0]);
      hide Inv, Apply, NoneWith;
      NoExecutionWithoutMock(c, Apply(c, s, es[0]), es[1..]);
    }
  }

  ghost predicate AllUnrequested(rows: seq<Request>) { forall r :: r in rows ==> r.status == Unrequested }

  lemma StepAtZeroCap(c: Config, s: State, e: Event)
    requires Inv(c, s) && c.maxConcurrentWitnessGen == 0 && AllUnrequested(s.rows)
    ensures AllUnrequested(Apply(c, s, e).rows)
  {
    var s' := Apply(c, s, e);
    if e == Restart {
      forall r | r in s'.rows ensures r.status == Unrequested { RestartMember(s.rows, r); }
    } else {
      var mid := StepShape(c, s, e);
      hide Inv, Apply, Grown;
      assert mid == s.rows;
      forall r | r in s'.rows ensures r.status == Unrequested { GrownMember(mid, s.nextId, s'.rows, s'.nextId, r); }
    }
  }

  /** With a cap of 0 nothing is ever started. */
  lemma {:induction false} NothingStartsAtZeroCap(c: Config, s: State, es: seq<Event>)
    requires Inv(c, s) && c.maxConcurrentWitnessGen == 0 && AllUnrequested(s.rows)
    ensures AllUnrequested(ApplyAll(c, s, es).rows)
    decreases |es|
  {
    if es != [] {
      StepAtZeroCap(c, s, es[0]);
      StepKeepsInv(c, s, es[0]);
      hide Inv, Apply, AllUnrequested;
      NothingStartsAtZeroCap(c, Apply(c, s, es[0]), es[1..]);
    }
  }

  /** A config under which the documented count cannot exceed the cap. */
  predicate CapIsSafe(c: Config) {
    !c.mock || c.maxConcurrentProofRequests <= c.maxConcurrentWitnessGen || c.maxConcurrentWitnessGen == 0
  }

  lemma SafeCapHolds(c: Config, es: seq<Event>)
    requires CapIsSafe(c)
    ensures DocumentedLoad(ApplyAll(c, Fresh(c), es).rows) <= c.maxConcurrentWitnessGen
  {
    RunKeepsCaps(c, Fresh(c), es);
    var rows := ApplyAll(c, Fresh(c), es).rows;
    if !c.mock {
      NoExecutionWithoutMock(c, Fresh(c), es);
      CountNone(rows, Execution);
    } else if c.maxConcurrentWitnessGen == 0 {
      NothingStartsAtZeroCap(c, Fresh(c), es);
      CountNone(rows, WitnessGeneration);
      CountNone(rows, Execution);
    }
    hide ApplyAll, Count;
  }

  // ---------------------------------------------------------------- when some run does

  /** k ranges, n of them in execution and the rest unrequested. */
  ghost predicate Executing(c: Config, s: State, k: nat, n: nat) {
    && Inv(c, s)
    && (forall r :: r in s.rows ==>
      r.reqType == Range && r.startBlock >= s.latest && r.status in {Unrequested, Execution})
    && Count(s.rows, WithStatus(Unrequested)) == k
    && Count(s.rows, WithStatus(Execution)) == n
  }

  lemma SomeMatch(rows: seq<Request>, w: Where) returns (r: Request)
    requires Count(rows, w) > 0
    ensures r in rows && Matches(w, r)
  {
    r := Select(rows, w)[0];
    SelectMember(rows, w, r);
  }

  lemma NextOfExecuting(c: Config, s: State, k: nat, n: nat) returns (r: Request)
    requires Executing(c, s, k, n) && k > 0
    ensures NextUnrequested(s) == Some(r) && r in s.rows && r.status == Unrequested
  {
    FirstIsLeast(s.rows, UnrequestedAgg(s.latest));
    FirstIsLeast(s.rows, UnrequestedRange(s.latest));
    var some := SomeMatch(s.rows, WithStatus(Unrequested));
    assert Matches(UnrequestedRange(s.latest), some);
    hide Inv, SelectOrdered;
    r := NextUnrequested(s).value;
  }

  lemma RoomToExecute(c: Config, s: State, k: nat, n: nat)
    requires Executing(c, s, k, n) && n < c.maxConcurrentProofRequests && 0 < c.maxConcurrentWitnessGen
    ensures HasCapacity(c, s.rows)
  {
    CountNone(s.rows, WitnessGeneration);
    CountNone(s.rows, Prove);
    hide Inv, Count;
  }

  lemma StartThenExecute(c: Config, s: State, r: Request) returns (i: nat)
    requires Inv(c, s) && HasCapacity(c, s.rows) && c.mock
    requires NextUnrequested(s) == Some(r) && r in s.rows
    ensures i < |s.rows| && s.rows[i] == r
    ensures var s' := Apply(c, Apply(c, s, StartNext), TaskExecutes(r.id));
            Inv(c, s') && s'.latest == s.latest && s'.rows == s.rows[i := r.(status := Execution)]
  {
    hide Inv, HasCapacity, NextUnrequested, Update;
    i := RowIndex(s.rows, r);
    var s1 := Apply(c, s, StartNext);
    assert s1 == Spawn(s, r);
    StepKeepsInv(c, s, StartNext);
    StepKeepsInv(c, s1, TaskExecutes(r.id));
    TwoUpdates(c, s, i);
    ExecuteEffect(c, s, r);
    hide Apply, Spawn;
  }

  lemma ExecuteEffect(c: Config, s: State, r: Request)
    requires c.mock
    ensures var s' := Apply(c, Spawn(s, r), TaskExecutes(r.id));
            && s'.latest == s.latest
            && s'.rows == Update(Update(s.rows, r.id, ToStatus(WitnessGeneration)), r.id, ToStatus(Execution))
  {
  }

  /** One more range is started and goes into execution. */
  lemma OneMoreExecutes(c: Config, s: State, k: nat, n: nat) returns (es: seq<Event>)
    requires Executing(c, s, k, n) && k > 0 && c.mock
    requires n < c.maxConcurrentProofRequests && 0 < c.maxConcurrentWitnessGen
    ensures Executing(c, ApplyAll(c, s, es), k - 1, n + 1)
  {
    var r := NextOfExecuting(c, s, k, n);
    RoomToExecute(c, s, k, n);
    hide Inv, Apply, Count, ApplyAll, HasCapacity, NextUnrequested, Executing;
    es := [StartNext, TaskExecutes(r.id)];
    TwoEvents(c, s, StartNext, TaskExecutes(r.id));
    var i := StartThenExecute(c, s, r);
    ReplacedExecutes(c, s, ApplyAll(c, s, es), i, k, n);
  }

  lemma ReplacedExecutes(c: Config, s: State, s': State, i: nat, k: nat, n: nat)
    requires Executing(c, s, k, n) && i < |s.rows| && s.rows[i].status == Unrequested && k > 0
    requires Inv(c, s') && s'.latest == s.latest && s'.rows == s.rows[i := s.rows[i].(status := Execution)]
    ensures Executing(c, s', k - 1, n + 1)
  {
    hide Inv, Count;
    var executing := s.rows[i].(status := Execution);
    CountReplace(s.rows, i, executing, WithStatus(Unrequested));
    CountReplace(s.rows, i, executing, WithStatus(Execution));
    assert s.rows[i] in s.rows;
    forall x | x in s'.rows
      ensures x.reqType == Range && x.startBlock >= s.latest && x.status in {Unrequested, Execution}
    {
      var j :| 0 <= j < |s'.rows| && s'.rows[j] == x;
      assert j != i ==> s.rows[j] in s.rows;
    }
  }

  lemma TwoUpdates(c: Config, s: State, i: nat)
    requires Inv(c, s) && i < |s.rows|
    ensures var r := s.rows[i];
            Update(Update(s.rows, r.id, ToStatus(WitnessGeneration)), r.id, ToStatus(Execution))
              == s.rows[i := r.(status := Execution)]
  {
    UpdateIsReplace(s.rows, s.nextId, i, ToStatus(WitnessGeneration));
  }

  lemma TwoEvents(c: Config, s: State, a: Event, b: Event)
    ensures ApplyAll(c, s, [a, b]) == Apply(c, Apply(c, s, a), b)
  {
    hide Apply;
    assert [a, b][1..] == [b] && [b][1..] == [];
    assert ApplyAll(c, s, [a, b]) == ApplyAll(c, Apply(c, s, a), [b]);
    assert ApplyAll(c, Apply(c, s, a), [b]) == ApplyAll(c, Apply(c, Apply(c, s, a), b), []);
  }

  lemma PlannedRows(c: Config, finalized: nat)
    requires forall sp :: sp in NewChunks(c, Fresh(c), finalized) ==> c.initialBlock <= sp.lo
    ensures var s := Apply(c, Fresh(c), AddNewRanges(finalized));
            && |s.rows| == |NewChunks(c, Fresh(c), finalized)| && s.latest == c.initialBlock
            && forall r :: r in s.rows ==>
              r.reqType == Range && r.status == Unrequested && r.startBlock >= c.initialBlock
  {
    hide NewChunks;
    var chunks := NewChunks(c, Fresh(c), finalized);
    var rows := Apply(c, Fresh(c), AddNewRanges(finalized)).rows;
    assert rows == Stamp(NewRanges(chunks), 0);
    forall i | 0 <= i < |rows|
      ensures rows[i].reqType == Range && rows[i].status == Unrequested && rows[i].startBlock >= c.initialBlock
    {
      assert chunks[i] in chunks;
    }
  }

  lemma PlannedExecuting(c: Config, finalized: nat)
    requires forall sp :: sp in NewChunks(c, Fresh(c), finalized) ==> c.initialBlock <= sp.lo
    ensures Executing(c, Apply(c, Fresh(c), AddNewRanges(finalized)), |NewChunks(c, Fresh(c), finalized)|, 0)
  {
    FreshInv(c);
    hide Inv, Apply, NewChunks, Fresh, Executing;
    var plan := AddNewRanges(finalized);
    StepKeepsInv(c, Fresh(c), plan);
    PlannedRows(c, finalized);
    NothingExecutesYet(c, Apply(c, Fresh(c), plan));
  }

  lemma NothingExecutesYet(c: Config, s: State)
    requires Inv(c, s)
    requires forall r :: r in s.rows ==> r.reqType == Range && r.status == Unrequested && r.startBlock >= s.latest
    ensures Executing(c, s, |s.rows|, 0)
  {
    hide Inv;
    SelectAll(s.rows, WithStatus(Unrequested));
    CountNone(s.rows, Execution);
  }

  lemma PlannedFresh(c: Config, k: nat)
    requires k > 0
    ensures Executing(c, Apply(c, Fresh(c), AddNewRanges(c.initialBlock + c.rangeProofInterval * k)), k, 0)
  {
    hide Chop, NewChunks, Executing, Apply, Fresh, LastIsShort;
    var finalized := c.initialBlock + c.rangeProofInterval * k;
    FreshChunks(c, k);
    ChopExact(c.initialBlock, k, c.rangeProofInterval);
    ChopStarts(c.initialBlock, finalized, c.rangeProofInterval);
    PlannedExecuting(c, finalized);
  }

  lemma ChopStarts(start: nat, end: nat, interval: nat)
    requires interval > 0
    ensures forall sp :: sp in Chop(start, end, interval) ==> start <= sp.lo
  {
    ChopShape(start, end, interval);
  }

  lemma {:induction false} ManyExecute(c: Config, k: nat, n: nat) returns (es: seq<Event>)
    requires c.mock && 0 < k && n <= k && n <= c.maxConcurrentProofRequests && 0 < c.maxConcurrentWitnessGen
    ensures Executing(c, ApplyAll(c, Fresh(c), es), k - n, n)
    decreases n
  {
    hide Executing, Apply;
    if n == 0 {
      var plan := AddNewRanges(c.initialBlock + c.rangeProofInterval * k);
      es := [plan];
      assert [plan][1..] == [];
      assert ApplyAll(c, Fresh(c), [plan]) == ApplyAll(c, Apply(c, Fresh(c), plan), []);
      PlannedFresh(c, k);
    } else {
      var before := ManyExecute(c, k, n - 1);
      var more := OneMoreExecutes(c, ApplyAll(c, Fresh(c), before), k - n + 1, n - 1);
      ApplyAllConcat(c, Fresh(c), before, more);
      es := before + more;
    }
  }

  /** In every other config some run from an empty table goes beyond the documented cap. */
  lemma WitnessCapIgnoresExecution(c: Config) returns (es: seq<Event>)
    requires !CapIsSafe(c)
    ensures DocumentedLoad(ApplyAll(c, Fresh(c), es).rows) > c.maxConcurrentWitnessGen
  {
    var n := c.maxConcurrentWitnessGen + 1;
    es := ManyExecute(c, n, n);
    hide ApplyAll, Count, Inv;
  }

  /** The documented cap holds on all runs if and only if the config is a safe one: no mock mode, a proof
      cap at most the witness cap, or a witness cap of 0. */
  lemma DocumentedCapHoldsIff(c: Config)
    ensures (forall es :: DocumentedLoad(ApplyAll(c, Fresh(c), es).rows) <= c.maxConcurrentWitnessGen) <==> CapIsSafe(c)
  {
    if CapIsSafe(c) {
      forall es ensures DocumentedLoad(ApplyAll(c, Fresh(c), es).rows) <= c.maxConcurrentWitnessGen {
        SafeCapHolds(c, es);
      }
    } else {
      var es := WitnessCapIgnoresExecution(c);
    }
  }
}
