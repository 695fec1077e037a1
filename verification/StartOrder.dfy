/** Which request the proposer starts next (`get_next_unrequested_proof` and `request_queued_proofs` in
    op-succinct/validity/src/proposer.rs), said over the rows of the table. */
module StartOrder {
  import opened Requests
  import opened BlockSpans
  import opened RequestTable
  import opened ProposerModel
  import opened ProposerInvariant
  import opened ProposerSteps
  import opened ProposerRuns
  import opened RangePlanning

  /** A waiting aggregation whose blocks are all proven. */
  ghost predicate ReadyAgg(s: State, a: Request) {
    && a in s.rows && a.reqType == Aggregation && a.status == Unrequested && a.startBlock >= s.latest
    && forall b :: a.startBlock <= b < a.endBlock ==> Proven(s.rows, a.startBlock, a.endBlock, b)
  }

  ghost predicate WaitingRange(s: State, r: Request) {
    r in s.rows && r.reqType == Range && r.status == Unrequested && r.startBlock >= s.latest
  }

  ghost predicate LowestRange(s: State, r: Request) {
    WaitingRange(s, r) && forall x :: WaitingRange(s, x) ==> r.startBlock <= x.startBlock
  }

  /** In a state that the invariant allows at most one aggregation waits, at the latest block. */
  lemma OneWaitingAgg(c: Config, s: State, a: Request, b: Request)
    requires Inv(c, s) && a in s.rows && b in s.rows
    requires Matches(UnrequestedAgg(s.latest), a) && Matches(UnrequestedAgg(s.latest), b)
    ensures a == b
  {
    assert RowOk(c, a, s.latest) && RowOk(c, b, s.latest);
    if a.id == b.id { IdUnique(s.rows, s.nextId, a, b); }
    hide Tiled, RelayOk;
  }

  lemma ReadyIsTiled(c: Config, s: State, a: Request)
    requires Inv(c, s) && a in s.rows
    ensures ReadyAgg(s, a) <==> Matches(UnrequestedAgg(s.latest), a) && Tiled(s.rows, a.startBlock, a.endBlock)
  {
    assert RowOk(c, a, s.latest);
    ValidationMeansProven(c, s, a.startBlock, a.endBlock);
    hide Inv, Tiled, Proven;
  }

  lemma OneLowestRange(c: Config, s: State, a: Request, b: Request)
    requires Inv(c, s) && LowestRange(s, a) && LowestRange(s, b)
    ensures a == b
  {
    assert RowOk(c, a, s.latest) && RowOk(c, b, s.latest);
    if a.id == b.id { IdUnique(s.rows, s.nextId, a, b); }
    hide Tiled, RelayOk;
  }

  /** What is picked, if anything. */
  lemma PickMeans(c: Config, s: State)
    requires Inv(c, s)
    ensures match NextUnrequested(s)
            case Some(r) => ReadyAgg(s, r) || (LowestRange(s, r) && forall a :: !ReadyAgg(s, a))
            case None => forall x :: !ReadyAgg(s, x) && !WaitingRange(s, x)
  {
    var w := UnrequestedAgg(s.latest);
    FirstIsLeast(s.rows, w);
    FirstIsLeast(s.rows, UnrequestedRange(s.latest));
    assert forall x :: WaitingRange(s, x) <==> x in s.rows && Matches(UnrequestedRange(s.latest), x);
    forall a | a in s.rows ensures ReadyAgg(s, a) <==> Matches(w, a) && Tiled(s.rows, a.startBlock, a.endBlock) {
      ReadyIsTiled(c, s, a);
    }
    assert forall a :: ReadyAgg(s, a) ==> a in s.rows;
    var first := First(SelectOrdered(s.rows, w));
    forall a | first.Some? && ReadyAgg(s, a) ensures a == first.value { OneWaitingAgg(c, s, a, first.value); }
    hide Inv, SelectOrdered, Matches, Tiled, ReadyAgg, WaitingRange;
  }

  /** A ready aggregation comes first. When there is none, an aggregation that waits for its ranges holds
      nothing up: the range with the lowest start is next. Nothing is next only if there is neither. */
  lemma NextRequestIff(c: Config, s: State, r: Request)
    requires Inv(c, s)
    ensures NextUnrequested(s) == Some(r)
       <==> ReadyAgg(s, r) || (LowestRange(s, r) && forall a :: !ReadyAgg(s, a))
    ensures NextUnrequested(s) == None <==> forall x :: !ReadyAgg(s, x) && !WaitingRange(s, x)
  {
    PickMeans(c, s);
    if NextUnrequested(s).Some? {
      var p := NextUnrequested(s).value;
      if ReadyAgg(s, r) && ReadyAgg(s, p) { OneWaitingAgg(c, s, r, p); }
      if LowestRange(s, r) && LowestRange(s, p) { OneLowestRange(c, s, r, p); }
    }
    hide Inv, ReadyAgg, NextUnrequested;
  }

  /** Both caps, as the code counts towards them, leave room for one more. */
  predicate HasRoom(c: Config, rows: seq<Request>) {
    && Count(rows, WithStatus(WitnessGeneration)) + Count(rows, WithStatus(Execution)) + Count(rows, WithStatus(Prove))
      < c.maxConcurrentProofRequests
    && Count(rows, WithStatus(WitnessGeneration)) < c.maxConcurrentWitnessGen
  }

  lemma StartSpawns(c: Config, s: State)
    ensures Apply(c, s, StartNext) == if !HasRoom(c, s.rows) then s
                                      else match NextUnrequested(s) case None => s case Some(r) => Spawn(s, r)
  {
    hide NextUnrequested, Spawn, Count;
  }

  lemma SpawnsOne(c: Config, s: State, r: Request) returns (i: nat)
    requires IdsOk(s.rows, s.nextId) && r in s.rows
    ensures i < |s.rows| && s.rows[i] == r
    ensures Spawn(s, r) == s.(rows := s.rows[i := r.(status := WitnessGeneration)],
                              tasks := s.tasks[r.id := Task(r, Witnessing)])
  {
    i := RowIndex(s.rows, r);
    UpdateIsReplace(s.rows, s.nextId, i, ToStatus(WitnessGeneration));
    hide IdsOk, Update;
  }

  lemma IdsOfInv(c: Config, s: State)
    requires Inv(c, s)
    ensures IdsOk(s.rows, s.nextId)
  {
  }

  /** With room, that request and no other goes into witness generation. */
  lemma StartsThatRequest(c: Config, s: State, r: Request) returns (i: nat)
    requires Inv(c, s) && HasRoom(c, s.rows)
    requires ReadyAgg(s, r) || (LowestRange(s, r) && forall a :: !ReadyAgg(s, a))
    ensures i < |s.rows| && s.rows[i] == r
    ensures Apply(c, s, StartNext) == s.(rows := s.rows[i := r.(status := WitnessGeneration)],
                                         tasks := s.tasks[r.id := Task(r, Witnessing)])
  {
    hide *;
    NextRequestIff(c, s, r);
    NextIsReady(s);
    StartSpawns(c, s);
    IdsOfInv(c, s);
    i := SpawnsOne(c, s, r);
  }

  /** Nothing is started exactly when there is no room, or nothing to start. */
  lemma StartsNothingIff(c: Config, s: State)
    requires Inv(c, s)
    ensures Apply(c, s, StartNext) == s
       <==> !HasRoom(c, s.rows) || forall x :: !ReadyAgg(s, x) && !WaitingRange(s, x)
  {
    hide *;
    NothingNextIff(c, s);
    NextIsReady(s);
    StartSpawns(c, s);
    IdsOfInv(c, s);
    if NextUnrequested(s).Some? {
      var r := NextUnrequested(s).value;
      var i := SpawnsOne(c, s, r);
      assert Spawn(s, r).rows[i] == r.(status := WitnessGeneration);
    }
  }

  lemma NothingNextIff(c: Config, s: State)
    requires Inv(c, s)
    ensures NextUnrequested(s) == None <==> forall x :: !ReadyAgg(s, x) && !WaitingRange(s, x)
  {
    PickMeans(c, s);
    hide Inv, ReadyAgg, NextUnrequested;
  }

  /** In every reachable state with room the lowest waiting range is started, whatever aggregation was
      requested too early and waits beside it. */
  lemma EarlyAggregationsDoNotBlock(c: Config, es: seq<Event>, r: Request) returns (i: nat)
    requires var s := ApplyAll(c, Fresh(c), es);
             HasRoom(c, s.rows) && LowestRange(s, r) && forall a :: !ReadyAgg(s, a)
    ensures var s, s' := ApplyAll(c, Fresh(c), es), ApplyAll(c, Fresh(c), es + [StartNext]);
            && i < |s.rows| && s.rows[i] == r && s'.rows == s.rows[i := r.(status := WitnessGeneration)]
            && s'.tasks == s.tasks[r.id := Task(r, Witnessing)]
  {
    var s := ApplyAll(c, Fresh(c), es);
    FreshInv(c);
    hide *;
    RunKeepsInv(c, Fresh(c), es);
    i := StartsThatRequest(c, s, r);
    LastStep(c, Fresh(c), es, StartNext);
  }

  lemma LastStep(c: Config, s: State, es: seq<Event>, e: Event)
    ensures ApplyAll(c, s, es + [e]) == Apply(c, ApplyAll(c, s, es), e)
  {
    hide Apply;
    ApplyAllConcat(c, s, es, [e]);
    assert [e][1..] == [];
    assert ApplyAll(c, ApplyAll(c, s, es), [e]) == ApplyAll(c, Apply(c, ApplyAll(c, s, es), e), []);
  }

}
