/** When an aggregation is requested, and with which checkpoint (`create_aggregation_proofs` in
    op-succinct/validity/src/proposer.rs), said over the rows of the table. */
module AggregationRule {
  import opened Requests
  import opened BlockSpans
  import opened RequestTable
  import opened ProposerModel
  import opened ProposerInvariant
  import opened ProposerSteps
  import opened ProposerRuns
  import opened RangePlanning
  import opened StuckCheckpoint

  /** A finished range request at or above the latest block. */
  ghost predicate Done(s: State, r: Request) {
    r in s.rows && r.reqType == Range && r.status == Complete && r.startBlock >= s.latest
  }

  ghost predicate DoneBlock(s: State, b: nat) { exists r :: Done(s, r) && r.startBlock <= b < r.endBlock }

  /** The lowest finished range starts at `lo`, and `end` is the first block above that is not finished. */
  ghost predicate DoneFrom(s: State, lo: nat, end: nat) {
    && (exists r :: Done(s, r) && r.startBlock == lo)
    && (forall r :: Done(s, r) ==> lo <= r.startBlock)
    && lo < end && (forall b: nat :: lo <= b < end ==> DoneBlock(s, b)) && !DoneBlock(s, end)
  }

  /** An aggregation up to `end` is due: none is active at the latest block, and the finished ranges reach as
      far as both submission intervals ask, the contract's and the proposer's own. */
  ghost predicate DueTo(c: Config, s: State, end: nat) {
    && (forall a :: a in s.rows && a.reqType == Aggregation && a.startBlock == s.latest ==>
          a.status in {Relayed, Failed, Cancelled})
    && (exists lo :: DoneFrom(s, lo, end))
    && end >= s.latest + c.submissionInterval && end >= s.latest + c.contractSubmissionInterval
  }

  lemma DoneCovers(s: State, b: nat)
    ensures Covers(Completed(s), b) <==> DoneBlock(s, b)
  {
    CompletedCovers(s, b);
    assert forall r :: Done(s, r) <==> r in s.rows && Matches(CompletedRanges(s.latest), r);
  }

  lemma LowestDone(c: Config, s: State)
    requires TableOk(c, s)
    ensures Completed(s) == [] <==> forall r :: !Done(s, r)
    ensures Completed(s) != [] ==>
      (exists r :: Done(s, r) && r.startBlock == Completed(s)[0].lo)
      && forall r :: Done(s, r) ==> Completed(s)[0].lo <= r.startBlock
  {
    FirstIsLeast(s.rows, CompletedRanges(s.latest));
    assert forall r :: Done(s, r) <==> r in s.rows && Matches(CompletedRanges(s.latest), r);
    hide SelectOrdered, TableOk, Matches;
  }

  lemma ContiguousIff(c: Config, s: State, end: nat)
    requires TableOk(c, s)
    ensures HighestContiguous(Completed(s)) == Some(end) <==> exists lo :: DoneFrom(s, lo, end)
  {
    HighestContiguousMeaning(c, s);
    LowestDone(c, s);
    forall b: nat ensures Covers(Completed(s), b) <==> DoneBlock(s, b) { DoneCovers(s, b); }
    hide TableOk, Covers, DoneBlock, Done, Completed;
    if HighestContiguous(Completed(s)) == Some(end) {
      assert DoneFrom(s, Completed(s)[0].lo, end);
    }
    if lo :| DoneFrom(s, lo, end) {
      assert lo == Completed(s)[0].lo;
      var top := HighestContiguous(Completed(s)).value;
      assert top == end;
    }
  }

  lemma ActiveStatus(st: RequestStatus)
    ensures st in ACTIVE <==> st !in {Relayed, Failed, Cancelled}
  {
  }

  lemma NoneActiveIff(s: State)
    ensures Count(s.rows, ActiveAggs(s.latest)) == 0
       <==> forall a :: a in s.rows && a.reqType == Aggregation && a.startBlock == s.latest ==>
              a.status in {Relayed, Failed, Cancelled}
  {
    var rows := Select(s.rows, ActiveAggs(s.latest));
    forall a ensures a in rows <==> a in s.rows && Matches(ActiveAggs(s.latest), a) {
      SelectMember(s.rows, ActiveAggs(s.latest), a);
    }
    forall st: RequestStatus ensures st in ACTIVE <==> st !in {Relayed, Failed, Cancelled} { ActiveStatus(st); }
    if rows != [] { assert rows[0] in rows; }
    hide Select;
  }

  lemma TargetIff(c: Config, s: State, end: nat)
    requires TableOk(c, s)
    ensures AggTarget(c, s) == Some(end) <==> DueTo(c, s, end)
  {
    ContiguousIff(c, s, end);
    NoneActiveIff(s);
    hide TableOk, HighestContiguous, Completed, DoneFrom, Count;
  }

  /** A failed aggregation of the blocks from the latest one to `end`. */
  ghost predicate FailedFor(s: State, end: nat, f: Request) {
    && f in s.rows && f.reqType == Aggregation && f.status == Failed
    && f.startBlock == s.latest && f.endBlock == end
  }

  /** The checkpoint of the next aggregation request: that of any failed one of the same blocks, else the
      L1 block that is current. */
  ghost predicate LentOr(s: State, end: nat, header: Checkpoint, lent: Checkpoint) {
    && (forall f :: FailedFor(s, end, f) ==> f.checkpoint == Some(lent))
    && ((forall f :: !FailedFor(s, end, f)) ==> lent == header)
  }

  lemma LendsOr(c: Config, s: State, end: nat, header: Checkpoint)
    requires Inv(c, s) && SharedCheckpoint(s.rows)
    ensures LentOr(s, end, header, AggCheckpoint(s, end, header))
  {
    forall f | FailedFor(s, end, f) ensures f.checkpoint == Some(AggCheckpoint(s, end, header)) {
      FailedRowLends(c, s, f, header);
    }
    NobodyLends(s, end, header);
    hide Inv, SharedCheckpoint, AggCheckpoint, FailedFor;
  }

  lemma NobodyLends(s: State, end: nat, header: Checkpoint)
    ensures (forall f :: !FailedFor(s, end, f)) ==> AggCheckpoint(s, end, header) == header
  {
    var w := FailedAggWithCheckpoint(s.latest, end);
    if Select(s.rows, w) != [] {
      var f := Select(s.rows, w)[0];
      SelectMember(s.rows, w, f);
      assert FailedFor(s, end, f);
    }
  }

  /** One aggregation request is appended, and nothing else changes. */
  ghost predicate WithAgg(s: State, end: nat, lent: Checkpoint, s': State) {
    var agg := Request(s.nextId, Unrequested, Aggregation, s.latest, end, None, None, Some(lent));
    s' == s.(rows := s.rows + [agg], nextId := s.nextId + 1)
  }

  lemma AppendsIff(c: Config, s: State, header: Checkpoint, end: nat)
    ensures var s' := Apply(c, s, CreateAggregation(header));
            && (AggTarget(c, s) == Some(end) ==> WithAgg(s, end, AggCheckpoint(s, end, header), s'))
            && (AggTarget(c, s) == None ==> s' == s)
  {
    hide AggTarget, AggCheckpoint;
    var agg := NewAggRequest(s.latest, end, AggCheckpoint(s, end, header));
    assert Stamp([agg], s.nextId) == [agg.(id := s.nextId)];
  }

  lemma TableOfInv(c: Config, s: State)
    requires Inv(c, s)
    ensures TableOk(c, s)
  {
  }

  /** In every reachable state exactly one aggregation request is appended if one is due, and nothing changes
      otherwise. */
  lemma RequestsAggregationIff(c: Config, es: seq<Event>, header: Checkpoint, end: nat)
    ensures var s := ApplyAll(c, Fresh(c), es);
            var s' := Apply(c, s, CreateAggregation(header));
            && (DueTo(c, s, end) ==> exists lent :: LentOr(s, end, header, lent) && WithAgg(s, end, lent, s'))
            && ((forall e :: !DueTo(c, s, e)) ==> s' == s)
  {
    hide *;
    var s := ApplyAll(c, Fresh(c), es);
    FreshInv(c);
    RunKeepsInv(c, Fresh(c), es);
    ReachableShared(c, es);
    TableOfInv(c, s);
    TargetIff(c, s, end);
    if AggTarget(c, s).Some? { TargetIff(c, s, AggTarget(c, s).value); }
    LendsOr(c, s, end, header);
    AppendsIff(c, s, header, end);
  }
}
