/** What the planning steps achieve: which blocks get a request, which aggregations are worth
    starting, and what a failure leaves behind. */
module RangePlanning {
  import opened Requests
  import opened BlockSpans
  import opened RequestTable
  import opened ProposerModel
  import opened ProposerInvariant
  import opened ProposerSteps

  /** Some active range request holds block `b`. */
  ghost predicate Requested(rows: seq<Request>, b: nat) {
    exists r :: r in rows && ActiveRange(r) && InRequest(r, b)
  }

  /** The short chunk that `get_ranges_to_prove` drops. */
  function Hole(c: Config, s: State, finalized: nat): Option<Span> {
    var all := AllChunks(c, s, finalized);
    if LastIsShort(all, c.rangeProofInterval) then Some(all[|all| - 1]) else None
  }

  predicate InHole(c: Config, s: State, finalized: nat, b: nat) {
    Hole(c, s, finalized).Some? && Holds(Hole(c, s, finalized).value, b)
  }

  /** The end of the planned area: the finalized block, or the end of an active range beyond it. */
  function Tip(s: State, finalized: nat): nat { Reach(finalized, Planned(s)) }

  // ---------------------------------------------------------------- add_new_ranges

  lemma RequestedAboveLatest(c: Config, s: State, b: nat)
    requires TableOk(c, s) && b >= s.latest
    ensures Covers(Planned(s), b) <==> Requested(s.rows, b)
  {
    PlannedCovers(s, b);
    if r :| r in s.rows && ActiveRange(r) && InRequest(r, b) {
      assert RowOk(c, r, s.latest);
    }
  }

  lemma InsertedRequested(s: State, spans: seq<Span>, b: nat)
    ensures Requested(InsertRanges(s, spans).rows, b) <==> Requested(s.rows, b) || Covers(spans, b)
  {
    var more := Stamp(NewRanges(spans), s.nextId);
    var rows := s.rows + more;
    if r :| r in rows && ActiveRange(r) && InRequest(r, b) {
      if r !in s.rows {
        var i := FreshRange(spans, s.nextId, r);
        assert spans[i] in spans && Holds(spans[i], b);
      }
    }
    if r :| r in s.rows && ActiveRange(r) && InRequest(r, b) { assert r in rows; }
    if sp :| sp in spans && Holds(sp, b) {
      var i :| 0 <= i < |spans| && spans[i] == sp;
      assert more[i] in rows && InRequest(more[i], b);
    }
  }

  lemma ChunksCover(c: Config, s: State, finalized: nat, b: nat)
    requires TableOk(c, s)
    ensures Covers(NewChunks(c, s, finalized), b) <==>
              (s.latest <= b < Tip(s, finalized) && !Requested(s.rows, b) && !InHole(c, s, finalized, b))
    ensures InHole(c, s, finalized, b) ==> s.latest <= b < Tip(s, finalized) && !Requested(s.rows, b)
  {
    AllChunksShape(c, s, finalized);
    DropShortLastPoints(AllChunks(c, s, finalized), c.rangeProofInterval, b);
    if b >= s.latest { RequestedAboveLatest(c, s, b); }
  }

  /** No block is requested twice. */
  lemma RequestedOnce(c: Config, s: State, b: nat, x: Request, y: Request)
    requires IdsOk(s.rows, s.nextId) && RangesDisjoint(s.rows)
    requires x in s.rows && y in s.rows && ActiveRange(x) && ActiveRange(y) && InRequest(x, b) && InRequest(y, b)
    ensures x == y
  {
    assert x.id == y.id;
    IdUnique(s.rows, s.nextId, x, y);
  }

  lemma HoleIsShort(c: Config, s: State, finalized: nat)
    requires TableOk(c, s) && Hole(c, s, finalized).Some?
    ensures var h := Hole(c, s, finalized).value;
            && h.lo < h.hi && h.hi - h.lo < c.rangeProofInterval
            && s.latest <= h.lo && h.hi <= Tip(s, finalized)
  {
    AllChunksShape(c, s, finalized);
    hide TableOk;
    var all := AllChunks(c, s, finalized);
    var h := all[|all| - 1];
    assert h in all;
    var last: nat := h.hi - 1;
    assert Holds(h, h.lo) && Covers(all, h.lo) && Holds(h, last) && Covers(all, last);
  }

  /** After `add_new_ranges`, every block between the latest one and the tip is in exactly one active
      range request, except for those of at most one hole, which is shorter than the proof interval. */
  lemma AddNewRangesPartitions(c: Config, s: State, finalized: nat, b: nat)
    requires Inv(c, s) && s.latest <= b < Tip(s, finalized)
    ensures var rows := Apply(c, s, AddNewRanges(finalized)).rows;
            && (Requested(rows, b) <==> !InHole(c, s, finalized, b))
            && (forall x, y ::
                  x in rows && y in rows && ActiveRange(x) && ActiveRange(y) && InRequest(x, b) && InRequest(y, b)
                  ==> x == y)
    ensures Hole(c, s, finalized).Some? ==>
              0 < Hole(c, s, finalized).value.hi - Hole(c, s, finalized).value.lo < c.rangeProofInterval
  {
    ChunksCover(c, s, finalized, b);
    InsertedRequested(s, NewChunks(c, s, finalized), b);
    var s' := Apply(c, s, AddNewRanges(finalized));
    StepKeepsInv(c, s, AddNewRanges(finalized));
    if Hole(c, s, finalized).Some? { HoleIsShort(c, s, finalized); }
    forall x, y | x in s'.rows && y in s'.rows && ActiveRange(x) && ActiveRange(y) && InRequest(x, b) && InRequest(y, b)
      ensures x == y
    {
      RequestedOnce(c, s', b, x, y);
    }
    hide TableOk, Hole, NewChunks, Tip, Covers, Requested;
  }

  /** When no active range ends beyond the finalized block, the tip is the finalized block. */
  lemma TipIsFinalized(c: Config, s: State, finalized: nat)
    requires TableOk(c, s) && forall r :: r in s.rows && ActiveRange(r) ==> r.endBlock <= finalized
    ensures Tip(s, finalized) == finalized
  {
    var w := RangesAfterBlock(ACTIVE, s.latest);
    var rs := SelectOrdered(s.rows, w);
    forall sp | sp in Planned(s) ensures sp.hi <= finalized {
      var i :| 0 <= i < |rs| && Planned(s)[i] == sp;
      OrderedMember(s.rows, w, rs[i]);
    }
    ReachBounds(finalized, Planned(s));
  }

  lemma {:induction false} ReachAtMost(end: nat, ranges: seq<Span>, bound: nat)
    requires end <= bound && forall sp :: sp in ranges ==> sp.hi <= bound
    ensures Reach(end, ranges) <= bound
  {
    if ranges != [] {
      assert ranges[0] in ranges;
      ReachAtMost(end, ranges[1..], bound);
    }
  }

  lemma PlannedMember(s: State, r: Request)
    requires r in s.rows && ActiveRange(r) && r.startBlock >= s.latest
    ensures Span(r.startBlock, r.endBlock) in Planned(s)
  {
    var w := RangesAfterBlock(ACTIVE, s.latest);
    OrderedMember(s.rows, w, r);
    var i :| 0 <= i < |SelectOrdered(s.rows, w)| && SelectOrdered(s.rows, w)[i] == r;
    assert Planned(s)[i] == Span(r.startBlock, r.endBlock);
  }

  lemma PlannedRow(s: State, sp: Span) returns (r: Request)
    requires sp in Planned(s)
    ensures r in s.rows && ActiveRange(r) && r.startBlock >= s.latest && sp == Span(r.startBlock, r.endBlock)
  {
    var w := RangesAfterBlock(ACTIVE, s.latest);
    var i :| 0 <= i < |Planned(s)| && Planned(s)[i] == sp;
    r := SelectOrdered(s.rows, w)[i];
    OrderedMember(s.rows, w, r);
  }

  lemma NewPlannedBelowTip(c: Config, s: State, finalized: nat, sp: Span)
    requires Inv(c, s) && sp in Planned(Apply(c, s, AddNewRanges(finalized)))
    ensures sp.hi <= Tip(s, finalized)
  {
    ReachBounds(finalized, Planned(s));
    var chunks := NewChunks(c, s, finalized);
    forall i | 0 <= i < |chunks| ensures chunks[i].hi <= Tip(s, finalized) {
      ChunkBelowTip(c, s, finalized, chunks[i]);
    }
    hide Inv, NewChunks, Planned, Reach;
    var r := PlannedRow(Apply(c, s, AddNewRanges(finalized)), sp);
    if r in s.rows {
      PlannedMember(s, r);
    } else {
      var i := FreshRange(chunks, s.nextId, r);
    }
  }

  lemma ChunkBelowTip(c: Config, s: State, finalized: nat, sp: Span)
    requires Inv(c, s) && sp in NewChunks(c, s, finalized)
    ensures sp.hi <= Tip(s, finalized)
  {
    AllChunksShape(c, s, finalized);
    var all := AllChunks(c, s, finalized);
    assert sp in all;
    hide Inv, NewChunks, AllChunks;
    var last: nat := sp.hi - 1;
    assert Holds(sp, last) && Covers(all, last);
  }

  lemma TipUnmoved(c: Config, s: State, finalized: nat)
    requires Inv(c, s)
    ensures Tip(Apply(c, s, AddNewRanges(finalized)), finalized) == Tip(s, finalized)
  {
    var s' := Apply(c, s, AddNewRanges(finalized));
    ReachBounds(finalized, Planned(s));
    ReachBounds(finalized, Planned(s'));
    hide Inv;
    forall sp | sp in Planned(s) ensures sp.hi <= Tip(s', finalized) {
      var r := PlannedRow(s, sp);
      PlannedMember(s', r);
    }
    ReachAtMost(finalized, Planned(s), Tip(s', finalized));
    forall sp | sp in Planned(s') ensures sp.hi <= Tip(s, finalized) {
      NewPlannedBelowTip(c, s, finalized, sp);
    }
    ReachAtMost(finalized, Planned(s'), Tip(s, finalized));
  }

  function HoleList(c: Config, s: State, finalized: nat): seq<Span> {
    match Hole(c, s, finalized) case None => [] case Some(h) => [h]
  }

  lemma GapsAfterCover(c: Config, s: State, finalized: nat, b: nat)
    requires Inv(c, s)
    ensures var s' := Apply(c, s, AddNewRanges(finalized));
            Covers(Gaps(s'.latest, finalized, Planned(s')), b) <==> InHole(c, s, finalized, b)
  {
    var s' := Apply(c, s, AddNewRanges(finalized));
    StepKeepsInv(c, s, AddNewRanges(finalized));
    PlannedShape(c, s');
    TipUnmoved(c, s, finalized);
    GapsPoints(s'.latest, finalized, Planned(s'), b);
    ChunksCover(c, s, finalized, b);
    InsertedRequested(s, NewChunks(c, s, finalized), b);
    if b >= s.latest { RequestedAboveLatest(c, s', b); }
    hide Inv, NewChunks, Hole, Planned, Requested, Covers;
  }

  /** The only gap left after a run of `add_new_ranges` is the hole. */
  lemma GapsAfterAdding(c: Config, s: State, finalized: nat)
    requires Inv(c, s)
    ensures var s' := Apply(c, s, AddNewRanges(finalized));
            Gaps(s'.latest, finalized, Planned(s')) == HoleList(c, s, finalized)
  {
    var s' := Apply(c, s, AddNewRanges(finalized));
    StepKeepsInv(c, s, AddNewRanges(finalized));
    PlannedShape(c, s');
    GapsSeparated(s'.latest, finalized, Planned(s'));
    var gaps := Gaps(s'.latest, finalized, Planned(s'));
    if Hole(c, s, finalized).Some? { HoleIsShort(c, s, finalized); }
    forall b: nat ensures Covers(gaps, b) <==> Covers(HoleList(c, s, finalized), b) {
      GapsAfterCover(c, s, finalized, b);
      if Hole(c, s, finalized).Some? { CoversOne(Hole(c, s, finalized).value, b); }
    }
    hide Inv, NewChunks, Hole, Planned;
    SeparatedUnique(gaps, HoleList(c, s, finalized));
  }

  lemma ShortGapIsDropped(h: Span, interval: pos)
    requires h.lo < h.hi && h.hi - h.lo < interval
    ensures ChopAll([h], interval) == [h] && RangesToProve([h], interval) == []
  {
    assert [h][1..] == [];
    assert Chop(h.lo, h.hi, interval) == [h] + Chop(h.hi, h.hi, interval) == [h];
    assert ChopAll([h], interval) == [h] + ChopAll([], interval) == [h];
  }

  lemma NothingToAdd(c: Config, s: State, finalized: nat)
    requires NewChunks(c, s, finalized) == []
    ensures Apply(c, s, AddNewRanges(finalized)) == s
  {
    hide NewChunks;
    assert s.rows + Stamp(NewRanges([]), s.nextId) == s.rows;
  }

  /** `add_new_ranges` is idempotent: run again on the same latest and finalized blocks, it finds only
      the hole, drops it again and inserts nothing. */
  lemma AddNewRangesIdempotent(c: Config, s: State, finalized: nat)
    requires Inv(c, s)
    ensures var s' := Apply(c, s, AddNewRanges(finalized)); Apply(c, s', AddNewRanges(finalized)) == s'
  {
    var s' := Apply(c, s, AddNewRanges(finalized));
    GapsAfterAdding(c, s, finalized);
    if Hole(c, s, finalized).Some? {
      HoleIsShort(c, s, finalized);
      ShortGapIsDropped(Hole(c, s, finalized).value, c.rangeProofInterval);
    }
    NothingToAdd(c, s', finalized);
  }

  /** The comment in `get_ranges_to_prove` drops the short chunk as the one near the tip. The dropped
      chunk is at the tip exactly when no active range ends there; otherwise blocks below already
      requested ones go without a request. */
  lemma HoleIsAtTipIff(c: Config, s: State, finalized: nat)
    requires Inv(c, s) && Hole(c, s, finalized).Some?
    ensures Hole(c, s, finalized).value.hi == Tip(s, finalized)
       <==> forall r :: r in s.rows && ActiveRange(r) ==> r.endBlock != Tip(s, finalized)
  {
    var all := AllChunks(c, s, finalized);
    var h := all[|all| - 1];
    HoleIsShort(c, s, finalized);
    AllChunksShape(c, s, finalized);
    var top: nat := Tip(s, finalized) - 1;
    RequestedAboveLatest(c, s, top);
    TopRequestedIff(c, s, finalized);
    hide Inv;
    if Covers(all, top) {
      var sp :| sp in all && Holds(sp, top);
      var i :| 0 <= i < |all| && all[i] == sp;
      assert i < |all| - 1 ==> sp.hi <= h.lo;
    }
    assert Holds(h, top) && h in all ==> Covers(all, top);
  }

  /** The last block below the tip is requested exactly when an active range ends at the tip. */
  lemma TopRequestedIff(c: Config, s: State, finalized: nat)
    requires Inv(c, s) && s.latest < Tip(s, finalized)
    ensures Requested(s.rows, Tip(s, finalized) - 1)
      <==> exists r :: r in s.rows && ActiveRange(r) && r.endBlock == Tip(s, finalized)
  {
    var top: nat := Tip(s, finalized) - 1;
    ReachBounds(finalized, Planned(s));
    if r :| r in s.rows && ActiveRange(r) && InRequest(r, top) {
      assert RowOk(c, r, s.latest);
      PlannedMember(s, r);
    }
    if r :| r in s.rows && ActiveRange(r) && r.endBlock == Tip(s, finalized) {
      assert RowOk(c, r, s.latest);
      assert InRequest(r, top);
    }
  }

  /** A fresh proposer plans k whole chunks. */
  lemma FreshChunks(c: Config, k: nat)
    requires k > 0
    ensures var finalized := c.initialBlock + c.rangeProofInterval * k;
            NewChunks(c, Fresh(c), finalized) == Chop(c.initialBlock, finalized, c.rangeProofInterval)
  {
    var start, interval := c.initialBlock, c.rangeProofInterval;
    var finalized := start + interval * k;
    ChopExact(start, k, interval);
    assert Planned(Fresh(c)) == [];
    assert interval * k > 0;
    var gap := Span(start, finalized);
    assert Gaps(start, finalized, []) == [gap];
    assert [gap][1..] == [];
    assert ChopAll([gap], interval) == Chop(start, finalized, interval) + [];
    hide Chop;
  }

  // ---------------------------------------------------------------- failing and splitting

  lemma FailedRequested(c: Config, s: State, r: Request, b: nat)
    requires Inv(c, s) && r in s.rows
    ensures var failed := Update(s.rows, r.id, ToStatus(Failed));
            Requested(failed, b) <==> exists x :: x in s.rows && ActiveRange(x) && x != r && InRequest(x, b)
  {
    var failed := Update(s.rows, r.id, ToStatus(Failed));
    var k := RowIndex(s.rows, r);
    UpdateIsReplace(s.rows, s.nextId, k, ToStatus(Failed));
    ReplaceMembers(s.rows, s.nextId, k, ApplyChange(r, ToStatus(Failed)));
    hide TableOk;
    if x :| x in s.rows && ActiveRange(x) && x != r && InRequest(x, b) {
      if x.id == r.id { IdUnique(s.rows, s.nextId, x, r); }
      assert x in failed;
    }
  }

  lemma HalvesCover(r: Request, b: nat)
    requires r.endBlock > r.startBlock + 1
    ensures Covers(Halves(r.startBlock, r.endBlock), b) <==> InRequest(r, b)
  {
    var halves := Halves(r.startBlock, r.endBlock);
    assert halves == [halves[0]] + [halves[1]];
    CoversConcat([halves[0]], [halves[1]], b);
    CoversOne(halves[0], b);
    CoversOne(halves[1], b);
  }

  /** A failed range gives up its blocks; a split hands all of them on to the two halves. */
  lemma FailureCoverage(c: Config, s: State, r: Request, unexecutable: bool, fault: Fault, b: nat)
    requires Inv(c, s) && r in s.rows && ActiveRange(r) && InRequest(r, b)
    ensures var s' := HandleFailed(s, r, unexecutable, fault);
            var failedRows := Update(s.rows, r.id, ToStatus(Failed));
            Requested(s'.rows, b) <==> fault == MarkFails || (fault == NoFault && Splits(failedRows, r, unexecutable))
  {
    FailedRequested(c, s, r, b);
    forall x | x in s.rows && ActiveRange(x) && InRequest(x, b) ensures x == r { RequestedOnce(c, s, b, x, r); }
    hide Inv;
    var failed := s.(rows := Update(s.rows, r.id, ToStatus(Failed)));
    InsertedRequested(failed, Halves(r.startBlock, r.endBlock), b);
    if r.endBlock > r.startBlock + 1 { HalvesCover(r, b); }
    hide Halves;
  }

  /** Blocks outside the failed range are requested exactly as before. */
  lemma FailureLeavesOthers(c: Config, s: State, r: Request, unexecutable: bool, fault: Fault, b: nat)
    requires Inv(c, s) && r in s.rows && !InRequest(r, b)
    ensures Requested(HandleFailed(s, r, unexecutable, fault).rows, b) <==> Requested(s.rows, b)
  {
    FailedRequested(c, s, r, b);
    hide Inv;
    var failed := s.(rows := Update(s.rows, r.id, ToStatus(Failed)));
    InsertedRequested(failed, Halves(r.startBlock, r.endBlock), b);
    if r.endBlock > r.startBlock + 1 { HalvesCover(r, b); }
    hide Halves;
  }

  // ---------------------------------------------------------------- aggregation requests

  /** Block `b` is in a Complete range request that lies within [start, end). */
  ghost predicate Proven(rows: seq<Request>, start: nat, end: nat, b: nat) {
    exists r :: r in rows && Matches(ConsecutiveComplete(start, end), r) && InRequest(r, b)
  }

  lemma RowAt(rs: seq<Request>, b: nat) returns (j: nat)
    requires HeldBy(rs, b)
    ensures j < |rs| && InRequest(rs[j], b)
  {
    var r :| r in rs && InRequest(r, b);
    j :| 0 <= j < |rs| && rs[j] == r;
  }

  ghost predicate RowsInOrder(rs: seq<Request>) {
    forall i, j :: 0 <= i < j < |rs| ==> rs[i].endBlock <= rs[j].startBlock
  }

  lemma InOrder(rs: seq<Request>, i: nat, j: nat)
    requires RowsInOrder(rs) && i < |rs| && j < |rs|
    ensures i < j ==> rs[i].endBlock <= rs[j].startBlock
  {
  }

  lemma CoveredIsConsecutive(rs: seq<Request>, start: nat, end: nat)
    requires RowsInOrder(rs) && start < end
    requires forall r :: r in rs ==> start <= r.startBlock < r.endBlock <= end
    requires forall b :: start <= b < end ==> HeldBy(rs, b)
    ensures Consecutive(rs, start, end)
  {
    var first := RowAt(rs, start);
    var last := RowAt(rs, end - 1);
    assert rs[0] in rs && rs[|rs| - 1] in rs && rs[first] in rs && rs[last] in rs;
    InOrder(rs, 0, first);
    InOrder(rs, last, |rs| - 1);
    forall i | 0 < i < |rs| ensures rs[i - 1].endBlock == rs[i].startBlock {
      NeighboursTouch(rs, start, end, i);
    }
  }

  lemma NeighboursTouch(rs: seq<Request>, start: nat, end: nat, i: nat)
    requires RowsInOrder(rs) && 0 < i < |rs|
    requires forall r :: r in rs ==> start <= r.startBlock < r.endBlock <= end
    requires forall b :: start <= b < end ==> HeldBy(rs, b)
    ensures rs[i - 1].endBlock == rs[i].startBlock
  {
    var prev, next := rs[i - 1], rs[i];
    assert prev in rs && next in rs && prev.endBlock <= next.startBlock;
    var j := RowAt(rs, prev.endBlock);
    InOrder(rs, j, i - 1);
    InOrder(rs, i, j);
  }

  /** `validate_aggregation_request` accepts exactly when Complete range requests hold every block. */
  lemma ValidationMeansProven(c: Config, s: State, start: nat, end: nat)
    requires TableOk(c, s) && start < end
    ensures Tiled(s.rows, start, end) <==> forall b :: start <= b < end ==> Proven(s.rows, start, end, b)
  {
    TileInOrder(c, s, start, end);
    var rs := Tile(s.rows, start, end);
    forall b ensures HeldBy(rs, b) <==> Proven(s.rows, start, end, b) {
      TileHolds(s, start, end, b);
    }
    hide TableOk, Tile, Proven, RowsInOrder;
    if Tiled(s.rows, start, end) {
      forall b | start <= b < end ensures Proven(s.rows, start, end, b) {
        ConsecutiveHolds(rs, start, end, b);
      }
    }
    if forall b :: start <= b < end ==> Proven(s.rows, start, end, b) {
      CoveredIsConsecutive(rs, start, end);
    }
  }

  lemma TileHolds(s: State, start: nat, end: nat, b: nat)
    ensures HeldBy(Tile(s.rows, start, end), b) <==> Proven(s.rows, start, end, b)
  {
    var w := ConsecutiveComplete(start, end);
    forall r ensures r in Tile(s.rows, start, end) <==> r in s.rows && Matches(w, r) { OrderedMember(s.rows, w, r); }
  }

  lemma TileInOrder(c: Config, s: State, start: nat, end: nat)
    requires TableOk(c, s)
    ensures RowsInOrder(Tile(s.rows, start, end))
    ensures forall r :: r in Tile(s.rows, start, end) ==> start <= r.startBlock < r.endBlock <= end
  {
    var w := ConsecutiveComplete(start, end);
    var rs := Tile(s.rows, start, end);
    SelectOrderedShape(s.rows, w);
    forall i, j | 0 <= i < j < |rs| ensures rs[i].endBlock <= rs[j].startBlock {
      assert Spans(rs)[i].hi <= Spans(rs)[j].lo;
    }
    forall r | r in rs ensures start <= r.startBlock < r.endBlock <= end {
      OrderedMember(s.rows, w, r);
      assert RowOk(c, r, s.latest);
    }
  }

  /** The end that `ContiguousEnd` reaches: everything up to it is covered, itself it is not. */
  lemma {:induction false} ContiguousEndMeaning(end: nat, spans: seq<Span>)
    requires Ordered(spans) && NonEmpty(spans) && forall sp :: sp in spans ==> end <= sp.lo
    ensures forall b :: end <= b < ContiguousEnd(end, spans) ==> Covers(spans, b)
    ensures !Covers(spans, ContiguousEnd(end, spans))
    decreases |spans|
  {
    if spans != [] {
      assert spans[0] in spans;
      var rest := spans[1..];
      assert spans == [spans[0]] + rest;
      if spans[0].lo == end {
        ContiguousEndMeaning(spans[0].hi, rest);
        ContiguousEndGrows(spans[0].hi, rest);
        forall b: nat ensures Covers(spans, b) <==> Holds(spans[0], b) || Covers(rest, b) {
          CoversConcat([spans[0]], rest, b);
          CoversOne(spans[0], b);
        }
      }
    }
  }

  /** `get_highest_proven_contiguous_block` returns the first block above the lowest completed range
      that no completed range holds. */
  lemma HighestContiguousMeaning(c: Config, s: State)
    requires TableOk(c, s)
    ensures match HighestContiguous(Completed(s))
            case None => forall b :: !Covers(Completed(s), b)
            case Some(end) => && (forall b :: Completed(s)[0].lo <= b < end ==> Covers(Completed(s), b))
                              && !Covers(Completed(s), end)
                              && Completed(s)[0].lo < end
  {
    CompletedShape(c, s);
    var spans := Completed(s);
    if spans != [] {
      assert spans[0] in spans;
      ContiguousEndMeaning(spans[0].lo, spans);
      ContiguousEndGrows(spans[0].hi, spans[1..]);
    }
  }

  lemma CompletedCovers(s: State, b: nat)
    ensures Covers(Completed(s), b)
      <==> exists r :: r in s.rows && Matches(CompletedRanges(s.latest), r) && InRequest(r, b)
  {
    var w := CompletedRanges(s.latest);
    var rs := SelectOrdered(s.rows, w);
    if sp :| sp in Completed(s) && Holds(sp, b) {
      var i :| 0 <= i < |rs| && Completed(s)[i] == sp;
      OrderedMember(s.rows, w, rs[i]);
    }
    if r :| r in s.rows && Matches(w, r) && InRequest(r, b) {
      OrderedMember(s.rows, w, r);
      var i :| 0 <= i < |rs| && rs[i] == r;
      assert Completed(s)[i] in Completed(s) && Holds(Completed(s)[i], b);
    }
  }

  /** Nothing checks that the lowest completed range starts at the latest block, so an aggregation
      request can exist too early. It passes validation when created exactly if that range does. */
  lemma AggValidAtCreationIff(c: Config, s: State)
    requires TableOk(c, s) && AggTarget(c, s).Some?
    ensures Tiled(s.rows, s.latest, AggTarget(c, s).value) <==> Completed(s)[0].lo == s.latest
  {
    var end := AggTarget(c, s).value;
    var spans := Completed(s);
    CompletedShape(c, s);
    HighestContiguousMeaning(c, s);
    AggTargetShape(c, s);
    ValidationMeansProven(c, s, s.latest, end);
    assert spans[0] in spans && Holds(spans[0], spans[0].lo);
    hide TableOk, Tiled, Completed, AggTarget, NonEmpty;
    if Tiled(s.rows, s.latest, end) {
      assert Proven(s.rows, s.latest, end, s.latest);
      CompletedCovers(s, s.latest);
      var sp :| sp in spans && Holds(sp, s.latest);
      var i :| 0 <= i < |spans| && spans[i] == sp;
      FirstIsLowest(spans, i);
    }
    if spans[0].lo == s.latest {
      CompletedCovers(s, end);
      forall b | s.latest <= b < end ensures Proven(s.rows, s.latest, end, b) {
        CompletedCovers(s, b);
        var r :| r in s.rows && Matches(CompletedRanges(s.latest), r) && InRequest(r, b);
        assert !InRequest(r, end);
      }
    }
  }
}
