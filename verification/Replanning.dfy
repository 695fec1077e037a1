/** What a run plans again after failures: how long a range request can be, when failed blocks come back as
    one request, and that nothing bounds how often they do. */
module Replanning {
  import opened Requests
  import opened BlockSpans
  import opened RequestTable
  import opened ProposerModel
  import opened ProposerInvariant
  import opened ProposerSteps
  import opened ProposerRuns
  import opened RangePlanning
  import opened AppendedRows
  import opened SplitLineage

  // ---------------------------------------------------------------- no range exceeds the interval

  ghost predicate ShortRanges(c: Config, rows: seq<Request>) {
    forall r :: r in rows && r.reqType == Range ==> r.endBlock - r.startBlock <= c.rangeProofInterval
  }

  lemma MovedStaysShort(c: Config, rows: seq<Request>, mid: seq<Request>)
    requires Moved(c, rows, mid) && ShortRanges(c, rows)
    ensures ShortRanges(c, mid)
  {
    if mid != rows { var k := MovedMember(c, rows, mid); }
  }

  lemma StampedShort(c: Config, spans: seq<Span>, nextId: nat)
    requires forall sp :: sp in spans ==> sp.lo <= sp.hi && sp.hi - sp.lo <= c.rangeProofInterval
    ensures ShortRanges(c, Stamp(NewRanges(spans), nextId))
  {
    var rows := Stamp(NewRanges(spans), nextId);
    forall r | r in rows ensures r.endBlock - r.startBlock <= c.rangeProofInterval {
      var i :| 0 <= i < |rows| && rows[i] == r;
      assert spans[i] in spans;
    }
  }

  lemma AddedShort(c: Config, s: State, e: Event)
    requires Inv(c, s) && ShortRanges(c, s.rows)
    ensures ShortRanges(c, Added(c, s, e))
  {
    hide ShortRanges, Apply, Added, SplitBy, Splits;
    if SplitBy(c, s, e).Some? {
      var r := SplitAdds(c, s, e);
      HalvesShort(c, s.rows, r);
      StampedShort(c, Halves(r.startBlock, r.endBlock), s.nextId);
    } else {
      OthersAdd(c, s, e);
      if e.AddNewRanges? {
        ChunksShort(c, s, e.finalized);
        StampedShort(c, NewChunks(c, s, e.finalized), s.nextId);
      } else {
        AggsShort(c, Added(c, s, e));
      }
    }
  }

  lemma AggsShort(c: Config, rows: seq<Request>)
    requires forall r :: r in rows ==> r.reqType == Aggregation
    ensures ShortRanges(c, rows)
  {
  }

  lemma HalvesShort(c: Config, rows: seq<Request>, r: Request)
    requires ShortRanges(c, rows) && r in rows && r.reqType == Range && r.endBlock > r.startBlock + 1
    ensures forall sp :: sp in Halves(r.startBlock, r.endBlock) ==>
      sp.lo <= sp.hi && sp.hi - sp.lo <= c.rangeProofInterval
  {
  }

  lemma ChunksShort(c: Config, s: State, finalized: nat)
    requires Inv(c, s)
    ensures forall sp :: sp in NewChunks(c, s, finalized) ==> sp.lo <= sp.hi && sp.hi - sp.lo <= c.rangeProofInterval
  {
    AllChunksShape(c, s, finalized);
    assert forall sp :: sp in NewChunks(c, s, finalized) ==> sp in AllChunks(c, s, finalized);
    hide Inv, NewChunks, AllChunks;
  }

  lemma StepStaysShort(c: Config, s: State, e: Event)
    requires Inv(c, s) && ShortRanges(c, s.rows)
    ensures ShortRanges(c, Apply(c, s, e).rows)
  {
    if e == Restart {
      forall r | r in Apply(c, s, e).rows ensures r in s.rows { SelectMember(s.rows, StatusNotIn(UNRECOVERABLE), r); }
    } else {
      var mid := EventAdds(c, s, e);
      hide Apply, Added, Moved;
      MovedStaysShort(c, s.rows, mid);
      AddedShort(c, s, e);
    }
  }

  /** Over any run no range request is longer than the proof interval. */
  lemma {:induction false} RangesStayShort(c: Config, s: State, es: seq<Event>)
    requires Inv(c, s) && ShortRanges(c, s.rows)
    ensures ShortRanges(c, ApplyAll(c, s, es).rows)
    decreases |es|
  {
    if es != [] {
      StepStaysShort(c, s, es[0]);
      StepKeepsInv(c, s, es[0]);
      hide Inv, ShortRanges, Apply;
      RangesStayShort(c, Apply(c, s, es[0]), es[1..]);
    }
  }

  // ---------------------------------------------------------------- when failed blocks come back whole

  /** The span is a cell of the grid that cuts the gap from its left end. */
  predicate InGrid(g: Span, interval: pos, sp: Span) {
    g.lo <= sp.lo < g.hi && (sp.lo - g.lo) % interval == 0 && sp.hi == Min(sp.lo + interval, g.hi)
  }

  lemma MulBounds(n: int, k: int)
    requires n > 0
    ensures k > 0 ==> n * k >= n
    ensures k < 0 ==> n * k <= -n
  {
  }

  lemma ModUnique(x: int, n: int, q: int, r: int)
    requires n > 0 && x == n * q + r && 0 <= r < n
    ensures x % n == r
  {
    assert n * (q - x / n) == x % n - r;
    MulBounds(n, q - x / n);
  }

  lemma ModStep(a: int, n: int)
    requires n > 0
    ensures (a + n) % n == a % n
  {
    assert n * (a / n + 1) == n * (a / n) + n;
    ModUnique(a + n, n, a / n + 1, a % n);
  }

  lemma SmallMod(a: int, n: int)
    requires 0 < a < n
    ensures a % n != 0
  {
  }

  lemma {:induction false} ChopCells(start: nat, end: nat, interval: pos, sp: Span)
    ensures sp in Chop(start, end, interval) <==> InGrid(Span(start, end), interval, sp)
    decreases end - start
  {
    if start < end {
      var stop := Min(start + interval, end);
      ChopCells(stop, end, interval, sp);
      if sp.lo >= start + interval {
        ModStep(sp.lo - start - interval, interval);
      } else if start < sp.lo {
        SmallMod(sp.lo - start, interval);
      }
    }
  }

  lemma {:induction false} ChopAllCells(gaps: seq<Span>, interval: pos, sp: Span)
    ensures sp in ChopAll(gaps, interval) <==> exists g :: g in gaps && InGrid(g, interval, sp)
  {
    if gaps != [] {
      ChopAllCells(gaps[1..], interval, sp);
      ChopCells(gaps[0].lo, gaps[0].hi, interval, sp);
      assert gaps[0] in gaps && forall g :: g in gaps[1..] ==> g in gaps;
      assert gaps == [gaps[0]] + gaps[1..];
    }
  }

  lemma LastIsNotEarlier(chunks: seq<Span>, sp: Span)
    requires chunks != [] && Ordered(chunks) && NonEmpty(chunks)
    ensures sp in chunks[..|chunks| - 1] <==> sp in chunks && sp != chunks[|chunks| - 1]
  {
    var init, last := chunks[..|chunks| - 1], chunks[|chunks| - 1];
    assert chunks == init + [last];
    assert last in chunks;
    forall i | 0 <= i < |init| ensures init[i] != last {
      assert init[i] == chunks[i] && chunks[i] in chunks;
    }
  }

  /** Some blocks are requested as one chunk if and only if they are a cell of the grid of a gap between the
      active requests, and not the short chunk that is dropped. The failed range of a split comes back
      whole when this holds of it. */
  lemma ComesBackIff(c: Config, s: State, finalized: nat, sp: Span)
    requires Inv(c, s)
    ensures sp in NewChunks(c, s, finalized)
       <==> (exists g :: g in Gaps(s.latest, finalized, Planned(s)) && InGrid(g, c.rangeProofInterval, sp))
            && Hole(c, s, finalized) != Some(sp)
  {
    AllChunksShape(c, s, finalized);
    var gaps, all := Gaps(s.latest, finalized, Planned(s)), AllChunks(c, s, finalized);
    ChopAllCells(gaps, c.rangeProofInterval, sp);
    if all != [] { LastIsNotEarlier(all, sp); }
    hide Inv, InGrid, Gaps, ChopAll, Planned;
  }

  // ---------------------------------------------------------------- when the hole is filled

  lemma {:induction false} ReachMax(a: nat, b: nat, ranges: seq<Span>)
    ensures Reach(Max(a, b), ranges) == Max(a, Reach(b, ranges))
  {
    if ranges != [] { ReachMax(a, b, ranges[1..]); }
  }

  /** Only the gap behind the last range depends on the end. */
  lemma {:induction false} GapsUpTo(cur: nat, end: nat, ranges: seq<Span>)
    ensures Gaps(cur, end, ranges) == Gaps(cur, 0, ranges)
              + (if Reach(cur, ranges) < end then [Span(Reach(cur, ranges), end)] else [])
    decreases |ranges|
  {
    if ranges != [] {
      var r, rest := ranges[0], ranges[1..];
      GapsUpTo(Max(r.hi, cur), end, rest);
      ReachMax(r.hi, cur, rest);
      var behind := Reach(cur, ranges);
      Regroup(if cur < r.lo then [Span(cur, r.lo)] else [], Gaps(Max(r.hi, cur), 0, rest),
              if behind < end then [Span(behind, end)] else []);
    }
  }

  lemma {:induction false} ChopAllConcat(a: seq<Span>, b: seq<Span>, interval: pos)
    ensures ChopAll(a + b, interval) == ChopAll(a, interval) + ChopAll(b, interval)
  {
    if a == [] {
      assert a + b == b;
    } else {
      assert (a + b)[1..] == a[1..] + b && (a + b)[0] == a[0];
      ChopAllConcat(a[1..], b, interval);
      hide Chop;
      Regroup(Chop(a[0].lo, a[0].hi, interval), ChopAll(a[1..], interval), ChopAll(b, interval));
    }
  }

  lemma {:induction false} LastChopEnds(start: nat, end: nat, interval: pos)
    requires start < end
    ensures var chunks := Chop(start, end, interval); chunks != [] && chunks[|chunks| - 1].hi == end
    decreases end - start
  {
    var stop := Min(start + interval, end);
    if stop < end { LastChopEnds(stop, end, interval); }
  }

  /** The end of the last active range, or the latest block. */
  function LastEnd(s: State): nat { Reach(s.latest, Planned(s)) }

  /** Beyond the last active range the chunks run up to the finalized block; up to there it has no effect. */
  lemma ChunksUpTo(c: Config, s: State, finalized: nat)
    ensures var inner, all := AllChunks(c, s, 0), AllChunks(c, s, finalized);
            if LastEnd(s) < finalized
            then inner <= all && |inner| < |all| && all[|all| - 1].hi == finalized
            else all == inner
  {
    GapsUpTo(s.latest, finalized, Planned(s));
    GapsUpTo(s.latest, 0, Planned(s));
    var inner := Gaps(s.latest, 0, Planned(s));
    Regroup(inner, [], []);
    if LastEnd(s) < finalized {
      var gap := Span(LastEnd(s), finalized);
      hide Gaps, Reach, Planned, Chop;
      ChopAllConcat(inner, [gap], c.rangeProofInterval);
      assert [gap][1..] == [];
      assert ChopAll([gap], c.rangeProofInterval) == Chop(gap.lo, gap.hi, c.rangeProofInterval) + [];
      LastChopEnds(gap.lo, gap.hi, c.rangeProofInterval);
    }
  }

  lemma TipAboveLast(s: State, finalized: nat)
    ensures if finalized < LastEnd(s) && s.latest <= Tip(s, finalized)
            then Tip(s, finalized) == LastEnd(s) else finalized >= LastEnd(s) ==> Tip(s, finalized) == finalized
  {
    ReachBounds(finalized, Planned(s));
    ReachBounds(s.latest, Planned(s));
    hide Planned, Reach;
    ReachAtMost(finalized, Planned(s), Max(finalized, LastEnd(s)));
    if s.latest <= Tip(s, finalized) { ReachAtMost(s.latest, Planned(s), Tip(s, finalized)); }
  }

  /** A hole that is not at the tip lies below the last active range. */
  lemma InteriorTip(c: Config, s: State, finalized: nat)
    requires Inv(c, s) && Hole(c, s, finalized).Some? && Hole(c, s, finalized).value.hi < Tip(s, finalized)
    ensures finalized <= LastEnd(s) == Tip(s, finalized)
  {
    HoleIsShort(c, s, finalized);
    ChunksUpTo(c, s, finalized);
    hide Inv, AllChunks, Tip, LastEnd;
    TipAboveLast(s, finalized);
  }

  /** A hole below an active request is dropped for every finalized block up to the tip, and requested for
      every one beyond it. */
  lemma HoleIsFilledIff(c: Config, s: State, finalized: nat, later: nat)
    requires Inv(c, s) && Hole(c, s, finalized).Some? && Hole(c, s, finalized).value.hi < Tip(s, finalized)
    ensures Hole(c, s, finalized).value in NewChunks(c, s, later) <==> later > Tip(s, finalized)
    ensures later <= Tip(s, finalized) ==> NewChunks(c, s, later) == NewChunks(c, s, finalized)
  {
    InteriorTip(c, s, finalized);
    ChunksUpTo(c, s, finalized);
    ChunksUpTo(c, s, later);
    AllChunksShape(c, s, finalized);
    AllChunksShape(c, s, later);
    var h, all, more := Hole(c, s, finalized).value, AllChunks(c, s, finalized), AllChunks(c, s, later);
    assert h == all[|all| - 1] && h in all;
    LastIsNotEarlier(all, h);
    if later > Tip(s, finalized) {
      hide Inv, AllChunks, Tip, LastEnd, Ordered;
      assert h == more[|all| - 1] && h in more;
      LastIsNotEarlier(more, h);
    }
  }

  lemma HoleAgain(c: Config, s: State, finalized: nat)
    requires Inv(c, s) && Hole(c, s, finalized).Some?
    ensures var s' := Apply(c, s, AddNewRanges(finalized));
            NewChunks(c, s', finalized) == [] && Hole(c, s', finalized) == Hole(c, s, finalized)
  {
    var h := Hole(c, s, finalized).value;
    GapsAfterAdding(c, s, finalized);
    HoleIsShort(c, s, finalized);
    hide Inv, Apply, Gaps, Planned, ChopAll;
    ShortGapIsDropped(h, c.rangeProofInterval);
  }

  /** So after `add_new_ranges` has left such a hole, and nothing else changes, further runs of it insert
      nothing until the finalized block has passed the tip; the first run after that requests the hole. */
  lemma HoleWaits(c: Config, s: State, finalized: nat, later: nat)
    requires Inv(c, s) && Hole(c, s, finalized).Some? && Hole(c, s, finalized).value.hi < Tip(s, finalized)
    ensures var s' := Apply(c, s, AddNewRanges(finalized));
            && (later <= Tip(s, finalized) ==> Apply(c, s', AddNewRanges(later)) == s')
            && (Hole(c, s, finalized).value in NewChunks(c, s', later) <==> later > Tip(s, finalized))
  {
    hide *;
    var s' := Apply(c, s, AddNewRanges(finalized));
    HoleAgain(c, s, finalized);
    TipUnmoved(c, s, finalized);
    StepKeepsInv(c, s, AddNewRanges(finalized));
    HoleIsFilledIff(c, s', finalized, later);
    if later <= Tip(s, finalized) { NothingToAdd(c, s', later); }
  }

  // ---------------------------------------------------------------- no bound over a run

  lemma {:induction false} SplitLogConcat(c: Config, s: State, a: seq<Event>, b: seq<Event>)
    ensures SplitLog(c, s, a + b) == SplitLog(c, s, a) + SplitLog(c, ApplyAll(c, s, a), b)
    decreases |a|
  {
    hide Apply, SplitBy;
    if a == [] {
      assert a + b == b && [] + SplitLog(c, s, b) == SplitLog(c, s, b);
    } else {
      assert (a + b)[1..] == a[1..] + b && (a + b)[0] == a[0];
      var s' := Apply(c, s, a[0]);
      SplitLogConcat(c, s', a[1..], b);
      Regroup(Log(SplitBy(c, s, a[0])), SplitLog(c, s', a[1..]), SplitLog(c, ApplyAll(c, s', a[1..]), b));
    }
  }

  function RetryConfig(): Config { Config(2, 100, 100, 5, 5, false, false, 0) }

  /** Everything has failed, and no task is left. */
  ghost predicate Idle(s: State) {
    && Inv(RetryConfig(), s) && s.latest == 0 && s.tasks == map[]
    && forall r :: r in s.rows ==> r.status == Failed
  }

  lemma NoneActive(s: State)
    requires Idle(s)
    ensures Planned(s) == []
  {
    hide Inv;
    SelectNone(s.rows, RangesAfterBlock(ACTIVE, 0));
    assert OrderByStart([]) == [];
  }

  /** Both blocks are planned as one range, whatever became of them before. */
  lemma PlannedWhole(s: State)
    requires Idle(s)
    ensures NewChunks(RetryConfig(), s, 2) == [Span(0, 2)]
  {
    NoneActive(s);
    hide Inv, Planned;
    var gap := Span(0, 2);
    assert Gaps(0, 2, []) == [gap];
    assert Chop(0, 2, 2) == [gap] + Chop(2, 2, 2);
    assert [gap][1..] == [];
    assert ChopAll([gap], 2) == [gap] + ChopAll([], 2);
  }

  lemma UpdateLast(rows: seq<Request>, q: Request, change: Change)
    requires forall r :: r in rows ==> r.id != q.id
    ensures Update(rows + [q], q.id, change) == rows + [ApplyChange(q, change)]
  {
  }

  /** The row of the two blocks, in the statuses it goes through. */
  function Whole(id: nat): Request { Request(id, Unrequested, Range, 0, 2, None, None, None) }

  function Proving0(id: nat): Request { Request(id, Prove, Range, 0, 2, Some(0), None, None) }

  /** The rows while the two blocks are being worked on. */
  function With(s: State, q: Request, tasks: map<nat, Task>): State {
    s.(rows := s.rows + [q], nextId := s.nextId + 1, tasks := tasks)
  }

  lemma PlanStep(s: State)
    requires Idle(s)
    ensures Apply(RetryConfig(), s, AddNewRanges(2)) == With(s, Whole(s.nextId), map[])
    ensures SplitBy(RetryConfig(), s, AddNewRanges(2)) == None
  {
    PlannedWhole(s);
    hide Inv, NewChunks;
    assert Stamp(NewRanges([Span(0, 2)]), s.nextId) == [Whole(s.nextId)];
  }

  lemma StartReady(s: State)
    requires Idle(s)
    ensures var s1 := With(s, Whole(s.nextId), map[]);
            HasCapacity(RetryConfig(), s1.rows) && NextUnrequested(s1) == Some(Whole(s.nextId))
  {
    hide Inv, SelectOrdered, Select;
    var q := Whole(s.nextId);
    var s1 := With(s, q, map[]);
    assert forall r :: r in s1.rows ==> r in s.rows || r == q;
    assert q in s1.rows && Matches(UnrequestedRange(0), q);
    SelectNone(s1.rows, WithStatus(WitnessGeneration));
    SelectNone(s1.rows, WithStatus(Execution));
    SelectNone(s1.rows, WithStatus(Prove));
    FirstIsLeast(s1.rows, UnrequestedAgg(0));
    FirstIsLeast(s1.rows, UnrequestedRange(0));
  }

  lemma StartStep(s: State)
    requires Idle(s)
    ensures var q := Whole(s.nextId);
            Apply(RetryConfig(), With(s, q, map[]), StartNext)
            == With(s, q.(status := WitnessGeneration), map[s.nextId := Task(q, Witnessing)])
  {
    OlderIds(s);
    StartReady(s);
    hide Inv, HasCapacity, NextUnrequested;
    UpdateLast(s.rows, Whole(s.nextId), ToStatus(WitnessGeneration));
  }

  lemma OlderIds(s: State)
    requires Idle(s)
    ensures forall r :: r in s.rows ==> r.id != s.nextId
  {
  }

  lemma ProveStep(s: State)
    requires Idle(s)
    ensures var n, q := s.nextId, Whole(s.nextId);
            Apply(RetryConfig(), With(s, q.(status := WitnessGeneration), map[n := Task(q, Witnessing)]),
              TaskRequestsProof(n, 0))
            == With(s, Proving0(n), map[n := Task(q, Finished(true))])
  {
    OlderIds(s);
    hide Inv;
    UpdateLast(s.rows, Whole(s.nextId).(status := WitnessGeneration), ToProve(0));
  }

  lemma FailStep(s: State, tasks: map<nat, Task>)
    requires Idle(s)
    ensures var n, s3 := s.nextId, With(s, Proving0(s.nextId), tasks);
            && Apply(RetryConfig(), s3, ProofFails(Proving0(n), true, NoFault))
               == InsertRanges(With(s, Proving0(n).(status := Failed), tasks), [Span(0, 1), Span(1, 2)])
            && SplitBy(RetryConfig(), s3, ProofFails(Proving0(n), true, NoFault)) == Some(Split(n, n + 1, 0, 2))
  {
    OlderIds(s);
    hide Inv, Count;
    var q := Proving0(s.nextId);
    UpdateLast(s.rows, q, ToStatus(Failed));
    assert q in s.rows + [q];
  }

  /** A restart deletes the unrequested rows behind the failed ones. */
  lemma KeepsFailed(kept: seq<Request>, dropped: seq<Request>)
    requires forall r :: r in kept ==> r.status == Failed
    requires forall i :: 0 <= i < |dropped| ==> dropped[i].status == Unrequested
    ensures Select(kept + dropped, StatusNotIn(UNRECOVERABLE)) == kept
  {
    var w := StatusNotIn(UNRECOVERABLE);
    SelectConcat(kept, dropped, w);
    SelectAll(kept, w);
    SelectNone(dropped, w);
  }

  lemma RestartStep(s: State, tasks: map<nat, Task>)
    requires Idle(s)
    ensures var failed := Proving0(s.nextId).(status := Failed);
            var s' := Apply(RetryConfig(), InsertRanges(With(s, failed, tasks), [Span(0, 1), Span(1, 2)]), Restart);
            s'.rows == s.rows + [failed] && s'.latest == 0 && s'.tasks == map[]
  {
    var kept, halves := s.rows + [Proving0(s.nextId).(status := Failed)], [Span(0, 1), Span(1, 2)];
    hide Inv, Select;
    KeepsFailed(kept, Stamp(NewRanges(halves), s.nextId + 1));
  }

  /** One round: both blocks are requested together, found unexecutable and split; a restart deletes the
      halves, and everything has failed again. */
  lemma Round(s: State) returns (es: seq<Event>)
    requires Idle(s)
    ensures Idle(ApplyAll(RetryConfig(), s, es))
    ensures SplitLog(RetryConfig(), s, es) == [Split(s.nextId, s.nextId + 1, 0, 2)]
  {
    var c, n, q := RetryConfig(), s.nextId, Whole(s.nextId);
    var tasks := map[n := Task(q, Finished(true))];
    var fails := ProofFails(Proving0(n), true, NoFault);
    es := [AddNewRanges(2), StartNext, TaskRequestsProof(n, 0), fails, Restart];
    RunKeepsInv(c, s, es);
    PlanStep(s);
    StartStep(s);
    ProveStep(s);
    FailStep(s, tasks);
    RestartStep(s, tasks);
    RoundStates(s, es);
    hide Inv, Apply, ApplyAll, SplitBy, SplitLog;
  }

  /** The states of the round, and its splits. */
  lemma RoundStates(s: State, es: seq<Event>)
    requires Idle(s)
    requires var n := s.nextId;
             es == [AddNewRanges(2), StartNext, TaskRequestsProof(n, 0), ProofFails(Proving0(n), true, NoFault),
               Restart]
    ensures var n, q := s.nextId, Whole(s.nextId);
            var failed := With(s, Proving0(n).(status := Failed), map[n := Task(q, Finished(true))]);
            ApplyAll(RetryConfig(), s, es)
              == Apply(RetryConfig(), InsertRanges(failed, [Span(0, 1), Span(1, 2)]), Restart)
    ensures SplitLog(RetryConfig(), s, es) == [Split(s.nextId, s.nextId + 1, 0, 2)]
  {
    var c, n, q := RetryConfig(), s.nextId, Whole(s.nextId);
    var witnessing, finished := map[n := Task(q, Witnessing)], map[n := Task(q, Finished(true))];
    PlanStep(s);
    StartStep(s);
    ProveStep(s);
    FailStep(s, finished);
    var s2, s3 := With(s, q.(status := WitnessGeneration), witnessing), With(s, Proving0(n), finished);
    hide Idle, Apply, SplitBy, With, InsertRanges, ApplyAll, SplitLog, Halves;
    FiveSteps(c, s, With(s, q, map[]), s2, s3, es);
    NothingElseSplits(c, n);
  }

  lemma FiveSteps(c: Config, s: State, s1: State, s2: State, s3: State, es: seq<Event>)
    requires |es| == 5 && Apply(c, s, es[0]) == s1 && Apply(c, s1, es[1]) == s2 && Apply(c, s2, es[2]) == s3
    ensures ApplyAll(c, s, es) == Apply(c, Apply(c, s3, es[3]), es[4])
    ensures SplitLog(c, s, es) == Log(SplitBy(c, s, es[0])) + (Log(SplitBy(c, s1, es[1])) + (Log(SplitBy(c, s2, es[2]))
                                  + (Log(SplitBy(c, s3, es[3])) + Log(SplitBy(c, Apply(c, s3, es[3]), es[4])))))
  {
    hide Apply, SplitBy;
    var s4 := Apply(c, s3, es[3]);
    Unroll(c, s, es, 0);
    UnrollSplits(c, s, es, 0);
    Unroll(c, s1, es, 1);
    UnrollSplits(c, s1, es, 1);
    Unroll(c, s2, es, 2);
    UnrollSplits(c, s2, es, 2);
    Unroll(c, s3, es, 3);
    UnrollSplits(c, s3, es, 3);
    Unroll(c, s4, es, 4);
    UnrollSplits(c, s4, es, 4);
    hide ApplyAll, SplitLog;
    assert es[0..] == es;
    assert Log(SplitBy(c, s4, es[4])) + [] == Log(SplitBy(c, s4, es[4]));
  }

  lemma UnrollSplits(c: Config, s: State, es: seq<Event>, i: nat)
    requires i < |es|
    ensures SplitLog(c, s, es[i..]) == Log(SplitBy(c, s, es[i])) + SplitLog(c, Apply(c, s, es[i]), es[i + 1..])
    ensures i + 1 == |es| ==> SplitLog(c, Apply(c, s, es[i]), es[i + 1..]) == []
  {
    hide Apply, SplitBy;
    assert es[i..][1..] == es[i + 1..];
  }

  lemma NothingElseSplits(c: Config, n: nat)
    ensures forall t :: SplitBy(c, t, AddNewRanges(2)) == None && SplitBy(c, t, StartNext) == None
                        && SplitBy(c, t, TaskRequestsProof(n, 0)) == None && SplitBy(c, t, Restart) == None
  {
  }

  /** Nothing bounds how often the same blocks are requested whole and split over a run: for every n there
      is a run from an empty table with n splits of the range [0, 2). */
  lemma {:induction false} SplitsRecur(n: nat) returns (es: seq<Event>)
    ensures |SplitLog(RetryConfig(), Fresh(RetryConfig()), es)| == n
    ensures forall x :: x in SplitLog(RetryConfig(), Fresh(RetryConfig()), es) ==> x.start == 0 && x.end == 2
    ensures Idle(ApplyAll(RetryConfig(), Fresh(RetryConfig()), es))
  {
    var c := RetryConfig();
    if n == 0 {
      es := [];
    } else {
      hide Idle, Apply, SplitBy, Fresh;
      var before := SplitsRecur(n - 1);
      var more := Round(ApplyAll(c, Fresh(c), before));
      ApplyAllConcat(c, Fresh(c), before, more);
      SplitLogConcat(c, Fresh(c), before, more);
      es := before + more;
    }
  }
}
