/** Block-range arithmetic of op-succinct/validity/src/utils.rs: the gaps that a list of sub-ranges
    leaves in an overall range, and the proof-sized chunks cut from those gaps. */
module BlockSpans {

  /** The half-open block range [lo, hi). */
  datatype Span = Span(lo: nat, hi: nat)

  function Max(a: nat, b: nat): nat { if a < b then b else a }

  function Min(a: nat, b: nat): nat { if a < b then a else b }

  predicate Holds(sp: Span, b: nat) { sp.lo <= b < sp.hi }

  /** Block `b` lies in one of the spans. */
  ghost predicate Covers(spans: seq<Span>, b: nat) {
    exists sp :: sp in spans && Holds(sp, b)
  }

  ghost predicate NonEmpty(spans: seq<Span>) {
    forall sp :: sp in spans ==> sp.lo < sp.hi
  }

  ghost predicate SortedByLo(spans: seq<Span>) {
    forall i, j :: 0 <= i < j < |spans| ==> spans[i].lo <= spans[j].lo
  }

  /** In order, and no two spans share a block. */
  ghost predicate Ordered(spans: seq<Span>) {
    forall i, j :: 0 <= i < j < |spans| ==> spans[i].hi <= spans[j].lo
  }

  /** In order, with at least one block between any two spans. */
  ghost predicate Separated(spans: seq<Span>) {
    forall i, j :: 0 <= i < j < |spans| ==> spans[i].hi < spans[j].lo
  }

  // ---------------------------------------------------------------- specification functions

  /** What `find_gaps` returns once it has reached block `cur` with `ranges` still to visit. */
  function Gaps(cur: nat, end: nat, ranges: seq<Span>): seq<Span>
    decreases |ranges|
  {
    if ranges == [] then
      if cur < end then [Span(cur, end)] else []
    else
      (if cur < ranges[0].lo then [Span(cur, ranges[0].lo)] else [])
      + Gaps(Max(ranges[0].hi, cur), end, ranges[1..])
  }

  /** One gap cut into pieces of `interval` blocks, the last one possibly shorter. */
  function Chop(start: nat, end: nat, interval: nat): seq<Span>
    requires interval > 0
    decreases end - start
  {
    if start >= end then []
    else
      var stop := Min(start + interval, end);
      [Span(start, stop)] + Chop(stop, end, interval)
  }

  function ChopAll(gaps: seq<Span>, interval: nat): seq<Span>
    requires interval > 0
  {
    if gaps == [] then [] else Chop(gaps[0].lo, gaps[0].hi, interval) + ChopAll(gaps[1..], interval)
  }

  predicate LastIsShort(chunks: seq<Span>, interval: nat) {
    chunks != [] && chunks[|chunks| - 1].hi - chunks[|chunks| - 1].lo < interval
  }

  function DropShortLast(chunks: seq<Span>, interval: nat): seq<Span> {
    if LastIsShort(chunks, interval) then chunks[..|chunks| - 1] else chunks
  }

  /** What `get_ranges_to_prove` returns. */
  function RangesToProve(gaps: seq<Span>, interval: nat): seq<Span>
    requires interval > 0
  {
    DropShortLast(ChopAll(gaps, interval), interval)
  }

  /** The highest block boundary a gap can reach. */
  function Reach(end: nat, ranges: seq<Span>): nat {
    if ranges == [] then end else Max(ranges[0].hi, Reach(end, ranges[1..]))
  }

  // ---------------------------------------------------------------- the loops

  lemma Regroup<T>(a: seq<T>, b: seq<T>, c: seq<T>)
    ensures (a + b) + c == a + (b + c) && a + [] == a && [] + a == a
  {
  }

  /** The first sub-range is visited. */
  lemma GapsStep(cur: nat, end: nat, ranges: seq<Span>, i: nat)
    requires i < |ranges|
    ensures Gaps(cur, end, ranges[i..]) ==
      (if cur < ranges[i].lo then [Span(cur, ranges[i].lo)] else [])
      + Gaps(Max(ranges[i].hi, cur), end, ranges[i + 1..])
  {
    assert ranges[i..][1..] == ranges[i + 1..];
  }

  method FindGaps(overallStart: nat, overallEnd: nat, ranges: seq<Span>) returns (gaps: seq<Span>)
    ensures gaps == Gaps(overallStart, overallEnd, ranges)
  {
    gaps := [];
    var currentStart: nat := overallStart;
    var i := 0;
    assert ranges[0..] == ranges;
    Regroup(Gaps(overallStart, overallEnd, ranges), [], []);
    while i < |ranges|
      invariant 0 <= i <= |ranges|
      invariant gaps + Gaps(currentStart, overallEnd, ranges[i..]) == Gaps(overallStart, overallEnd, ranges)
    {
      hide Gaps;
      GapsStep(currentStart, overallEnd, ranges, i);
      Regroup(gaps, if currentStart < ranges[i].lo then [Span(currentStart, ranges[i].lo)] else [],
              Gaps(Max(ranges[i].hi, currentStart), overallEnd, ranges[i + 1..]));
      Regroup(gaps, [], []);
      if currentStart < ranges[i].lo {
        gaps := gaps + [Span(currentStart, ranges[i].lo)];
      }
      currentStart := Max(ranges[i].hi, currentStart);
      i := i + 1;
    }
    assert ranges[i..] == [];
    if currentStart < overallEnd {
      gaps := gaps + [Span(currentStart, overallEnd)];
    }
  }

  /** One gap cut into chunks, behind those there already. With an interval of 0 the loop ends only on an
      empty gap. */
  method ChopOne(chunks: seq<Span>, start: nat, end: nat, interval: nat) returns (ranges: seq<Span>)
    requires interval > 0 || start >= end
    ensures ranges == if interval > 0 then chunks + Chop(start, end, interval) else chunks
  {
    ranges := chunks;
    var currentStart: nat := start;
    while currentStart < end
      invariant interval == 0 ==> ranges == chunks && currentStart == start
      invariant interval > 0 ==> ranges + Chop(currentStart, end, interval) == chunks + Chop(start, end, interval)
      decreases end - currentStart
    {
      var currentEnd := Min(currentStart + interval, end);
      ChopStep(currentStart, end, interval);
      hide Chop;
      Regroup(ranges, [Span(currentStart, currentEnd)], Chop(currentEnd, end, interval));
      ranges := ranges + [Span(currentStart, currentEnd)];
      currentStart := currentEnd;
    }
    Regroup(ranges, [], []);
  }

  lemma ChopStep(start: nat, end: nat, interval: nat)
    requires interval > 0 && start < end
    ensures Chop(start, end, interval)
      == [Span(start, Min(start + interval, end))] + Chop(Min(start + interval, end), end, interval)
  {
  }

  lemma ChopAllStep(gaps: seq<Span>, i: nat, interval: nat)
    requires interval > 0 && i < |gaps|
    ensures ChopAll(gaps[i..], interval) == Chop(gaps[i].lo, gaps[i].hi, interval) + ChopAll(gaps[i + 1..], interval)
  {
    assert gaps[i..][1..] == gaps[i + 1..];
  }

  /** `get_ranges_to_prove`. With an interval of 0 it ends only if no gap holds a block. */
  method GetRangesToProve(disjointRanges: seq<Span>, rangeProofInterval: nat) returns (ranges: seq<Span>)
    requires rangeProofInterval > 0 || forall g :: g in disjointRanges ==> g.lo >= g.hi
    ensures ranges == if rangeProofInterval > 0 then RangesToProve(disjointRanges, rangeProofInterval) else []
  {
    ranges := [];
    var i := 0;
    assert disjointRanges[0..] == disjointRanges;
    if rangeProofInterval > 0 { Regroup(ChopAll(disjointRanges, rangeProofInterval), [], []); }
    while i < |disjointRanges|
      invariant 0 <= i <= |disjointRanges|
      invariant rangeProofInterval == 0 ==> ranges == []
      invariant rangeProofInterval > 0 ==>
        ranges + ChopAll(disjointRanges[i..], rangeProofInterval) == ChopAll(disjointRanges, rangeProofInterval)
    {
      hide Chop, ChopAll;
      var gap := disjointRanges[i];
      if rangeProofInterval > 0 {
        ChopAllStep(disjointRanges, i, rangeProofInterval);
        Regroup(ranges, Chop(gap.lo, gap.hi, rangeProofInterval), ChopAll(disjointRanges[i + 1..], rangeProofInterval));
      }
      ranges := ChopOne(ranges, gap.lo, gap.hi, rangeProofInterval);
      i := i + 1;
    }
    assert disjointRanges[i..] == [];
    Regroup(ranges, [], []);
    if |ranges| > 0 {
      var last := ranges[|ranges| - 1];
      if last.hi - last.lo < rangeProofInterval {
        ranges := ranges[..|ranges| - 1];
      }
    }
  }

  // ---------------------------------------------------------------- coverage

  lemma CoversConcat(a: seq<Span>, b: seq<Span>, block: nat)
    ensures Covers(a + b, block) <==> Covers(a, block) || Covers(b, block)
  {
    if Covers(a, block) {
      var sp :| sp in a && Holds(sp, block);
      assert sp in a + b;
    }
    if Covers(b, block) {
      var sp :| sp in b && Holds(sp, block);
      assert sp in a + b;
    }
  }

  lemma CoversOne(sp: Span, block: nat)
    ensures Covers([sp], block) <==> Holds(sp, block)
  {
    assert sp in [sp];
  }

  lemma ReachBounds(end: nat, ranges: seq<Span>)
    ensures Reach(end, ranges) >= end
    ensures forall sp :: sp in ranges ==> sp.hi <= Reach(end, ranges)
    ensures (forall sp :: sp in ranges ==> sp.hi <= end) ==> Reach(end, ranges) == end
  {
    if ranges != [] {
      ReachBounds(end, ranges[1..]);
    }
  }

  lemma StartsAtLowest(ranges: seq<Span>, b: nat)
    requires ranges != [] && SortedByLo(ranges)
    ensures Covers(ranges, b) ==> ranges[0].lo <= b
  {
  }

  /** The gaps hold exactly the blocks from `cur` up to the reach that no sub-range holds. */
  lemma {:induction false} GapsPoints(cur: nat, end: nat, ranges: seq<Span>, b: nat)
    requires NonEmpty(ranges) && SortedByLo(ranges)
    ensures Covers(Gaps(cur, end, ranges), b)
       <==> cur <= b < Reach(end, ranges) && !Covers(ranges, b)
    decreases |ranges|
  {
    if ranges == [] {
      if cur < end { CoversOne(Span(cur, end), b); }
    } else {
      var r := ranges[0];
      var rest := ranges[1..];
      var head := if cur < r.lo then [Span(cur, r.lo)] else [];
      GapsPoints(Max(r.hi, cur), end, rest, b);
      CoversConcat(head, Gaps(Max(r.hi, cur), end, rest), b);
      CoversConcat([r], rest, b);
      assert [r] + rest == ranges;
      CoversOne(r, b);
      if cur < r.lo { CoversOne(Span(cur, r.lo), b); }
      StartsAtLowest(ranges, b);
    }
  }

  /** Gaps never touch each other, since a non-empty sub-range lies between two of them. */
  lemma {:induction false} GapsSeparated(cur: nat, end: nat, ranges: seq<Span>)
    requires NonEmpty(ranges)
    ensures NonEmpty(Gaps(cur, end, ranges)) && Separated(Gaps(cur, end, ranges))
    ensures forall g :: g in Gaps(cur, end, ranges) ==> cur <= g.lo
    decreases |ranges|
  {
    if ranges != [] {
      assert ranges[0] in ranges;
      GapsSeparated(Max(ranges[0].hi, cur), end, ranges[1..]);
    }
  }

  /** A separated list of non-empty spans is determined by the blocks it covers. */
  lemma {:induction false} SeparatedUnique(a: seq<Span>, b: seq<Span>)
    requires NonEmpty(a) && Separated(a) && NonEmpty(b) && Separated(b)
    requires forall x: nat :: Covers(a, x) <==> Covers(b, x)
    ensures a == b
    decreases |a|
  {
    if a != [] { assert a[0] in a && Covers(a, a[0].lo); }
    if b != [] { assert b[0] in b && Covers(b, b[0].lo); }
    if a != [] && b != [] {
      HeadsAgree(a, b);
      HeadsAgree(b, a);
      assert a[0] == b[0];
      forall x: nat ensures Covers(a[1..], x) <==> Covers(b[1..], x) {
        TailCovers(a, x);
        TailCovers(b, x);
      }
      SeparatedUnique(a[1..], b[1..]);
      assert a == [a[0]] + a[1..] && b == [b[0]] + b[1..];
    }
  }

  lemma TailCovers(a: seq<Span>, x: nat)
    requires a != [] && NonEmpty(a) && Separated(a)
    ensures Covers(a[1..], x) <==> Covers(a, x) && x >= a[0].hi
  {
    assert a == [a[0]] + a[1..];
    CoversConcat([a[0]], a[1..], x);
    CoversOne(a[0], x);
  }

  lemma HeadsAgree(a: seq<Span>, b: seq<Span>)
    requires a != [] && b != []
    requires NonEmpty(a) && Separated(a) && NonEmpty(b) && Separated(b)
    requires forall x: nat :: Covers(a, x) <==> Covers(b, x)
    ensures a[0].lo >= b[0].lo
    ensures a[0].lo == b[0].lo ==> a[0].hi <= b[0].hi
  {
    assert a[0] in a && Covers(a, a[0].lo);
    var sp :| sp in b && Holds(sp, a[0].lo);
    FirstEndUncovered(b);
    var firstEnd := b[0].hi;
    assert Holds(a[0], firstEnd) ==> Covers(a, firstEnd);
  }

  lemma FirstEndUncovered(a: seq<Span>)
    requires a != [] && Separated(a)
    ensures !Covers(a, a[0].hi)
  {
    forall i | 0 <= i < |a| ensures !Holds(a[i], a[0].hi) {
    }
  }

  lemma FirstIsLowest(a: seq<Span>, i: nat)
    requires Ordered(a) && NonEmpty(a) && i < |a|
    ensures a[0].lo <= a[i].lo
  {
    assert a[0] in a;
  }

  lemma {:induction false} ChopPoints(start: nat, end: nat, interval: nat, b: nat)
    requires interval > 0
    ensures Covers(Chop(start, end, interval), b) <==> start <= b < end
    decreases end - start
  {
    if start < end {
      var stop := Min(start + interval, end);
      ChopPoints(stop, end, interval, b);
      CoversConcat([Span(start, stop)], Chop(stop, end, interval), b);
      CoversOne(Span(start, stop), b);
    }
  }

  lemma {:induction false} ChopShape(start: nat, end: nat, interval: nat)
    requires interval > 0
    ensures Ordered(Chop(start, end, interval))
    ensures forall sp :: sp in Chop(start, end, interval)
                     ==> start <= sp.lo < sp.hi <= end && sp.hi - sp.lo <= interval
    ensures forall k :: 0 <= k < |Chop(start, end, interval)| - 1
                    ==> Chop(start, end, interval)[k].hi - Chop(start, end, interval)[k].lo == interval
    decreases end - start
  {
    if start < end {
      ChopShape(Min(start + interval, end), end, interval);
    }
  }

  /** A range of k whole intervals is cut into k chunks. */
  lemma {:induction false} ChopExact(start: nat, k: nat, interval: nat)
    requires interval > 0
    ensures |Chop(start, start + interval * k, interval)| == k
    ensures !LastIsShort(Chop(start, start + interval * k, interval), interval)
    decreases k
  {
    if k > 0 {
      ChopExact(start + interval, k - 1, interval);
      assert start + interval * k == start + interval + interval * (k - 1);
    }
  }

  lemma {:induction false} ChopAllPoints(gaps: seq<Span>, interval: nat, b: nat)
    requires interval > 0
    ensures Covers(ChopAll(gaps, interval), b) <==> Covers(gaps, b)
  {
    if gaps != [] {
      ChopAllPoints(gaps[1..], interval, b);
      ChopPoints(gaps[0].lo, gaps[0].hi, interval, b);
      CoversConcat(Chop(gaps[0].lo, gaps[0].hi, interval), ChopAll(gaps[1..], interval), b);
      assert gaps == [gaps[0]] + gaps[1..];
      CoversConcat([gaps[0]], gaps[1..], b);
      CoversOne(gaps[0], b);
    }
  }

  /** Cutting separated gaps yields non-empty chunks in block order, none longer than the interval
      and none crossing a gap boundary. */
  lemma {:induction false} ChopAllShape(gaps: seq<Span>, interval: nat)
    requires interval > 0 && Separated(gaps)
    ensures Ordered(ChopAll(gaps, interval)) && NonEmpty(ChopAll(gaps, interval))
    ensures forall sp :: sp in ChopAll(gaps, interval) ==> sp.hi - sp.lo <= interval
    ensures forall sp :: sp in ChopAll(gaps, interval)
                     ==> exists g :: g in gaps && g.lo <= sp.lo && sp.hi <= g.hi
  {
    if gaps != [] {
      ChopAllShape(gaps[1..], interval);
      ChopShape(gaps[0].lo, gaps[0].hi, interval);
      var head := Chop(gaps[0].lo, gaps[0].hi, interval);
      var tail := ChopAll(gaps[1..], interval);
      forall sp: Span | sp in head + tail
        ensures sp.lo < sp.hi && sp.hi - sp.lo <= interval
        ensures exists g :: g in gaps && g.lo <= sp.lo && sp.hi <= g.hi
      {
        if sp in head {
          assert gaps[0] in gaps;
        } else {
          var g :| g in gaps[1..] && g.lo <= sp.lo && sp.hi <= g.hi;
          assert g in gaps;
        }
      }
      forall i, j | 0 <= i < |head| && 0 <= j < |tail|
        ensures head[i].hi <= tail[j].lo
      {
        assert head[i] in head;
        var t := tail[j];
        assert t in tail;
        var g :| g in gaps[1..] && g.lo <= t.lo && t.hi <= g.hi;
      }
    }
  }

  /** Only the final chunk can be dropped, and only when it is shorter than the interval. */
  lemma DropShortLastPoints(chunks: seq<Span>, interval: nat, b: nat)
    requires Ordered(chunks) && NonEmpty(chunks)
    ensures var kept := DropShortLast(chunks, interval);
            if LastIsShort(chunks, interval) && Holds(chunks[|chunks| - 1], b)
            then Covers(chunks, b) && !Covers(kept, b)
            else (Covers(chunks, b) <==> Covers(kept, b))
  {
    if LastIsShort(chunks, interval) {
      var last := chunks[|chunks| - 1];
      assert chunks == chunks[..|chunks| - 1] + [last];
      CoversConcat(chunks[..|chunks| - 1], [last], b);
      CoversOne(last, b);
    }
  }
}
