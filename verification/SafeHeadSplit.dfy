/** Splitting an L2 range at the safe heads (op-succinct/utils/host/src/block_range.rs), and what the L1
    search contributes to it. */
module SafeHeadSplit {
  import opened Requests
  import opened BlockSpans
  import opened BinarySearch

  // ---------------------------------------------------------------- collecting the safe heads

  ghost predicate StrictlySorted(s: seq<nat>) { forall i, j :: 0 <= i < j < |s| ==> s[i] < s[j] }

  /** Puts a value into its place, unless it is there already. */
  function InsertUnique(x: nat, s: seq<nat>): (r: seq<nat>)
    ensures forall y :: y in r <==> y == x || y in s
  {
    if s == [] then [x]
    else if x < s[0] then [x] + s
    else if x == s[0] then s
    else [s[0]] + InsertUnique(x, s[1..])
  }

  lemma {:induction false} InsertUniqueSorted(x: nat, s: seq<nat>)
    requires StrictlySorted(s)
    ensures StrictlySorted(InsertUnique(x, s))
  {
    if s != [] && x > s[0] {
      InsertUniqueSorted(x, s[1..]);
      var rest := InsertUnique(x, s[1..]);
      forall i | 0 <= i < |rest| ensures s[0] < rest[i] {
        assert rest[i] == x || rest[i] in s[1..];
      }
    }
  }

  ghost predicate HeadBetween(answer: nat -> Option<SafeHead>, l1Start: nat, l1Head: nat, h: nat) {
    exists n: nat :: l1Start <= n <= l1Head && answer(n).Some? && answer(n).value.l2Number == h
  }

  /** The distinct safe heads of the L1 blocks from `l1Start` to `l1Head`, lowest first. `None` is the panic
      of a failed lookup. */
  method CollectSafeHeads(answer: nat -> Option<SafeHead>, l1Start: nat, l1Head: nat) returns (r: Option<seq<nat>>)
    ensures r == None <==> exists n: nat :: l1Start <= n <= l1Head && answer(n) == None
    ensures r.Some? ==> StrictlySorted(r.value)
    ensures r.Some? ==> forall h :: h in r.value <==> HeadBetween(answer, l1Start, l1Head, h)
  {
    var heads := [];
    var block := l1Start;
    while block <= l1Head
      invariant l1Start <= block && (block <= l1Head + 1 || block == l1Start) && StrictlySorted(heads)
      invariant forall n: nat :: l1Start <= n < block && n <= l1Head ==> answer(n).Some?
      invariant forall h :: h in heads <==>
        exists n: nat :: l1Start <= n < block && n <= l1Head && answer(n).Some? && answer(n).value.l2Number == h
      decreases l1Head + 1 - block
    {
      var result := answer(block);
      if result == None { return None; }
      InsertUniqueSorted(result.value.l2Number, heads);
      heads := InsertUnique(result.value.l2Number, heads);
      block := block + 1;
    }
    return Some(heads);
  }

  // ---------------------------------------------------------------- splitting

  /** `split_range_basic`; what `Chop` yields is said by ChopPoints and ChopShape. With a maximum of 0 the
      loop ends only on an empty range. */
  method SplitRangeBasic(start: nat, end: nat, maxRangeSize: nat) returns (ranges: seq<Span>)
    requires maxRangeSize > 0 || start >= end
    ensures ranges == if maxRangeSize > 0 then Chop(start, end, maxRangeSize) else []
  {
    ranges := [];
    var currentStart: nat := start;
    if maxRangeSize > 0 { Regroup(Chop(start, end, maxRangeSize), [], []); }
    while currentStart < end
      invariant maxRangeSize == 0 ==> ranges == [] && currentStart == start
      invariant maxRangeSize > 0 ==> ranges + Chop(currentStart, end, maxRangeSize) == Chop(start, end, maxRangeSize)
      decreases end - currentStart
    {
      var currentEnd := Min(currentStart + maxRangeSize, end);
      ChopStep(currentStart, end, maxRangeSize);
      hide Chop;
      Regroup(ranges, [Span(currentStart, currentEnd)], Chop(currentEnd, end, maxRangeSize));
      ranges := ranges + [Span(currentStart, currentEnd)];
      currentStart := currentEnd;
    }
    Regroup(ranges, [], []);
  }

  /** The pieces from `current` on, with `heads` still to visit. */
  function Pieces(heads: seq<nat>, current: nat, end: nat, maxSize: nat): seq<Span>
    requires maxSize > 0
    decreases |heads|
  {
    if heads == [] then []
    else if heads[0] > current && current < end
    then Chop(current, Min(end, heads[0]), maxSize) + Pieces(heads[1..], heads[0], end, maxSize)
    else Pieces(heads[1..], current, end, maxSize)
  }

  /** The inner loop: the pieces up to one safe head, or up to the end. */
  method SplitUpTo(ranges: seq<Span>, start: nat, stop: nat, maxSize: nat) returns (r: seq<Span>)
    requires maxSize > 0 && start < stop
    ensures r == ranges + Chop(start, stop, maxSize)
  {
    r := ranges;
    var rangeStart: nat := start;
    while rangeStart + maxSize < stop
      invariant start <= rangeStart < stop
      invariant r + Chop(rangeStart, stop, maxSize) == ranges + Chop(start, stop, maxSize)
      decreases stop - rangeStart
    {
      ChopStep(rangeStart, stop, maxSize);
      hide Chop;
      Regroup(r, [Span(rangeStart, rangeStart + maxSize)], Chop(rangeStart + maxSize, stop, maxSize));
      r := r + [Span(rangeStart, rangeStart + maxSize)];
      rangeStart := rangeStart + maxSize;
    }
    ChopStep(rangeStart, stop, maxSize);
    assert Chop(stop, stop, maxSize) == [];
    hide Chop;
    Regroup([Span(rangeStart, stop)], [], []);
    r := r + [Span(rangeStart, stop)];
  }

  /** The loop of `split_range_based_on_safe_heads`. With a maximum of 0 it ends only if no safe head makes a
      piece. */
  method SplitRangeBasedOnSafeHeads(heads: seq<nat>, l2Start: nat, l2End: nat, maxSize: nat) returns (ranges: seq<Span>)
    requires maxSize > 0 || l2Start >= l2End || forall h :: h in heads ==> h <= l2Start
    ensures ranges == if maxSize > 0 then Pieces(heads, l2Start, l2End, maxSize) else []
  {
    ranges := [];
    var currentL2Start: nat := l2Start;
    assert heads[0..] == heads;
    if maxSize > 0 { Regroup(Pieces(heads, l2Start, l2End, maxSize), [], []); }
    for i := 0 to |heads|
      invariant maxSize == 0 ==> ranges == [] && currentL2Start == l2Start
      invariant maxSize > 0 ==>
        ranges + Pieces(heads[i..], currentL2Start, l2End, maxSize) == Pieces(heads, l2Start, l2End, maxSize)
    {
      var safeHead := heads[i];
      assert safeHead in heads;
      if maxSize > 0 { NextPieces(heads, i, currentL2Start, l2End, maxSize); }
      hide Chop, Pieces;
      if safeHead > currentL2Start && currentL2Start < l2End {
        var stop := Min(l2End, safeHead);
        Regroup(ranges, Chop(currentL2Start, stop, maxSize), Pieces(heads[i + 1..], safeHead, l2End, maxSize));
        ranges := SplitUpTo(ranges, currentL2Start, stop, maxSize);
        currentL2Start := safeHead;
      }
    }
    assert heads[|heads|..] == [];
    Regroup(ranges, [], []);
  }

  /** One safe head is visited. */
  lemma NextPieces(heads: seq<nat>, i: nat, current: nat, end: nat, maxSize: nat)
    requires maxSize > 0 && i < |heads|
    ensures Pieces(heads[i..], current, end, maxSize) ==
      if heads[i] > current && current < end
      then Chop(current, Min(end, heads[i]), maxSize) + Pieces(heads[i + 1..], heads[i], end, maxSize)
      else Pieces(heads[i + 1..], current, end, maxSize)
  {
    assert heads[i..][1..] == heads[i + 1..];
  }

  // ---------------------------------------------------------------- what the pieces are

  /** How far the safe heads reach. */
  function Top(heads: seq<nat>, current: nat): nat {
    if heads == [] then current else Max(current, heads[|heads| - 1])
  }

  ghost predicate Crosses(sp: Span, h: nat) { sp.lo < h < sp.hi }

  lemma SortedTail(heads: seq<nat>, current: nat)
    requires heads != [] && StrictlySorted(heads)
    ensures StrictlySorted(heads[1..])
    ensures heads[0] > current ==> Top(heads[1..], heads[0]) == Top(heads, current)
    ensures heads[0] <= current ==> Top(heads[1..], current) == Top(heads, current)
  {
  }

  /** The pieces hold exactly the blocks from the start to the end, or to the highest safe head if that
      comes first. */
  lemma {:induction false} PiecesPoints(heads: seq<nat>, current: nat, end: nat, maxSize: nat, b: nat)
    requires maxSize > 0 && StrictlySorted(heads)
    ensures Covers(Pieces(heads, current, end, maxSize), b) <==> current <= b < Min(end, Top(heads, current))
    decreases |heads|
  {
    if heads != [] {
      SortedTail(heads, current);
      if heads[0] > current && current < end {
        PiecesPoints(heads[1..], heads[0], end, maxSize, b);
        ChopPoints(current, Min(end, heads[0]), maxSize, b);
        CoversConcat(Chop(current, Min(end, heads[0]), maxSize), Pieces(heads[1..], heads[0], end, maxSize), b);
      } else {
        PiecesPoints(heads[1..], current, end, maxSize, b);
      }
    }
  }

  /** The pieces are non-empty, in order and of at most the maximum size, and none crosses a safe head. */
  lemma {:induction false} PiecesShape(heads: seq<nat>, current: nat, end: nat, maxSize: nat)
    requires maxSize > 0 && StrictlySorted(heads)
    ensures Ordered(Pieces(heads, current, end, maxSize))
    ensures forall sp :: sp in Pieces(heads, current, end, maxSize) ==>
              current <= sp.lo < sp.hi <= end && sp.hi - sp.lo <= maxSize && forall h :: h in heads ==> !Crosses(sp, h)
    decreases |heads|
  {
    if heads != [] {
      SortedTail(heads, current);
      assert heads == [heads[0]] + heads[1..];
      if heads[0] > current && current < end {
        var stop := Min(end, heads[0]);
        PiecesShape(heads[1..], heads[0], end, maxSize);
        ChopShape(current, stop, maxSize);
        var a, c := Chop(current, stop, maxSize), Pieces(heads[1..], heads[0], end, maxSize);
        forall i, j | 0 <= i < |a| && 0 <= j < |c| ensures a[i].hi <= c[j].lo {
          assert a[i] in a && c[j] in c;
        }
        forall sp, h | sp in a && h in heads ensures !Crosses(sp, h) {
          assert h >= heads[0] >= sp.hi;
        }
      } else {
        PiecesShape(heads[1..], current, end, maxSize);
      }
    }
  }

  /** The pieces hold exactly the blocks of [lo, hi). */
  ghost predicate Tiles(pieces: seq<Span>, lo: nat, hi: nat) {
    forall b: nat :: Covers(pieces, b) <==> lo <= b < hi
  }

  lemma TilesUpTo(pieces: seq<Span>, lo: nat, mid: nat, hi: nat)
    requires Tiles(pieces, lo, mid) && lo < hi && mid <= hi
    ensures Tiles(pieces, lo, hi) <==> mid == hi
  {
    var last: nat := hi - 1;
    assert Covers(pieces, last) <==> lo <= last < mid;
  }

  /** The pieces tile the range if and only if some safe head reaches its end. */
  lemma SplitTilesRange(heads: seq<nat>, l2Start: nat, l2End: nat, maxSize: nat)
    requires maxSize > 0 && l2Start < l2End && StrictlySorted(heads)
    ensures Tiles(Pieces(heads, l2Start, l2End, maxSize), l2Start, l2End) <==> exists h :: h in heads && h >= l2End
  {
    var pieces, stop := Pieces(heads, l2Start, l2End, maxSize), Min(l2End, Top(heads, l2Start));
    assert Tiles(pieces, l2Start, stop) by {
      forall b: nat ensures Covers(pieces, b) <==> l2Start <= b < stop {
        PiecesPoints(heads, l2Start, l2End, maxSize, b);
      }
    }
    TilesUpTo(pieces, l2Start, stop, l2End);
    hide Tiles, Pieces;
    if heads != [] {
      assert heads[|heads| - 1] in heads;
    }
  }

  /** The node keeps one entry per L1 block that moved the safe head, and answers with the last one. */
  ghost predicate AnswersFromEntries(answer: nat -> Option<SafeHead>) {
    forall n: nat :: answer(n).Some? ==> answer(n).value.l1Block <= n && answer(answer(n).value.l1Block) == answer(n)
  }

  /** L1 origins grow with the L2 block, and no entry covers an L2 block with a later origin than its own L1
      block: an L2 block is derived from its origin on. */
  ghost predicate EntriesAreDerived(answer: nat -> Option<SafeHead>, origin: nat -> nat) {
    && (forall a: nat, b: nat :: a <= b ==> origin(a) <= origin(b))
    && (forall n: nat :: answer(n).Some? ==> origin(answer(n).value.l2Number) <= answer(n).value.l1Block)
  }

  /** The collected safe heads reach the end exactly when the block named by the search is among theirs. */
  lemma HeadReaches(answer: nat -> Option<SafeHead>, l1Start: nat, l1Head: nat, heads: seq<nat>, l2End: nat)
    requires forall h :: h in heads <==> HeadBetween(answer, l1Start, l1Head, h)
    requires exists n: nat :: Reaching(answer, l2End)(n) && Names(answer, n, l1Head)
    ensures AnswersFromEntries(answer) ==> ((exists h :: h in heads && h >= l2End) <==> l1Start <= l1Head)
  {
    if AnswersFromEntries(answer) && l1Start <= l1Head {
      var n: nat :| Reaching(answer, l2End)(n) && Names(answer, n, l1Head);
      assert answer(l1Head) == answer(n);
      assert HeadBetween(answer, l1Start, l1Head, answer(n).value.l2Number);
    }
  }

  /** The block that the search names is then not below the start origin. */
  lemma NamedAboveOrigin(answer: nat -> Option<SafeHead>, origin: nat -> nat, l2Start: nat, l2End: nat, l1Head: nat)
    requires EntriesAreDerived(answer, origin) && l2Start <= l2End
    requires exists n: nat :: Reaching(answer, l2End)(n) && Names(answer, n, l1Head)
    ensures origin(l2Start) <= l1Head
  {
    var n: nat :| Reaching(answer, l2End)(n) && Names(answer, n, l1Head);
    assert origin(l2Start) <= origin(answer(n).value.l2Number);
  }

  lemma {:induction false} NoPieces(heads: seq<nat>, current: nat, end: nat, maxSize: nat)
    requires maxSize > 0 && current >= end
    ensures Pieces(heads, current, end, maxSize) == []
    decreases |heads|
  {
    if heads != [] { NoPieces(heads[1..], current, end, maxSize); }
  }

  /** The distinct safe heads of these L1 blocks, lowest first. */
  ghost predicate HeadsOf(answer: nat -> Option<SafeHead>, l1Start: nat, l1Head: nat, heads: seq<nat>) {
    StrictlySorted(heads) && forall h :: h in heads <==> HeadBetween(answer, l1Start, l1Head, h)
  }

  /** `split_range_based_on_safe_heads` from the L1 search to the pieces; `origin` is the L1 origin that the node
      reports for an L2 block. `None` is the error of a search that finds nothing, or a failed lookup. The pieces
      tile the range if and only if the L1 block that the search names is not below the start origin, which
      is so when the node's entries are derived. With a maximum of 0 the loops end on an empty range. */
  method SplitRange(answer: nat -> Option<SafeHead>, origin: nat -> nat, finalized: nat, l2Start: nat, l2End: nat,
                    maxSize: nat)
    returns (r: Option<seq<Span>>, l1Head: nat)
    requires maxSize > 0 || l2Start >= l2End
    ensures r.Some? ==>
      exists n: nat :: origin(l2End) <= n <= finalized && Reaching(answer, l2End)(n) && Names(answer, n, l1Head)
    ensures r.Some? && AnswersFromEntries(answer) && l2Start < l2End ==>
      (Tiles(r.value, l2Start, l2End) <==> origin(l2Start) <= l1Head)
    ensures r.Some? && AnswersFromEntries(answer) && EntriesAreDerived(answer, origin) && l2Start < l2End ==>
      Tiles(r.value, l2Start, l2End)
    ensures r.Some? && l2Start >= l2End ==> r.value == []
    ensures r.Some? && l2Start < l2End ==>
      exists heads ::
        HeadsOf(answer, origin(l2Start), l1Head, heads) && r.value == Pieces(heads, l2Start, l2End, maxSize)
    ensures AnswersFromEntries(answer) && SafeHeadsGrow(answer, origin(l2End), finalized)
            && (forall n: nat :: n <= finalized ==> answer(n).Some?) ==>
      (r.Some? <==> !NoneIn(Reaching(answer, l2End), origin(l2End), finalized)
                    && !(origin(l2End) == 0 && Reaching(answer, l2End)(0)))
    ensures r.Some? ==> Ordered(r.value) && forall sp :: sp in r.value ==> sp.lo < sp.hi && sp.hi - sp.lo <= maxSize
    ensures r.Some? ==>
      forall sp, h :: sp in r.value && HeadBetween(answer, origin(l2Start), l1Head, h) ==> !Crosses(sp, h)
  {
    var found := GetSafeL1Block(answer, origin(l2End), finalized, l2End);
    if !found.Found? { return None, 0; }
    l1Head := found.block;
    var heads := CollectSafeHeads(answer, origin(l2Start), l1Head);
    if heads == None { return None, 0; }
    var ranges := SplitRangeBasedOnSafeHeads(heads.value, l2Start, l2End, maxSize);
    if l2Start < l2End {
      PiecesShape(heads.value, l2Start, l2End, maxSize);
      SplitTilesRange(heads.value, l2Start, l2End, maxSize);
      if EntriesAreDerived(answer, origin) { NamedAboveOrigin(answer, origin, l2Start, l2End, l1Head); }
    } else if maxSize > 0 {
      NoPieces(heads.value, l2Start, l2End, maxSize);
    }
    HeadReaches(answer, origin(l2Start), l1Head, heads.value, l2End);
    hide Pieces, Tiles, Ordered, Crosses, HeadBetween, Reaching, Names, StrictlySorted, AnswersFromEntries,
      EntriesAreDerived;
    return Some(ranges), l1Head;
  }

  /** The example in the documentation of the function gives (49,69), (69,90) for the last two pieces;
      the code cuts at the maximum size from the left. */
  lemma DocumentedExample()
    ensures Pieces([27, 49, 90], 0, 90, 30) == [Span(0, 27), Span(27, 49), Span(49, 79), Span(79, 90)]
  {
    assert Chop(0, 27, 30) == [Span(0, 27)] + Chop(27, 27, 30);
    assert Chop(27, 49, 30) == [Span(27, 49)] + Chop(49, 49, 30);
    assert Chop(49, 90, 30) == [Span(49, 79)] + ([Span(79, 90)] + Chop(90, 90, 30));
    assert [27, 49, 90][1..] == [49, 90] && [49, 90][1..] == [90] && [90][1..] == [];
    assert Pieces([90], 49, 90, 30) == Chop(49, 90, 30) + Pieces([], 90, 90, 30);
    assert Pieces([49, 90], 27, 90, 30) == Chop(27, 49, 30) + Pieces([90], 49, 90, 30);
  }
}
