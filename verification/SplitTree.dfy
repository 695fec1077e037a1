/** Trees of splits, each of which is the one that `handle_failed_request` makes
    (op-succinct/validity/src/proof_requester.rs). SplitLineage shows that the rows of a run form such
    trees. */
module SplitTree {
  import opened BlockSpans
  import opened ProposerModel

  datatype Tree = Leaf(span: Span) | Node(left: Tree, right: Tree)

  /** `t` records splits of the range [start, end): a range is split only if it has two blocks. */
  ghost predicate SplitOf(t: Tree, start: nat, end: nat)
    decreases t
  {
    match t
    case Leaf(span) => span == Span(start, end)
    case Node(left, right) =>
      end > start + 1 && SplitOf(left, start, SplitPoint(start, end)) && SplitOf(right, SplitPoint(start, end), end)
  }

  function Leaves(t: Tree): seq<Span> {
    match t case Leaf(span) => [span] case Node(l, r) => Leaves(l) + Leaves(r)
  }

  function SplitCount(t: Tree): nat {
    match t case Leaf(_) => 0 case Node(l, r) => 1 + SplitCount(l) + SplitCount(r)
  }

  function Depth(t: Tree): nat {
    match t case Leaf(_) => 0 case Node(l, r) => 1 + Max(Depth(l), Depth(r))
  }

  function Pow2(k: nat): nat { if k == 0 then 1 else 2 * Pow2(k - 1) }

  /** The least k with n <= 2^k; see CeilLog2Meaning. */
  function CeilLog2(n: nat): nat { if n <= 1 then 0 else 1 + CeilLog2((n + 1) / 2) }

  lemma {:induction false} CeilLog2Meaning(n: nat)
    requires n >= 1
    ensures n <= Pow2(CeilLog2(n))
    ensures n > 1 ==> Pow2(CeilLog2(n) - 1) < n
  {
    if n > 1 {
      CeilLog2Meaning((n + 1) / 2);
    }
  }

  lemma {:induction false} CeilLog2Monotone(m: nat, n: nat)
    requires m <= n
    ensures CeilLog2(m) <= CeilLog2(n)
  {
    if m > 1 {
      CeilLog2Monotone((m + 1) / 2, (n + 1) / 2);
    }
  }

  /** A tree of splits of n blocks has at most n pieces, one more than splits, and no piece lies deeper than
      ceil(log2 n). */
  lemma {:induction false} SplittingEnds(t: Tree, start: nat, end: nat)
    requires SplitOf(t, start, end) && start < end
    ensures SplitCount(t) + 1 == |Leaves(t)| <= end - start
    ensures Depth(t) <= CeilLog2(end - start)
    decreases t
  {
    if t.Node? {
      var mid := SplitPoint(start, end);
      SplittingEnds(t.left, start, mid);
      SplittingEnds(t.right, mid, end);
      CeilLog2Monotone(mid - start, (end - start + 1) / 2);
      CeilLog2Monotone(end - mid, (end - start + 1) / 2);
    }
  }

  /** The pieces are non-empty, in order, and hold exactly the blocks of the range. */
  lemma {:induction false} PiecesTile(t: Tree, start: nat, end: nat, b: nat)
    requires SplitOf(t, start, end) && start < end
    ensures Ordered(Leaves(t)) && NonEmpty(Leaves(t))
    ensures forall sp :: sp in Leaves(t) ==> start <= sp.lo && sp.hi <= end
    ensures Covers(Leaves(t), b) <==> start <= b < end
    decreases t
  {
    match t
    case Leaf(span) => CoversOne(span, b);
    case Node(l, r) =>
      var mid := SplitPoint(start, end);
      PiecesTile(l, start, mid, b);
      PiecesTile(r, mid, end, b);
      CoversConcat(Leaves(l), Leaves(r), b);
      var a, c := Leaves(l), Leaves(r);
      forall i, j | 0 <= i < |a| && 0 <= j < |c| ensures a[i].hi <= c[j].lo {
        assert a[i] in a && c[j] in c;
      }
  }

  /** Splitting as long as the code can: the bounds above are reached, by one-block pieces. */
  function FullTree(start: nat, end: nat): Tree
    decreases end - start
  {
    if end <= start + 1 then Leaf(Span(start, end))
    else Node(FullTree(start, SplitPoint(start, end)), FullTree(SplitPoint(start, end), end))
  }

  lemma {:induction false} FullTreeReachesBounds(start: nat, end: nat)
    requires start < end
    ensures SplitOf(FullTree(start, end), start, end)
    ensures |Leaves(FullTree(start, end))| == end - start
    ensures Depth(FullTree(start, end)) == CeilLog2(end - start)
    ensures forall sp :: sp in Leaves(FullTree(start, end)) ==> sp.hi == sp.lo + 1
    decreases end - start
  {
    if end > start + 1 {
      var mid := SplitPoint(start, end);
      FullTreeReachesBounds(start, mid);
      FullTreeReachesBounds(mid, end);
      CeilLog2Monotone(mid - start, end - mid);
      assert end - mid == (end - start + 1) / 2;
    }
  }
}
