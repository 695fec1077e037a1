/** Splitting over a whole run of the proposer. Every split is recorded with the ids of the row that failed
    and of the two rows inserted for it; the rows that descend from one row form a tree of splits. */
module SplitLineage {
  import opened Requests
  import opened BlockSpans
  import opened RequestTable
  import opened ProposerModel
  import opened ProposerInvariant
  import opened ProposerSteps
  import opened ProposerRuns
  import opened AppendedRows
  import opened SplitTree

  function Log(split: Option<Split>): seq<Split> { match split case None => [] case Some(x) => [x] }

  /** All splits of a run, in order. */
  function SplitLog(c: Config, s: State, es: seq<Event>): seq<Split>
    decreases |es|
  {
    if es == [] then [] else Log(SplitBy(c, s, es[0])) + SplitLog(c, Apply(c, s, es[0]), es[1..])
  }

  /** The block range of every row ever inserted, at the index of its id, deleted rows included. */
  function Born(c: Config, s: State, es: seq<Event>): seq<Span>
    decreases |es|
  {
    if es == [] then [] else Spans(Added(c, s, es[0])) + Born(c, Apply(c, s, es[0]), es[1..])
  }

  // ---------------------------------------------------------------- what every run keeps

  /** Each row still in the table covers what it covered when it was inserted. */
  ghost predicate RowsTracked(rows: seq<Request>, born: seq<Span>) {
    forall r :: r in rows ==> r.id < |born| && born[r.id] == Span(r.startBlock, r.endBlock)
  }

  /** A split halves a range of at least two blocks, and its halves are younger than their parent. */
  ghost predicate EntryTracked(born: seq<Span>, x: Split) {
    && x.parent < x.left && x.left + 1 < |born|
    && x.end > x.start + 1
    && born[x.parent] == Span(x.start, x.end)
    && [born[x.left], born[x.left + 1]] == Halves(x.start, x.end)
  }

  ghost predicate EntriesTracked(born: seq<Span>, log: seq<Split>) {
    forall x :: x in log ==> EntryTracked(born, x)
  }

  /** No row is split twice, and no row is inserted by two splits. */
  ghost predicate SplitOnce(log: seq<Split>) {
    forall i, j :: 0 <= i < j < |log| ==> log[i].parent != log[j].parent && log[i].left + 1 < log[j].left
  }

  /** A row that was split has failed for good. */
  ghost predicate ParentsFailed(rows: seq<Request>, log: seq<Split>) {
    forall x, r :: x in log && r in rows && r.id == x.parent ==> r.status == Failed
  }

  ghost predicate Tracked(s: State, born: seq<Span>, log: seq<Split>) {
    && |born| == s.nextId && NonEmpty(born)
    && RowsTracked(s.rows, born)
    && EntriesTracked(born, log)
    && SplitOnce(log)
    && ParentsFailed(s.rows, log)
  }

  lemma MovedKeepsTracked(c: Config, rows: seq<Request>, mid: seq<Request>, born: seq<Span>, log: seq<Split>)
    requires Moved(c, rows, mid) && RowsTracked(rows, born) && ParentsFailed(rows, log)
    ensures RowsTracked(mid, born) && ParentsFailed(mid, log) && |mid| == |rows|
  {
    if mid != rows { var k := MovedMember(c, rows, mid); }
  }

  lemma AddedTracked(mid: seq<Request>, added: seq<Request>, born: seq<Span>, log: seq<Split>)
    requires FreshRows(added, |born|) && RowsTracked(mid, born) && EntriesTracked(born, log) && ParentsFailed(mid, log)
    ensures RowsTracked(mid + added, born + Spans(added))
    ensures EntriesTracked(born + Spans(added), log) && ParentsFailed(mid + added, log)
  {
    forall r | r in mid + added && r !in mid
      ensures |born| <= r.id < |born| + |added| && (born + Spans(added))[r.id] == Span(r.startBlock, r.endBlock)
    {
      var i :| 0 <= i < |added| && added[i] == r;
    }
    forall x | x in log ensures EntryTracked(born + Spans(added), x) {
      assert EntryTracked(born, x);
    }
  }

  lemma RestartTracked(s: State, born: seq<Span>, log: seq<Split>)
    requires Tracked(s, born, log)
    ensures Tracked(Reinitialize(s), born, log)
  {
    forall r | r in Reinitialize(s).rows ensures r in s.rows { SelectMember(s.rows, StatusNotIn(UNRECOVERABLE), r); }
  }

  lemma AddedNonEmpty(c: Config, s: State, mid: seq<Request>, added: seq<Request>)
    requires Inv(c, s) && s.rows == mid + added
    ensures NonEmpty(Spans(added))
  {
    forall sp | sp in Spans(added) ensures sp.lo < sp.hi {
      var i :| 0 <= i < |Spans(added)| && Spans(added)[i] == sp;
      assert added[i] in s.rows && RowOk(c, added[i], s.latest);
    }
  }

  /** The rows after an event: old ones, changed in place, and the appended ones. */
  lemma RowsAfter(c: Config, s: State, e: Event, born: seq<Span>, log: seq<Split>)
    requires Inv(c, s) && Tracked(s, born, log)
    ensures var s', added := Apply(c, s, e), Added(c, s, e);
            && s'.nextId == s.nextId + |added| && NonEmpty(born + Spans(added))
            && RowsTracked(s'.rows, born + Spans(added)) && EntriesTracked(born + Spans(added), log)
              && ParentsFailed(s'.rows, log)
  {
    hide Inv, RowsTracked, EntriesTracked, ParentsFailed, Moved, Apply, Added;
    if e == Restart {
      RestartAdds(c, s);
      assert Spans([]) == [] && born + [] == born;
      RestartTracked(s, born, log);
    } else {
      var mid := EventAdds(c, s, e);
      MovedKeepsTracked(c, s.rows, mid, born, log);
      AddedTracked(mid, Added(c, s, e), born, log);
      StepKeepsInv(c, s, e);
      AddedNonEmpty(c, Apply(c, s, e), mid, Added(c, s, e));
    }
  }

  lemma NewEntryOnce(born: seq<Span>, log: seq<Split>, x: Split)
    requires EntriesTracked(born, log) && SplitOnce(log) && x.left == |born|
    requires forall y :: y in log ==> y.parent != x.parent
    ensures SplitOnce(log + [x])
  {
    forall i | 0 <= i < |log| ensures log[i].parent != x.parent && log[i].left + 1 < x.left {
      assert log[i] in log && EntryTracked(born, log[i]);
    }
  }

  lemma NewEntryTracked(born: seq<Span>, r: Request)
    requires r.id < |born| && born[r.id] == Span(r.startBlock, r.endBlock) && r.endBlock > r.startBlock + 1
    ensures EntryTracked(born + Spans(Stamp(NewRanges(Halves(r.startBlock, r.endBlock)), |born|)),
                         Split(r.id, |born|, r.startBlock, r.endBlock))
  {
    var halves := Halves(r.startBlock, r.endBlock);
    var spans := Spans(Stamp(NewRanges(halves), |born|));
    assert |spans| == 2 && spans[0] == halves[0] && spans[1] == halves[1];
  }

  /** After its split the parent is Failed, and nothing that was appended has its id. */
  lemma ParentFailed(rows: seq<Request>, before: seq<Request>, added: seq<Request>, id: nat)
    requires rows == Update(before, id, ToStatus(Failed)) + added && forall r :: r in added ==> r.id != id
    ensures forall r :: r in rows && r.id == id ==> r.status == Failed
  {
    forall r | r in rows && r.id == id ensures r.status == Failed {
      assert r in Update(before, id, ToStatus(Failed)) || r in added;
    }
  }

  lemma NewEntry(c: Config, s: State, e: Event, born: seq<Span>, log: seq<Split>)
    requires Inv(c, s) && Tracked(s, born, log) && SplitBy(c, s, e).Some?
    ensures var x := SplitBy(c, s, e).value;
            && EntryTracked(born + Spans(Added(c, s, e)), x)
            && SplitOnce(log + [x])
            && forall r :: r in Apply(c, s, e).rows && r.id == x.parent ==> r.status == Failed
  {
    hide Inv, Apply, SplitBy, Added, EntryTracked, EntriesTracked, Halves, Update;
    var r := SplitAdds(c, s, e);
    var added, rows := Added(c, s, e), Apply(c, s, e).rows;
    NewEntryTracked(born, r);
    NewEntryOnce(born, log, Split(r.id, |born|, r.startBlock, r.endBlock));
    ParentFailed(rows, s.rows, added, r.id);
  }

  lemma StepKeepsTracked(c: Config, s: State, e: Event, born: seq<Span>, log: seq<Split>)
    requires Inv(c, s) && Tracked(s, born, log)
    ensures Tracked(Apply(c, s, e), born + Spans(Added(c, s, e)), log + Log(SplitBy(c, s, e)))
  {
    RowsAfter(c, s, e, born, log);
    hide Inv, Apply, SplitBy, Added, EntryTracked, RowsTracked;
    if SplitBy(c, s, e).Some? {
      NewEntry(c, s, e, born, log);
    } else {
      assert log + [] == log;
    }
  }

  lemma {:induction false} RunKeepsTracked(c: Config, s: State, es: seq<Event>, born: seq<Span>, log: seq<Split>)
    requires Inv(c, s) && Tracked(s, born, log)
    ensures Tracked(ApplyAll(c, s, es), born + Born(c, s, es), log + SplitLog(c, s, es))
    decreases |es|
  {
    hide Inv, Tracked, Apply, SplitBy, Added;
    if es == [] {
      assert born + [] == born && log + [] == log;
    } else {
      StepKeepsInv(c, s, es[0]);
      StepKeepsTracked(c, s, es[0], born, log);
      var spans, split := Spans(Added(c, s, es[0])), Log(SplitBy(c, s, es[0]));
      RunKeepsTracked(c, Apply(c, s, es[0]), es[1..], born + spans, log + split);
      Regroup(born, spans, Born(c, Apply(c, s, es[0]), es[1..]));
      Regroup(log, split, SplitLog(c, Apply(c, s, es[0]), es[1..]));
    }
  }

  /** Over any run from an empty table. */
  lemma ReachableTracked(c: Config, es: seq<Event>)
    ensures Tracked(ApplyAll(c, Fresh(c), es), Born(c, Fresh(c), es), SplitLog(c, Fresh(c), es))
  {
    assert Inv(c, Fresh(c)) && Tracked(Fresh(c), [], []);
    hide Inv, Tracked, Apply;
    RunKeepsTracked(c, Fresh(c), es, [], []);
    assert [] + Born(c, Fresh(c), es) == Born(c, Fresh(c), es);
    assert [] + SplitLog(c, Fresh(c), es) == SplitLog(c, Fresh(c), es);
  }

  // ---------------------------------------------------------------- the tree below one row

  /** The splits of row `id`, of its halves, and so on. A row is split after it was inserted, so the splits
      of the halves come later in the log. */
  function TreeOf(log: seq<Split>, id: nat, span: Span): Tree
    decreases |log|
  {
    if log == [] then Leaf(span)
    else if log[0].parent == id then
      var halves := Halves(span.lo, span.hi);
      Node(TreeOf(log[1..], log[0].left, halves[0]), TreeOf(log[1..], log[0].left + 1, halves[1]))
    else TreeOf(log[1..], id, span)
  }

  /** Row `x` is row `id` or was inserted for one of its splits, or for one of theirs. */
  predicate Descends(log: seq<Split>, id: nat, x: nat)
    decreases |log|
  {
    || x == id
    || (log != [] && if log[0].parent == id
                     then Descends(log[1..], log[0].left, x) || Descends(log[1..], log[0].left + 1, x)
                     else Descends(log[1..], id, x))
  }

  /** The number of splits of rows in `ids` and of rows inserted for such splits. */
  function SplitsBelow(log: seq<Split>, ids: set<nat>): nat
    decreases |log|
  {
    if log == [] then 0
    else if log[0].parent in ids then 1 + SplitsBelow(log[1..], ids + {log[0].left, log[0].left + 1})
    else SplitsBelow(log[1..], ids)
  }

  lemma TailTracked(born: seq<Span>, log: seq<Split>)
    requires EntriesTracked(born, log) && SplitOnce(log) && log != []
    ensures EntriesTracked(born, log[1..]) && SplitOnce(log[1..]) && EntryTracked(born, log[0])
    ensures forall x :: x in log[1..] ==> x.parent != log[0].parent && log[0].left + 1 < x.left
  {
    assert forall x :: x in log[1..] ==> x in log;
    assert forall i :: 0 <= i < |log[1..]| ==> log[1..][i] == log[i + 1];
  }

  lemma {:induction false} TreeIsSplitOf(born: seq<Span>, log: seq<Split>, id: nat)
    requires EntriesTracked(born, log) && SplitOnce(log) && id < |born|
    ensures SplitOf(TreeOf(log, id, born[id]), born[id].lo, born[id].hi)
    decreases |log|
  {
    if log != [] {
      TailTracked(born, log);
      var x := log[0];
      if x.parent == id {
        TreeIsSplitOf(born, log[1..], x.left);
        TreeIsSplitOf(born, log[1..], x.left + 1);
      } else {
        TreeIsSplitOf(born, log[1..], id);
      }
    }
  }

  lemma {:induction false} NeverSplitAgain(log: seq<Split>, id: nat)
    requires forall x :: x in log ==> x.parent != id
    ensures SplitsBelow(log, {id}) == 0
    decreases |log|
  {
    if log != [] {
      assert log[0] in log && forall x :: x in log[1..] ==> x in log;
      NeverSplitAgain(log[1..], id);
    }
  }

  ghost predicate Older(log: seq<Split>, ids: set<nat>) { forall id, x :: id in ids && x in log ==> id < x.left }

  lemma OlderTail(born: seq<Span>, log: seq<Split>, ids: set<nat>)
    requires EntriesTracked(born, log) && SplitOnce(log) && log != [] && Older(log, ids)
    ensures var halves := {log[0].left, log[0].left + 1};
            ids !! halves && Older(log[1..], ids) && Older(log[1..], ids + halves)
  {
    TailTracked(born, log);
    assert forall y :: y in log[1..] ==> y in log;
    assert log[0] in log;
  }

  lemma Unions(a: set<nat>, b: set<nat>, halves: set<nat>)
    ensures (a + b) + halves == (a + halves) + b == a + (b + halves)
  {
  }

  /** Splits below two unrelated families add up. */
  lemma {:induction false} SplitsAddUp(born: seq<Span>, log: seq<Split>, a: set<nat>, b: set<nat>)
    requires EntriesTracked(born, log) && SplitOnce(log) && a !! b && Older(log, a + b)
    ensures SplitsBelow(log, a + b) == SplitsBelow(log, a) + SplitsBelow(log, b)
    decreases |log|
  {
    if log != [] {
      TailTracked(born, log);
      OlderTail(born, log, a + b);
      hide EntriesTracked, SplitOnce, Older, EntryTracked;
      var x, rest := log[0], log[1..];
      var halves := {x.left, x.left + 1};
      Unions(a, b, halves);
      if x.parent in a {
        SplitsAddUp(born, rest, a + halves, b);
      } else if x.parent in b {
        SplitsAddUp(born, rest, a, b + halves);
      } else {
        SplitsAddUp(born, rest, a, b);
      }
    }
  }

  lemma {:induction false} TreeCountsSplits(born: seq<Span>, log: seq<Split>, id: nat)
    requires EntriesTracked(born, log) && SplitOnce(log) && id < |born|
    ensures SplitsBelow(log, {id}) == SplitCount(TreeOf(log, id, born[id]))
    decreases |log|
  {
    if log != [] {
      TailTracked(born, log);
      var x, rest := log[0], log[1..];
      if x.parent == id {
        TreeCountsSplits(born, rest, x.left);
        TreeCountsSplits(born, rest, x.left + 1);
        NeverSplitAgain(rest, id);
        assert {id} + {x.left, x.left + 1} == {id} + ({x.left} + {x.left + 1});
        SplitsAddUp(born, rest, {x.left}, {x.left + 1});
        SplitsAddUp(born, rest, {id}, {x.left} + {x.left + 1});
      } else {
        TreeCountsSplits(born, rest, id);
      }
    }
  }

  /** A descendant lies within its ancestor; one that was not split is a leaf of the tree. */
  lemma {:induction false} DescendantInTree(born: seq<Span>, log: seq<Split>, id: nat, x: nat)
    requires EntriesTracked(born, log) && SplitOnce(log) && id < |born| && Descends(log, id, x)
    ensures x < |born| && born[id].lo <= born[x].lo && born[x].hi <= born[id].hi
    ensures (forall y :: y in log ==> y.parent != x) ==> born[x] in Leaves(TreeOf(log, id, born[id]))
    decreases |log|
  {
    if log != [] {
      TailTracked(born, log);
      var y, rest := log[0], log[1..];
      assert forall z :: z in rest ==> z in log;
      assert y in log;
      if x == id {
        if y.parent != id { DescendantInTree(born, rest, id, x); }
      } else if y.parent == id {
        if Descends(rest, y.left, x) {
          DescendantInTree(born, rest, y.left, x);
        } else {
          DescendantInTree(born, rest, y.left + 1, x);
        }
      } else {
        DescendantInTree(born, rest, id, x);
      }
    }
  }

  /** The splits of one row, of its halves and so on are a tree of splits of its range, so there are fewer
      of them than the row has blocks. */
  lemma TreeBounds(born: seq<Span>, log: seq<Split>, id: nat)
    requires EntriesTracked(born, log) && SplitOnce(log) && NonEmpty(born) && id < |born|
    ensures var span := born[id];
            var tree := TreeOf(log, id, span);
            && span.lo < span.hi && SplitOf(tree, span.lo, span.hi)
            && SplitsBelow(log, {id}) + 1 == |Leaves(tree)| <= span.hi - span.lo
            && Depth(tree) <= CeilLog2(span.hi - span.lo)
  {
    assert born[id] in born;
    TreeIsSplitOf(born, log, id);
    TreeCountsSplits(born, log, id);
    hide EntriesTracked, SplitOnce;
    SplittingEnds(TreeOf(log, id, born[id]), born[id].lo, born[id].hi);
  }

  // ---------------------------------------------------------------- over any run

  /** Over any run, the splits below one row form a tree of splits of its range. So a row of n blocks leads
      to at most n - 1 splits, and no piece lies deeper than ceil(log2 n), however often its pieces fail. */
  lemma SplitsOfOneRow(c: Config, es: seq<Event>, id: nat)
    requires id < |Born(c, Fresh(c), es)|
    ensures var span, log := Born(c, Fresh(c), es)[id], SplitLog(c, Fresh(c), es);
            var tree := TreeOf(log, id, span);
            && span.lo < span.hi && SplitOf(tree, span.lo, span.hi)
            && SplitsBelow(log, {id}) + 1 == |Leaves(tree)| <= span.hi - span.lo
            && Depth(tree) <= CeilLog2(span.hi - span.lo)
  {
    ReachableTracked(c, es);
    hide Apply, SplitBy, Added, Born, SplitLog, EntryTracked;
    TreeBounds(Born(c, Fresh(c), es), SplitLog(c, Fresh(c), es), id);
  }

  /** No row is ever split twice, and none is inserted by two splits. */
  lemma RowSplitsOnce(c: Config, es: seq<Event>)
    ensures SplitOnce(SplitLog(c, Fresh(c), es))
  {
    ReachableTracked(c, es);
    hide Apply, SplitBy, Added, Born, SplitLog;
  }

  /** The rows of the table that descend from one row lie within it, and those that have not failed are
      leaves of its tree. */
  lemma RowsOfOneTree(c: Config, es: seq<Event>, id: nat, r: Request)
    requires id < |Born(c, Fresh(c), es)| && r in ApplyAll(c, Fresh(c), es).rows
    requires Descends(SplitLog(c, Fresh(c), es), id, r.id)
    ensures var span, log := Born(c, Fresh(c), es)[id], SplitLog(c, Fresh(c), es);
            && span.lo <= r.startBlock && r.endBlock <= span.hi
            && (r.status != Failed ==> Span(r.startBlock, r.endBlock) in Leaves(TreeOf(log, id, span)))
  {
    ReachableTracked(c, es);
    var born, log := Born(c, Fresh(c), es), SplitLog(c, Fresh(c), es);
    hide Apply, SplitBy, Added, Born, SplitLog, EntryTracked;
    DescendantInTree(born, log, id, r.id);
  }
}
