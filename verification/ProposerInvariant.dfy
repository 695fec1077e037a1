/** What every step of the proposer keeps. */
module ProposerInvariant {
  import opened Requests
  import opened BlockSpans
  import opened RequestTable
  import opened ProposerModel

  // ---------------------------------------------------------------- the invariant

  ghost predicate IdsOk(rows: seq<Request>, nextId: nat) {
    && (forall i, j :: 0 <= i < j < |rows| ==> rows[i].id < rows[j].id)
    && (forall r :: r in rows ==> r.id < nextId)
  }

  /** An aggregation whose work was started: its range proofs were validated. */
  predicate ValidatedAgg(r: Request) {
    r.reqType == Aggregation && r.status in {WitnessGeneration, Execution, Prove, Complete, Relayed}
  }

  ghost predicate RowOk(c: Config, r: Request, latest: nat) {
    && r.startBlock < r.endBlock
    && (r.reqType == Aggregation ==>
          r.checkpoint.Some? && r.endBlock - r.startBlock >= MinAggSize(c) && r.startBlock <= latest)
    && (r.status == Complete || r.status == Relayed ==> r.proof.Some?)
    && (r.status == Prove ==> r.proofRequestId.Some?)
    && (r.status == Relayed ==> r.reqType == Aggregation)
    && (ActiveRange(r) ==> r.endBlock <= latest || latest <= r.startBlock)
  }

  ghost predicate RowsOk(c: Config, rows: seq<Request>, latest: nat) {
    forall r :: r in rows ==> RowOk(c, r, latest)
  }

  /** Active range requests share no block. */
  ghost predicate RangesDisjoint(rows: seq<Request>) {
    forall a, b :: a in rows && b in rows && a.id != b.id && ActiveRange(a) && ActiveRange(b) ==> Apart(a, b)
  }

  /** At most one active aggregation per start block. */
  ghost predicate AggsUnique(rows: seq<Request>) {
    forall a, b :: a in rows && b in rows && a.id != b.id && ActiveAgg(a) && ActiveAgg(b) ==>
      a.startBlock != b.startBlock
  }

  ghost predicate AggsTiled(rows: seq<Request>) {
    forall r :: r in rows && ValidatedAgg(r) ==> Tiled(rows, r.startBlock, r.endBlock)
  }

  predicate SameJob(a: Request, b: Request) {
    a.id == b.id && a.reqType == b.reqType && a.startBlock == b.startBlock && a.endBlock == b.endBlock
      && a.checkpoint == b.checkpoint
  }

  predicate RowFits(c: Config, phase: TaskPhase, r: Request) {
    match phase
    case Witnessing => r.status == WitnessGeneration
    case Executing => c.mock && r.status == Execution
    case Finished(false) => r.status == WitnessGeneration || r.status == Execution
    case Finished(true) => r.status in {Prove, Complete, Relayed, Failed}
  }

  ghost predicate TasksOk(c: Config, rows: seq<Request>, tasks: map<nat, Task>) {
    forall id :: id in tasks ==>
      exists r :: r in rows && r.id == id && SameJob(r, tasks[id].request) && RowFits(c, tasks[id].phase, r)
  }

  function ChainEnd(c: Config, relayed: seq<Relay>): nat {
    if relayed == [] then c.initialBlock else relayed[|relayed| - 1].end
  }

  /** Each relayed aggregation starts where the one before it ended, and is long enough. */
  ghost predicate Chained(c: Config, relayed: seq<Relay>) {
    && (relayed != [] ==> relayed[0].start == c.initialBlock)
    && (forall i, j :: 0 <= i && j == i + 1 < |relayed| ==> relayed[j].start == relayed[i].end)
    && (forall i :: 0 <= i < |relayed| ==>
          relayed[i].start < relayed[i].end && relayed[i].end - relayed[i].start >= MinAggSize(c))
  }

  ghost predicate RelayOk(rows: seq<Request>, x: Relay) {
    && Tiled(rows, x.start, x.end)
    && exists r :: r in rows && r.id == x.id && r.reqType == Aggregation && r.status in {Complete, Relayed}
                   && r.startBlock == x.start && r.endBlock == x.end
  }

  ghost predicate HistoryOk(c: Config, s: State) {
    && Chained(c, s.relayed)
    && s.latest == ChainEnd(c, s.relayed)
    && forall x :: x in s.relayed ==> RelayOk(s.rows, x)
  }

  ghost predicate TableOk(c: Config, s: State) {
    && IdsOk(s.rows, s.nextId)
    && RowsOk(c, s.rows, s.latest)
    && RangesDisjoint(s.rows)
    && AggsUnique(s.rows)
    && AggsTiled(s.rows)
    && HistoryOk(c, s)
  }

  ghost predicate Inv(c: Config, s: State) {
    TableOk(c, s) && TasksOk(c, s.rows, s.tasks)
  }

  // ---------------------------------------------------------------- one row changes

  /** The status walk of one request, payloads included. */
  ghost predicate Transition(c: Config, a: Request, b: Request) {
    || (a.status == Unrequested && b == a.(status := WitnessGeneration))
    || (a.status == WitnessGeneration && c.mock && b == a.(status := Execution))
    || (a.status == WitnessGeneration && !c.mock && b.proofRequestId.Some?
        && b == a.(status := Prove, proofRequestId := b.proofRequestId))
    || (a.status in {WitnessGeneration, Execution, Prove} && b.proof.Some?
      && b == a.(status := Complete, proof := b.proof))
    || (a.status in {WitnessGeneration, Execution, Prove} && b == a.(status := Failed))
    || (a.status == Complete && a.reqType == Aggregation && b == a.(status := Relayed))
  }

  lemma IdUnique(rows: seq<Request>, nextId: nat, a: Request, b: Request)
    requires IdsOk(rows, nextId) && a in rows && b in rows && a.id == b.id
    ensures a == b
  {
    var i :| 0 <= i < |rows| && rows[i] == a;
    var j :| 0 <= j < |rows| && rows[j] == b;
    assert i == j;
  }

  lemma UpdateIsReplace(rows: seq<Request>, nextId: nat, k: nat, change: Change)
    requires IdsOk(rows, nextId) && k < |rows|
    ensures Update(rows, rows[k].id, change) == rows[k := ApplyChange(rows[k], change)]
  {
  }

  lemma ReplaceMembers(rows: seq<Request>, nextId: nat, k: nat, b: Request)
    requires IdsOk(rows, nextId) && k < |rows| && b.id == rows[k].id
    ensures IdsOk(rows[k := b], nextId)
    ensures forall r :: r in rows[k := b] <==> r == b || (r in rows && r.id != b.id)
  {
    var rows' := rows[k := b];
    forall r ensures r in rows' <==> r == b || (r in rows && r.id != b.id) {
      if r in rows' {
        var i :| 0 <= i < |rows'| && rows'[i] == r;
        assert i != k ==> rows[i] == r;
      }
      if r in rows && r.id != b.id {
        var i :| 0 <= i < |rows| && rows[i] == r;
        assert rows'[i] == r;
      }
      if r == b { assert rows'[k] == b; }
    }
  }

  /** Some row holds block `b`. */
  ghost predicate HeldBy(rs: seq<Request>, b: nat) {
    exists r :: r in rs && InRequest(r, b)
  }

  /** Rows that run without gap from `start` to `end` hold every block between. */
  lemma {:induction false} ConsecutiveHolds(rs: seq<Request>, start: nat, end: nat, block: nat)
    requires Consecutive(rs, start, end) && start <= block < end
    ensures HeldBy(rs, block)
  {
    assert rs[0] in rs;
    if block >= rs[0].endBlock {
      assert |rs| > 1;
      var rest := rs[1..];
      assert forall i :: 0 < i < |rest| ==> rest[i - 1] == rs[i] && rest[i] == rs[i + 1];
      ConsecutiveHolds(rest, rs[0].endBlock, end, block);
      var r :| r in rest && InRequest(r, block);
      assert r in rs;
    }
  }

  /** Only the tile's own rows lie inside a tiled range. */
  lemma OutsideTile(c: Config, s: State, r: Request, start: nat, end: nat)
    requires IdsOk(s.rows, s.nextId) && RowsOk(c, s.rows, s.latest) && RangesDisjoint(s.rows)
    requires r in s.rows && ActiveRange(r) && r.status != Complete
    requires Tiled(s.rows, start, end)
    ensures !(start <= r.startBlock && r.endBlock <= end)
  {
    if start <= r.startBlock < end {
      ConsecutiveHolds(Tile(s.rows, start, end), start, end, r.startBlock);
      var x :| x in Tile(s.rows, start, end) && InRequest(x, r.startBlock);
      OrderedMember(s.rows, ConsecutiveComplete(start, end), x);
      if x.id == r.id { IdUnique(s.rows, s.nextId, x, r); }
    }
  }

  /** Whatever legal change a row makes, the answer of the query behind a tiled range stays the same. */
  lemma ReplaceKeepsTile(c: Config, s: State, k: nat, b: Request, start: nat, end: nat)
    requires TableOk(c, s) && k < |s.rows| && Transition(c, s.rows[k], b)
    requires Tiled(s.rows, start, end)
    ensures Tile(s.rows[k := b], start, end) == Tile(s.rows, start, end)
  {
    var w := ConsecutiveComplete(start, end);
    var a := s.rows[k];
    if ActiveRange(a) && a.status != Complete { OutsideTile(c, s, a, start, end); }
    SelectUnaffected(s.rows, s.rows[k := b], w);
  }

  lemma ReplaceKeepsRowsOk(c: Config, s: State, k: nat, b: Request)
    requires IdsOk(s.rows, s.nextId) && RowsOk(c, s.rows, s.latest) && k < |s.rows| && Transition(c, s.rows[k], b)
    ensures IdsOk(s.rows[k := b], s.nextId) && RowsOk(c, s.rows[k := b], s.latest)
  {
    assert s.rows[k] in s.rows && RowOk(c, s.rows[k], s.latest);
    assert RowOk(c, b, s.latest);
    ReplaceMembers(s.rows, s.nextId, k, b);
    hide RowOk, Transition;
  }

  lemma ReplaceKeepsDisjoint(c: Config, s: State, k: nat, b: Request)
    requires IdsOk(s.rows, s.nextId) && k < |s.rows| && Transition(c, s.rows[k], b) && RangesDisjoint(s.rows)
    ensures RangesDisjoint(s.rows[k := b])
  {
    var a := s.rows[k];
    assert a in s.rows && (ActiveRange(b) ==> ActiveRange(a)) && SameJob(a, b);
    ReplaceMembers(s.rows, s.nextId, k, b);
    hide Transition, ActiveRange, IdsOk;
  }

  lemma ReplaceKeepsUnique(c: Config, s: State, k: nat, b: Request)
    requires IdsOk(s.rows, s.nextId) && k < |s.rows| && Transition(c, s.rows[k], b) && AggsUnique(s.rows)
    ensures AggsUnique(s.rows[k := b])
  {
    var a := s.rows[k];
    assert a in s.rows && (ActiveAgg(b) ==> ActiveAgg(a)) && SameJob(a, b);
    ReplaceMembers(s.rows, s.nextId, k, b);
    hide Transition, ActiveAgg, IdsOk;
  }

  /** The row that recorded a relay still records it. */
  lemma ReplaceKeepsRelay(c: Config, s: State, k: nat, b: Request, x: Relay)
    requires TableOk(c, s) && k < |s.rows| && Transition(c, s.rows[k], b) && x in s.relayed
    ensures RelayOk(s.rows[k := b], x)
  {
    var rows := s.rows[k := b];
    ReplaceMembers(s.rows, s.nextId, k, b);
    ReplaceKeepsTile(c, s, k, b, x.start, x.end);
    var r :| r in s.rows && r.id == x.id && r.reqType == Aggregation && r.status in {Complete, Relayed}
             && r.startBlock == x.start && r.endBlock == x.end;
    if r.id == b.id {
      IdUnique(s.rows, s.nextId, r, s.rows[k]);
      assert b in rows;
    } else {
      assert r in rows;
    }
  }

  lemma ReplaceKeepsTable(c: Config, s: State, k: nat, b: Request)
    requires TableOk(c, s) && k < |s.rows| && Transition(c, s.rows[k], b)
    requires ValidatedAgg(b) ==> Tiled(s.rows, b.startBlock, b.endBlock)
    ensures TableOk(c, s.(rows := s.rows[k := b]))
  {
    var rows := s.rows[k := b];
    ReplaceKeepsRowsOk(c, s, k, b);
    ReplaceKeepsDisjoint(c, s, k, b);
    ReplaceKeepsUnique(c, s, k, b);
    ReplaceMembers(s.rows, s.nextId, k, b);
    forall r | r in rows && ValidatedAgg(r) ensures Tiled(rows, r.startBlock, r.endBlock) {
      ReplaceKeepsTile(c, s, k, b, r.startBlock, r.endBlock);
    }
    forall x | x in s.relayed ensures RelayOk(rows, x) {
      ReplaceKeepsRelay(c, s, k, b, x);
    }
  }

  // ---------------------------------------------------------------- rows are added

  /** Fresh requests at the end of the table. */
  ghost predicate FreshRows(fresher: seq<Request>, nextId: nat) {
    forall i :: 0 <= i < |fresher| ==> fresher[i].id == nextId + i && fresher[i].status == Unrequested
  }

  lemma AppendMembers(rows: seq<Request>, nextId: nat, more: seq<Request>)
    requires IdsOk(rows, nextId) && FreshRows(more, nextId)
    ensures IdsOk(rows + more, nextId + |more|)
    ensures forall a, b :: a in rows && b in more ==> a.id != b.id
    ensures forall a :: a in more ==> a.status == Unrequested
  {
    forall r | r in rows + more ensures r.id < nextId + |more| {
      if r in rows {} else { assert r in more; }
    }
  }

  lemma AppendKeepsTile(rows: seq<Request>, nextId: nat, more: seq<Request>, start: nat, end: nat)
    requires FreshRows(more, nextId)
    ensures Tile(rows + more, start, end) == Tile(rows, start, end)
  {
    var w := ConsecutiveComplete(start, end);
    SelectConcat(rows, more, w);
    SelectNone(more, w);
    assert Select(rows, w) + [] == Select(rows, w);
  }

  lemma AppendKeepsTable(c: Config, s: State, more: seq<Request>)
    requires TableOk(c, s) && FreshRows(more, s.nextId)
    requires forall r :: r in more ==> RowOk(c, r, s.latest)
    requires forall a, b :: a in s.rows + more && b in more && a.id != b.id && ActiveRange(a) && ActiveRange(b) ==>
      Apart(a, b)
    requires forall a, b :: a in s.rows + more && b in more && a.id != b.id && ActiveAgg(a) && ActiveAgg(b)
                            ==> a.startBlock != b.startBlock
    ensures TableOk(c, s.(rows := s.rows + more, nextId := s.nextId + |more|))
  {
    var rows := s.rows + more;
    AppendMembers(s.rows, s.nextId, more);
    forall r | r in rows && ValidatedAgg(r) ensures Tiled(rows, r.startBlock, r.endBlock) {
      assert r in s.rows;
      AppendKeepsTile(s.rows, s.nextId, more, r.startBlock, r.endBlock);
    }
    forall x | x in s.relayed ensures RelayOk(rows, x) {
      AppendKeepsTile(s.rows, s.nextId, more, x.start, x.end);
      var r :| r in s.rows && r.id == x.id && r.reqType == Aggregation && r.status in {Complete, Relayed}
               && r.startBlock == x.start && r.endBlock == x.end;
      assert r in rows;
    }
  }

  lemma FreshRange(spans: seq<Span>, nextId: nat, r: Request) returns (i: nat)
    requires r in Stamp(NewRanges(spans), nextId)
    ensures i < |spans| && r == NewRangeRequest(spans[i].lo, spans[i].hi).(id := nextId + i)
  {
    var more := Stamp(NewRanges(spans), nextId);
    i :| 0 <= i < |more| && more[i] == r;
  }

  /** Ordered spans that avoid every active range and the latest block can be inserted. */
  ghost predicate Insertable(s: State, spans: seq<Span>) {
    && NonEmpty(spans) && Ordered(spans)
    && (forall sp :: sp in spans ==> sp.hi <= s.latest || s.latest <= sp.lo)
    && (forall sp, r :: sp in spans && r in s.rows && ActiveRange(r) ==> sp.hi <= r.startBlock || r.endBlock <= sp.lo)
  }

  lemma FreshRangesApart(s: State, spans: seq<Span>, a: Request, b: Request)
    requires Insertable(s, spans)
    requires b in Stamp(NewRanges(spans), s.nextId) && a.id != b.id && ActiveRange(a)
    requires a in s.rows || a in Stamp(NewRanges(spans), s.nextId)
    ensures Apart(a, b)
  {
    var j := FreshRange(spans, s.nextId, b);
    assert spans[j] in spans;
    if a !in s.rows {
      var i := FreshRange(spans, s.nextId, a);
      assert i < j || j < i;
    }
  }

  lemma InsertRangesKeepsTable(c: Config, s: State, spans: seq<Span>)
    requires TableOk(c, s) && Insertable(s, spans)
    ensures TableOk(c, InsertRanges(s, spans))
  {
    var more := Stamp(NewRanges(spans), s.nextId);
    forall r | r in more ensures RowOk(c, r, s.latest) && r.reqType == Range {
      var i := FreshRange(spans, s.nextId, r);
      assert spans[i] in spans;
    }
    forall a, b | a in s.rows + more && b in more && a.id != b.id && ActiveRange(a) && ActiveRange(b)
      ensures Apart(a, b)
    {
      FreshRangesApart(s, spans, a, b);
    }
    AppendKeepsTable(c, s, more);
  }

  // ---------------------------------------------------------------- rows are deleted

  lemma TailIds(rows: seq<Request>, nextId: nat)
    requires IdsOk(rows, nextId) && rows != []
    ensures IdsOk(rows[1..], nextId) && rows[0].id < nextId
    ensures forall r :: r in rows[1..] ==> rows[0].id < r.id
  {
    assert forall i :: 0 <= i < |rows[1..]| ==> rows[1..][i] == rows[i + 1];
  }

  lemma ConsIds(r: Request, rest: seq<Request>, nextId: nat)
    requires IdsOk(rest, nextId) && r.id < nextId && forall x :: x in rest ==> r.id < x.id
    ensures IdsOk([r] + rest, nextId)
  {
  }

  lemma {:induction false} SelectIds(rows: seq<Request>, nextId: nat, w: Where)
    requires IdsOk(rows, nextId)
    ensures IdsOk(Select(rows, w), nextId)
  {
    if rows != [] {
      TailIds(rows, nextId);
      hide IdsOk, Matches;
      SelectIds(rows[1..], nextId, w);
      var rest := Select(rows[1..], w);
      forall r | r in rest ensures rows[0].id < r.id { SelectMember(rows[1..], w, r); }
      ConsIds(rows[0], rest, nextId);
      assert Select(rows, w) == (if Matches(w, rows[0]) then [rows[0]] + rest else rest);
    }
  }

  lemma RestartKeepsTile(rows: seq<Request>, start: nat, end: nat)
    ensures Tile(Select(rows, StatusNotIn(UNRECOVERABLE)), start, end) == Tile(rows, start, end)
  {
    SelectTwice(rows, StatusNotIn(UNRECOVERABLE), ConsecutiveComplete(start, end));
  }

  lemma RestartKeepsRelay(c: Config, s: State, x: Relay)
    requires RelayOk(s.rows, x)
    ensures RelayOk(Select(s.rows, StatusNotIn(UNRECOVERABLE)), x)
  {
    RestartKeepsTile(s.rows, x.start, x.end);
    var r :| r in s.rows && r.id == x.id && r.reqType == Aggregation && r.status in {Complete, Relayed}
             && r.startBlock == x.start && r.endBlock == x.end;
    SelectMember(s.rows, StatusNotIn(UNRECOVERABLE), r);
  }

  lemma RestartKeepsInv(c: Config, s: State)
    requires Inv(c, s)
    ensures Inv(c, Reinitialize(s))
  {
    hide RelayOk, RowOk, Tiled, ChainEnd, Chained;
    var w := StatusNotIn(UNRECOVERABLE);
    var rows := Select(s.rows, w);
    SelectIds(s.rows, s.nextId, w);
    forall r ensures r in rows <==> r in s.rows && Matches(w, r) { SelectMember(s.rows, w, r); }
    forall r | r in rows && ValidatedAgg(r) ensures Tiled(rows, r.startBlock, r.endBlock) {
      RestartKeepsTiled(s.rows, r.startBlock, r.endBlock);
    }
    forall x | x in s.relayed ensures RelayOk(rows, x) {
      RestartKeepsRelay(c, s, x);
    }
  }

  lemma RestartKeepsTiled(rows: seq<Request>, start: nat, end: nat)
    requires Tiled(rows, start, end)
    ensures Tiled(Select(rows, StatusNotIn(UNRECOVERABLE)), start, end)
  {
    RestartKeepsTile(rows, start, end);
  }
}
