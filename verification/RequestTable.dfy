/** The requests table of op-succinct/validity/src/db/client.rs: the row filters and orderings of
    its queries, and its INSERT, UPDATE and DELETE statements. One commitment config and one pair
    of chain ids is fixed, so those columns are not carried. */
module RequestTable {
  import opened Requests
  import opened BlockSpans

  // ---------------------------------------------------------------- queries

  /** The WHERE clauses of the queries. */
  datatype Where =
    | RangesAfterBlock(statuses: set<RequestStatus>, block: nat)
    | CompletedRanges(block: nat)
    | ConsecutiveComplete(start: nat, end: nat)
    | UnrequestedRange(block: nat)
    | UnrequestedAgg(block: nat)
    | CompletedAgg(block: nat)
    | ActiveAggs(start: nat)
    | FailedAggWithCheckpoint(start: nat, end: nat)
    | FailedByBlockRange(start: nat, end: nat)
    | WithStatus(status: RequestStatus)
    | StatusNotIn(excluded: set<RequestStatus>)

  predicate Matches(w: Where, r: Request) {
    match w
    case RangesAfterBlock(statuses, block) => r.reqType == Range && r.status in statuses && r.startBlock >= block
    case CompletedRanges(block) => r.reqType == Range && r.status == Complete && r.startBlock >= block
    case ConsecutiveComplete(start, end) =>
      r.reqType == Range && r.status == Complete && r.startBlock >= start && r.endBlock <= end
    case UnrequestedRange(block) => r.reqType == Range && r.status == Unrequested && r.startBlock >= block
    case UnrequestedAgg(block) => r.reqType == Aggregation && r.status == Unrequested && r.startBlock >= block
    case CompletedAgg(block) => r.reqType == Aggregation && r.status == Complete && r.startBlock == block
    case ActiveAggs(start) => r.reqType == Aggregation && r.status in ACTIVE && r.startBlock == start
    case FailedAggWithCheckpoint(start, end) =>
      r.reqType == Aggregation && r.status == Failed && r.startBlock == start && r.endBlock == end && r.checkpoint.Some?
    // Any request type: the query does not look at the type column.
    case FailedByBlockRange(start, end) =>
      r.startBlock == start && r.endBlock == end && (r.status == Failed || r.status == Cancelled)
    case WithStatus(status) => r.status == status
    case StatusNotIn(excluded) => r.status !in excluded
  }

  function Select(rows: seq<Request>, w: Where): seq<Request> {
    if rows == [] then []
    else (if Matches(w, rows[0]) then [rows[0]] else []) + Select(rows[1..], w)
  }

  function Count(rows: seq<Request>, w: Where): nat { |Select(rows, w)| }

  function InsertByStart(r: Request, rs: seq<Request>): seq<Request> {
    if rs == [] then [r]
    else if r.startBlock <= rs[0].startBlock then [r] + rs
    else [rs[0]] + InsertByStart(r, rs[1..])
  }

  /** ORDER BY start_block ASC. */
  function OrderByStart(rs: seq<Request>): seq<Request> {
    if rs == [] then [] else InsertByStart(rs[0], OrderByStart(rs[1..]))
  }

  function SelectOrdered(rows: seq<Request>, w: Where): seq<Request> {
    OrderByStart(Select(rows, w))
  }

  /** LIMIT 1. */
  function First(rs: seq<Request>): Option<Request> {
    if rs == [] then None else Some(rs[0])
  }

  function Spans(rs: seq<Request>): (spans: seq<Span>)
    ensures |spans| == |rs|
    ensures forall i :: 0 <= i < |rs| ==> spans[i] == Span(rs[i].startBlock, rs[i].endBlock)
  {
    if rs == [] then [] else [Span(rs[0].startBlock, rs[0].endBlock)] + Spans(rs[1..])
  }

  // ---------------------------------------------------------------- statements

  /** The SET clauses of the UPDATE statements. */
  datatype Change =
    | ToStatus(status: RequestStatus)
    | ToProve(proofRequestId: nat)
    | ToComplete(proof: nat)

  function ApplyChange(r: Request, c: Change): Request {
    match c
    case ToStatus(status) => r.(status := status)
    case ToProve(pid) => r.(status := Prove, proofRequestId := Some(pid))
    case ToComplete(proof) => r.(status := Complete, proof := Some(proof))
  }

  /** UPDATE requests SET ... WHERE id = id. */
  function Update(rows: seq<Request>, id: nat, c: Change): (updated: seq<Request>)
    ensures |updated| == |rows|
    ensures forall i :: 0 <= i < |rows| ==> updated[i] == if rows[i].id == id then ApplyChange(rows[i], c) else rows[i]
  {
    seq(|rows|, i requires 0 <= i < |rows| => if rows[i].id == id then ApplyChange(rows[i], c) else rows[i])
  }

  /** Fresh rows get consecutive ids. */
  function Stamp(reqs: seq<Request>, id: nat): (stamped: seq<Request>)
    ensures |stamped| == |reqs|
    ensures forall i :: 0 <= i < |reqs| ==> stamped[i] == reqs[i].(id := id + i)
  {
    seq(|reqs|, i requires 0 <= i < |reqs| => reqs[i].(id := id + i))
  }

  function NewRanges(spans: seq<Span>): (reqs: seq<Request>)
    ensures |reqs| == |spans|
    ensures forall i :: 0 <= i < |spans| ==> reqs[i] == NewRangeRequest(spans[i].lo, spans[i].hi)
  {
    seq(|spans|, i requires 0 <= i < |spans| => NewRangeRequest(spans[i].lo, spans[i].hi))
  }

  /** The table and its id sequence. */
  class DriverDBClient {
    var rows: seq<Request>
    var nextId: nat

    constructor ()
      ensures rows == [] && nextId == 0
    {
      rows := [];
      nextId := 0;
    }

    method InsertRequest(req: Request)
      modifies this
      ensures rows == old(rows) + Stamp([req], old(nextId)) && nextId == old(nextId) + 1
    {
      rows := rows + [req.(id := nextId)];
      nextId := nextId + 1;
    }

    /** `insert_requests`: batches of 100 rows inside one transaction. */
    method InsertRequests(requests: seq<Request>)
      modifies this
      ensures rows == old(rows) + Stamp(requests, old(nextId)) && nextId == old(nextId) + |requests|
    {
      var batchSize := 100;
      var done := 0;
      ghost var before, firstId := rows, nextId;
      while done < |requests|
        invariant 0 <= done <= |requests| && nextId == firstId + done
        invariant |rows| == |before| + done
        invariant forall i :: 0 <= i < |before| ==> rows[i] == before[i]
        invariant forall i :: |before| <= i < |rows| ==>
          rows[i] == requests[i - |before|].(id := firstId + i - |before|)
      {
        var stop := Min(done + batchSize, |requests|);
        rows := rows + Stamp(requests[done..stop], nextId);
        nextId := nextId + (stop - done);
        done := stop;
      }
      assert rows == before + Stamp(requests, firstId);
    }

    method UpdateRequest(id: nat, change: Change)
      modifies this`rows
      ensures rows == Update(old(rows), id, change)
    {
      rows := Update(rows, id, change);
    }

    method DeleteAllRequestsWithStatuses(statuses: set<RequestStatus>)
      modifies this`rows
      ensures rows == Select(old(rows), StatusNotIn(statuses))
    {
      rows := Select(rows, StatusNotIn(statuses));
    }
  }

  // ---------------------------------------------------------------- what the queries return

  lemma {:induction false} SelectMember(rows: seq<Request>, w: Where, r: Request)
    ensures r in Select(rows, w) <==> r in rows && Matches(w, r)
  {
    if rows != [] {
      SelectMember(rows[1..], w, r);
      assert rows == [rows[0]] + rows[1..];
    }
  }

  lemma SelectCons(rows: seq<Request>, w: Where)
    requires rows != []
    ensures Select(rows, w) == (if Matches(w, rows[0]) then [rows[0]] else []) + Select(rows[1..], w)
  {
  }

  lemma TailOfConcat(a: seq<Request>, b: seq<Request>)
    requires a != []
    ensures (a + b)[0] == a[0] && (a + b)[1..] == a[1..] + b
  {
  }

  lemma {:induction false} SelectConcat(a: seq<Request>, b: seq<Request>, w: Where)
    ensures Select(a + b, w) == Select(a, w) + Select(b, w)
  {
    if a == [] {
      assert a + b == b && [] + Select(b, w) == Select(b, w);
    } else {
      hide Matches, Select;
      SelectCons(a, w);
      SelectCons(a + b, w);
      TailOfConcat(a, b);
      SelectConcat(a[1..], b, w);
      Regroup(if Matches(w, a[0]) then [a[0]] else [], Select(a[1..], w), Select(b, w));
    }
  }

  /** Rows that do not match, or do not change, leave the answer as it was. */
  lemma {:induction false} SelectUnaffected(a: seq<Request>, b: seq<Request>, w: Where)
    requires |a| == |b|
    requires forall i :: 0 <= i < |a| ==> a[i] == b[i] || (!Matches(w, a[i]) && !Matches(w, b[i]))
    ensures Select(a, w) == Select(b, w)
  {
    if a != [] {
      SelectUnaffected(a[1..], b[1..], w);
    }
  }

  lemma {:induction false} SelectNone(rows: seq<Request>, w: Where)
    requires forall i :: 0 <= i < |rows| ==> !Matches(w, rows[i])
    ensures Select(rows, w) == []
  {
    if rows != [] { SelectNone(rows[1..], w); }
  }

  lemma {:induction false} SelectAll(rows: seq<Request>, w: Where)
    requires forall i :: 0 <= i < |rows| ==> Matches(w, rows[i])
    ensures Select(rows, w) == rows
  {
    if rows != [] { SelectAll(rows[1..], w); }
  }

  /** Filtering first with a weaker clause changes nothing. */
  lemma {:induction false} SelectTwice(rows: seq<Request>, outer: Where, inner: Where)
    requires forall r :: r in rows && Matches(inner, r) ==> Matches(outer, r)
    ensures Select(Select(rows, outer), inner) == Select(rows, inner)
  {
    if rows != [] {
      assert rows[0] in rows;
      SelectTwice(rows[1..], outer, inner);
      var head := if Matches(outer, rows[0]) then [rows[0]] else [];
      SelectConcat(head, Select(rows[1..], outer), inner);
    }
  }

  /** Replacing one row moves every count by that row alone. */
  lemma CountReplace(rows: seq<Request>, k: nat, r: Request, w: Where)
    requires k < |rows|
    ensures Count(rows[k := r], w) + (if Matches(w, rows[k]) then 1 else 0)
         == Count(rows, w) + (if Matches(w, r) then 1 else 0)
  {
    assert rows == rows[..k] + ([rows[k]] + rows[k + 1..]);
    assert rows[k := r] == rows[..k] + ([r] + rows[k + 1..]);
    SelectConcat(rows[..k], [rows[k]] + rows[k + 1..], w);
    SelectConcat(rows[..k], [r] + rows[k + 1..], w);
    SelectConcat([rows[k]], rows[k + 1..], w);
    SelectConcat([r], rows[k + 1..], w);
  }

  lemma {:induction false} InsertMultiset(r: Request, rs: seq<Request>)
    ensures multiset(InsertByStart(r, rs)) == multiset{r} + multiset(rs)
  {
    if rs != [] && r.startBlock > rs[0].startBlock {
      InsertMultiset(r, rs[1..]);
      assert rs == [rs[0]] + rs[1..];
    }
  }

  /** The ordering only permutes. */
  lemma {:induction false} OrderMultiset(rs: seq<Request>)
    ensures multiset(OrderByStart(rs)) == multiset(rs)
  {
    if rs != [] {
      OrderMultiset(rs[1..]);
      InsertMultiset(rs[0], OrderByStart(rs[1..]));
      assert rs == [rs[0]] + rs[1..];
    }
  }

  lemma OrderedMember(rows: seq<Request>, w: Where, r: Request)
    ensures r in SelectOrdered(rows, w) <==> r in rows && Matches(w, r)
  {
    OrderMultiset(Select(rows, w));
    SelectMember(rows, w, r);
    assert r in SelectOrdered(rows, w) <==> r in multiset(SelectOrdered(rows, w));
    assert r in Select(rows, w) <==> r in multiset(Select(rows, w));
  }

  ghost predicate StartsSorted(rs: seq<Request>) {
    forall i, j :: 0 <= i < j < |rs| ==> rs[i].startBlock <= rs[j].startBlock
  }

  ghost predicate PairwiseApart(rs: seq<Request>) {
    forall i, j :: 0 <= i < j < |rs| ==> Apart(rs[i], rs[j])
  }

  lemma InsertMember(r: Request, rs: seq<Request>, x: Request)
    ensures x in InsertByStart(r, rs) <==> x == r || x in rs
  {
    InsertMultiset(r, rs);
    assert x in InsertByStart(r, rs) <==> x in multiset(InsertByStart(r, rs));
  }

  lemma {:induction false} InsertSorted(r: Request, rs: seq<Request>)
    requires StartsSorted(rs)
    ensures StartsSorted(InsertByStart(r, rs))
  {
    if rs != [] && r.startBlock > rs[0].startBlock {
      var rest := rs[1..];
      InsertSorted(r, rest);
      var ins := InsertByStart(r, rest);
      forall i | 0 <= i < |ins| ensures rs[0].startBlock <= ins[i].startBlock {
        InsertMember(r, rest, ins[i]);
      }
    }
  }

  lemma {:induction false} InsertApart(r: Request, rs: seq<Request>)
    requires PairwiseApart(rs) && forall x :: x in rs ==> Apart(r, x)
    ensures PairwiseApart(InsertByStart(r, rs))
  {
    if rs != [] && r.startBlock > rs[0].startBlock {
      var rest := rs[1..];
      InsertApart(r, rest);
      var ins := InsertByStart(r, rest);
      assert Apart(r, rs[0]);
      forall i | 0 <= i < |ins| ensures Apart(rs[0], ins[i]) {
        InsertMember(r, rest, ins[i]);
      }
    }
  }

  lemma {:induction false} OrderShape(rs: seq<Request>)
    ensures StartsSorted(OrderByStart(rs))
    ensures PairwiseApart(rs) ==> PairwiseApart(OrderByStart(rs))
  {
    if rs != [] {
      var rest := OrderByStart(rs[1..]);
      OrderShape(rs[1..]);
      InsertSorted(rs[0], rest);
      if PairwiseApart(rs) {
        forall x | x in rest ensures Apart(rs[0], x) {
          OrderMultiset(rs[1..]);
          assert x in multiset(rest);
          var j :| 0 <= j < |rs[1..]| && rs[1..][j] == x;
          assert rs[j + 1] == x;
        }
        InsertApart(rs[0], rest);
      }
    }
  }

  lemma {:induction false} SelectApart(rows: seq<Request>, w: Where)
    requires forall i, j :: 0 <= i < j < |rows| && Matches(w, rows[i]) && Matches(w, rows[j]) ==>
      Apart(rows[i], rows[j])
    ensures PairwiseApart(Select(rows, w))
  {
    if rows != [] {
      SelectApart(rows[1..], w);
      var rest := Select(rows[1..], w);
      forall k | 0 <= k < |rest| && Matches(w, rows[0]) ensures Apart(rows[0], rest[k]) {
        SelectMember(rows[1..], w, rest[k]);
        var j :| 0 <= j < |rows[1..]| && rows[1..][j] == rest[k];
        assert rows[j + 1] == rest[k];
      }
    }
  }

  /** Requests that share no block come back in block order. */
  lemma SelectOrderedShape(rows: seq<Request>, w: Where)
    requires forall i, j :: 0 <= i < j < |rows| && Matches(w, rows[i]) && Matches(w, rows[j]) ==>
      Apart(rows[i], rows[j])
    requires forall r :: r in rows && Matches(w, r) ==> r.startBlock < r.endBlock
    ensures StartsSorted(SelectOrdered(rows, w))
    ensures Ordered(Spans(SelectOrdered(rows, w))) && NonEmpty(Spans(SelectOrdered(rows, w)))
  {
    SelectApart(rows, w);
    OrderShape(Select(rows, w));
    var rs := SelectOrdered(rows, w);
    forall i | 0 <= i < |rs| ensures rs[i].startBlock < rs[i].endBlock {
      OrderedMember(rows, w, rs[i]);
    }
  }

  /** The first row of an ordered answer is a matching row of least start block. */
  lemma FirstIsLeast(rows: seq<Request>, w: Where)
    ensures match First(SelectOrdered(rows, w))
            case None => forall r :: r in rows ==> !Matches(w, r)
            case Some(f) => f in rows && Matches(w, f)
                            && forall r :: r in rows && Matches(w, r) ==> f.startBlock <= r.startBlock
  {
    OrderShape(Select(rows, w));
    var rs := SelectOrdered(rows, w);
    forall r ensures r in rs <==> r in rows && Matches(w, r) {
      OrderedMember(rows, w, r);
    }
  }
}
