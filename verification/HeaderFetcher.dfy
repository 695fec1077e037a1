/** How the host collects the L1 headers that the aggregation program walks
    (op-succinct/utils/host/src/fetcher.rs). The L1 node is a pair of lookups. */
module HeaderFetcher {
  import opened Requests
  import opened AggregationGuest

  /** `Fails` is an error of the fetch, `Panics` an `unwrap` of nothing. */
  datatype Outcome<+T> = Done(value: T) | Fails | Panics

  datatype Node = Node(byHash: Hash -> Option<Header>, byNumber: nat -> Option<Header>)

  const U64_MAX: nat := 0xFFFF_FFFF_FFFF_FFFF

  // ---------------------------------------------------------------- the earliest L1 head

  ghost predicate Known(node: Node, boots: seq<BootInfo>) {
    forall b :: b in boots ==> node.byHash(b.l1Head).Some?
  }

  function Height(node: Node, b: BootInfo): nat {
    match node.byHash(b.l1Head) case Some(h) => h.number case None => U64_MAX
  }

  /** `h` is the header of some boot info's L1 head and no boot info has a lower one. */
  ghost predicate IsEarliest(node: Node, boots: seq<BootInfo>, h: Header) {
    && (exists b :: b in boots && node.byHash(b.l1Head) == Some(h))
    && (forall b :: b in boots ==> h.number <= Height(node, b))
  }

  /** `get_earliest_l1_head_in_batch`: it fails exactly when the node does not know some head, and finds
      nothing to unwrap exactly when no head lies below the initial bound. */
  method GetEarliestL1HeadInBatch(node: Node, boots: seq<BootInfo>) returns (r: Outcome<Header>)
    ensures r.Fails? <==> !Known(node, boots)
    ensures r.Panics? <==> Known(node, boots) && forall b :: b in boots ==> Height(node, b) >= U64_MAX
    ensures r.Done? ==> IsEarliest(node, boots, r.value)
  {
    var earliestBlockNum := U64_MAX;
    var earliest: Option<Header> := None;
    var i := 0;
    while i < |boots|
      invariant 0 <= i <= |boots|
      invariant forall k :: 0 <= k < i ==>
        node.byHash(boots[k].l1Head).Some? && earliestBlockNum <= Height(node, boots[k])
      invariant earliest == None ==> earliestBlockNum == U64_MAX
      invariant earliest.Some? ==>
        && earliest.value.number == earliestBlockNum < U64_MAX
        && exists k :: 0 <= k < i && node.byHash(boots[k].l1Head) == earliest
    {
      assert boots[i] in boots;
      var header := node.byHash(boots[i].l1Head);
      if header == None { return Fails; }
      if header.value.number < earliestBlockNum {
        earliestBlockNum := header.value.number;
        earliest := header;
      }
      i := i + 1;
    }
    if earliest == None { return Panics; }
    return Done(earliest.value);
  }

  // ---------------------------------------------------------------- the headers between

  /** The header numbers asked for: none when `start` lies above `end`. */
  function RangeSize(start: nat, end: nat): nat { if start <= end then end - start + 1 else 0 }

  ghost predicate MissingBetween(node: Node, start: nat, end: nat) {
    exists n: nat :: start <= n <= end && node.byNumber(n) == None
  }

  /** `fetch_headers_in_range`, both ends included and in order. */
  method FetchHeadersInRange(node: Node, start: nat, end: nat) returns (r: Outcome<seq<Header>>)
    ensures !r.Panics?
    ensures r.Fails? <==> MissingBetween(node, start, end)
    ensures r.Done? ==> HeadersBetween(node, start, end, r.value)
  {
    var headers := [];
    var n := start;
    while n <= end
      invariant n == start + |headers| && (n > end ==> |headers| == RangeSize(start, end))
      invariant forall k :: 0 <= k < |headers| ==> node.byNumber(start + k) == Some(headers[k])
      decreases end + 1 - n
    {
      var header := node.byNumber(n);
      if header == None { return Fails; }
      headers := headers + [header.value];
      n := n + 1;
    }
    forall m: nat | start <= m <= end ensures node.byNumber(m).Some? {
      assert node.byNumber(start + (m - start)) == Some(headers[m - start]);
    }
    return Done(headers);
  }

  ghost predicate HeadersBetween(node: Node, start: nat, end: nat, headers: seq<Header>) {
    |headers| == RangeSize(start, end) && forall k :: 0 <= k < |headers| ==>
      node.byNumber(start + k) == Some(headers[k])
  }

  /** The headers from the earliest L1 head to the checkpoint, in the order the guest expects. */
  ghost predicate HeadersFor(node: Node, boots: seq<BootInfo>, checkpoint: Hash, headers: seq<Header>) {
    exists first, last: Header :: IsEarliest(node, boots, first) && node.byHash(checkpoint) == Some(last)
      && HeadersBetween(node, first.number, last.number, headers)
  }

  /** The node lacks the header of some block from a boot info's L1 head up to `last`. */
  ghost predicate Missing(node: Node, boots: seq<BootInfo>, last: nat) {
    exists b, n: nat :: b in boots && Height(node, b) <= n <= last && node.byNumber(n) == None
  }

  lemma MissingFromEarliest(node: Node, boots: seq<BootInfo>, first: Header, last: nat)
    requires IsEarliest(node, boots, first)
    ensures Missing(node, boots, last) <==> MissingBetween(node, first.number, last)
  {
    var b :| b in boots && node.byHash(b.l1Head) == Some(first);
    assert Height(node, b) == first.number;
    if Missing(node, boots, last) {
      var d, n: nat :| d in boots && Height(node, d) <= n <= last && node.byNumber(n) == None;
      assert first.number <= n;
    }
  }

  /** The node knows everything that the fetch asks it for. */
  ghost predicate Fetchable(node: Node, boots: seq<BootInfo>, checkpoint: Hash) {
    && Known(node, boots)
    && (exists b :: b in boots && Height(node, b) < U64_MAX)
    && node.byHash(checkpoint).Some?
    && !Missing(node, boots, node.byHash(checkpoint).value.number)
  }

  /** `get_header_preimages`. */
  method GetHeaderPreimages(node: Node, boots: seq<BootInfo>, checkpoint: Hash) returns (r: Outcome<seq<Header>>)
    ensures r.Done? ==> HeadersFor(node, boots, checkpoint, r.value)
    ensures r.Panics? <==> Known(node, boots) && forall b :: b in boots ==> Height(node, b) >= U64_MAX
    ensures r.Done? <==> Fetchable(node, boots, checkpoint)
  {
    var startHeader := GetEarliestL1HeadInBatch(node, boots);
    hide Missing, MissingBetween, Height;
    if !startHeader.Done? { return if startHeader.Fails? then Fails else Panics; }
    var latestHeader := node.byHash(checkpoint);
    if latestHeader == None { return Fails; }
    r := FetchHeadersInRange(node, startHeader.value.number, latestHeader.value.number);
    MissingFromEarliest(node, boots, startHeader.value, latestHeader.value.number);
  }

  // ---------------------------------------------------------------- what the guest makes of them

  /** The L1 chain up to the node's tip: headers numbered from 0, parent-linked, told apart by hash. */
  ghost predicate Chain(hashOf: Header -> Hash, canon: seq<Header>) {
    && (forall i :: 0 <= i < |canon| ==> canon[i].number == i)
    && (forall i, j :: 0 <= i && j == i + 1 < |canon| ==> canon[j].parentHash == hashOf(canon[i]))
    && (forall i, j :: 0 <= i < j < |canon| ==> hashOf(canon[i]) != hashOf(canon[j]))
  }

  /** The node answers from that chain. */
  ghost predicate Serves(node: Node, hashOf: Header -> Hash, canon: seq<Header>) {
    && Chain(hashOf, canon) && |canon| <= U64_MAX
    && (forall i :: 0 <= i < |canon| ==> node.byHash(hashOf(canon[i])) == Some(canon[i]))
    && (forall n: nat :: node.byNumber(n) == if n < |canon| then Some(canon[n]) else None)
  }

  ghost predicate Canonical(hashOf: Header -> Hash, canon: seq<Header>, h: Hash) {
    exists i :: 0 <= i < |canon| && hashOf(canon[i]) == h
  }

  ghost predicate AllCanonical(hashOf: Header -> Hash, canon: seq<Header>, boots: seq<BootInfo>) {
    forall b :: b in boots ==> Canonical(hashOf, canon, b.l1Head)
  }

  lemma CanonicalHeight(node: Node, hashOf: Header -> Hash, canon: seq<Header>, b: BootInfo)
    requires Serves(node, hashOf, canon) && Canonical(hashOf, canon, b.l1Head)
    ensures node.byHash(b.l1Head).Some? && Height(node, b) < |canon| && hashOf(canon[Height(node, b)]) == b.l1Head
    ensures forall i :: 0 <= i < |canon| && hashOf(canon[i]) == b.l1Head ==> i == Height(node, b)
  {
  }

  /** With canonical heads and a canonical checkpoint the fetch always succeeds. */
  lemma FetchCannotFail(node: Node, hashOf: Header -> Hash, canon: seq<Header>, boots: seq<BootInfo>, checkpoint: nat)
    requires Serves(node, hashOf, canon) && boots != [] && AllCanonical(hashOf, canon, boots) && checkpoint < |canon|
    ensures Fetchable(node, boots, hashOf(canon[checkpoint]))
  {
    forall b | b in boots ensures node.byHash(b.l1Head).Some? && Height(node, b) < U64_MAX {
      CanonicalHeight(node, hashOf, canon, b);
    }
    assert boots[0] in boots;
  }

  /** The fetched headers are the stretch of the chain from the lowest head to the checkpoint. */
  lemma HeadersAreChainSlice(node: Node, hashOf: Header -> Hash, canon: seq<Header>, boots: seq<BootInfo>,
                             checkpoint: nat,
                             headers: seq<Header>) returns (low: nat)
    requires Serves(node, hashOf, canon) && AllCanonical(hashOf, canon, boots) && checkpoint < |canon|
    requires HeadersFor(node, boots, hashOf(canon[checkpoint]), headers)
    ensures forall b :: b in boots ==> low <= Height(node, b)
    ensures exists b :: b in boots && low == Height(node, b)
    ensures headers == if low <= checkpoint then canon[low..checkpoint + 1] else []
  {
    TipHeader(node, hashOf, canon, checkpoint);
    hide Serves, AllCanonical, HeadersBetween;
    var first, last: Header :| IsEarliest(node, boots, first) && node.byHash(hashOf(canon[checkpoint])) == Some(last)
      && HeadersBetween(node, first.number, last.number, headers);
    low := first.number;
    var b :| b in boots && node.byHash(b.l1Head) == Some(first);
    assert Height(node, b) == low;
    FetchedSlice(node, hashOf, canon, low, checkpoint, headers);
  }

  lemma TipHeader(node: Node, hashOf: Header -> Hash, canon: seq<Header>, checkpoint: nat)
    requires Serves(node, hashOf, canon) && checkpoint < |canon|
    ensures node.byHash(hashOf(canon[checkpoint])) == Some(canon[checkpoint]) && canon[checkpoint].number == checkpoint
  {
  }

  lemma FetchedSlice(node: Node, hashOf: Header -> Hash, canon: seq<Header>, low: nat, checkpoint: nat,
                     headers: seq<Header>)
    requires Serves(node, hashOf, canon) && checkpoint < |canon| && HeadersBetween(node, low, checkpoint, headers)
    ensures headers == if low <= checkpoint then canon[low..checkpoint + 1] else []
  {
    forall k | 0 <= k < |headers| ensures headers[k] == canon[low + k] {
      assert node.byNumber(low + k) == Some(headers[k]);
    }
  }

  lemma SliceIsLinked(hashOf: Header -> Hash, canon: seq<Header>, low: nat, checkpoint: nat)
    requires Chain(hashOf, canon) && low <= checkpoint < |canon|
    ensures Linked(hashOf, canon[low..checkpoint + 1], hashOf(canon[checkpoint]))
  {
    var hs := canon[low..checkpoint + 1];
    forall k | 0 <= k < |hs| ensures hashOf(hs[k]) == NextHash(hs, hashOf(canon[checkpoint]), k + 1) {
      assert hs[k] == canon[low + k];
      if k + 1 < |hs| {
        assert hs[k + 1] == canon[low + k + 1] && canon[low + k + 1].parentHash == hashOf(canon[low + k]);
      }
    }
  }

  lemma AmongSlice(node: Node, hashOf: Header -> Hash, canon: seq<Header>, low: nat, checkpoint: nat, b: BootInfo)
    requires Serves(node, hashOf, canon) && Canonical(hashOf, canon, b.l1Head)
    requires low <= Height(node, b) && low <= checkpoint < |canon|
    ensures HashAmong(hashOf, canon[low..checkpoint + 1], b.l1Head) <==> Height(node, b) <= checkpoint
  {
    CanonicalHeight(node, hashOf, canon, b);
    var hs, at := canon[low..checkpoint + 1], Height(node, b);
    if at <= checkpoint {
      assert hs[at - low] == canon[at];
    }
    if HashAmong(hashOf, hs, b.l1Head) {
      var k :| 0 <= k < |hs| && hashOf(hs[k]) == b.l1Head;
      assert hs[k] == canon[low + k];
    }
  }

  /** Completeness of the host: the guest's header checks pass on the fetched headers exactly when no
      range proof was made against an L1 block above the checkpoint. */
  lemma FetchedHeadersPassIff(node: Node, hashOf: Header -> Hash, canon: seq<Header>, boots: seq<BootInfo>,
                              checkpoint: nat,
                              headers: seq<Header>)
    requires Serves(node, hashOf, canon) && AllCanonical(hashOf, canon, boots) && checkpoint < |canon|
    requires HeadersFor(node, boots, hashOf(canon[checkpoint]), headers)
    ensures (Linked(hashOf, headers, hashOf(canon[checkpoint])) && forall i :: 0 <= i < |boots| ==>
      HashAmong(hashOf, headers, boots[i].l1Head))
       <==> forall b :: b in boots ==> Height(node, b) <= checkpoint
  {
    var low := HeadersAreChainSlice(node, hashOf, canon, boots, checkpoint, headers);
    var b :| b in boots && low == Height(node, b);
    if low <= checkpoint {
      SliceIsLinked(hashOf, canon, low, checkpoint);
      forall b | b in boots ensures HashAmong(hashOf, headers, b.l1Head) <==> Height(node, b) <= checkpoint {
        AmongSlice(node, hashOf, canon, low, checkpoint, b);
      }
      hide HashAmong, Linked, Serves, AllCanonical, HeadersFor, Height;
      assert forall i :: 0 <= i < |boots| ==> boots[i] in boots;
    } else {
      var i :| 0 <= i < |boots| && boots[i] == b;
      assert !HashAmong(hashOf, headers, boots[i].l1Head);
    }
  }
}
