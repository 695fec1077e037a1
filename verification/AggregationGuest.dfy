/** The aggregation program of op-succinct/programs/aggregation/src/main.rs. The header hash and the
    recursive proof verification are parameters. */
module AggregationGuest {
  import opened Requests

  type Hash = nat

  datatype Header = Header(number: nat, parentHash: Hash, rest: nat)

  datatype BootInfo = BootInfo(l1Head: Hash, l2PreRoot: Hash, l2PostRoot: Hash, l2BlockNumber: nat,
                               rollupConfigHash: Hash)

  datatype AggregationInputs = AggregationInputs(
    bootInfos: seq<BootInfo>,
    latestL1CheckpointHead: Hash,
    multiBlockVKey: nat,
    proverAddress: nat)

  datatype AggregationOutputs = AggregationOutputs(
    l1Head: Hash,
    l2PreRoot: Hash,
    l2PostRoot: Hash,
    l2BlockNumber: nat,
    rollupConfigHash: Hash,
    multiBlockVKey: nat,
    proverAddress: nat)

  // ---------------------------------------------------------------- what acceptance means

  /** Each boot info starts at the root where the one before it ended, under the same rollup config. */
  ghost predicate Sequential(boots: seq<BootInfo>) {
    forall i, j :: 0 <= i && j == i + 1 < |boots| ==>
      boots[i].l2PostRoot == boots[j].l2PreRoot && boots[i].rollupConfigHash == boots[j].rollupConfigHash
  }

  /** The hash that the header after the first `k` headers must have as its parent; `tip` at the end. */
  function NextHash(headers: seq<Header>, tip: Hash, k: nat): Hash
    requires k <= |headers|
  {
    if k == |headers| then tip else headers[k].parentHash
  }

  /** The headers are parent-linked and the last one hashes to `tip`. */
  ghost predicate Linked(hashOf: Header -> Hash, headers: seq<Header>, tip: Hash) {
    forall k :: 0 <= k < |headers| ==> hashOf(headers[k]) == NextHash(headers, tip, k + 1)
  }

  ghost predicate HashAmong(hashOf: Header -> Hash, headers: seq<Header>, h: Hash) {
    exists k :: 0 <= k < |headers| && hashOf(headers[k]) == h
  }

  lemma HashAmongTail(hashOf: Header -> Hash, headers: seq<Header>, h: Hash)
    requires headers != []
    ensures HashAmong(hashOf, headers, h) <==> hashOf(headers[0]) == h || HashAmong(hashOf, headers[1..], h)
  {
    if HashAmong(hashOf, headers, h) && hashOf(headers[0]) != h {
      var k :| 0 <= k < |headers| && hashOf(headers[k]) == h;
      assert headers[1..][k - 1] == headers[k];
    }
  }

  ghost predicate Accepts(hashOf: Header -> Hash, verifies: (nat, BootInfo) -> bool, inputs: AggregationInputs,
                          headers: seq<Header>)
  {
    && inputs.bootInfos != []
    && Sequential(inputs.bootInfos)
    && (forall i :: 0 <= i < |inputs.bootInfos| ==> verifies(inputs.multiBlockVKey, inputs.bootInfos[i]))
    && Linked(hashOf, headers, inputs.latestL1CheckpointHead)
    && (forall i :: 0 <= i < |inputs.bootInfos| ==> HashAmong(hashOf, headers, inputs.bootInfos[i].l1Head))
  }

  function Consolidated(inputs: AggregationInputs): AggregationOutputs
    requires inputs.bootInfos != []
  {
    var first, last := inputs.bootInfos[0], inputs.bootInfos[|inputs.bootInfos| - 1];
    AggregationOutputs(inputs.latestL1CheckpointHead, first.l2PreRoot, last.l2PostRoot, last.l2BlockNumber,
                       last.rollupConfigHash, inputs.multiBlockVKey, inputs.proverAddress)
  }

  // ---------------------------------------------------------------- the program

  /** The guest's header walk with its mark-map: `None` is a failed assertion. */
  method WalkHeaders(hashOf: Header -> Hash, headers: seq<Header>, checkpoint: Hash, boots: seq<BootInfo>)
    returns (ok: bool)
    ensures ok <==> Linked(hashOf, headers, checkpoint)
                    && forall i :: 0 <= i < |boots| ==> HashAmong(hashOf, headers, boots[i].l1Head)
  {
    var l1HeadsMap := map b | b in boots :: b.l1Head := false;
    ghost var heads := l1HeadsMap.Keys;
    assert forall i :: 0 <= i < |boots| ==> boots[i] in boots && boots[i].l1Head in heads;
    var currentHash := checkpoint;
    var k := |headers|;
    while k > 0
      invariant 0 <= k <= |headers|
      invariant currentHash == NextHash(headers, checkpoint, k)
      invariant forall j :: k <= j < |headers| ==> hashOf(headers[j]) == NextHash(headers, checkpoint, j + 1)
      invariant l1HeadsMap.Keys == heads
      invariant forall h :: h in heads ==> (l1HeadsMap[h] <==> HashAmong(hashOf, headers[k..], h))
    {
      k := k - 1;
      var header := headers[k];
      forall h
        ensures HashAmong(hashOf, headers[k..], h) <==> hashOf(header) == h || HashAmong(hashOf, headers[k + 1..], h)
      {
        HashAmongTail(hashOf, headers[k..], h);
        assert headers[k..][1..] == headers[k + 1..];
      }
      hide HashAmong;
      if currentHash != hashOf(header) { return false; }
      if currentHash in l1HeadsMap {
        l1HeadsMap := l1HeadsMap[currentHash := true];
      }
      currentHash := header.parentHash;
    }
    assert headers[0..] == headers;
    ok := forall h :: h in l1HeadsMap.Keys ==> l1HeadsMap[h];
    if ok {
      forall i | 0 <= i < |boots| ensures HashAmong(hashOf, headers, boots[i].l1Head) {
        assert boots[i].l1Head in heads;
      }
    } else {
      ghost var h :| h in heads && !l1HeadsMap[h];
      ghost var b :| b in boots && b.l1Head == h;
      ghost var i :| 0 <= i < |boots| && boots[i] == b;
      assert !HashAmong(hashOf, headers, boots[i].l1Head);
    }
  }

  /** `main`: the committed outputs, or `None` when an assertion fails. */
  method Aggregate(hashOf: Header -> Hash, verifies: (nat, BootInfo) -> bool, inputs: AggregationInputs,
                   headers: seq<Header>)
    returns (r: Option<AggregationOutputs>)
    ensures r.Some? <==> Accepts(hashOf, verifies, inputs, headers)
    ensures r.Some? ==> r.value == Consolidated(inputs)
  {
    var boots := inputs.bootInfos;
    if |boots| == 0 { return None; }
    var i := 1;
    while i < |boots|
      invariant 1 <= i <= |boots|
      invariant forall a, b :: 0 <= a && b == a + 1 < i ==>
        boots[a].l2PostRoot == boots[b].l2PreRoot && boots[a].rollupConfigHash == boots[b].rollupConfigHash
    {
      if boots[i - 1].l2PostRoot != boots[i].l2PreRoot { return None; }
      if boots[i - 1].rollupConfigHash != boots[i].rollupConfigHash { return None; }
      i := i + 1;
    }
    i := 0;
    while i < |boots|
      invariant 0 <= i <= |boots|
      invariant forall k :: 0 <= k < i ==> verifies(inputs.multiBlockVKey, boots[k])
    {
      if !verifies(inputs.multiBlockVKey, boots[i]) { return None; }
      i := i + 1;
    }
    var walked := WalkHeaders(hashOf, headers, inputs.latestL1CheckpointHead, boots);
    if !walked { return None; }
    var first, last := boots[0], boots[|boots| - 1];
    return Some(AggregationOutputs(inputs.latestL1CheckpointHead, first.l2PreRoot, last.l2PostRoot, last.l2BlockNumber,
                                   last.rollupConfigHash, inputs.multiBlockVKey, inputs.proverAddress));
  }

  // ---------------------------------------------------------------- what acceptance gives

  ghost predicate CollisionFree(hashOf: Header -> Hash) {
    forall a, b :: hashOf(a) == hashOf(b) ==> a == b
  }

  /** Block `a` is block `b` or one of its ancestors. */
  ghost predicate Ancestor(hashOf: Header -> Hash, a: Hash, b: Hash) {
    exists hs: seq<Header> :: hs != [] && Linked(hashOf, hs, b) && hashOf(hs[0]) == a
  }

  /** A parent-linked list of headers is fixed by its last hash: of two such lists, the shorter is the
      end of the longer. */
  lemma {:induction false} HeadersAreUnique(hashOf: Header -> Hash, a: seq<Header>, b: seq<Header>, tip: Hash)
    requires CollisionFree(hashOf) && Linked(hashOf, a, tip) && Linked(hashOf, b, tip) && |a| <= |b|
    ensures b[|b| - |a|..] == a
    decreases |a|
  {
    if a != [] {
      var la, lb := a[|a| - 1], b[|b| - 1];
      assert hashOf(la) == NextHash(a, tip, |a|) == tip && hashOf(lb) == NextHash(b, tip, |b|) == tip;
      assert la == lb;
      LinkedInit(hashOf, a, tip);
      LinkedInit(hashOf, b, tip);
      HeadersAreUnique(hashOf, a[..|a| - 1], b[..|b| - 1], la.parentHash);
      assert b[|b| - |a|..] == b[..|b| - 1][|b| - |a|..] + [lb];
      assert a == a[..|a| - 1] + [la];
    }
  }

  lemma LinkedInit(hashOf: Header -> Hash, hs: seq<Header>, tip: Hash)
    requires hs != [] && Linked(hashOf, hs, tip)
    ensures Linked(hashOf, hs[..|hs| - 1], hs[|hs| - 1].parentHash)
  {
    var init := hs[..|hs| - 1];
    forall k | 0 <= k < |init| ensures hashOf(init[k]) == NextHash(init, hs[|hs| - 1].parentHash, k + 1) {
      assert hashOf(hs[k]) == NextHash(hs, tip, k + 1);
    }
  }

  lemma LinkedSlice(hashOf: Header -> Hash, hs: seq<Header>, tip: Hash, i: nat, j: nat)
    requires Linked(hashOf, hs, tip) && i <= j < |hs|
    ensures Ancestor(hashOf, hashOf(hs[i]), hashOf(hs[j]))
    ensures Ancestor(hashOf, hashOf(hs[i]), tip)
  {
    var slice := hs[i..j + 1];
    forall k | 0 <= k < |slice| ensures hashOf(slice[k]) == NextHash(slice, hashOf(hs[j]), k + 1) {
      assert hashOf(hs[i + k]) == NextHash(hs, tip, i + k + 1);
    }
    assert Linked(hashOf, slice, hashOf(hs[j])) && slice[0] == hs[i];
    var rest := hs[i..];
    forall k | 0 <= k < |rest| ensures hashOf(rest[k]) == NextHash(rest, tip, k + 1) {
      assert hashOf(hs[i + k]) == NextHash(hs, tip, i + k + 1);
    }
    assert Linked(hashOf, rest, tip) && rest[0] == hs[i];
  }

  /** After acceptance every range's L1 head is an ancestor of the checkpoint, and any two of them lie
      on one line of ancestors. */
  lemma HeadsLieOnOneChain(hashOf: Header -> Hash, verifies: (nat, BootInfo) -> bool, inputs: AggregationInputs,
                           headers: seq<Header>,
                           i: nat, j: nat)
    requires Accepts(hashOf, verifies, inputs, headers)
    requires i < |inputs.bootInfos| && j < |inputs.bootInfos|
    ensures var (a, b) := (inputs.bootInfos[i].l1Head, inputs.bootInfos[j].l1Head);
            && Ancestor(hashOf, a, inputs.latestL1CheckpointHead)
            && (Ancestor(hashOf, a, b) || Ancestor(hashOf, b, a))
  {
    var a, b := inputs.bootInfos[i].l1Head, inputs.bootInfos[j].l1Head;
    assert HashAmong(hashOf, headers, a) && HashAmong(hashOf, headers, b);
    var k :| 0 <= k < |headers| && hashOf(headers[k]) == a;
    var m :| 0 <= m < |headers| && hashOf(headers[m]) == b;
    LinkedSlice(hashOf, headers, inputs.latestL1CheckpointHead, k, k);
    if k <= m {
      LinkedSlice(hashOf, headers, inputs.latestL1CheckpointHead, k, m);
    } else {
      LinkedSlice(hashOf, headers, inputs.latestL1CheckpointHead, m, k);
    }
  }

  /** What the range program claims: under a rollup config, the data up to an L1 block leads from the output
      root `pre` to the output root `post`, that of L2 block `number`. */
  type Claim = (Hash, Hash, Hash, Hash, nat) -> bool

  /** Claims compose under one config, and stay true for later L1 blocks. */
  ghost predicate ClaimsCompose(hashOf: Header -> Hash, derives: Claim) {
    && (forall config, l1, p, q, r, m, n ::
          derives(config, l1, p, q, m) && derives(config, l1, q, r, n) ==> derives(config, l1, p, r, n))
    && (forall config, a, b, p, q, n :: derives(config, a, p, q, n) && Ancestor(hashOf, a, b) ==>
      derives(config, b, p, q, n))
  }

  /** A range proof is verified only if what it commits to is true. */
  ghost predicate ProofsSound(verifies: (nat, BootInfo) -> bool, vkey: nat, derives: Claim) {
    forall b: BootInfo :: verifies(vkey, b) ==>
      derives(b.rollupConfigHash, b.l1Head, b.l2PreRoot, b.l2PostRoot, b.l2BlockNumber)
  }

  lemma {:induction false} PrefixDerives(hashOf: Header -> Hash, verifies: (nat, BootInfo) -> bool, derives: Claim,
                                         inputs: AggregationInputs, headers: seq<Header>, n: nat)
    requires Accepts(hashOf, verifies, inputs, headers) && ClaimsCompose(hashOf, derives)
    requires ProofsSound(verifies, inputs.multiBlockVKey, derives)
    requires 0 < n <= |inputs.bootInfos|
    ensures var last := inputs.bootInfos[n - 1];
            derives(last.rollupConfigHash, inputs.latestL1CheckpointHead, inputs.bootInfos[0].l2PreRoot,
                    last.l2PostRoot, last.l2BlockNumber)
    decreases n
  {
    var tip, b := inputs.latestL1CheckpointHead, inputs.bootInfos[n - 1];
    HeadsLieOnOneChain(hashOf, verifies, inputs, headers, n - 1, n - 1);
    assert derives(b.rollupConfigHash, b.l1Head, b.l2PreRoot, b.l2PostRoot, b.l2BlockNumber);
    assert derives(b.rollupConfigHash, tip, b.l2PreRoot, b.l2PostRoot, b.l2BlockNumber);
    if n > 1 {
      var a := inputs.bootInfos[n - 2];
      PrefixDerives(hashOf, verifies, derives, inputs, headers, n - 1);
      assert a.l2PostRoot == b.l2PreRoot && a.rollupConfigHash == b.rollupConfigHash;
    }
  }

  /** Soundness: if only true range claims are verified, the one claim that an accepted aggregation commits
      to is true: under the committed config, the data up to the checkpointed L1 block leads from the first
      root to the last one, that of the committed L2 block. All ranges were proven under that config. */
  lemma AggregationIsSound(hashOf: Header -> Hash, verifies: (nat, BootInfo) -> bool, derives: Claim,
                           inputs: AggregationInputs, headers: seq<Header>)
    requires Accepts(hashOf, verifies, inputs, headers) && ClaimsCompose(hashOf, derives)
    requires ProofsSound(verifies, inputs.multiBlockVKey, derives)
    ensures var out := Consolidated(inputs);
            && derives(out.rollupConfigHash, out.l1Head, out.l2PreRoot, out.l2PostRoot, out.l2BlockNumber)
            && forall i :: 0 <= i < |inputs.bootInfos| ==> inputs.bootInfos[i].rollupConfigHash == out.rollupConfigHash
  {
    PrefixDerives(hashOf, verifies, derives, inputs, headers, |inputs.bootInfos|);
    SameConfig(inputs.bootInfos, |inputs.bootInfos| - 1);
  }

  lemma {:induction false} SameConfig(boots: seq<BootInfo>, n: nat)
    requires Sequential(boots) && n < |boots|
    ensures forall i :: 0 <= i <= n ==> boots[i].rollupConfigHash == boots[n].rollupConfigHash
    decreases n
  {
    if n > 0 {
      SameConfig(boots, n - 1);
      assert boots[n - 1].rollupConfigHash == boots[n].rollupConfigHash;
    }
  }
}
