/** From the request table to the committed outputs: the witness of an aggregation
    (`agg_proof_witnessgen`, op-succinct/validity/src/proof_requester.rs) and what the guest makes of it. */
module EndToEnd {
  import opened Requests
  import opened RequestTable
  import opened ProposerModel
  import opened ProposerInvariant
  import opened ProposerRuns
  import opened AggregationGuest
  import opened HeaderFetcher

  /** Everything outside the table: the chains, the stored proofs and the verifier. */
  datatype World = World(
    hashOf: Header -> Hash,
    verifies: (nat, BootInfo) -> bool,
    canon: seq<Header>,                 // the L1 chain
    node: Node,
    rootAt: nat -> Hash,                // the L2 output root after a block
    rollupConfig: Hash,
    publicValues: nat -> Option<BootInfo>, // what a stored proof commits to; None if it cannot be read
    rangeVKey: nat,
    prover: nat)

  // ---------------------------------------------------------------- the witness

  /** The boot infos of the range proofs, in order; a row without a readable proof is a panic. */
  function BootInfos(w: World, rangeProofs: seq<Request>): Outcome<seq<BootInfo>> {
    if rangeProofs == [] then Done([])
    else
      match BootInfos(w, rangeProofs[1..])
      case Done(rest) =>
        (match rangeProofs[0].proof
         case None => Panics
         case Some(p) => match w.publicValues(p) case None => Panics case Some(b) => Done([b] + rest))
      case _ => Panics
  }

  ghost predicate Readable(w: World, r: Request) { r.proof.Some? && w.publicValues(r.proof.value).Some? }

  /** There is one boot info per row, what its proof commits to; one unreadable row is a panic. */
  lemma {:induction false} BootInfosIff(w: World, rs: seq<Request>)
    ensures BootInfos(w, rs).Done? <==> forall r :: r in rs ==> Readable(w, r)
    ensures !BootInfos(w, rs).Fails?
    ensures BootInfos(w, rs).Done? ==>
      && |BootInfos(w, rs).value| == |rs|
      && forall i :: 0 <= i < |rs| ==>
           Readable(w, rs[i]) && Some(BootInfos(w, rs).value[i]) == w.publicValues(rs[i].proof.value)
  {
    if rs != [] {
      BootInfosIff(w, rs[1..]);
      assert rs[0] in rs && forall r :: r in rs[1..] ==> r in rs;
      if forall r :: r in rs ==> Readable(w, r) {
        assert Readable(w, rs[0]) && BootInfos(w, rs[1..]).Done?;
      } else {
        var r :| r in rs && !Readable(w, r);
        assert r == rs[0] || r in rs[1..];
      }
    }
  }

  function Inputs(w: World, boots: seq<BootInfo>, checkpoint: Hash): AggregationInputs {
    AggregationInputs(boots, checkpoint, w.rangeVKey, w.prover)
  }

  /** No L1 head lies below the bound that the search for the earliest one starts with. */
  ghost predicate NothingBelowBound(node: Node, boots: seq<BootInfo>) {
    Known(node, boots) && forall b :: b in boots ==> Height(node, b) >= U64_MAX
  }

  /** `agg_proof_witnessgen`. */
  method AggProofWitnessgen(w: World, db: DriverDBClient, startBlock: nat, endBlock: nat, checkpoint: Hash)
    returns (r: Outcome<(AggregationInputs, seq<Header>)>)
    ensures var boots := BootInfos(w, Tile(db.rows, startBlock, endBlock));
            && (r.Done? <==> boots.Done? && Fetchable(w.node, boots.value, checkpoint))
            && (r.Panics? <==> (boots.Done? ==> NothingBelowBound(w.node, boots.value)))
            && (r.Done? ==> r.value.0 == Inputs(w, boots.value, checkpoint)
                            && HeadersFor(w.node, boots.value, checkpoint, r.value.1))
  {
    hide Fetchable, HeadersFor, Known, Height;
    var rangeProofs := SelectOrdered(db.rows, ConsecutiveComplete(startBlock, endBlock));
    var boots := BootInfos(w, rangeProofs);
    if !boots.Done? { return Panics; }
    var headers := GetHeaderPreimages(w.node, boots.value, checkpoint);
    if !headers.Done? { return if headers.Fails? then Fails else Panics; }
    return Done((Inputs(w, boots.value, checkpoint), headers.value));
  }

  // ---------------------------------------------------------------- tiles become accepted aggregations

  /** The stored proof of `r` states the truth about the blocks of `r`, against a canonical L1 head. */
  ghost predicate StatesTruth(w: World, r: Request, b: BootInfo) {
    && b.l2PreRoot == w.rootAt(r.startBlock)
    && b.l2PostRoot == w.rootAt(r.endBlock)
    && b.l2BlockNumber == r.endBlock
    && b.rollupConfigHash == w.rollupConfig
    && w.verifies(w.rangeVKey, b)
    && Canonical(w.hashOf, w.canon, b.l1Head)
  }

  ghost predicate ProofsHold(w: World, rs: seq<Request>) {
    forall r :: r in rs && r.proof.Some? ==>
      w.publicValues(r.proof.value).Some? && StatesTruth(w, r, w.publicValues(r.proof.value).value)
  }

  ghost predicate AllProven(rs: seq<Request>) { forall r :: r in rs ==> r.proof.Some? }

  lemma {:induction false} BootInfosShape(w: World, rs: seq<Request>)
    requires ProofsHold(w, rs) && AllProven(rs)
    ensures BootInfos(w, rs).Done? && |BootInfos(w, rs).value| == |rs|
    ensures forall i :: 0 <= i < |rs| ==> StatesTruth(w, rs[i], BootInfos(w, rs).value[i])
  {
    hide StatesTruth;
    if rs != [] {
      assert rs[0] in rs && forall r :: r in rs[1..] ==> r in rs;
      BootInfosShape(w, rs[1..]);
      var boots, rest := BootInfos(w, rs).value, BootInfos(w, rs[1..]).value;
      assert boots == [w.publicValues(rs[0].proof.value).value] + rest;
      forall i | 0 <= i < |rs| ensures StatesTruth(w, rs[i], boots[i]) {
        if i > 0 { assert rs[i] == rs[1..][i - 1] && boots[i] == rest[i - 1]; }
      }
    }
  }

  /** Consecutive truthful proofs chain root to root and end at the two end points. */
  lemma TileChains(w: World, rs: seq<Request>, boots: seq<BootInfo>, start: nat, end: nat)
    requires Consecutive(rs, start, end) && |boots| == |rs|
    requires forall i :: 0 <= i < |rs| ==> StatesTruth(w, rs[i], boots[i])
    ensures Sequential(boots) && AllCanonical(w.hashOf, w.canon, boots)
    ensures forall i :: 0 <= i < |boots| ==> w.verifies(w.rangeVKey, boots[i])
    ensures boots[0].l2PreRoot == w.rootAt(start)
    ensures var last := boots[|boots| - 1];
            last.l2PostRoot == w.rootAt(end) && last.l2BlockNumber == end && last.rollupConfigHash == w.rollupConfig
  {
    hide Canonical;
    forall i, j | 0 <= i && j == i + 1 < |boots|
      ensures boots[i].l2PostRoot == boots[j].l2PreRoot && boots[i].rollupConfigHash == boots[j].rollupConfigHash
    {
      assert StatesTruth(w, rs[i], boots[i]) && StatesTruth(w, rs[j], boots[j]);
      assert rs[j - 1].endBlock == rs[j].startBlock;
    }
    assert StatesTruth(w, rs[|rs| - 1], boots[|rs| - 1]);
  }

  lemma TileProven(c: Config, s: State, start: nat, end: nat)
    requires Inv(c, s)
    ensures AllProven(Tile(s.rows, start, end))
  {
    TileRows(s.rows, start, end);
    assert forall r :: r in s.rows ==> RowOk(c, r, s.latest);
    hide Tile, Inv;
  }

  /** Once a block range is tiled by Complete range proofs, its aggregation can be built at any later
      moment of the run: the witness generation does not fail, and the guest accepts what it built
      exactly when no range was proven against an L1 block above the checkpoint. What the guest then
      commits to are the true roots at the two ends. */
  lemma TiledAggregationIsAccepted(c: Config, s: State, later: seq<Event>, start: nat, end: nat, w: World,
                                   checkpoint: nat)
    requires Inv(c, s) && Tiled(s.rows, start, end) && ProofsHold(w, Tile(s.rows, start, end))
    requires Serves(w.node, w.hashOf, w.canon) && checkpoint < |w.canon|
    ensures var tip := w.hashOf(w.canon[checkpoint]);
            var boots := BootInfos(w, Tile(ApplyAll(c, s, later).rows, start, end));
            && boots.Done? && Fetchable(w.node, boots.value, tip)
            && (forall headers :: HeadersFor(w.node, boots.value, tip, headers) ==>
                  (Accepts(w.hashOf, w.verifies, Inputs(w, boots.value, tip), headers)
                   <==> forall b :: b in boots.value ==> Height(w.node, b) <= checkpoint))
            && boots.value != []
            && Consolidated(Inputs(w, boots.value, tip))
               == AggregationOutputs(tip, w.rootAt(start), w.rootAt(end), end, w.rollupConfig, w.rangeVKey, w.prover)
  {
    TileNeverChanges(c, s, later, start, end);
    TileProven(c, s, start, end);
    var rs := Tile(s.rows, start, end);
    assert Consecutive(rs, start, end);
    assert Tile(ApplyAll(c, s, later).rows, start, end) == rs;
    hide Inv, Tiled, Tile, ApplyAll;
    TruthfulTileIsAccepted(w, rs, start, end, checkpoint);
  }

  lemma AcceptsIff(w: World, boots: seq<BootInfo>, checkpoint: nat, headers: seq<Header>)
    requires boots != [] && Sequential(boots) && forall i :: 0 <= i < |boots| ==> w.verifies(w.rangeVKey, boots[i])
    requires Serves(w.node, w.hashOf, w.canon) && AllCanonical(w.hashOf, w.canon, boots) && checkpoint < |w.canon|
    requires HeadersFor(w.node, boots, w.hashOf(w.canon[checkpoint]), headers)
    ensures Accepts(w.hashOf, w.verifies, Inputs(w, boots, w.hashOf(w.canon[checkpoint])), headers)
       <==> forall b :: b in boots ==> Height(w.node, b) <= checkpoint
  {
    hide Serves, AllCanonical, Height, Linked, HashAmong, Sequential, HeadersFor;
    FetchedHeadersPassIff(w.node, w.hashOf, w.canon, boots, checkpoint, headers);
  }

  lemma TruthfulTileIsAccepted(w: World, rs: seq<Request>, start: nat, end: nat, checkpoint: nat)
    requires Consecutive(rs, start, end) && AllProven(rs) && ProofsHold(w, rs)
    requires Serves(w.node, w.hashOf, w.canon) && checkpoint < |w.canon|
    ensures var tip := w.hashOf(w.canon[checkpoint]);
            var boots := BootInfos(w, rs);
            && boots.Done? && Fetchable(w.node, boots.value, tip)
            && (forall headers :: HeadersFor(w.node, boots.value, tip, headers) ==>
                  (Accepts(w.hashOf, w.verifies, Inputs(w, boots.value, tip), headers)
                   <==> forall b :: b in boots.value ==> Height(w.node, b) <= checkpoint))
            && boots.value != []
            && Consolidated(Inputs(w, boots.value, tip))
               == AggregationOutputs(tip, w.rootAt(start), w.rootAt(end), end, w.rollupConfig, w.rangeVKey, w.prover)
  {
    BootInfosShape(w, rs);
    var boots := BootInfos(w, rs).value;
    TileChains(w, rs, boots, start, end);
    hide BootInfos, Serves, AllCanonical, Height, Accepts, Sequential, StatesTruth, HeadersFor, Fetchable, Canonical,
      ProofsHold, AllProven;
    FetchCannotFail(w.node, w.hashOf, w.canon, boots, checkpoint);
    forall headers | HeadersFor(w.node, boots, w.hashOf(w.canon[checkpoint]), headers)
      ensures Accepts(w.hashOf, w.verifies, Inputs(w, boots, w.hashOf(w.canon[checkpoint])), headers)
         <==> forall b :: b in boots ==> Height(w.node, b) <= checkpoint
    {
      AcceptsIff(w, boots, checkpoint, headers);
    }
  }

  /** Every aggregation whose work was ever started in a reachable state is such a one. */
  lemma StartedAggregationsAreTiled(c: Config, es: seq<Event>, agg: Request)
    requires agg in ApplyAll(c, Fresh(c), es).rows && ValidatedAgg(agg)
    ensures Inv(c, ApplyAll(c, Fresh(c), es))
    ensures Tiled(ApplyAll(c, Fresh(c), es).rows, agg.startBlock, agg.endBlock)
  {
    RunKeepsInv(c, Fresh(c), es);
  }
}
