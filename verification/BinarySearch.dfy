/** The three binary searches: the first L1 block from which an L2 block can be derived and the block
    at a timestamp (op-succinct/utils/host/src/fetcher.rs), and the highest L2 block with Celestia data
    (op-succinct/utils/celestia/host/src/blobstream_utils.rs). All bounds are unsigned in the source:
    `Underflows` is `mid - 1` at block 0. `Fails` is an answer that the node does not have. */
module BinarySearch {
  import opened Requests

  datatype Search = Found(block: nat) | NotFound | Fails | Underflows

  // ---------------------------------------------------------------- the first safe L1 block

  ghost predicate IsFirst(p: nat -> bool, lo: nat, hi: nat, n: nat) {
    lo <= n <= hi && p(n) && forall k: nat :: lo <= k < n ==> !p(k)
  }

  ghost predicate NoneIn(p: nat -> bool, lo: nat, hi: nat) {
    forall k: nat :: lo <= k <= hi ==> !p(k)
  }

  /** What the node says of the safe head at an L1 block. `l1Block` is the block of the entry that it found,
      which need not be the one asked for. */
  datatype SafeHead = SafeHead(l1Block: nat, l2Number: nat)

  /** The L1 blocks whose safe head reaches the target. */
  function Reaching(answer: nat -> Option<SafeHead>, target: nat): nat -> bool {
    (n: nat) => answer(n).Some? && answer(n).value.l2Number >= target
  }

  /** Every block of the range has a safe head, and safe heads never go back. */
  ghost predicate SafeHeadsGrow(answer: nat -> Option<SafeHead>, lo: nat, hi: nat) {
    && (forall n: nat :: lo <= n <= hi ==> answer(n).Some?)
    && (forall i: nat, j: nat :: lo <= i <= j <= hi && answer(i).Some? && answer(j).Some?
          ==> answer(i).value.l2Number <= answer(j).value.l2Number)
  }

  /** The block named in the answer for block `n`. */
  predicate Names(answer: nat -> Option<SafeHead>, n: nat, block: nat) {
    answer(n).Some? && answer(n).value.l1Block == block
  }

  /** `get_safe_l1_block_for_l2_block`. Whatever the safe heads are, the block that is found is the one named
      in the answer for a block that reaches the target. If they grow, that is the first block that does;
      the search underflows exactly when L1 block 0 is in range and already reaches the target. */
  method GetSafeL1Block(answer: nat -> Option<SafeHead>, l1Origin: nat, finalized: nat, l2End: nat) returns (r: Search)
    ensures var p := Reaching(answer, l2End);
            r.Found? ==> exists n: nat :: l1Origin <= n <= finalized && p(n) && Names(answer, n, r.block)
    ensures r.Fails? ==> exists n: nat :: l1Origin <= n <= finalized && answer(n) == None
    ensures var p := Reaching(answer, l2End);
            SafeHeadsGrow(answer, l1Origin, finalized) ==>
              && (r.Underflows? <==> l1Origin == 0 && p(0))
              && (r.NotFound? <==> NoneIn(p, l1Origin, finalized))
              && (r.Found? ==> exists n: nat :: IsFirst(p, l1Origin, finalized, n) && Names(answer, n, r.block))
  {
    ghost var p := Reaching(answer, l2End);
    var low: nat, high: nat := l1Origin, finalized;
    var firstValid := NotFound;
    while low <= high
      invariant l1Origin <= low && high <= finalized
      invariant firstValid == NotFound || firstValid.Found?
      invariant firstValid == NotFound ==> high == finalized
      invariant firstValid.Found? ==>
        low <= high + 1 <= finalized && Names(answer, high + 1, firstValid.block) && p(high + 1)
      invariant SafeHeadsGrow(answer, l1Origin, finalized) ==>
        forall k: nat :: l1Origin <= k < low && k <= finalized ==> !p(k)
      decreases high + 1 - low
    {
      var mid := low + (high - low) / 2;
      var result := answer(mid);
      if result == None { return Fails; }
      assert p(mid) <==> result.value.l2Number >= l2End;
      if result.value.l2Number >= l2End {
        firstValid := Found(result.value.l1Block);
        if mid == 0 { return Underflows; }
        high := mid - 1;
      } else {
        low := mid + 1;
      }
    }
    assert firstValid.Found? && SafeHeadsGrow(answer, l1Origin, finalized) ==>
      IsFirst(p, l1Origin, finalized, high + 1);
    return firstValid;
  }

  // ---------------------------------------------------------------- the block at a timestamp

  ghost predicate TimesGrow(time: nat -> Option<nat>, hi: nat) {
    && (forall n: nat :: n <= hi ==> time(n).Some?)
    && (forall i: nat, j: nat :: i < j <= hi && time(i).Some? && time(j).Some? ==> time(i).value < time(j).value)
  }

  /** The blocks at or after the target. */
  function AtOrAfter(time: nat -> Option<nat>, target: nat): nat -> bool {
    (n: nat) => time(n).Some? && time(n).value >= target
  }

  /** `find_block_by_timestamp`, from block 0 to the finalized block. If every finalized block is older
      than the target, the block after the finalized one is returned if the node has it. The search
      underflows exactly when block 0 is younger than the target. */
  method FindBlockByTimestamp(time: nat -> Option<nat>, finalized: nat, target: nat) returns (r: Search)
    ensures !r.NotFound?
    ensures r.Found? ==> time(r.block).Some?
    ensures var p := AtOrAfter(time, target);
            TimesGrow(time, finalized) ==>
              && (r.Underflows? <==> time(0).value > target)
              && (r.Fails? <==> NoneIn(p, 0, finalized) && time(finalized + 1) == None)
              && (r.Found? && !NoneIn(p, 0, finalized) ==> IsFirst(p, 0, finalized, r.block))
              && (r.Found? && NoneIn(p, 0, finalized) ==> r.block == finalized + 1)
  {
    ghost var p := AtOrAfter(time, target);
    assert p(0) <==> time(0).Some? && time(0).value >= target;
    var low: nat, high: nat := 0, finalized;
    while low <= high
      invariant low <= high + 1 && high <= finalized
      invariant TimesGrow(time, finalized) ==> forall k: nat :: k < low ==> time(k).value < target && !p(k)
      invariant TimesGrow(time, finalized) ==> forall k: nat :: high < k <= finalized ==> time(k).value > target && p(k)
      decreases high + 1 - low
    {
      var mid := (low + high) / 2;
      var block := time(mid);
      if block == None { return Fails; }
      assert p(mid) <==> block.value >= target;
      if block.value == target {
        return Found(mid);
      } else if block.value < target {
        low := mid + 1;
      } else {
        if mid == 0 { return Underflows; }
        high := mid - 1;
      }
    }
    if time(low) == None { return Fails; }
    return Found(low);
  }

  // ---------------------------------------------------------------- the highest available L2 block

  /** Data is available up to some block. */
  ghost predicate AvailableUpTo(available: nat -> bool, lo: nat, hi: nat) {
    forall i: nat, j: nat :: lo <= i <= j <= hi && available(j) ==> available(i)
  }

  ghost predicate IsLast(p: nat -> bool, lo: nat, hi: nat, n: nat) {
    lo <= n <= hi && p(n) && forall k: nat :: n < k <= hi ==> !p(k)
  }

  /** `get_highest_finalized_l2_block`: an error of the availability check counts as unavailable. The
      search underflows exactly when block 0 is the latest proposed one and unavailable. */
  method GetHighestFinalizedL2Block(available: nat -> bool, latestProposed: nat, finalized: nat) returns (r: Search)
    ensures !r.Fails?
    ensures r.Found? ==> latestProposed <= r.block <= finalized && available(r.block)
    ensures AvailableUpTo(available, latestProposed, finalized) ==>
              && (r.Underflows? <==> latestProposed == 0 && !available(0))
              && (r.Found? ==> IsLast(available, latestProposed, finalized, r.block))
              && (r.NotFound? ==> NoneIn(available, latestProposed, finalized))
  {
    var low: nat, high: nat := latestProposed, finalized;
    var result := NotFound;
    while low <= high
      invariant latestProposed <= low && high <= finalized
      invariant result == NotFound ==> low == latestProposed
      invariant result == NotFound || (low > latestProposed && result == Found(low - 1) && low - 1 <= finalized
        && available(low - 1))
      invariant AvailableUpTo(available, latestProposed, finalized) ==>
        forall k: nat :: high < k <= finalized && latestProposed <= k ==> !available(k)
      decreases high + 1 - low
    {
      var mid := low + (high - low) / 2;
      if available(mid) {
        result := Found(mid);
        low := mid + 1;
      } else {
        if mid == 0 { return Underflows; }
        high := mid - 1;
      }
    }
    return result;
  }
}
