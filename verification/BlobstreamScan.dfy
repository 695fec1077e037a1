/** The forward scan for the Blobstream event that covers a Celestia height
    (op-succinct/utils/celestia/host/src/blobstream_utils.rs). */
module BlobstreamScan {
  import opened Requests
  import opened BlockSpans

  /** The Celestia heights of a data commitment, both ends included. */
  datatype Commitment = Commitment(startBlock: nat, endBlock: nat)

  /** A log entry; `event` is None if it cannot be decoded. */
  datatype Log = Log(address: nat, block: Option<nat>, event: Option<Commitment>)

  datatype Scan = FoundAt(block: nat) | NotFound | NoBlockNumber | QueryFails

  const WINDOW: nat := 5000

  /** A decodable event of the contract that covers the height. */
  predicate Covering(contract: nat, height: nat, log: Log) {
    log.address == contract && log.event.Some? && log.event.value.startBlock <= height <= log.event.value.endBlock
  }

  predicate InBlocks(log: Log, from: nat, to: nat) { log.block.Some? && from <= log.block.value <= to }

  /** The node, if it answers a filter at all, answers with the logs of those blocks, in block order. */
  ghost predicate Serves(getLogs: (nat, nat) -> Option<seq<Log>>, chain: seq<Log>) {
    forall from: nat, to: nat :: getLogs(from, to).Some? ==> Answers(getLogs(from, to).value, chain, from, to)
  }

  ghost predicate Answers(logs: seq<Log>, chain: seq<Log>, from: nat, to: nat) {
    && (forall log :: log in logs <==> log in chain && InBlocks(log, from, to))
    && (forall i, j :: 0 <= i < j < |logs| && logs[i].block.Some? && logs[j].block.Some?
          ==> logs[i].block.value <= logs[j].block.value)
  }

  /** No covering event lies in the blocks [from, to). */
  ghost predicate NoneBefore(chain: seq<Log>, contract: nat, height: nat, from: nat, to: nat) {
    forall log :: log in chain && log.block.Some? && Covering(contract, height, log) ==> !(from <= log.block.value < to)
  }

  ghost predicate FirstCovering(chain: seq<Log>, contract: nat, height: nat, from: nat, to: nat, block: nat) {
    && from <= block <= to
    && (exists log :: log in chain && log.block == Some(block) && Covering(contract, height, log))
    && NoneBefore(chain, contract, height, from, block)
  }

  /** The scan of `logs` ends at index `k`: nothing before it covers the height, and it does, or it is an
      entry of the contract without a block number. */
  ghost predicate EndsAt(logs: seq<Log>, contract: nat, height: nat, k: nat) {
    && k < |logs| && logs[k].address == contract
    && (logs[k].block.Some? ==> Covering(contract, height, logs[k]))
    && forall i :: 0 <= i < k ==> !Covering(contract, height, logs[i])
  }

  /** The inner loop, over the logs of one window: the first covering one, other contracts and events
      that do not decode being skipped. */
  method ScanLogs(logs: seq<Log>, contract: nat, height: nat) returns (r: Scan)
    ensures match r
            case NotFound => forall k :: 0 <= k < |logs| ==> !Covering(contract, height, logs[k])
            case FoundAt(block) =>
              exists k: nat :: k < |logs| && EndsAt(logs, contract, height, k) && logs[k].block == Some(block)
            case NoBlockNumber =>
              exists k: nat :: k < |logs| && EndsAt(logs, contract, height, k) && logs[k].block == None
            case QueryFails => false
  {
    for i := 0 to |logs|
      invariant forall k :: 0 <= k < i ==> !Covering(contract, height, logs[k])
    {
      var log := logs[i];
      if log.address == contract {
        if log.block == None {
          assert EndsAt(logs, contract, height, i);
          return NoBlockNumber;
        }
        if log.event.Some? && height >= log.event.value.startBlock && height <= log.event.value.endBlock {
          assert EndsAt(logs, contract, height, i);
          return FoundAt(log.block.value);
        }
      }
    }
    return NotFound;
  }

  /** A window in which nothing was found. */
  lemma EmptyWindow(logs: seq<Log>, chain: seq<Log>, contract: nat, height: nat, start: nat, from: nat, to: nat)
    requires Answers(logs, chain, from, to) && NoneBefore(chain, contract, height, start, from)
    requires forall k :: 0 <= k < |logs| ==> !Covering(contract, height, logs[k])
    ensures NoneBefore(chain, contract, height, start, to + 1)
  {
    forall log | log in chain && log.block.Some? && Covering(contract, height, log)
      ensures !(start <= log.block.value < to + 1)
    {
      assert InBlocks(log, from, to) ==> log in logs;
    }
  }

  /** A window in which the scan ended at index `k`. */
  lemma HitWindow(logs: seq<Log>, chain: seq<Log>, contract: nat, height: nat, start: nat, from: nat, to: nat, k: nat)
    requires Answers(logs, chain, from, to) && NoneBefore(chain, contract, height, start, from) && start <= from
    requires EndsAt(logs, contract, height, k)
    ensures logs[k].block.Some? && FirstCovering(chain, contract, height, start, to, logs[k].block.value)
  {
    assert logs[k] in logs && InBlocks(logs[k], from, to);
    var block := logs[k].block.value;
    forall log | log in chain && log.block.Some? && Covering(contract, height, log)
      ensures !(start <= log.block.value < block)
    {
      if from <= log.block.value <= to {
        assert InBlocks(log, from, to) && log in logs;
        var j :| 0 <= j < |logs| && logs[j] == log;
        assert k <= j;
      }
    }
  }

  lemma NoneBeforeFound(chain: seq<Log>, contract: nat, height: nat, start: nat, to: nat, latest: nat, block: nat)
    requires FirstCovering(chain, contract, height, start, to, block) && to <= latest
    ensures FirstCovering(chain, contract, height, start, latest, block)
    ensures !NoneBefore(chain, contract, height, start, latest + 1)
  {
  }

  /** One turn of the outer loop: the blocks from `from` to `to`. */
  method ScanWindow(getLogs: (nat, nat) -> Option<seq<Log>>, contract: nat, height: nat, from: nat, to: nat,
                    ghost chain: seq<Log>, ghost start: nat, ghost latest: nat) returns (r: Scan)
    requires Serves(getLogs, chain) && NoneBefore(chain, contract, height, start, from) && start <= from && to <= latest
    ensures !r.NoBlockNumber?
    ensures r.QueryFails? <==> getLogs(from, to) == None
    ensures r.NotFound? ==> NoneBefore(chain, contract, height, start, to + 1)
    ensures r.FoundAt? ==> FirstCovering(chain, contract, height, start, latest, r.block)
    ensures r.FoundAt? ==> !NoneBefore(chain, contract, height, start, latest + 1)
  {
    hide *;
    var answer := getLogs(from, to);
    if answer == None { return QueryFails; }
    var logs := answer.value;
    Answered(getLogs, chain, from, to);
    r := ScanLogs(logs, contract, height);
    if r.NotFound? {
      EmptyWindow(logs, chain, contract, height, start, from, to);
    } else {
      ghost var k: nat :| k < |logs| && EndsAt(logs, contract, height, k)
                          && logs[k].block == if r.FoundAt? then Some(r.block) else None;
      HitWindow(logs, chain, contract, height, start, from, to, k);
      NoneBeforeFound(chain, contract, height, start, to, latest, logs[k].block.value);
    }
  }

  lemma Answered(getLogs: (nat, nat) -> Option<seq<Log>>, chain: seq<Log>, from: nat, to: nat)
    requires Serves(getLogs, chain) && getLogs(from, to).Some?
    ensures Answers(getLogs(from, to).value, chain, from, to)
  {
  }

  /** Cutting off the first window. */
  lemma NextWindow(windows: seq<Span>, from: nat, latest: nat, whole: seq<Span>)
    requires from <= latest && windows + Chop(from, latest + 1, WINDOW) == whole
    ensures var next := Min(from + WINDOW - 1, latest) + 1;
            && windows + [Span(from, next)] <= whole
            && (windows + [Span(from, next)]) + Chop(next, latest + 1, WINDOW) == whole
            && (next > latest ==> windows + [Span(from, next)] == whole)
  {
    var next := Min(from + WINDOW - 1, latest) + 1;
    var rest := Chop(next, latest + 1, WINDOW);
    assert Chop(from, latest + 1, WINDOW) == [Span(from, next)] + rest;
    assert windows + ([Span(from, next)] + rest) == (windows + [Span(from, next)]) + rest;
    assert next > latest ==> rest == [];
  }

  lemma NoWindowYet(chain: seq<Log>, contract: nat, height: nat, start: nat, whole: seq<Span>)
    ensures NoneBefore(chain, contract, height, start, start) && [] + whole == whole
  {
  }

  /** `find_minimum_blobstream_block`. The windows it has asked for are always an initial part of the
      cut of [start, latest] into 5000 blocks, and all of it if nothing was found; so it ends. It returns
      the first block with a covering event, or an error exactly when there is none, unless the node fails
      to answer for a window. */
  method FindMinimumBlobstreamBlock(getLogs: (nat, nat) -> Option<seq<Log>>, contract: nat, height: nat, start: nat,
                                    latest: nat,
                                    ghost chain: seq<Log>)
    returns (r: Scan, ghost windows: seq<Span>)
    requires Serves(getLogs, chain)
    ensures start <= latest ==> windows <= Chop(start, latest + 1, WINDOW)
    ensures start <= latest && r.NotFound? ==> windows == Chop(start, latest + 1, WINDOW)
    ensures !r.NoBlockNumber?
    ensures r.QueryFails? ==>
      windows != [] && windows[|windows| - 1].hi > 0
        && getLogs(windows[|windows| - 1].lo, windows[|windows| - 1].hi - 1) == None
    ensures !r.QueryFails? ==> (r.NotFound? <==> NoneBefore(chain, contract, height, start, latest + 1))
    ensures r.FoundAt? ==> FirstCovering(chain, contract, height, start, latest, r.block)
  {
    hide Chop, Serves, NoneBefore, FirstCovering;
    ghost var whole := Chop(start, latest + 1, WINDOW);
    NoWindowYet(chain, contract, height, start, whole);
    var currentStart: nat := start;
    windows := [];
    while true
      invariant start <= currentStart && (currentStart <= latest || currentStart == start)
      invariant NoneBefore(chain, contract, height, start, currentStart)
      invariant start <= latest ==> windows + Chop(currentStart, latest + 1, WINDOW) == whole
      decreases latest + 1 - currentStart
    {
      var currentEnd := Min(currentStart + WINDOW - 1, latest);
      if currentStart <= latest { NextWindow(windows, currentStart, latest, whole); }
      windows := windows + [Span(currentStart, currentEnd + 1)];
      r := ScanWindow(getLogs, contract, height, currentStart, currentEnd, chain, start, latest);
      if !r.NotFound? { return; }
      currentStart := currentEnd + 1;
      if currentStart > latest { return; }
    }
  }

  /** The windows tile the blocks from the start to the latest one. */
  lemma WindowsTile(start: nat, latest: nat, b: nat)
    requires start <= latest
    ensures Covers(Chop(start, latest + 1, WINDOW), b) <==> start <= b <= latest
    ensures Ordered(Chop(start, latest + 1, WINDOW))
    ensures forall w :: w in Chop(start, latest + 1, WINDOW) ==> w.lo < w.hi && w.hi - w.lo <= WINDOW
  {
    ChopPoints(start, latest + 1, WINDOW, b);
    ChopShape(start, latest + 1, WINDOW);
  }
}
