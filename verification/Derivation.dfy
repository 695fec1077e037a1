/** The derivation driver loop of op-succinct/utils/client/src/client.rs, over any pipeline and any
    block executor. Headers, roots and L2 block infos are opaque numbers. */
module Derivation {
  import opened Requests

  type Tx = seq<bv8>

  datatype Attributes = Attributes(timestamp: nat, transactions: Option<seq<Tx>>, rest: nat)

  datatype L2Info = L2Info(number: nat, hash: nat)

  /** The tip of the driver's cursor. */
  datatype Tip = Tip(info: L2Info, header: nat, outputRoot: nat)

  datatype Produced = Payload(attributes: Attributes) | EndOfSource | PipelineError(code: nat)

  /** What the pipeline was told: asked for the payload after a tip, or to flush its channel. */
  datatype PipelineEvent = Asked(tip: Tip, answer: Produced) | Flushed

  /** The world of the loop. The pipeline may answer as it likes from all it was told before; `dirty` is
      the state in which a failed execution leaves the executor. */
  datatype Env = Env(
    produce: (seq<PipelineEvent>, Tip) -> Produced,
    flush: seq<PipelineEvent> -> bool,
    origin: seq<PipelineEvent> -> bool,
    execute: (nat, Attributes) -> Option<nat>,
    dirty: (nat, Attributes) -> nat,
    rootOf: nat -> Option<nat>,
    decodes: Tx -> bool,
    infoOf: (nat, seq<Tx>) -> Option<L2Info>,
    holocene: nat -> bool,
    interop: nat -> bool)

  datatype Failure = PipelineFails(code: nat) | SourceEnded | FlushFails | ExecutionFails | BlockFails

  datatype Outcome = Reached(tip: Tip) | Failing(failure: Failure)

  datatype Driver = Driver(tip: Tip, log: seq<PipelineEvent>, target: Option<nat>)

  datatype Turn = Go(driver: Driver) | Stop(driver: Driver, outcome: Outcome)

  // ---------------------------------------------------------------- deposit-only payloads

  const DEPOSIT: bv8 := 0x7E

  predicate IsDeposit(tx: Tx) { tx != [] && tx[0] == DEPOSIT }

  function Deposits(txs: seq<Tx>): seq<Tx> {
    if txs == [] then [] else (if IsDeposit(txs[0]) then [txs[0]] else []) + Deposits(txs[1..])
  }

  function DepositOnly(a: Attributes): Attributes {
    a.(transactions := match a.transactions case None => None case Some(txs) => Some(Deposits(txs)))
  }

  lemma {:induction false} DepositsConcat(a: seq<Tx>, b: seq<Tx>)
    ensures Deposits(a + b) == Deposits(a) + Deposits(b)
    decreases |a|
  {
    if a == [] {
      assert a + b == b;
    } else {
      assert (a + b)[1..] == a[1..] + b;
      DepositsConcat(a[1..], b);
    }
  }

  /** Exactly the deposits stay, and a deposit-only payload stays as it is. */
  lemma {:induction false} DepositsMeaning(txs: seq<Tx>)
    ensures forall tx :: tx in Deposits(txs) <==> tx in txs && IsDeposit(tx)
    ensures (forall tx :: tx in txs ==> IsDeposit(tx)) ==> Deposits(txs) == txs
  {
    if txs != [] {
      DepositsMeaning(txs[1..]);
      assert txs == [txs[0]] + txs[1..];
    }
  }

  // ---------------------------------------------------------------- one turn of the loop

  function Transactions(a: Attributes): seq<Tx> {
    match a.transactions case None => [] case Some(txs) => txs
  }

  predicate AllDecode(env: Env, txs: seq<Tx>) { forall tx :: tx in txs ==> env.decodes(tx) }

  /** The tip made of an executed header; `None` is an error. */
  function NewTip(env: Env, header: nat, a: Attributes): Option<Tip> {
    if !AllDecode(env, Transactions(a)) then None
    else
      match env.infoOf(header, Transactions(a))
      case None => None
      case Some(info) => match env.rootOf(header) case None => None case Some(root) => Some(Tip(info, header, root))
  }

  function Advance(env: Env, d: Driver, header: nat, a: Attributes): Turn {
    match NewTip(env, header, a)
    case Some(tip) => if env.origin(d.log) then Go(d.(tip := tip)) else Stop(d, Failing(BlockFails))
    case None => Stop(d, Failing(BlockFails))
  }

  /** The payload failed: after Holocene it is retried with its deposits only, before it is dropped. */
  function Retry(env: Env, d: Driver, a: Attributes): Turn {
    if !env.holocene(a.timestamp) then Go(d)
    else if !env.flush(d.log) then Stop(d, Failing(FlushFails))
    else
      var flushed := d.(log := d.log + [Flushed]);
      match env.execute(d.tip.header, DepositOnly(a))
      case None => Stop(flushed, Failing(ExecutionFails))
      case Some(header) => Advance(env, flushed, header, DepositOnly(a))
  }

  predicate AtTarget(d: Driver) { d.target.Some? && d.tip.info.number >= d.target.value }

  function Ask(env: Env, d: Driver): Driver {
    d.(log := d.log + [Asked(d.tip, env.produce(d.log, d.tip))])
  }

  function OneTurn(env: Env, d: Driver): Turn {
    if AtTarget(d) then Stop(d, Reached(d.tip))
    else
      var asked := Ask(env, d);
      match env.produce(d.log, d.tip)
      case PipelineError(code) => Stop(asked, Failing(PipelineFails(code)))
      case EndOfSource =>
        var halted := asked.(target := if d.target.Some? then Some(d.tip.info.number) else None);
        if env.interop(d.tip.info.number) then Stop(halted, Failing(SourceEnded)) else Go(halted)
      case Payload(a) =>
        match env.execute(d.tip.header, a)
        case Some(header) => Advance(env, asked, header, a)
        case None => Retry(env, asked, a)
  }

  function Turns(env: Env, d: Driver, n: nat): Turn {
    if n == 0 then Go(d)
    else match Turns(env, d, n - 1) case Go(d') => OneTurn(env, d') case Stop(d', o) => Stop(d', o)
  }

  // ---------------------------------------------------------------- the loop

  /** The block executor, which every execution changes. */
  class Executor {
    var head: nat

    constructor (head: nat)
      ensures this.head == head
    {
      this.head := head;
    }

    method UpdateSafeHead(header: nat)
      modifies this
      ensures head == header
    {
      head := header;
    }

    method ExecutePayload(env: Env, a: Attributes) returns (r: Option<nat>)
      modifies this
      ensures r == env.execute(old(head), a)
      ensures r.Some? ==> head == r.value
    {
      r := env.execute(head, a);
      head := if r.Some? then r.value else env.dirty(head, a);
    }
  }

  class DriverLoop {
    var tip: Tip
    var log: seq<PipelineEvent>
    const executor: Executor

    constructor (tip: Tip, executor: Executor)
      ensures this.tip == tip && log == [] && this.executor == executor
    {
      this.tip := tip;
      this.log := [];
      this.executor := executor;
    }

    /** The end of a turn: the block is assembled from the executed header and becomes the tip. */
    method AdvanceCursor(env: Env, header: nat, a: Attributes, ghost target: Option<nat>) returns (ok: bool)
      requires executor.head == header
      modifies this`tip
      ensures Advance(env, Driver(old(tip), log, target), header, a)
           == if ok then Go(Driver(tip, log, target)) else Stop(Driver(tip, log, target), Failing(BlockFails))
    {
      var txs := Transactions(a);
      var i := 0;
      while i < |txs|
        invariant 0 <= i <= |txs| && forall k :: 0 <= k < i ==> env.decodes(txs[k])
      {
        if !env.decodes(txs[i]) { return false; }
        i := i + 1;
      }
      if !env.origin(log) { return false; }
      var info := env.infoOf(header, txs);
      if info == None { return false; }
      var root := env.rootOf(executor.head);
      if root == None { return false; }
      tip := Tip(info.value, header, root.value);
      return true;
    }

    /** Executes one payload on the tip, or what is left of it. */
    method ApplyPayload(env: Env, a: Attributes, ghost target: Option<nat>) returns (failure: Option<Failure>)
      modifies this, executor
      ensures var d := Driver(old(tip), old(log), target);
              var turn := match env.execute(d.tip.header, a)
                case Some(h) => Advance(env, d, h, a)
                case None => Retry(env, d, a);
              turn == if failure == None then Go(Driver(tip, log, target))
                      else Stop(Driver(tip, log, target), Failing(failure.value))
      ensures log == old(log) || log == old(log) + [Flushed]
    {
      executor.UpdateSafeHead(tip.header);
      var used := a;
      var header := executor.ExecutePayload(env, a);
      if header == None {
        if !env.holocene(a.timestamp) { return None; }
        if !env.flush(log) { return Some(FlushFails); }
        log := log + [Flushed];
        used := DepositOnly(a);
        executor.UpdateSafeHead(tip.header);
        header := executor.ExecutePayload(env, used);
        if header == None { return Some(ExecutionFails); }
      }
      var ok := AdvanceCursor(env, header.value, used, target);
      return if ok then None else Some(BlockFails);
    }

    /** `advance_to_target`. A target is needed for the loop to end at all, see NoTargetNeverReached. */
    method AdvanceToTarget(env: Env, goal: nat, ghost limit: nat) returns (r: Outcome, ghost turns: nat)
      requires FiniteSource(env, limit)
      modifies this, executor
      ensures Turns(env, Driver(old(tip), old(log), Some(goal)), turns).Stop?
      ensures var end := Turns(env, Driver(old(tip), old(log), Some(goal)), turns);
              end.outcome == r && end.driver.tip == tip && end.driver.log == log
    {
      var target := Some(goal);
      turns := 0;
      ghost var start := Driver(tip, log, target);
      while true
        invariant target.Some? && Turns(env, start, turns) == Go(Driver(tip, log, target))
        decreases if tip.info.number >= target.value then 0 else 1, if limit > Asks(log) then limit - Asks(log) else 0
      {
        ghost var d := Driver(tip, log, target);
        turns := turns + 1;
        assert Turns(env, start, turns) == OneTurn(env, d);
        hide Turns, Advance, Retry, FiniteSource, Asks;
        if tip.info.number >= target.value { return Reached(tip), turns; }
        AsksGrow(env, d);
        PayloadsRunOut(env, limit, d);
        var produced := env.produce(log, tip);
        log := log + [Asked(tip, produced)];
        match produced
        case PipelineError(code) => return Failing(PipelineFails(code)), turns;
        case EndOfSource =>
          target := Some(tip.info.number);
          if env.interop(tip.info.number) { return Failing(SourceEnded), turns; }
        case Payload(a) =>
          AsksConcat(log, [Flushed]);
          var failure := ApplyPayload(env, a, target);
          if failure.Some? { return Failing(failure.value), turns; }
      }
    }
  }

  // ---------------------------------------------------------------- finite sources

  function Asks(log: seq<PipelineEvent>): nat {
    if log == [] then 0 else Asks(log[..|log| - 1]) + if log[|log| - 1].Asked? then 1 else 0
  }

  lemma AsksConcat(log: seq<PipelineEvent>, e: seq<PipelineEvent>)
    requires |e| == 1
    ensures Asks(log + e) == Asks(log) + if e[0].Asked? then 1 else 0
  {
    assert (log + e)[..|log|] == log;
  }

  lemma AsksGrow(env: Env, d: Driver)
    ensures Asks(Ask(env, d).log) == Asks(d.log) + 1
  {
    AsksConcat(d.log, [Asked(d.tip, env.produce(d.log, d.tip))]);
  }

  /** The pipeline has at most `limit` payloads in it. */
  ghost predicate FiniteSource(env: Env, limit: nat) {
    forall log, tip :: Asks(log) >= limit ==> !env.produce(log, tip).Payload?
  }

  lemma PayloadsRunOut(env: Env, limit: nat, d: Driver)
    requires FiniteSource(env, limit)
    ensures env.produce(d.log, d.tip).Payload? ==> Asks(d.log) < limit
  {
  }

  // ---------------------------------------------------------------- derivation is a fold

  function ExecuteOn(env: Env, parent: Tip, a: Attributes): Option<Tip> {
    match env.execute(parent.header, a) case None => None case Some(header) => NewTip(env, header, a)
  }

  /** What one payload adds to the chain: its block, or after Holocene the block of its deposits, or
      before Holocene nothing. `None` is a failed derivation. */
  function Extend(env: Env, parent: Tip, a: Attributes): Option<Tip> {
    if env.execute(parent.header, a).Some? then ExecuteOn(env, parent, a)
    else if env.holocene(a.timestamp) then ExecuteOn(env, parent, DepositOnly(a))
    else Some(parent)
  }

  /** The fold of all payloads that the pipeline produced. */
  function Derived(env: Env, start: Tip, log: seq<PipelineEvent>): Option<Tip> {
    if log == [] then Some(start)
    else
      match Derived(env, start, log[..|log| - 1])
      case None => None
      case Some(tip) =>
        match log[|log| - 1]
        case Asked(_, Payload(a)) => Extend(env, tip, a)
        case _ => Some(tip)
  }

  lemma DerivedSnoc(env: Env, start: Tip, log: seq<PipelineEvent>, e: PipelineEvent)
    ensures Derived(env, start, log + [e]) ==
      match Derived(env, start, log)
      case None => None
      case Some(tip) => match e case Asked(_, Payload(a)) => Extend(env, tip, a) case _ => Some(tip)
  {
    assert (log + [e])[..|log|] == log;
  }

  /** The payload's block failed and its channel must go. */
  predicate NeedsFlush(env: Env, e: PipelineEvent) {
    match e
    case Asked(tip, Payload(a)) => env.execute(tip.header, a) == None && env.holocene(a.timestamp)
    case _ => false
  }

  /** An entry of the log: the pipeline was asked about the tip derived so far, which lay below the goal. */
  ghost predicate EntryOk(env: Env, start: Tip, goal: nat, log: seq<PipelineEvent>, i: nat)
    requires i < |log|
  {
    match log[i]
    case Asked(tip, answer) =>
      && answer == env.produce(log[..i], tip)
      && Derived(env, start, log[..i]) == Some(tip) && tip.info.number < goal
    case Flushed => i > 0 && NeedsFlush(env, log[i - 1])
  }

  ghost predicate LogOk(env: Env, start: Tip, goal: nat, log: seq<PipelineEvent>) {
    forall i :: 0 <= i < |log| ==> EntryOk(env, start, goal, log, i)
  }

  /** A channel is flushed at once after the failure. */
  ghost predicate FlushedAfterFailure(env: Env, log: seq<PipelineEvent>) {
    forall i :: 0 <= i < |log| && NeedsFlush(env, log[i]) ==> i + 1 < |log| && log[i + 1] == Flushed
  }

  /** The source ran dry at `tip`. */
  predicate Exhausted(env: Env, tip: Tip, log: seq<PipelineEvent>) {
    log != [] && log[|log| - 1] == Asked(tip, EndOfSource) && !env.interop(tip.info.number)
  }

  /** Head and output root of a tip were computed from the same executed header. */
  ghost predicate Belong(env: Env, start: Tip, tip: Tip) {
    tip == start || (env.rootOf(tip.header) == Some(tip.outputRoot)
      && exists txs :: env.infoOf(tip.header, txs) == Some(tip.info))
  }

  ghost predicate RunOk(env: Env, start: Tip, goal: nat, d: Driver) {
    && LogOk(env, start, goal, d.log)
    && FlushedAfterFailure(env, d.log)
    && Derived(env, start, d.log) == Some(d.tip)
    && Belong(env, start, d.tip)
    && (d.target == Some(goal) || (d.target == Some(d.tip.info.number) && Exhausted(env, d.tip, d.log)))
  }

  lemma LogSnoc(env: Env, start: Tip, goal: nat, log: seq<PipelineEvent>, e: PipelineEvent)
    requires LogOk(env, start, goal, log) && EntryOk(env, start, goal, log + [e], |log|)
    ensures LogOk(env, start, goal, log + [e])
  {
    forall i | 0 <= i < |log| ensures EntryOk(env, start, goal, log + [e], i) {
      assert EntryOk(env, start, goal, log, i) && (log + [e])[..i] == log[..i];
    }
  }

  lemma AskKeepsLog(env: Env, start: Tip, goal: nat, d: Driver)
    requires RunOk(env, start, goal, d) && !AtTarget(d)
    ensures LogOk(env, start, goal, Ask(env, d).log)
    ensures Derived(env, start, Ask(env, d).log) ==
      match env.produce(d.log, d.tip) case Payload(a) => Extend(env, d.tip, a) case _ => Some(d.tip)
    ensures d.target == Some(goal)
  {
    var e := Asked(d.tip, env.produce(d.log, d.tip));
    assert (d.log + [e])[..|d.log|] == d.log;
    LogSnoc(env, start, goal, d.log, e);
    DerivedSnoc(env, start, d.log, e);
  }

  lemma FlushSnoc(env: Env, log: seq<PipelineEvent>, e: PipelineEvent)
    requires FlushedAfterFailure(env, log)
    ensures !NeedsFlush(env, e) ==> FlushedAfterFailure(env, log + [e])
    ensures FlushedAfterFailure(env, log + [e, Flushed])
  {
    assert forall i :: 0 <= i < |log| ==> (log + [e])[i] == log[i] && (log + [e, Flushed])[i] == log[i];
  }

  /** The turn of one payload. */
  lemma PayloadKeepsRun(env: Env, start: Tip, goal: nat, d: Driver, a: Attributes)
    requires RunOk(env, start, goal, d) && !AtTarget(d) && env.produce(d.log, d.tip) == Payload(a)
      && OneTurn(env, d).Go?
    ensures RunOk(env, start, goal, OneTurn(env, d).driver)
  {
    AskKeepsLog(env, start, goal, d);
    var e, asked := Asked(d.tip, Payload(a)), Ask(env, d);
    FlushSnoc(env, d.log, e);
    if NeedsFlush(env, e) {
      assert (asked.log + [Flushed])[|asked.log| - 1] == e;
      LogSnoc(env, start, goal, asked.log, Flushed);
      DerivedSnoc(env, start, asked.log, Flushed);
      assert asked.log + [Flushed] == d.log + [e, Flushed];
    }
    hide LogOk, FlushedAfterFailure, Derived, EntryOk;
  }

  lemma TurnKeepsRun(env: Env, start: Tip, goal: nat, d: Driver)
    requires RunOk(env, start, goal, d) && OneTurn(env, d).Go?
    ensures RunOk(env, start, goal, OneTurn(env, d).driver)
  {
    match env.produce(d.log, d.tip)
    case Payload(a) => PayloadKeepsRun(env, start, goal, d, a);
    case _ =>
      AskKeepsLog(env, start, goal, d);
      FlushSnoc(env, d.log, Asked(d.tip, env.produce(d.log, d.tip)));
      hide LogOk, FlushedAfterFailure, Derived, Belong;
  }

  lemma {:induction false} TurnsKeepRun(env: Env, start: Tip, goal: nat, d: Driver, n: nat)
    requires RunOk(env, start, goal, d) && Turns(env, d, n).Go?
    ensures RunOk(env, start, goal, Turns(env, d, n).driver)
  {
    if n > 0 {
      TurnsKeepRun(env, start, goal, d, n - 1);
      TurnKeepsRun(env, start, goal, Turns(env, d, n - 1).driver);
    }
  }

  lemma {:induction false} LastTurn(env: Env, d: Driver, n: nat) returns (k: nat)
    requires Turns(env, d, n).Stop?
    ensures k < n && Turns(env, d, k).Go? && Turns(env, d, n) == OneTurn(env, Turns(env, d, k).driver)
  {
    if Turns(env, d, n - 1).Go? { k := n - 1; } else { k := LastTurn(env, d, n - 1); }
  }

  /** What `Ok` means: the returned head and root belong together, they are the fold of everything the
      pipeline produced, and the head reached the target or the source was exhausted at that head. No
      payload was ever asked for at or beyond the target. */
  lemma SuccessMeans(env: Env, start: Tip, goal: nat, n: nat)
    requires Turns(env, Driver(start, [], Some(goal)), n).Stop?
      && Turns(env, Driver(start, [], Some(goal)), n).outcome.Reached?
    ensures var end := Turns(env, Driver(start, [], Some(goal)), n);
            var tip := end.outcome.tip;
            && Derived(env, start, end.driver.log) == Some(tip) && Belong(env, start, tip)
            && LogOk(env, start, goal, end.driver.log) && FlushedAfterFailure(env, end.driver.log)
            && (tip.info.number >= goal || Exhausted(env, tip, end.driver.log))
  {
    var d := Driver(start, [], Some(goal));
    var k := LastTurn(env, d, n);
    TurnsKeepRun(env, start, goal, d, k);
    hide LogOk, FlushedAfterFailure, Derived, Belong, Turns;
  }

  /** In interop mode an exhausted source is an error, whatever was derived before. */
  lemma SourceEndedMeans(env: Env, start: Tip, goal: nat, n: nat)
    requires Turns(env, Driver(start, [], Some(goal)), n).Stop?
    requires Turns(env, Driver(start, [], Some(goal)), n).outcome == Failing(SourceEnded)
    ensures var d := Turns(env, Driver(start, [], Some(goal)), n).driver;
            && Derived(env, start, d.log) == Some(d.tip) && d.tip.info.number < goal
            && d.log != [] && d.log[|d.log| - 1] == Asked(d.tip, EndOfSource) && env.interop(d.tip.info.number)
  {
    var d := Driver(start, [], Some(goal));
    var k := LastTurn(env, d, n);
    TurnsKeepRun(env, start, goal, d, k);
    var last := Turns(env, d, k).driver;
    AskKeepsLog(env, start, goal, last);
    hide LogOk, FlushedAfterFailure, Derived, Belong, Turns;
  }

  /** Without a target the loop never succeeds: it goes on until some error stops it. */
  lemma {:induction false} NoTargetNeverReached(env: Env, d: Driver, n: nat)
    requires d.target == None
    ensures match Turns(env, d, n) case Go(d') => d'.target == None case Stop(_, o) => o.Failing?
  {
    if n > 0 { NoTargetNeverReached(env, d, n - 1); }
  }
}
