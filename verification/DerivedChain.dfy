/** What the derivation driver loop (op-succinct/utils/client/src/client.rs) derives and when it fails, said
    without the functions of the machine: which attributes are executed on which block, and what of them
    becomes the next block. */
module DerivedChain {
  import opened Requests
  import opened Derivation

  // ---------------------------------------------------------------- the attributes of a retry

  predicate StartsWithDepositByte(tx: Tx) { |tx| > 0 && tx[0] == 0x7E }

  /** The entries of `from` at the indices `at`, which are those of its deposits, in order. */
  ghost predicate KeepsAt(from: seq<Tx>, kept: seq<Tx>, at: seq<nat>) {
    && |at| == |kept|
    && (forall j :: 0 <= j < |at| ==> at[j] < |from| && kept[j] == from[at[j]])
    && (forall i, j :: 0 <= i < j < |at| ==> at[i] < at[j])
    && (forall i: nat :: i < |from| ==> (i in at <==> StartsWithDepositByte(from[i])))
  }

  /** Every deposit is kept, in its place and as often as it was there, and nothing else. */
  ghost predicate KeepsDeposits(from: seq<Tx>, kept: seq<Tx>) { exists at :: KeepsAt(from, kept, at) }

  lemma LastKept(init: seq<Tx>, last: Tx, kept: seq<Tx>, at: seq<nat>)
    requires KeepsAt(init, kept, at)
    ensures if StartsWithDepositByte(last) then KeepsAt(init + [last], kept + [last], at + [|init|])
            else KeepsAt(init + [last], kept, at)
  {
    forall i: nat | i < |init| ensures (init + [last])[i] == init[i] {}
  }

  lemma {:induction false} DepositsAreKept(txs: seq<Tx>) returns (at: seq<nat>)
    ensures KeepsAt(txs, Deposits(txs), at)
    decreases |txs|
  {
    at := [];
    if txs != [] {
      var init, last := txs[..|txs| - 1], txs[|txs| - 1];
      assert txs == init + [last];
      at := DepositsAreKept(init);
      DepositsConcat(init, [last]);
      OneTransaction(last);
      LastKept(init, last, Deposits(init), at);
      hide KeepsAt;
      assert Deposits(init) + [] == Deposits(init);
      at := if StartsWithDepositByte(last) then at + [|init|] else at;
    }
  }

  lemma OneTransaction(tx: Tx)
    ensures Deposits([tx]) == if StartsWithDepositByte(tx) then [tx] else []
  {
    assert [tx][1..] == [];
  }

  lemma WithoutLast(txs: seq<Tx>, kept: seq<Tx>, at: seq<nat>)
    requires txs != [] && KeepsAt(txs, kept, at)
    ensures var init, last := txs[..|txs| - 1], txs[|txs| - 1];
            if StartsWithDepositByte(last)
            then kept != [] && kept[|kept| - 1] == last && KeepsAt(init, kept[..|kept| - 1], at[..|at| - 1])
            else KeepsAt(init, kept, at)
  {
    var n: nat := |txs| - 1;
    if StartsWithDepositByte(txs[n]) {
      var j :| 0 <= j < |at| && at[j] == n;
      forall i: nat | i < n && i in at ensures i in at[..|at| - 1] {
        var k :| 0 <= k < |at| && at[k] == i;
      }
    } else {
      assert n !in at;
      forall j | 0 <= j < |at| ensures at[j] < n { assert at[j] in at; }
    }
  }

  lemma EmptyOrMember(at: seq<nat>)
    ensures at == [] || exists x :: x in at
  {
    if at != [] { assert at[0] in at; }
  }

  /** Nothing else keeps the deposits like that. */
  lemma {:induction false} KeptIsDeposits(txs: seq<Tx>, kept: seq<Tx>, at: seq<nat>)
    requires KeepsAt(txs, kept, at)
    ensures kept == Deposits(txs)
    decreases |txs|
  {
    if txs == [] {
      EmptyOrMember(at);
    } else {
      var init, last := txs[..|txs| - 1], txs[|txs| - 1];
      assert txs == init + [last];
      WithoutLast(txs, kept, at);
      DepositsConcat(init, [last]);
      OneTransaction(last);
      hide KeepsAt, Deposits;
      if StartsWithDepositByte(last) {
        KeptIsDeposits(init, kept[..|kept| - 1], at[..|at| - 1]);
        assert kept == kept[..|kept| - 1] + [last];
      } else {
        KeptIsDeposits(init, kept, at);
        assert Deposits(init) + [] == Deposits(init);
      }
    }
  }

  lemma KeepsDepositsIff(txs: seq<Tx>, kept: seq<Tx>)
    ensures KeepsDeposits(txs, kept) <==> kept == Deposits(txs)
  {
    var at := DepositsAreKept(txs);
    if KeepsDeposits(txs, kept) {
      var other :| KeepsAt(txs, kept, other);
      KeptIsDeposits(txs, kept, other);
    }
    hide KeepsAt;
  }

  /** The attributes `b` are `a` without its other transactions. */
  ghost predicate Stripped(a: Attributes, b: Attributes) {
    && b.timestamp == a.timestamp && b.rest == a.rest
    && (a.transactions == None <==> b.transactions == None)
    && (a.transactions.Some? && b.transactions.Some? ==> KeepsDeposits(a.transactions.value, b.transactions.value))
  }

  lemma StrippedIff(a: Attributes, b: Attributes)
    ensures Stripped(a, b) <==> b == DepositOnly(a)
  {
    if a.transactions.Some? && b.transactions.Some? { KeepsDepositsIff(a.transactions.value, b.transactions.value); }
    hide KeepsDeposits, Deposits;
  }

  // ---------------------------------------------------------------- the block of a payload

  function TransactionList(a: Attributes): seq<Tx> { if a.transactions.Some? then a.transactions.value else [] }

  /** Tip `t` is the block that executing `a` on `parent` makes. */
  ghost predicate MadeFrom(env: Env, parent: Tip, a: Attributes, t: Tip) {
    && env.execute(parent.header, a) == Some(t.header)
    && (forall tx :: tx in TransactionList(a) ==> env.decodes(tx))
    && env.infoOf(t.header, TransactionList(a)) == Some(t.info)
    && env.rootOf(t.header) == Some(t.outputRoot)
  }

  /** What a payload makes of the chain. If its execution fails, then after Holocene its deposits alone are
      executed on the same parent, and before Holocene it is dropped. */
  ghost predicate Gives(env: Env, parent: Tip, a: Attributes, t: Tip) {
    if env.execute(parent.header, a).Some? then MadeFrom(env, parent, a, t)
    else if env.holocene(a.timestamp) then exists b :: Stripped(a, b) && MadeFrom(env, parent, b, t)
    else t == parent
  }

  lemma ExecuteOnIff(env: Env, parent: Tip, a: Attributes, t: Tip)
    ensures ExecuteOn(env, parent, a) == Some(t) <==> MadeFrom(env, parent, a, t)
  {
  }

  lemma ExtendIff(env: Env, parent: Tip, a: Attributes, t: Tip)
    ensures Extend(env, parent, a) == Some(t) <==> Gives(env, parent, a, t)
  {
    var b := DepositOnly(a);
    StrippedIff(a, b);
    ExecuteOnIff(env, parent, a, t);
    ExecuteOnIff(env, parent, b, t);
    forall x | Stripped(a, x) ensures x == b { StrippedIff(a, x); }
    hide Stripped, MadeFrom, ExecuteOn, DepositOnly;
  }

  /** After a failed Holocene payload the channel is flushed, and what is executed next on the same parent are
      the payload's attributes with its deposits only. */
  lemma RetryExecutesDeposits(env: Env, d: Driver, a: Attributes, b: Attributes)
    requires env.produce(d.log, d.tip) == Payload(a) && !AtTarget(d)
    requires env.execute(d.tip.header, a) == None && env.holocene(a.timestamp) && Stripped(a, b)
    ensures var asked := d.(log := d.log + [Asked(d.tip, Payload(a))]);
            var flushed := asked.(log := asked.log + [Flushed]);
            OneTurn(env, d) ==
              if !env.flush(asked.log) then Stop(asked, Failing(FlushFails))
              else match env.execute(d.tip.header, b)
                   case None => Stop(flushed, Failing(ExecutionFails))
                   case Some(header) => Advance(env, flushed, header, b)
  {
    StrippedIff(a, b);
    hide Stripped, DepositOnly;
  }

  // ---------------------------------------------------------------- a derivation is a chain of blocks

  /** From one tip to the next, over one thing that the pipeline was told. */
  ghost predicate Links(env: Env, before: Tip, e: PipelineEvent, after: Tip) {
    match e
    case Asked(tip, Payload(a)) => tip == before && Gives(env, before, a, after)
    case Asked(tip, _) => tip == before && after == before
    case Flushed => after == before
  }

  ghost predicate Chain(env: Env, start: Tip, log: seq<PipelineEvent>, tips: seq<Tip>) {
    && |tips| == |log| + 1 && tips[0] == start
    && forall i, j :: 0 <= i < |log| && j == i + 1 ==> Links(env, tips[i], log[i], tips[j])
  }

  lemma LogPrefix(env: Env, start: Tip, goal: nat, log: seq<PipelineEvent>)
    requires log != [] && LogOk(env, start, goal, log)
    ensures LogOk(env, start, goal, log[..|log| - 1])
  {
    var init := log[..|log| - 1];
    forall i | 0 <= i < |init| ensures EntryOk(env, start, goal, init, i) {
      assert EntryOk(env, start, goal, log, i) && init[..i] == log[..i];
    }
  }

  lemma LinksNext(env: Env, before: Tip, e: PipelineEvent, after: Tip)
    requires e.Asked? ==> e.tip == before
    requires Some(after) == match e case Asked(_, Payload(a)) => Extend(env, before, a) case _ => Some(before)
    ensures Links(env, before, e, after)
  {
    if e.Asked? && e.answer.Payload? { ExtendIff(env, before, e.answer.attributes, after); }
    hide Gives, Extend;
  }

  lemma ChainGrows(env: Env, start: Tip, log: seq<PipelineEvent>, tips: seq<Tip>, e: PipelineEvent, after: Tip)
    requires Chain(env, start, log, tips) && Links(env, tips[|log|], e, after)
    ensures Chain(env, start, log + [e], tips + [after])
  {
    hide Links;
  }

  lemma {:induction false} ChainOfTips(env: Env, start: Tip, goal: nat, log: seq<PipelineEvent>)
    returns (tips: seq<Tip>)
    requires LogOk(env, start, goal, log) && Derived(env, start, log).Some?
    ensures Chain(env, start, log, tips) && tips[|log|] == Derived(env, start, log).value
    decreases |log|
  {
    if log == [] {
      tips := [start];
    } else {
      var init, e := log[..|log| - 1], log[|log| - 1];
      LogPrefix(env, start, goal, log);
      var before := ChainOfTips(env, start, goal, init);
      assert EntryOk(env, start, goal, log, |init|);
      hide LogOk, Extend, Gives;
      var tip := Derived(env, start, log).value;
      LinksNext(env, before[|init|], e, tip);
      assert log == init + [e];
      ChainGrows(env, start, init, before, e, tip);
      tips := before + [tip];
    }
  }

  /** The channel was flushed, and the origin of every block that was made was known. */
  ghost predicate PipelineOk(env: Env, log: seq<PipelineEvent>, i: nat)
    requires i < |log|
  {
    match log[i]
    case Flushed => env.flush(log[..i])
    case Asked(tip, Payload(a)) =>
      if env.execute(tip.header, a).Some? then env.origin(log[..i + 1])
      else env.holocene(a.timestamp) ==> i + 2 <= |log| && env.origin(log[..i + 2])
    case _ => true
  }

  ghost predicate AllPipelineOk(env: Env, log: seq<PipelineEvent>) {
    forall i :: 0 <= i < |log| ==> PipelineOk(env, log, i)
  }

  lemma LogGrows(env: Env, log: seq<PipelineEvent>, more: seq<PipelineEvent>)
    requires AllPipelineOk(env, log) && forall i :: |log| <= i < |log + more| ==> PipelineOk(env, log + more, i)
    ensures AllPipelineOk(env, log + more)
  {
    forall i | 0 <= i < |log| ensures PipelineOk(env, log + more, i) {
      assert PipelineOk(env, log, i) && (log + more)[..i] == log[..i] && (log + more)[..i + 1] == log[..i + 1];
      if i + 2 <= |log| { assert (log + more)[..i + 2] == log[..i + 2]; }
    }
  }

  lemma TurnKeepsPipelineOk(env: Env, d: Driver)
    requires AllPipelineOk(env, d.log) && OneTurn(env, d).Go?
    ensures AllPipelineOk(env, OneTurn(env, d).driver.log)
  {
    var e := Asked(d.tip, env.produce(d.log, d.tip));
    var one, two := d.log + [e], d.log + [e, Flushed];
    assert one[..|d.log| + 1] == one && two[..|d.log| + 1] == one && two[..|d.log| + 2] == two;
    assert one + [Flushed] == two;
    if OneTurn(env, d).driver.log == one {
      LogGrows(env, d.log, [e]);
    } else {
      assert OneTurn(env, d).driver.log == two;
      LogGrows(env, d.log, [e, Flushed]);
    }
    hide AllPipelineOk;
  }

  lemma {:induction false} TurnsKeepPipelineOk(env: Env, d: Driver, n: nat)
    requires AllPipelineOk(env, d.log) && Turns(env, d, n).Go?
    ensures AllPipelineOk(env, Turns(env, d, n).driver.log)
  {
    if n > 0 {
      TurnsKeepPipelineOk(env, d, n - 1);
      TurnKeepsPipelineOk(env, Turns(env, d, n - 1).driver);
      hide AllPipelineOk, OneTurn;
    }
  }

  /** What success means, block by block: the returned tip is the end of a chain in which each payload that
      the pipeline gave for a tip yields the next one. */
  lemma SuccessIsChain(env: Env, start: Tip, goal: nat, n: nat) returns (tips: seq<Tip>)
    requires Turns(env, Driver(start, [], Some(goal)), n).Stop?
      && Turns(env, Driver(start, [], Some(goal)), n).outcome.Reached?
    ensures var end := Turns(env, Driver(start, [], Some(goal)), n);
            var log := end.driver.log;
            && Chain(env, start, log, tips) && tips[|log|] == end.outcome.tip
            && AllPipelineOk(env, log)
            && forall i :: 0 <= i < |log| && log[i].Asked? ==> log[i].answer == env.produce(log[..i], tips[i])
  {
    SuccessMeans(env, start, goal, n);
    var d := Driver(start, [], Some(goal));
    var k := LastTurn(env, d, n);
    TurnsKeepPipelineOk(env, d, k);
    var log := Turns(env, d, n).driver.log;
    tips := ChainOfTips(env, start, goal, log);
    forall i | 0 <= i < |log| && log[i].Asked? ensures log[i].answer == env.produce(log[..i], tips[i]) {
      assert EntryOk(env, start, goal, log, i) && Links(env, tips[i], log[i], tips[i + 1]);
    }
    hide Turns, LogOk, FlushedAfterFailure, Derived, Belong, AllPipelineOk, Links, Chain;
  }

  // ---------------------------------------------------------------- what a failure means

  /** The last thing that happened before the loop stopped with `f` at `tip`. */
  ghost predicate FailedBy(env: Env, tip: Tip, log: seq<PipelineEvent>, f: Failure) {
    && log != []
    && var last := log[|log| - 1];
    match f
    case PipelineFails(code) => last == Asked(tip, PipelineError(code))
    case SourceEnded => last == Asked(tip, EndOfSource) && env.interop(tip.info.number)
    case FlushFails => last.Asked? && Unexecutable(env, tip, last) && !env.flush(log)
    case ExecutionFails =>
      && last == Flushed && |log| >= 2 && Unexecutable(env, tip, log[|log| - 2])
      && exists b :: Stripped(log[|log| - 2].answer.attributes, b) && env.execute(tip.header, b) == None
    case BlockFails =>
      if last.Asked?
      then last.tip == tip && last.answer.Payload? && Unmakeable(env, tip, log, last.answer.attributes)
      else && |log| >= 2 && Unexecutable(env, tip, log[|log| - 2])
           && exists b :: Stripped(log[|log| - 2].answer.attributes, b) && Unmakeable(env, tip, log, b)
  }

  /** A payload for `tip` whose execution failed, after Holocene. */
  ghost predicate Unexecutable(env: Env, tip: Tip, e: PipelineEvent) {
    && e.Asked? && e.tip == tip && e.answer.Payload?
    && env.execute(tip.header, e.answer.attributes) == None && env.holocene(e.answer.attributes.timestamp)
  }

  /** The attributes can be executed, but no block comes of it: no origin is known, or no tip can be made. */
  ghost predicate Unmakeable(env: Env, tip: Tip, log: seq<PipelineEvent>, a: Attributes) {
    && env.execute(tip.header, a).Some?
    && (!env.origin(log) || forall t :: !MadeFrom(env, tip, a, t))
  }

  lemma AdvanceFails(env: Env, d: Driver, header: nat, a: Attributes)
    requires env.execute(d.tip.header, a) == Some(header)
    ensures match Advance(env, d, header, a)
            case Go(d') => env.origin(d.log) && MadeFrom(env, d.tip, a, d'.tip) && d' == d.(tip := d'.tip)
            case Stop(d', o) => d' == d && o == Failing(BlockFails) && Unmakeable(env, d.tip, d.log, a)
  {
    forall t ensures ExecuteOn(env, d.tip, a) == Some(t) <==> MadeFrom(env, d.tip, a, t) {
      ExecuteOnIff(env, d.tip, a, t);
    }
    hide MadeFrom, NewTip;
  }

  lemma RetryFails(env: Env, d: Driver, a: Attributes)
    requires d.log != [] && d.log[|d.log| - 1] == Asked(d.tip, Payload(a)) && env.execute(d.tip.header, a) == None
    ensures match Retry(env, d, a)
            case Go(_) => true
            case Stop(d', o) => o.Failing? && FailedBy(env, d'.tip, d'.log, o.failure)
  {
    if env.holocene(a.timestamp) && env.flush(d.log) {
      DepositsFail(env, d, a, DepositOnly(a));
    }
    hide DepositOnly, Advance, FailedBy;
    if env.holocene(a.timestamp) && !env.flush(d.log) { FlushFailed(env, d, a); }
  }

  lemma FlushFailed(env: Env, d: Driver, a: Attributes)
    requires d.log != [] && d.log[|d.log| - 1] == Asked(d.tip, Payload(a)) && env.execute(d.tip.header, a) == None
    requires env.holocene(a.timestamp) && !env.flush(d.log)
    ensures FailedBy(env, d.tip, d.log, FlushFails)
  {
  }

  lemma DepositsFail(env: Env, d: Driver, a: Attributes, b: Attributes)
    requires d.log != [] && d.log[|d.log| - 1] == Asked(d.tip, Payload(a)) && env.execute(d.tip.header, a) == None
    requires env.holocene(a.timestamp) && b == DepositOnly(a)
    ensures var flushed := d.(log := d.log + [Flushed]);
            match env.execute(d.tip.header, b)
            case None => FailedBy(env, flushed.tip, flushed.log, ExecutionFails)
            case Some(header) =>
              match Advance(env, flushed, header, b)
              case Go(_) => true
              case Stop(d', o) => o.Failing? && FailedBy(env, d'.tip, d'.log, o.failure)
  {
    StrippedIff(a, b);
    var flushed := d.(log := d.log + [Flushed]);
    assert flushed.log[|flushed.log| - 2] == d.log[|d.log| - 1];
    if env.execute(d.tip.header, b).Some? { AdvanceFails(env, flushed, env.execute(d.tip.header, b).value, b); }
    hide Stripped, DepositOnly, Advance, Unmakeable, MadeFrom;
  }

  lemma TurnFails(env: Env, d: Driver)
    requires OneTurn(env, d).Stop? && OneTurn(env, d).outcome.Failing?
    ensures var turn := OneTurn(env, d); FailedBy(env, turn.driver.tip, turn.driver.log, turn.outcome.failure)
  {
    match env.produce(d.log, d.tip)
    case Payload(a) =>
      if env.execute(d.tip.header, a).Some? {
        AdvanceFails(env, Ask(env, d), env.execute(d.tip.header, a).value, a);
      } else {
        RetryFails(env, Ask(env, d), a);
      }
      hide Advance, Retry, Unmakeable;
    case _ =>
  }

  /** Every failure has its cause in the last thing that happened. */
  lemma FailureMeans(env: Env, start: Tip, goal: nat, n: nat)
    requires Turns(env, Driver(start, [], Some(goal)), n).Stop?
      && Turns(env, Driver(start, [], Some(goal)), n).outcome.Failing?
    ensures var end := Turns(env, Driver(start, [], Some(goal)), n);
            FailedBy(env, end.driver.tip, end.driver.log, end.outcome.failure)
  {
    var d := Driver(start, [], Some(goal));
    var k := LastTurn(env, d, n);
    TurnFails(env, Turns(env, d, k).driver);
    hide Turns, OneTurn, FailedBy;
  }
}
