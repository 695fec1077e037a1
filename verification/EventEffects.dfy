/** What each event of the validity proposer does to the requests table, row by row, and when it does nothing
    (`make_proof_request`, `process_proof_request_status`, `set_orphaned_tasks_to_failed`, `submit_agg_proofs`
    and `initialize_proposer` in op-succinct/validity/src). Failures, planning, starting and aggregating are
    the subject of SplitRule, RangePlanning, StartOrder and AggregationRule. */
module EventEffects {
  import opened Requests
  import opened RequestTable
  import opened ProposerModel
  import opened ProposerInvariant
  import opened ProposerSteps
  import opened ProposerRuns

  /** Row `before` becomes `after`; every other row, the ids and the contract stay as they were. */
  ghost predicate OneRowBecomes(s: State, s': State, before: Request, after: Request) {
    && before in s.rows && |s'.rows| == |s.rows|
    && (forall i :: 0 <= i < |s.rows| ==> s'.rows[i] == if s.rows[i] == before then after else s.rows[i])
    && s'.nextId == s.nextId && s'.latest == s.latest && s'.relayed == s.relayed
  }

  lemma UpdateIsOneRow(c: Config, s: State, s': State, r: Request, change: Change)
    requires Inv(c, s) && r in s.rows && s'.rows == Update(s.rows, r.id, change)
    requires s'.nextId == s.nextId && s'.latest == s.latest && s'.relayed == s.relayed
    ensures OneRowBecomes(s, s', r, ApplyChange(r, change))
  {
    forall i | 0 <= i < |s.rows| && s.rows[i].id == r.id ensures s.rows[i] == r {
      IdUnique(s.rows, s.nextId, s.rows[i], r);
    }
    hide Inv;
  }

  // ---------------------------------------------------------------- the background task of a request

  /** Only in mock mode does a task go into execution; it has its witness then. */
  lemma TaskExecutesIff(c: Config, s: State, id: nat)
    requires Inv(c, s)
    ensures var s' := Apply(c, s, TaskExecutes(id));
            if c.mock && id in s.tasks && s.tasks[id].phase == Witnessing
            then (exists r: Request :: r.id == id && r.status == WitnessGeneration
                              && OneRowBecomes(s, s', r, r.(status := Execution)))
                 && s'.tasks == s.tasks[id := s.tasks[id].(phase := Executing)]
            else s' == s
  {
    if c.mock && id in s.tasks && s.tasks[id].phase == Witnessing {
      var r := TaskRow(c, s, id);
      UpdateIsOneRow(c, s, Apply(c, s, TaskExecutes(id)), r, ToStatus(Execution));
    }
    hide Inv, OneRowBecomes;
  }

  /** With the proof network a task ends once the network has given an id for the proof, which the row keeps. */
  lemma TaskRequestsProofIff(c: Config, s: State, id: nat, pid: nat)
    requires Inv(c, s)
    ensures var s' := Apply(c, s, TaskRequestsProof(id, pid));
            if !c.mock && !c.useLocalProving && id in s.tasks && s.tasks[id].phase == Witnessing
            then (exists r: Request :: r.id == id && r.status == WitnessGeneration
                              && OneRowBecomes(s, s', r, r.(status := Prove, proofRequestId := Some(pid))))
                 && s'.tasks == s.tasks[id := s.tasks[id].(phase := Finished(true))]
            else s' == s
  {
    if !c.mock && !c.useLocalProving && id in s.tasks && s.tasks[id].phase == Witnessing {
      var r := TaskRow(c, s, id);
      UpdateIsOneRow(c, s, Apply(c, s, TaskRequestsProof(id, pid)), r, ToProve(pid));
    }
    hide Inv, OneRowBecomes;
  }

  /** In mock mode and with local proving the task makes the proof itself, in mock mode after execution, and
      the row keeps the proof. */
  lemma TaskCompletesIff(c: Config, s: State, id: nat, proof: nat)
    requires Inv(c, s)
    ensures var s' := Apply(c, s, TaskCompletes(id, proof));
            if id in s.tasks && ((c.mock && s.tasks[id].phase == Executing)
                                 || (!c.mock && c.useLocalProving && s.tasks[id].phase == Witnessing))
            then (exists r: Request :: r.id == id && r.status == (if c.mock then Execution else WitnessGeneration)
                              && OneRowBecomes(s, s', r, r.(status := Complete, proof := Some(proof))))
                 && s'.tasks == s.tasks[id := s.tasks[id].(phase := Finished(true))]
            else s' == s
  {
    hide TableOk;
    if id in s.tasks && ((c.mock && s.tasks[id].phase == Executing)
                         || (!c.mock && c.useLocalProving && s.tasks[id].phase == Witnessing)) {
      var r := TaskRow(c, s, id);
      UpdateIsOneRow(c, s, Apply(c, s, TaskCompletes(id, proof)), r, ToComplete(proof));
    }
    hide Inv, OneRowBecomes;
  }

  /** A task that errs ends; its row is failed only when the task is reaped. */
  lemma TaskErrsIff(c: Config, s: State, id: nat)
    ensures Apply(c, s, TaskErrs(id))
         == if id in s.tasks && !s.tasks[id].phase.Finished?
            then s.(tasks := s.tasks[id := s.tasks[id].(phase := Finished(false))]) else s
  {
  }

  /** Reaping removes a finished task, whatever becomes of its request, and no other; if it succeeded, nothing
      else changes. */
  lemma ReapsIff(c: Config, s: State, id: nat, fault: Fault)
    ensures var s' := Apply(c, s, Reap(id, fault));
            && s'.tasks == (if id in s.tasks && s.tasks[id].phase.Finished? then s.tasks - {id} else s.tasks)
            && s'.latest == s.latest && s'.relayed == s.relayed
            && (!(id in s.tasks && s.tasks[id].phase == Finished(false)) ==>
                  s'.rows == s.rows && s'.nextId == s.nextId)
  {
    hide Splits;
  }

  // ---------------------------------------------------------------- orphans and the proof network

  lemma FailOrphanIff(c: Config, s: State, r: Request)
    requires Inv(c, s)
    ensures var s' := Apply(c, s, FailOrphan(r));
            && s'.tasks == s.tasks
            && if r in s.rows && r.id !in s.tasks && (r.status == WitnessGeneration || r.status == Execution)
               then OneRowBecomes(s, s', r, r.(status := Failed)) else s' == s
  {
    if Orphan(s, r) { UpdateIsOneRow(c, s, Apply(c, s, FailOrphan(r)), r, ToStatus(Failed)); }
    hide Inv, OneRowBecomes;
  }

  /** A proof that the network reports for a row in Prove completes the row, which keeps the proof. */
  lemma ProofFulfilledIff(c: Config, s: State, r: Request, proof: nat)
    requires Inv(c, s)
    ensures var s' := Apply(c, s, ProofFulfilled(r, proof));
            && s'.tasks == s.tasks
            && if r in s.rows && r.status == Prove && !c.useLocalProving
               then OneRowBecomes(s, s', r, r.(status := Complete, proof := Some(proof))) else s' == s
  {
    if r in s.rows && r.status == Prove {
      assert RowOk(c, r, s.latest);
      if !c.useLocalProving { UpdateIsOneRow(c, s, Apply(c, s, ProofFulfilled(r, proof)), r, ToComplete(proof)); }
    }
    hide Inv, OneRowBecomes;
  }

  // ---------------------------------------------------------------- relaying and restarting

  /** A finished aggregation that starts at the latest block. */
  ghost predicate Relayable(s: State, a: Request) {
    a in s.rows && a.reqType == Aggregation && a.status == Complete && a.startBlock == s.latest
  }

  lemma OneRelayable(c: Config, s: State, a: Request, b: Request)
    requires Inv(c, s) && Relayable(s, a) && Relayable(s, b)
    ensures a == b
  {
    if a.id == b.id { IdUnique(s.rows, s.nextId, a, b); }
    hide Tiled, RowOk, RelayOk;
  }

  /** If there is such an aggregation, the contract moves to its end and records it, and its row is marked
      unless the process dies before; if there is none, nothing happens. */
  lemma SubmitAggIff(c: Config, s: State, marked: bool, a: Request)
    requires Inv(c, s)
    ensures var s' := Apply(c, s, SubmitAgg(marked));
            && s'.tasks == s.tasks && s'.nextId == s.nextId
            && (Relayable(s, a) ==>
                  && s'.latest == a.endBlock && s'.relayed == s.relayed + [Relay(a.id, a.startBlock, a.endBlock)]
                  && |s'.rows| == |s.rows|
                  && forall i :: 0 <= i < |s.rows| ==>
                       s'.rows[i] == if marked && s.rows[i] == a then a.(status := Relayed) else s.rows[i])
            && ((forall x :: !Relayable(s, x)) ==> s' == s)
  {
    DeliverableIsReady(s);
    if Deliverable(s).Some? {
      var d := Deliverable(s).value;
      assert Relayable(s, d);
      if Relayable(s, a) {
        OneRelayable(c, s, a, d);
        forall i | 0 <= i < |s.rows| && s.rows[i].id == a.id ensures s.rows[i] == a {
          IdUnique(s.rows, s.nextId, s.rows[i], a);
        }
      }
    }
    hide Inv, Deliverable;
  }

  /** A restart loses every task, deletes exactly the rows that wait or whose work was in the process, and
      keeps the others in order. The contract does not notice. */
  lemma RestartIff(c: Config, s: State, r: Request)
    ensures var s' := Apply(c, s, Restart);
            && s'.tasks == map[] && s'.nextId == s.nextId && s'.latest == s.latest && s'.relayed == s.relayed
            && (r in s'.rows <==> r in s.rows && r.status != Unrequested && r.status != WitnessGeneration
                                  && r.status != Execution)
  {
    SelectMember(s.rows, StatusNotIn(UNRECOVERABLE), r);
  }
}
