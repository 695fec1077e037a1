/** The proof requests of op-succinct/validity/src/db/types.rs, restricted to the columns that the
    proposer's decisions depend on. */
module Requests {

  datatype Option<+T> = None | Some(value: T)

  datatype RequestStatus =
    | Unrequested
    | WitnessGeneration
    | Execution
    | Prove
    | Complete
    | Relayed
    | Failed
    | Cancelled

  datatype RequestType = Range | Aggregation

  /** An L1 block whose hash was checkpointed on the contract. */
  datatype Checkpoint = Checkpoint(number: nat, hash: nat)

  datatype Request = Request(
    id: nat,
    status: RequestStatus,
    reqType: RequestType,
    startBlock: nat,
    endBlock: nat,
    proofRequestId: Option<nat>,
    proof: Option<nat>,
    checkpoint: Option<Checkpoint>)

  /** `new_range_request`: the id is assigned by the table. */
  function NewRangeRequest(startBlock: nat, endBlock: nat): Request {
    Request(0, Unrequested, Range, startBlock, endBlock, None, None, None)
  }

  /** `new_agg_request`: the id is assigned by the table. */
  function NewAggRequest(startBlock: nat, endBlock: nat, checkpoint: Checkpoint): Request {
    Request(0, Unrequested, Aggregation, startBlock, endBlock, None, None, Some(checkpoint))
  }

  const ACTIVE: set<RequestStatus> := {Unrequested, WitnessGeneration, Execution, Prove, Complete}

  /** The statuses that a restart deletes: their work lived in the process that died. */
  const UNRECOVERABLE: set<RequestStatus> := {Unrequested, Execution, WitnessGeneration}

  predicate ActiveRange(r: Request) { r.reqType == Range && r.status in ACTIVE }

  predicate ActiveAgg(r: Request) { r.reqType == Aggregation && r.status in ACTIVE }

  /** The two requests share no block. */
  predicate Apart(a: Request, b: Request) {
    a.endBlock <= b.startBlock || b.endBlock <= a.startBlock
  }

  predicate InRequest(r: Request, block: nat) { r.startBlock <= block < r.endBlock }
}
