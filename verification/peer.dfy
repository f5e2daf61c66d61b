/** What a chaincode handler gives back to the peer, and what it did to the state. */
module Peer {
  import opened Ledger

  /** shim.Success(payload) or shim.Error(message); a nil payload is the empty sequence. */
  datatype Response = Success(payload: seq<char>) | Error(message: string)

  /** A handler's response, the state after it, and its PutState calls in order. */
  datatype Outcome = Outcome(response: Response, state: State, writes: seq<Write>)
}
