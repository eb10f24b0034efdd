/**
  The peer's ledger as the `shim.ChaincodeStubInterface` shows it to the
  fds/, sla/ and chaincode_fds/ chaincodes. Its failures are a parameter:
  a fixed set of keys whose reads fail and a fixed set of keys whose writes
  and deletes fail, so within one call each key either always fails or
  never fails.
*/
module Ledger {
  import opened Wrappers

  class Shim {
    var state: map<string, string>
    const readFaults: set<string>
    const writeFaults: set<string>

    constructor (initial: map<string, string>, readFaults: set<string>, writeFaults: set<string>)
      ensures state == initial && this.readFaults == readFaults && this.writeFaults == writeFaults
    {
      state := initial;
      this.readFaults := readFaults;
      this.writeFaults := writeFaults;
    }

    /** `GetState`: an error, or the stored value (None for an absent key, Go's nil). */
    method GetState(key: string) returns (r: Result<Option<string>>)
      ensures key in readFaults <==> r.Failure?
      ensures r.Success? ==> (r.value.Some? <==> key in state)
      ensures r.Success? && key in state ==> r.value.value == state[key]
    {
      if key in readFaults {
        return Failure("Failed to get state for " + key);
      }
      if key in state {
        return Success(Some(state[key]));
      }
      return Success(None);
    }

    /** `PutState`: stores the value unless the write fails. */
    method PutState(key: string, value: string) returns (ok: bool)
      modifies this
      ensures ok <==> key !in writeFaults
      ensures state == if ok then old(state)[key := value] else old(state)
    {
      if key in writeFaults {
        return false;
      }
      state := state[key := value];
      return true;
    }

    /** `DelState`: removes the key unless the delete fails. */
    method DelState(key: string) returns (ok: bool)
      modifies this
      ensures ok <==> key !in writeFaults
      ensures state == if ok then old(state) - {key} else old(state)
    {
      if key in writeFaults {
        return false;
      }
      state := state - {key};
      return true;
    }
  }
}
