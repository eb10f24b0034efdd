/**
  The in-memory ledger that chaincode_sla/chaincode_sla.go carries in place of
  the peer: `ChaincodeStubInterface`, a Go map from keys to byte strings.
  A nil `[]byte` is `None`; every other value is the string it holds.
*/
module MemoryStore {
  import opened Wrappers

  /** The stored value of a key, or "" when it is absent (Go's `string(nil)`). */
  function Stored(kvs: map<string, string>, key: string): (r: string)
    ensures key in kvs ==> r == kvs[key]
    ensures key !in kvs ==> r == ""
  {
    if key in kvs then kvs[key] else ""
  }

  class KeyValueStub {
    var kvs: map<string, string>

    /** `CreateStub`: an empty map. */
    constructor ()
      ensures kvs == map[]
    {
      kvs := map[];
    }

    /** `PutState`: a nil value is refused and changes nothing; any other value is stored. */
    method PutState(key: string, value: Option<string>) returns (ok: bool)
      modifies this
      ensures ok <==> value.Some?
      ensures ok ==> kvs == old(kvs)[key := value.value]
      ensures !ok ==> kvs == old(kvs)
    {
      if value.None? {
        return false;
      }
      kvs := kvs[key := value.value];
      return true;
    }

    /** `GetState`: the stored value, or nil for an absent key; it never fails. */
    method GetState(key: string) returns (value: Option<string>)
      ensures key in kvs ==> value == Some(kvs[key])
      ensures key !in kvs ==> value == None
      ensures value.GetOr("") == Stored(kvs, key)
    {
      if key in kvs {
        return Some(kvs[key]);
      }
      return None;
    }

    /** `DelState`: the key is gone and nothing else changes; deleting an absent key is harmless. */
    method DelState(key: string)
      modifies this
      ensures kvs == old(kvs) - {key}
      ensures key !in kvs && forall k :: k != key ==> (k in kvs <==> k in old(kvs))
    {
      kvs := kvs - {key};
    }

    /** `GetKVSLength`: the number of stored keys. */
    method GetKVSLength() returns (n: int)
      ensures n == |kvs|
    {
      return |kvs|;
    }
  }
}
