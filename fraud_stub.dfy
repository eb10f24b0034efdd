/**
  `FDSChaincodeStub` of chaincode_sla/chaincode_sla.go: the fraud-entry store
  over the in-memory ledger, with the eid counter `nextEID` held in the stub.
  chaincode_fds/chaincode_fds.go carries the same `RegisterFraudEntry`,
  `RemoveWith*` and `LookupWith*` over the same stub, with '|' instead of '$'
  as the separator of both records and lists; the separator is a field here.
  A record is its eight fields joined with the separator; a list of eid keys
  is joined the same way.
*/
module FraudStub {
  import opened Wrappers
  import opened Text
  import opened IdList
  import opened MemoryStore
  import opened FraudIndex

  /** `SEP` of chaincode_sla/chaincode_sla.go. */
  const SlaDraftSep := '$'
  /** `SEP` of chaincode_fds/chaincode_fds.go. */
  const FdsDraftSep := '|'

  lemma DraftSeparatorsOk()
    ensures SepOk(SlaDraftSep) && SepOk(FdsDraftSep)
  {
  }

  /** What `LookupWith*` returns for a list key: each listed record decoded, `[]` for one that is gone. */
  function Entries(kvs: map<string, string>, key: string, sep: char): seq<seq<string>> {
    Records(kvs, Listed(kvs, key, sep), sep)
  }

  /** The records stored under the given eid keys, decoded. */
  function Records(kvs: map<string, string>, ids: seq<string>, sep: char): (r: seq<seq<string>>)
    ensures |r| == |ids|
  {
    seq(|ids|, i requires 0 <= i < |ids| => Decode(Stored(kvs, ids[i]), sep))
  }

  class FdsStub {
    const store: KeyValueStub
    var nextEID: int
    const sep: char

    ghost predicate Valid()
      reads this, store
    {
      Consistent(store.kvs, nextEID, sep)
    }

    /** `CreateFDSChaincodeStub`: an empty store and `nextEID` 1. */
    constructor (sep: char)
      ensures fresh(store) && store.kvs == map[] && nextEID == 1 && this.sep == sep
      ensures Valid()
    {
      store := new KeyValueStub();
      nextEID := 1;
      this.sep := sep;
      EmptyConsistent(sep);
    }

    /**
      `RegisterFraudEntry`: anything but eight fields is refused and changes
      nothing; otherwise the record goes to `eid_<nextEID>`, that key is
      appended to the cid, mac and uuid lists, and the counter advances.
    */
    method RegisterFraudEntry(fields: seq<string>) returns (ok: bool)
      modifies this, store
      ensures ok <==> |fields| == NumFields
      ensures !ok ==> store.kvs == old(store.kvs) && nextEID == old(nextEID)
      ensures ok ==> nextEID == old(nextEID) + 1
      ensures ok ==> store.kvs == Registered(old(store.kvs), EidKey(old(nextEID)), Encode(fields, sep), fields, sep)
      ensures old(Valid()) && SepOk(sep) ==> Valid()
    {
      if |fields| != NumFields {
        return false;
      }
      var eidKey := EidKey(nextEID);
      var cidKey := IndexKey(Cid, fields[Cid.Index()]);
      var macKey := IndexKey(Mac, fields[Mac.Index()]);
      var uuidKey := IndexKey(Uuid, fields[Uuid.Index()]);

      ghost var m0 := store.kvs;
      var _ := store.PutState(eidKey, Some(Encode(fields, sep)));
      ghost var m1 := store.kvs;
      var b := store.GetState(cidKey);
      var _ := store.PutState(cidKey, Some(Append(b.GetOr(""), eidKey, sep)));
      assert store.kvs == AddToList(m1, cidKey, eidKey, sep);
      ghost var m2 := store.kvs;
      b := store.GetState(macKey);
      var _ := store.PutState(macKey, Some(Append(b.GetOr(""), eidKey, sep)));
      assert store.kvs == AddToList(m2, macKey, eidKey, sep);
      ghost var m3 := store.kvs;
      b := store.GetState(uuidKey);
      var _ := store.PutState(uuidKey, Some(Append(b.GetOr(""), eidKey, sep)));
      assert store.kvs == AddToList(m3, uuidKey, eidKey, sep);
      assert store.kvs == Registered(m0, eidKey, Encode(fields, sep), fields, sep);

      if Consistent(m0, nextEID, sep) && SepOk(sep) {
        RegisteredConsistent(m0, nextEID, Encode(fields, sep), fields, sep);
      }
      nextEID := nextEID + 1;
      return true;
    }

    /**
      `RemoveWithCID` / `RemoveWithMAC` / `RemoveWithUUID`: every record on
      the attribute value's list is deleted, then the list; the call always
      reports success.
    */
    method RemoveWith(attr: Attribute, value: string) returns (ok: bool)
      modifies store
      ensures ok
      ensures store.kvs == Removed(old(store.kvs), IndexKey(attr, value), sep)
      ensures old(Valid()) ==> Valid()
    {
      var key := IndexKey(attr, value);
      var b := store.GetState(key);
      var ids := Decode(b.GetOr(""), sep);
      var i := 0;
      while i < |ids|
        invariant 0 <= i <= |ids|
        invariant store.kvs == old(store.kvs) - ListedSet(ids[..i])
      {
        ListedSetStep(ids, i);
        store.DelState(ids[i]);
        i := i + 1;
      }
      assert ids[..|ids|] == ids;
      store.DelState(key);
      if old(Valid()) {
        IndexKeyShape(attr, value);
        RemovedConsistent(old(store.kvs), nextEID, key, sep);
      }
      return true;
    }

    /**
      `LookupWithCID` / `LookupWithMAC` / `LookupWithUUID`: one decoded record
      per listed eid key, in list order; an absent list gives no entries and a
      deleted record gives an empty field list. The call always succeeds.
    */
    method LookupWith(attr: Attribute, value: string) returns (entries: seq<seq<string>>, result: bool)
      ensures result
      ensures entries == Entries(store.kvs, IndexKey(attr, value), sep)
    {
      var key := IndexKey(attr, value);
      var b := store.GetState(key);
      var ids := Decode(b.GetOr(""), sep);
      entries := [];
      var i := 0;
      while i < |ids|
        invariant 0 <= i <= |ids| && |entries| == i
        invariant forall j :: 0 <= j < i ==> entries[j] == Decode(Stored(store.kvs, ids[j]), sep)
      {
        var e := store.GetState(ids[i]);
        entries := entries + [Decode(e.GetOr(""), sep)];
        i := i + 1;
      }
      return entries, true;
    }
  }

  // ---------------------------------------------------------------------
  // Properties of the store
  // ---------------------------------------------------------------------

  /** An eight-field record none of whose fields holds the separator decodes back to its fields. */
  lemma RecordRoundTrip(fields: seq<string>, sep: char)
    requires |fields| == NumFields
    requires forall i :: 0 <= i < |fields| ==> sep !in fields[i]
    ensures Decode(Encode(fields, sep), sep) == fields
  {
    DecodeEncode(fields, sep);
  }

  /** Entries of a list that grew by `extra`, over a store whose old records are unchanged. */
  lemma EntriesGrow(kvs: map<string, string>, r: map<string, string>, key: string, sep: char, extra: seq<string>)
    requires Listed(r, key, sep) == Listed(kvs, key, sep) + extra
    requires forall i :: 0 <= i < |Listed(kvs, key, sep)| ==>
      Stored(r, Listed(kvs, key, sep)[i]) == Stored(kvs, Listed(kvs, key, sep)[i])
    ensures Entries(r, key, sep) == Entries(kvs, key, sep) + Records(r, extra, sep)
  {
  }

  /** The entries of one list after a registration, given that the list names only older entries. */
  lemma RegisteredEntries(kvs: map<string, string>, next: int, record: string, fields: seq<string>, sep: char, k: string)
    requires SepOk(sep) && |fields| == NumFields && IsIndexKey(k) && ListsPast(Listed(kvs, k, sep), next)
    ensures Entries(Registered(kvs, EidKey(next), record, fields, sep), k, sep) ==
      Entries(kvs, k, sep) +
      (if k in {IndexKey(Cid, fields[0]), IndexKey(Mac, fields[1]), IndexKey(Uuid, fields[2])} then [Decode(record, sep)] else [])
  {
    var eid := EidKey(next);
    var r := Registered(kvs, eid, record, fields, sep);
    var before := Listed(kvs, k, sep);
    RegisteredListed(kvs, next, record, fields, sep, k);
    RegisteredKeepsListed(kvs, next, record, fields, sep, before);
    if k in {IndexKey(Cid, fields[0]), IndexKey(Mac, fields[1]), IndexKey(Uuid, fields[2])} {
      EntriesGrow(kvs, r, k, sep, [eid]);
      RegisteredRecord(kvs, next, record, fields, sep);
      assert Records(r, [eid], sep) == [Decode(record, sep)];
    } else {
      EntriesGrow(kvs, r, k, sep, []);
      assert Records(r, [], sep) == [];
    }
  }

  /**
    A lookup after a registration: the registered record is appended to the
    lookup of each of its three attribute values, and every other lookup is
    unchanged.
  */
  lemma LookupAfterRegister(kvs: map<string, string>, next: int, fields: seq<string>, sep: char, a: Attribute, v: string)
    requires Consistent(kvs, next, sep) && SepOk(sep) && |fields| == NumFields
    ensures Entries(Registered(kvs, EidKey(next), Encode(fields, sep), fields, sep), IndexKey(a, v), sep) ==
      Entries(kvs, IndexKey(a, v), sep) + (if fields[a.Index()] == v then [Decode(Encode(fields, sep), sep)] else [])
  {
    var k := IndexKey(a, v);
    IndexKeyShape(a, v);
    IndexKeyInjective(a, v, Cid, fields[0]);
    IndexKeyInjective(a, v, Mac, fields[1]);
    IndexKeyInjective(a, v, Uuid, fields[2]);
    assert k in {IndexKey(Cid, fields[0]), IndexKey(Mac, fields[1]), IndexKey(Uuid, fields[2])} <==> fields[a.Index()] == v;
    assert ListsPast(Listed(kvs, k, sep), next) by {
      if k !in kvs {
        assert Listed(kvs, k, sep) == [];
      }
    }
    RegisteredEntries(kvs, next, Encode(fields, sep), fields, sep, k);
  }

  /**
    A lookup after a removal: the removed value's lookup is empty; any other
    lookup keeps its length, and each of its positions becomes `[]` exactly
    when the record there was on the removed list.
  */
  lemma LookupAfterRemove(kvs: map<string, string>, next: int, sep: char, a: Attribute, v: string, b: Attribute, w: string)
    requires Consistent(kvs, next, sep)
    ensures Entries(Removed(kvs, IndexKey(a, v), sep), IndexKey(a, v), sep) == []
    ensures IndexKey(b, w) != IndexKey(a, v) ==>
      var before := Entries(kvs, IndexKey(b, w), sep);
      var after := Entries(Removed(kvs, IndexKey(a, v), sep), IndexKey(b, w), sep);
      var ids := Listed(kvs, IndexKey(b, w), sep);
      && |after| == |before|
      && forall i :: 0 <= i < |after| ==>
           after[i] == if ids[i] in ListedSet(Listed(kvs, IndexKey(a, v), sep)) then [] else before[i]
  {
    var key := IndexKey(a, v);
    var k := IndexKey(b, w);
    IndexKeyShape(a, v);
    IndexKeyShape(b, w);
    RemovedListed(kvs, next, key, sep, k);
    if k != key {
      var ids := Listed(kvs, k, sep);
      assert ListsPast(ids, next) by {
        if k !in kvs {
          assert ids == [];
        }
      }
      forall i | 0 <= i < |ids|
        ensures Stored(Removed(kvs, key, sep), ids[i]) ==
          if ids[i] in ListedSet(Listed(kvs, key, sep)) then "" else Stored(kvs, ids[i])
      {
        RemovedStored(kvs, next, key, sep, ids[i]);
      }
    }
  }

  /** A removal leaves every other index key exactly as it was: their lists may now name deleted records. */
  lemma RemoveKeepsOtherLists(kvs: map<string, string>, next: int, sep: char, a: Attribute, v: string, k: string)
    requires Consistent(kvs, next, sep) && IsIndexKey(k) && k != IndexKey(a, v)
    ensures (k in Removed(kvs, IndexKey(a, v), sep) <==> k in kvs)
    ensures k in kvs ==> Removed(kvs, IndexKey(a, v), sep)[k] == kvs[k]
  {
    var key := IndexKey(a, v);
    IndexKeyShape(a, v);
    if key in kvs && k in ListedSet(Listed(kvs, key, sep)) {
      EidNotIndex(k);
    }
  }
}
