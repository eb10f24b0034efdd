/**
  The fraud-detection chaincode of fds/chaincode_fds/chaincode_fds.go, on the
  peer's ledger. A fraud entry is stored as the JSON object `json.Marshal`
  writes for it under `eid_<n>`; the cid, mac and uuid lists are '|'-joined
  eid keys. The eid counter `nextEID` lives in the chaincode object, not in
  the ledger, and `main` starts it at 1. Every ledger read and write can
  fail; a handler that meets a failure returns an error and keeps what it
  already wrote.
*/
module FdsChaincode {
  import opened Wrappers
  import opened Text
  import opened Json
  import opened GoJson
  import opened IdList
  import opened MemoryStore
  import opened FraudIndex
  import opened Ledger

  /** `FIELDSEP`: the separator of the eid lists. */
  const FieldSep := '|'

  /** `FraudEntry`: eight strings, in the order of the registration arguments. */
  datatype FraudEntry = FraudEntry(
    cid: string, mac: string, uuid: string, finalDate: string, finalTime: string,
    producedBy: string, registeredBy: string, reason: string)
  {
    function Fields(): (r: seq<string>)
      ensures |r| == NumFields && r[0] == cid && r[1] == mac && r[2] == uuid
    {
      [cid, mac, uuid, finalDate, finalTime, producedBy, registeredBy, reason]
    }
  }

  function FromFields(f: seq<string>): (e: FraudEntry)
    requires |f| == NumFields
    ensures e.Fields() == f
  {
    FraudEntry(f[0], f[1], f[2], f[3], f[4], f[5], f[6], f[7])
  }

  /** The zero `FraudEntry`, every field "". */
  const ZeroEntry := FraudEntry("", "", "", "", "", "", "", "")

  /** The JSON keys of the struct tags, in field order. */
  const FieldNames: seq<string> := ["cid", "mac", "uuid", "finalDate", "finalTime", "producedBy", "registeredBy", "reason"]

  lemma FieldNamesDistinct()
    ensures DistinctNames(FieldNames)
  {
    forall i, j | 0 <= i < j < |FieldNames|
      ensures !FoldEq(FieldNames[i], FieldNames[j])
    {
      if i == 0 && j == 1 {
        assert Lower(FieldNames[i][0]) != Lower(FieldNames[j][0]);
      } else if i == 3 && j == 4 {
        assert Lower(FieldNames[i][5]) != Lower(FieldNames[j][5]);
      }
    }
  }

  /** `json.Marshal(entry)`: the stored form of an entry. */
  function Record(e: FraudEntry): string {
    Serialize(EncodeStruct(FieldNames, e.Fields()))
  }

  /** `json.Unmarshal(b, &entry)` into a zero entry: None when it reports an error. */
  function ParseEntry(b: string): (r: Option<FraudEntry>)
    ensures b == "" ==> r == None
  {
    match Parse(b)
    case None => None
    case Some(v) =>
      var d := DecodeStruct(FieldNames, ZeroEntry.Fields(), v);
      if d.1 then None else Some(FromFields(d.0))
  }

  /** `json.Marshal(entries)`: the response of the lookups. */
  function EntriesJson(es: seq<FraudEntry>): string {
    Serialize(EncodeSlice(FieldNames, seq(|es|, i requires 0 <= i < |es| => es[i].Fields())))
  }

  // ---------------------------------------------------------------------
  // What the lookups read
  // ---------------------------------------------------------------------

  /** One listed entry as `fdsGetWith*` reads it: a failed read, an absent record or a bad record is an error. */
  function ReadEntry(state: map<string, string>, readFaults: set<string>, id: string): Option<FraudEntry> {
    if id in readFaults || id !in state then None else ParseEntry(state[id])
  }

  predicate AllRead(state: map<string, string>, readFaults: set<string>, ids: seq<string>) {
    forall i :: 0 <= i < |ids| ==> ReadEntry(state, readFaults, ids[i]).Some?
  }

  function ReadAll(state: map<string, string>, readFaults: set<string>, ids: seq<string>): (r: seq<FraudEntry>)
    requires AllRead(state, readFaults, ids)
    ensures |r| == |ids|
  {
    seq(|ids|, i requires 0 <= i < |ids| => ReadEntry(state, readFaults, ids[i]).value)
  }

  /** The entries `fdsGetWith*` returns for an index key, or None when it reports an error. */
  function Lookup(state: map<string, string>, readFaults: set<string>, key: string): (r: Option<seq<FraudEntry>>)
    ensures key in readFaults ==> r == None
    ensures r.Some? ==> |r.value| == |Listed(state, key, FieldSep)|
  {
    var ids := Listed(state, key, FieldSep);
    if key in readFaults || !AllRead(state, readFaults, ids) then None
    else Some(ReadAll(state, readFaults, ids))
  }

  /** One slot of `fdsGetAll`: a failed read or a bad record is an error, an absent record the zero entry. */
  function ReadSlot(state: map<string, string>, readFaults: set<string>, id: string): Option<FraudEntry> {
    if id in readFaults then None
    else if id !in state then Some(ZeroEntry)
    else ParseEntry(state[id])
  }

  predicate AllSlots(state: map<string, string>, readFaults: set<string>, n: nat) {
    forall k :: 1 <= k <= n ==> ReadSlot(state, readFaults, EidKey(k)).Some?
  }

  /** What `fdsGetAll` returns for a counter of n + 1: slot i holds `eid_<i+1>`. */
  function Slots(state: map<string, string>, readFaults: set<string>, n: nat): (r: seq<FraudEntry>)
    requires AllSlots(state, readFaults, n)
    ensures |r| == n
  {
    seq(n, i requires 0 <= i < n => assert 1 <= i + 1 <= n; ReadSlot(state, readFaults, EidKey(i + 1)).value)
  }

  /** One slot that fails to read fails them all. */
  lemma MissingSlot(state: map<string, string>, readFaults: set<string>, n: nat, k: int)
    requires 1 <= k <= n && ReadSlot(state, readFaults, EidKey(k)).None?
    ensures !AllSlots(state, readFaults, n)
  {
  }

  /**
    The state of the `fdsGetAll` loop after i slots: the first i entries are
    the slots read, the rest still the zero entries `make` put there.
  */
  predicate FilledUpTo(state: map<string, string>, readFaults: set<string>, entries: seq<FraudEntry>, i: nat) {
    && i <= |entries|
    && (forall j :: 0 <= j < i ==> ReadSlot(state, readFaults, EidKey(j + 1)) == Some(entries[j]))
    && (forall j :: i <= j < |entries| ==> entries[j] == ZeroEntry)
  }

  /** A slot that reads as e is stored at its place. */
  lemma FillStep(state: map<string, string>, readFaults: set<string>, entries: seq<FraudEntry>, i: nat, e: FraudEntry)
    requires FilledUpTo(state, readFaults, entries, i) && i < |entries|
    requires ReadSlot(state, readFaults, EidKey(i + 1)) == Some(e)
    ensures FilledUpTo(state, readFaults, entries[i := e], i + 1)
  {
  }

  /** An absent record leaves the zero entry in its place. */
  lemma SkipStep(state: map<string, string>, readFaults: set<string>, entries: seq<FraudEntry>, i: nat)
    requires FilledUpTo(state, readFaults, entries, i) && i < |entries|
    requires ReadSlot(state, readFaults, EidKey(i + 1)) == Some(ZeroEntry)
    ensures FilledUpTo(state, readFaults, entries, i + 1)
  {
  }

  /** Entries that agree with every slot read are the slots. */
  lemma SlotsRead(state: map<string, string>, readFaults: set<string>, n: nat, entries: seq<FraudEntry>)
    requires |entries| == n
    requires forall j :: 0 <= j < n ==> ReadSlot(state, readFaults, EidKey(j + 1)) == Some(entries[j])
    ensures AllSlots(state, readFaults, n) && Slots(state, readFaults, n) == entries
  {
    forall k | 1 <= k <= n
      ensures ReadSlot(state, readFaults, EidKey(k)).Some?
    {
      assert ReadSlot(state, readFaults, EidKey((k - 1) + 1)) == Some(entries[k - 1]);
    }
  }

  /** The ledgers a registration passes through: after 0, 1, 2, 3 and all 4 of its writes. */
  function RegistrationSteps(kvs: map<string, string>, eid: string, record: string, fields: seq<string>): (r: seq<map<string, string>>)
    requires |fields| == NumFields
    ensures |r| == 5 && r[0] == kvs
  {
    var m1 := kvs[eid := record];
    var m2 := AddToList(m1, IndexKey(Cid, fields[0]), eid, FieldSep);
    var m3 := AddToList(m2, IndexKey(Mac, fields[1]), eid, FieldSep);
    [kvs, m1, m2, m3, AddToList(m3, IndexKey(Uuid, fields[2]), eid, FieldSep)]
  }

  /**
    One `appendToEIDList` step of `fdsCreateFraudEntry`: read the list under
    `key`, append `eid`, write it back; a failed read or write leaves the
    ledger as it was.
  */
  method AppendEid(stub: Shim, key: string, eid: string) returns (r: Result<()>)
    modifies stub
    ensures r.Success? <==> key !in stub.readFaults && key !in stub.writeFaults
    ensures stub.state == if r.Success? then AddToList(old(stub.state), key, eid, FieldSep) else old(stub.state)
  {
    var b := stub.GetState(key);
    if b.Failure? {
      return Failure("Failed to get state for" + key);
    }
    assert b.value.GetOr("") == Stored(stub.state, key);
    var ok := stub.PutState(key, Append(b.value.GetOr(""), eid, FieldSep));
    if !ok {
      return Failure("Failed to put state for " + key);
    }
    return Success(());
  }

  /** The last step of a registration is the whole registration. */
  lemma RegistrationStepsComplete(kvs: map<string, string>, eid: string, record: string, fields: seq<string>)
    requires |fields| == NumFields
    ensures RegistrationSteps(kvs, eid, record, fields)[4] == Registered(kvs, eid, record, fields, FieldSep)
  {
  }

  /**
    One listed read of `fdsGetWith*`: a failed read is an error, and so is
    an absent record or one that does not unmarshal.
  */
  method ReadListed(stub: Shim, id: string) returns (r: Result<FraudEntry>)
    ensures r.Failure? <==> ReadEntry(stub.state, stub.readFaults, id).None?
    ensures r.Success? ==> ReadEntry(stub.state, stub.readFaults, id) == Some(r.value)
  {
    var b := stub.GetState(id);
    if b.Failure? {
      return Failure("Failed to get state for" + id);
    }
    var entry := ParseEntry(b.value.GetOr(""));
    if entry.None? {
      return Failure("unexpected end of JSON input");
    }
    return Success(entry.value);
  }

  /**
    One slot read of `fdsGetAll`: a failed read or a record that does not
    unmarshal is an error, an absent record is None.
  */
  method ReadRecord(stub: Shim, id: string) returns (r: Result<Option<FraudEntry>>)
    ensures r.Failure? <==> ReadSlot(stub.state, stub.readFaults, id).None?
    ensures r.Success? && r.value.None? ==> ReadSlot(stub.state, stub.readFaults, id) == Some(ZeroEntry)
    ensures r.Success? && r.value.Some? ==> ReadSlot(stub.state, stub.readFaults, id) == r.value
  {
    var b := stub.GetState(id);
    if b.Failure? {
      return Failure("Failed to get state for " + id);
    }
    if b.value.None? {
      return Success(None);
    }
    var entry := ParseEntry(b.value.value);
    if entry.None? {
      return Failure("unexpected JSON input");
    }
    return Success(entry);
  }

  /** The handlers of `Invoke` and `Query`. */
  datatype Call =
    | RegisterCall | DeleteCall(attr: Attribute)
    | GetAllCall | GetWithCall(attr: Attribute) | NextEidCall

  /** `Invoke`'s switch: None for an unknown function name. */
  function InvokeRoute(function_name: string): (c: Option<Call>)
    ensures c.Some? ==> c.value.RegisterCall? || c.value.DeleteCall?
  {
    match function_name
    case "register" => Some(RegisterCall)
    case "fdsDeleteWithCid" => Some(DeleteCall(Cid))
    case "fdsDeleteWithMac" => Some(DeleteCall(Mac))
    case "fdsDeleteWithUuid" => Some(DeleteCall(Uuid))
    case _ => None
  }

  /** `Query`'s switch: None for an unknown function name. */
  function QueryRoute(function_name: string): (c: Option<Call>)
    ensures c.Some? ==> c.value.GetAllCall? || c.value.GetWithCall? || c.value.NextEidCall?
  {
    match function_name
    case "fdsGetAll" => Some(GetAllCall)
    case "fdsGetWithCid" => Some(GetWithCall(Cid))
    case "fdsGetWithMac" => Some(GetWithCall(Mac))
    case "fdsGetWithUuid" => Some(GetWithCall(Uuid))
    case "getnexteid" => Some(NextEidCall)
    case _ => None
  }

  /**
    How far the delete loop of `fdsDeleteWith*` gets: the position of the
    first listed key whose delete fails, or the length of the list when
    every delete succeeds.
  */
  function FirstFaulty(ids: seq<string>, faults: set<string>): (n: nat)
    ensures n <= |ids|
    ensures forall j :: 0 <= j < n ==> ids[j] !in faults
    ensures n < |ids| ==> ids[n] in faults
  {
    if ids == [] || ids[0] in faults then 0 else 1 + FirstFaulty(ids[1..], faults)
  }

  class SimpleChaincode {
    var nextEID: int

    /** `main`: the counter starts at 1. */
    constructor ()
      ensures nextEID == 1
    {
      nextEID := 1;
    }

    /** `Init`: accepts no arguments and changes nothing. */
    method Init(stub: Shim, args: seq<string>) returns (r: Result<()>)
      ensures r.Success? <==> |args| == 0
    {
      if |args| != 0 {
        return Failure("Initializing requires 0 argument");
      }
      return Success(());
    }

    /**
      `fdsCreateFraudEntry`: eight arguments, the fields of the entry. The
      entry goes to `eid_<nextEID>`, then its key is appended to the cid, mac
      and uuid lists, each read before it is written. The counter advances
      only when all seven ledger calls succeed; a failure keeps the writes
      already made, so the record stays under a key the next registration
      will use again.
    */
    method CreateFraudEntry(stub: Shim, args: seq<string>) returns (r: Result<()>, ghost writes: nat)
      modifies this, stub
      ensures r.Success? <==>
        |args| == NumFields &&
        EidKey(old(nextEID)) !in stub.writeFaults &&
        IndexKey(Cid, args[0]) !in stub.readFaults && IndexKey(Cid, args[0]) !in stub.writeFaults &&
        IndexKey(Mac, args[1]) !in stub.readFaults && IndexKey(Mac, args[1]) !in stub.writeFaults &&
        IndexKey(Uuid, args[2]) !in stub.readFaults && IndexKey(Uuid, args[2]) !in stub.writeFaults
      ensures nextEID == if r.Success? then old(nextEID) + 1 else old(nextEID)
      ensures |args| != NumFields ==> stub.state == old(stub.state) && writes == 0
      ensures |args| == NumFields ==>
        && writes <= 4 && (writes == 4 <==> r.Success?)
        && stub.state == RegistrationSteps(old(stub.state), EidKey(old(nextEID)), Record(FromFields(args)), args)[writes]
      ensures |args| == NumFields && EidKey(old(nextEID)) !in stub.writeFaults ==> writes >= 1
      ensures |args| == NumFields ==> (writes ==
        if EidKey(old(nextEID)) in stub.writeFaults then 0
        else if IndexKey(Cid, args[0]) in stub.readFaults + stub.writeFaults then 1
        else if IndexKey(Mac, args[1]) in stub.readFaults + stub.writeFaults then 2
        else if IndexKey(Uuid, args[2]) in stub.readFaults + stub.writeFaults then 3
        else 4)
    {
      writes := 0;
      if |args| != NumFields {
        return Failure("Register requires 8 arguments"), 0;
      }
      var eidKey := EidKey(nextEID);
      var cidKey := IndexKey(Cid, args[0]);
      var macKey := IndexKey(Mac, args[1]);
      var uuidKey := IndexKey(Uuid, args[2]);
      var record := Record(FromFields(args));
      ghost var steps := RegistrationSteps(stub.state, eidKey, record, args);

      var ok := stub.PutState(eidKey, record);
      if !ok {
        return Failure("Failed to put state for " + eidKey), writes;
      }
      assert stub.state == steps[1];
      writes := 1;

      r := AppendEid(stub, cidKey, eidKey);
      if r.Failure? {
        return r, writes;
      }
      assert stub.state == steps[2];
      writes := 2;

      r := AppendEid(stub, macKey, eidKey);
      if r.Failure? {
        return r, writes;
      }
      assert stub.state == steps[3];
      writes := 3;

      r := AppendEid(stub, uuidKey, eidKey);
      if r.Failure? {
        return r, writes;
      }
      assert stub.state == steps[4];
      RegistrationStepsComplete(steps[0], eidKey, record, args);
      writes := 4;

      nextEID := nextEID + 1;
      return Success(()), writes;
    }

    /**
      `fdsDeleteWithCid` / `fdsDeleteWithMac` / `fdsDeleteWithUuid`: one
      argument, the attribute value. Every eid key on its list is deleted,
      then the list itself; the first failed delete ends the call with the
      earlier deletes kept. The other two lists are not touched.
    */
    method DeleteWith(stub: Shim, attr: Attribute, args: seq<string>) returns (r: Result<()>)
      modifies stub
      ensures |args| != 1 ==> r.Failure? && stub.state == old(stub.state)
      ensures |args| == 1 ==>
        (r.Success? <==>
          && IndexKey(attr, args[0]) !in stub.readFaults
          && (forall id :: id in Listed(old(stub.state), IndexKey(attr, args[0]), FieldSep) ==> id !in stub.writeFaults)
          && IndexKey(attr, args[0]) !in stub.writeFaults)
      ensures r.Success? ==> stub.state == Removed(old(stub.state), IndexKey(attr, args[0]), FieldSep)
      ensures forall k :: k in stub.state ==> k in old(stub.state) && stub.state[k] == old(stub.state)[k]
      ensures |args| == 1 ==>
        old(stub.state).Keys - stub.state.Keys <=
          ListedSet(Listed(old(stub.state), IndexKey(attr, args[0]), FieldSep)) + {IndexKey(attr, args[0])}
      ensures |args| == 1 && IndexKey(attr, args[0]) in stub.readFaults ==> stub.state == old(stub.state)
      ensures |args| == 1 && IndexKey(attr, args[0]) !in stub.readFaults && r.Failure? ==>
        var ids := Listed(old(stub.state), IndexKey(attr, args[0]), FieldSep);
        stub.state == old(stub.state) - ListedSet(ids[..FirstFaulty(ids, stub.writeFaults)])
    {
      if |args| != 1 {
        return Failure("Removing requires 1 argument");
      }
      var key := IndexKey(attr, args[0]);
      var b := stub.GetState(key);
      if b.Failure? {
        return Failure("Failed to get state for" + key);
      }
      var ids := Decode(b.value.GetOr(""), FieldSep);
      assert ids == Listed(old(stub.state), key, FieldSep);
      var i := 0;
      while i < |ids|
        invariant 0 <= i <= |ids|
        invariant stub.state == old(stub.state) - ListedSet(ids[..i])
        invariant ListedSet(ids[..i]) <= ListedSet(ids)
        invariant forall j :: 0 <= j < i ==> ids[j] !in stub.writeFaults
      {
        ListedSetStep(ids, i);
        var ok := stub.DelState(ids[i]);
        if !ok {
          assert ids[i] in ids;
          assert FirstFaulty(ids, stub.writeFaults) == i;
          return Failure("Failed to delete state for" + ids[i]);
        }
        i := i + 1;
      }
      assert ids[..|ids|] == ids;
      assert FirstFaulty(ids, stub.writeFaults) == |ids|;
      var ok := stub.DelState(key);
      if !ok {
        return Failure("Failed to delete state for" + key);
      }
      return Success(());
    }

    /**
      `fdsGetWithCid` / `fdsGetWithMac` / `fdsGetWithUuid`: one argument, the
      attribute value. Each listed eid key is read and its record
      unmarshalled into a fresh entry; a failed read, an absent record or a
      record that does not unmarshal fails the whole call. The response is
      the marshalled entries, in list order.
    */
    method GetWith(stub: Shim, attr: Attribute, args: seq<string>) returns (r: Result<string>)
      ensures r.Success? <==> |args| == 1 && Lookup(stub.state, stub.readFaults, IndexKey(attr, args[0])).Some?
      ensures r.Success? ==> r.value == EntriesJson(Lookup(stub.state, stub.readFaults, IndexKey(attr, args[0])).value)
    {
      if |args| != 1 {
        return Failure("Looking up requires 1 argument");
      }
      var key := IndexKey(attr, args[0]);
      var b := stub.GetState(key);
      if b.Failure? {
        return Failure("{\"Error\":\"Failed to get state for " + key + "\"}");
      }
      var ids := Decode(b.value.GetOr(""), FieldSep);
      assert ids == Listed(stub.state, key, FieldSep);
      var entries := ReadEach(stub, ids);
      if entries.Failure? {
        return Failure(entries.error);
      }
      return Success(EntriesJson(entries.value));
    }

    /** The loop of `fdsGetWith*`: every listed record in list order, or the first error. */
    method ReadEach(stub: Shim, ids: seq<string>) returns (r: Result<seq<FraudEntry>>)
      ensures r.Success? <==> AllRead(stub.state, stub.readFaults, ids)
      ensures r.Success? ==> r.value == ReadAll(stub.state, stub.readFaults, ids)
    {
      var entries: seq<FraudEntry> := [];
      var i := 0;
      while i < |ids|
        invariant 0 <= i <= |ids| && |entries| == i
        invariant forall j :: 0 <= j < i ==> ReadEntry(stub.state, stub.readFaults, ids[j]) == Some(entries[j])
      {
        var entry := ReadListed(stub, ids[i]);
        if entry.Failure? {
          return Failure(entry.error);
        }
        entries := entries + [entry.value];
        i := i + 1;
      }
      assert entries == ReadAll(stub.state, stub.readFaults, ids);
      return Success(entries);
    }

    /**
      `fdsGetAll`: no arguments; one entry per eid issued so far, slot i from
      `eid_<i+1>`. An absent record leaves the zero entry in its slot; a
      failed read or a record that does not unmarshal fails the call. A
      counter below 1 would make Go's `make` panic.
    */
    method GetAll(stub: Shim, args: seq<string>) returns (r: Result<string>)
      requires nextEID >= 1
      ensures r.Success? <==> |args| == 0 && AllSlots(stub.state, stub.readFaults, nextEID - 1)
      ensures r.Success? ==> r.value == EntriesJson(Slots(stub.state, stub.readFaults, nextEID - 1))
    {
      if |args| != 0 {
        return Failure("Looking up all entries requires 0 argument");
      }
      var n := nextEID - 1;
      var entries: seq<FraudEntry> := seq(n, _ => ZeroEntry);
      var i := 0;
      while i < n
        invariant 0 <= i <= n && |entries| == n
        invariant FilledUpTo(stub.state, stub.readFaults, entries, i)
      {
        var slot := ReadRecord(stub, EidKey(i + 1));
        if slot.Failure? {
          MissingSlot(stub.state, stub.readFaults, n, i + 1);
          return Failure(slot.error);
        }
        if slot.value.Some? {
          FillStep(stub.state, stub.readFaults, entries, i, slot.value.value);
          entries := entries[i := slot.value.value];
        } else {
          SkipStep(stub.state, stub.readFaults, entries, i);
        }
        i := i + 1;
      }
      SlotsRead(stub.state, stub.readFaults, n, entries);
      return Success(EntriesJson(entries));
    }

    /**
      `Invoke`: "register" creates an entry, `fdsDeleteWith*` delete by one
      attribute; any other function name is an error that changes nothing.
    */
    method Invoke(stub: Shim, function_name: string, args: seq<string>) returns (r: Result<()>)
      modifies this, stub
      ensures InvokeRoute(function_name).None? ==>
        r.Failure? && stub.state == old(stub.state) && nextEID == old(nextEID)
      ensures InvokeRoute(function_name) == Some(RegisterCall) ==>
        nextEID == if r.Success? then old(nextEID) + 1 else old(nextEID)
      ensures InvokeRoute(function_name) == Some(RegisterCall) && r.Success? ==>
        |args| == NumFields &&
        stub.state == Registered(old(stub.state), EidKey(old(nextEID)), Record(FromFields(args)), args, FieldSep)
      ensures InvokeRoute(function_name).Some? && InvokeRoute(function_name).value.DeleteCall? ==>
        && nextEID == old(nextEID)
        && (r.Success? ==> (
          && |args| == 1
          && stub.state == Removed(old(stub.state), IndexKey(InvokeRoute(function_name).value.attr, args[0]), FieldSep)))
    {
      var route := InvokeRoute(function_name);
      if route.None? {
        return Failure("Invalid invoke function name. Expecting \"register\" \"removewith~\"");
      }
      match route.value
      case RegisterCall =>
        ghost var writes;
        r, writes := CreateFraudEntry(stub, args);
        if r.Success? {
          RegistrationStepsComplete(old(stub.state), EidKey(old(nextEID)), Record(FromFields(args)), args);
        }
      case DeleteCall(attr) =>
        r := DeleteWith(stub, attr, args);
      case _ =>
        assert false;
    }

    /**
      `Query`: the lookups, and "getnexteid", which answers the counter in
      decimal; any other function name is an error. `fdsGetAll` needs a
      counter of at least 1.
    */
    method Query(stub: Shim, function_name: string, args: seq<string>) returns (r: Result<string>)
      requires QueryRoute(function_name) == Some(GetAllCall) ==> nextEID >= 1
      ensures QueryRoute(function_name).None? ==> r.Failure?
      ensures QueryRoute(function_name) == Some(NextEidCall) ==> r.Success? && Atoi(r.value) == Some(nextEID)
      ensures QueryRoute(function_name) == Some(GetAllCall) ==>
        (r.Success? <==> |args| == 0 && AllSlots(stub.state, stub.readFaults, nextEID - 1)) &&
        (r.Success? ==> r.value == EntriesJson(Slots(stub.state, stub.readFaults, nextEID - 1)))
      ensures QueryRoute(function_name).Some? && QueryRoute(function_name).value.GetWithCall? ==>
        var key := IndexKey(QueryRoute(function_name).value.attr, if |args| == 1 then args[0] else "");
        (r.Success? <==> |args| == 1 && Lookup(stub.state, stub.readFaults, key).Some?) &&
        (r.Success? ==> r.value == EntriesJson(Lookup(stub.state, stub.readFaults, key).value))
    {
      var route := QueryRoute(function_name);
      if route.None? {
        return Failure("Invalid query function name. Expecting \"lookupwith~\"");
      }
      match route.value
      case GetAllCall =>
        r := GetAll(stub, args);
      case GetWithCall(attr) =>
        r := GetWith(stub, attr, args);
      case NextEidCall =>
        ItoaRoundTrip(nextEID);
        r := Success(Itoa(nextEID));
      case _ =>
        assert false;
    }
  }

  // ---------------------------------------------------------------------
  // Properties
  // ---------------------------------------------------------------------

  /** A stored entry unmarshals back to itself. */
  lemma EntryRoundTrip(e: FraudEntry)
    ensures ParseEntry(Record(e)) == Some(e)
  {
    var v := EncodeStruct(FieldNames, e.Fields());
    ParseSerialize(v);
    FieldNamesDistinct();
    DecodeEncodeStruct(FieldNames, ZeroEntry.Fields(), e.Fields());
    assert FromFields(e.Fields()) == e;
  }

  /** A client unmarshalling a lookup response gets the entries' fields back. */
  lemma ResponseRoundTrip(es: seq<FraudEntry>)
    ensures Parse(EntriesJson(es)).Some?
    ensures DecodeSlice(FieldNames, [], Parse(EntriesJson(es)).value) ==
      (seq(|es|, i requires 0 <= i < |es| => es[i].Fields()), false)
  {
    var vals := seq(|es|, i requires 0 <= i < |es| => es[i].Fields());
    ParseSerialize(EncodeSlice(FieldNames, vals));
    FieldNamesDistinct();
    DecodeEncodeSlice(FieldNames, [], vals);
  }

  /** A listed record that is gone makes the whole lookup fail. */
  lemma DanglingFailsLookup(state: map<string, string>, readFaults: set<string>, key: string, id: string)
    requires id in Listed(state, key, FieldSep) && id !in state
    ensures Lookup(state, readFaults, key) == None
  {
    var ids := Listed(state, key, FieldSep);
    var i :| 0 <= i < |ids| && ids[i] == id;
    assert ReadEntry(state, readFaults, ids[i]).None?;
  }

  /**
    Deleting by one attribute leaves the entry's other lists naming a deleted
    record, so a lookup on them fails from then on.
  */
  lemma DeleteLeavesDangling(kvs: map<string, string>, readFaults: set<string>, next: int, k1: string, k2: string, id: string)
    requires Consistent(kvs, next, FieldSep) && IsIndexKey(k1) && IsIndexKey(k2) && k1 != k2
    requires id in Listed(kvs, k1, FieldSep) && id in Listed(kvs, k2, FieldSep)
    ensures Lookup(Removed(kvs, k1, FieldSep), readFaults, k2) == None
  {
    RemovedListed(kvs, next, k1, FieldSep, k2);
    DanglingFailsLookup(Removed(kvs, k1, FieldSep), readFaults, k2, id);
  }

  /** The entries read from a list that grew by `extra`, over a ledger whose old records are unchanged. */
  lemma ReadAllGrow(kvs: map<string, string>, r: map<string, string>, readFaults: set<string>, before: seq<string>, extra: seq<string>)
    requires AllRead(kvs, readFaults, before) && AllRead(r, readFaults, extra)
    requires forall j :: 0 <= j < |before| ==> (before[j] in r <==> before[j] in kvs) && Stored(r, before[j]) == Stored(kvs, before[j])
    ensures AllRead(r, readFaults, before + extra)
    ensures ReadAll(r, readFaults, before + extra) == ReadAll(kvs, readFaults, before) + ReadAll(r, readFaults, extra)
  {
    forall j | 0 <= j < |before|
      ensures ReadEntry(r, readFaults, before[j]) == ReadEntry(kvs, readFaults, before[j])
    {
    }
    assert forall j :: 0 <= j < |before + extra| ==>
      (before + extra)[j] == if j < |before| then before[j] else extra[j - |before|];
  }

  /** A lookup on a list that grew by `extra`, over a ledger whose old records are unchanged. */
  lemma LookupGrow(kvs: map<string, string>, r: map<string, string>, readFaults: set<string>, k: string, extra: seq<string>)
    requires Lookup(kvs, readFaults, k).Some? && AllRead(r, readFaults, extra)
    requires Listed(r, k, FieldSep) == Listed(kvs, k, FieldSep) + extra
    requires forall j :: 0 <= j < |Listed(kvs, k, FieldSep)| ==>
      var id := Listed(kvs, k, FieldSep)[j]; (id in r <==> id in kvs) && Stored(r, id) == Stored(kvs, id)
    ensures Lookup(r, readFaults, k) == Some(Lookup(kvs, readFaults, k).value + ReadAll(r, readFaults, extra))
  {
    ReadAllGrow(kvs, r, readFaults, Listed(kvs, k, FieldSep), extra);
  }

  /** `LookupGrow` for a list that gained at most one id, whose record reads as `e`. */
  lemma LookupGrowBy(kvs: map<string, string>, r: map<string, string>, readFaults: set<string>, k: string, eid: string, e: FraudEntry, hit: bool)
    requires Lookup(kvs, readFaults, k).Some?
    requires Listed(r, k, FieldSep) == Listed(kvs, k, FieldSep) + (if hit then [eid] else [])
    requires forall j :: 0 <= j < |Listed(kvs, k, FieldSep)| ==>
      var id := Listed(kvs, k, FieldSep)[j]; (id in r <==> id in kvs) && Stored(r, id) == Stored(kvs, id)
    requires hit ==> ReadEntry(r, readFaults, eid) == Some(e)
    ensures Lookup(r, readFaults, k) == Some(Lookup(kvs, readFaults, k).value + (if hit then [e] else []))
  {
    var extra := if hit then [eid] else [];
    assert AllRead(r, readFaults, extra) && ReadAll(r, readFaults, extra) == (if hit then [e] else []);
    LookupGrow(kvs, r, readFaults, k, extra);
  }

  /** The registered record reads back as its entry. */
  lemma RegisteredReads(kvs: map<string, string>, readFaults: set<string>, next: int, record: string, fields: seq<string>, e: FraudEntry)
    requires |fields| == NumFields && ParseEntry(record) == Some(e) && EidKey(next) !in readFaults
    ensures ReadEntry(Registered(kvs, EidKey(next), record, fields, FieldSep), readFaults, EidKey(next)) == Some(e)
    ensures ReadSlot(Registered(kvs, EidKey(next), record, fields, FieldSep), readFaults, EidKey(next)) == Some(e)
  {
    RegisteredRecord(kvs, next, record, fields, FieldSep);
  }

  /** The lookup of one list after a registration, given that the list names only older entries. */
  lemma RegisteredLookup(kvs: map<string, string>, readFaults: set<string>, next: int, record: string, fields: seq<string>, e: FraudEntry, k: string)
    requires |fields| == NumFields && IsIndexKey(k) && ListsPast(Listed(kvs, k, FieldSep), next)
    requires ParseEntry(record) == Some(e) && EidKey(next) !in readFaults && Lookup(kvs, readFaults, k).Some?
    ensures Lookup(Registered(kvs, EidKey(next), record, fields, FieldSep), readFaults, k) ==
      Some(Lookup(kvs, readFaults, k).value +
        (if k in {IndexKey(Cid, fields[0]), IndexKey(Mac, fields[1]), IndexKey(Uuid, fields[2])} then [e] else []))
  {
    var eid := EidKey(next);
    var r := Registered(kvs, eid, record, fields, FieldSep);
    var before := Listed(kvs, k, FieldSep);
    var hit := k in {IndexKey(Cid, fields[0]), IndexKey(Mac, fields[1]), IndexKey(Uuid, fields[2])};
    var extra := if hit then [eid] else [];
    assert Listed(r, k, FieldSep) == before + extra by {
      RegisteredListed(kvs, next, record, fields, FieldSep, k);
    }
    assert forall j :: 0 <= j < |before| ==>
      var id := before[j]; (id in r <==> id in kvs) && Stored(r, id) == Stored(kvs, id)
    by {
      forall j | 0 <= j < |before|
        ensures (before[j] in r <==> before[j] in kvs) && Stored(r, before[j]) == Stored(kvs, before[j])
      {
        RegisteredKeepsRecords(kvs, next, record, fields, FieldSep, before[j]);
      }
    }
    assert hit ==> ReadEntry(r, readFaults, eid) == Some(e) by {
      RegisteredReads(kvs, readFaults, next, record, fields, e);
    }
    LookupGrowBy(kvs, r, readFaults, k, eid, e, hit);
  }

  /**
    A lookup after a successful `fdsCreateFraudEntry`: the new entry is
    appended to the lookups of its cid, mac and uuid, and every other lookup
    is unchanged.
  */
  lemma LookupAfterCreate(kvs: map<string, string>, readFaults: set<string>, next: int, e: FraudEntry, a: Attribute, v: string)
    requires Consistent(kvs, next, FieldSep)
    requires EidKey(next) !in readFaults && Lookup(kvs, readFaults, IndexKey(a, v)).Some?
    ensures Lookup(Registered(kvs, EidKey(next), Record(e), e.Fields(), FieldSep), readFaults, IndexKey(a, v)) ==
      Some(Lookup(kvs, readFaults, IndexKey(a, v)).value + (if e.Fields()[a.Index()] == v then [e] else []))
  {
    var fields := e.Fields();
    var k := IndexKey(a, v);
    IndexKeyShape(a, v);
    IndexKeyInjective(a, v, Cid, fields[0]);
    IndexKeyInjective(a, v, Mac, fields[1]);
    IndexKeyInjective(a, v, Uuid, fields[2]);
    assert k in {IndexKey(Cid, fields[0]), IndexKey(Mac, fields[1]), IndexKey(Uuid, fields[2])} <==> fields[a.Index()] == v;
    assert ListsPast(Listed(kvs, k, FieldSep), next) by {
      if k !in kvs {
        assert Listed(kvs, k, FieldSep) == [];
      }
    }
    EntryRoundTrip(e);
    RegisteredLookup(kvs, readFaults, next, Record(e), fields, e, k);
  }

  /**
    `fdsGetAll` after a successful `fdsCreateFraudEntry`: one more slot, and
    it holds the new entry.
  */
  lemma SlotsAfterCreate(kvs: map<string, string>, readFaults: set<string>, next: int, e: FraudEntry, record: string)
    requires next >= 1 && ParseEntry(record) == Some(e) && EidKey(next) !in readFaults
    requires AllSlots(kvs, readFaults, next - 1)
    ensures AllSlots(Registered(kvs, EidKey(next), record, e.Fields(), FieldSep), readFaults, next)
    ensures Slots(Registered(kvs, EidKey(next), record, e.Fields(), FieldSep), readFaults, next) ==
      Slots(kvs, readFaults, next - 1) + [e]
  {
    RegisteredSlots(kvs, readFaults, next, record, e.Fields(), e);
    SlotsGrow(kvs, Registered(kvs, EidKey(next), record, e.Fields(), FieldSep), readFaults, next - 1, e);
  }

  /** A registration keeps every older slot and fills slot `next` with its entry. */
  lemma RegisteredSlots(kvs: map<string, string>, readFaults: set<string>, next: int, record: string, fields: seq<string>, e: FraudEntry)
    requires next >= 1 && |fields| == NumFields && ParseEntry(record) == Some(e) && EidKey(next) !in readFaults
    ensures forall k :: 1 <= k <= next - 1 ==>
      ReadSlot(Registered(kvs, EidKey(next), record, fields, FieldSep), readFaults, EidKey(k)) == ReadSlot(kvs, readFaults, EidKey(k))
    ensures ReadSlot(Registered(kvs, EidKey(next), record, fields, FieldSep), readFaults, EidKey(next - 1 + 1)) == Some(e)
  {
    forall k | 1 <= k <= next - 1
      ensures ReadSlot(Registered(kvs, EidKey(next), record, fields, FieldSep), readFaults, EidKey(k)) == ReadSlot(kvs, readFaults, EidKey(k))
    {
      RegisteredKeepsSlot(kvs, readFaults, next, record, fields, k);
    }
    RegisteredReads(kvs, readFaults, next, record, fields, e);
  }

  /** A registration leaves every older slot as it was. */
  lemma RegisteredKeepsSlot(kvs: map<string, string>, readFaults: set<string>, next: int, record: string, fields: seq<string>, k: int)
    requires |fields| == NumFields && 1 <= k < next
    ensures ReadSlot(Registered(kvs, EidKey(next), record, fields, FieldSep), readFaults, EidKey(k)) == ReadSlot(kvs, readFaults, EidKey(k))
  {
    EidKeyShape(k, FieldSep);
    EidKeyInjective(k, next);
    EidNotIndex(EidKey(k));
    RegisteredKeepsRecords(kvs, next, record, fields, FieldSep, EidKey(k));
  }

  /** The slots over a ledger that kept the first n slots and gained slot n + 1. */
  lemma SlotsGrow(kvs: map<string, string>, r: map<string, string>, readFaults: set<string>, n: nat, e: FraudEntry)
    requires AllSlots(kvs, readFaults, n)
    requires forall k :: 1 <= k <= n ==> ReadSlot(r, readFaults, EidKey(k)) == ReadSlot(kvs, readFaults, EidKey(k))
    requires ReadSlot(r, readFaults, EidKey(n + 1)) == Some(e)
    ensures AllSlots(r, readFaults, n + 1)
    ensures Slots(r, readFaults, n + 1) == Slots(kvs, readFaults, n) + [e]
  {
    forall k | 1 <= k <= n + 1
      ensures ReadSlot(r, readFaults, EidKey(k)).Some?
    {
      if k <= n {
        assert ReadSlot(kvs, readFaults, EidKey(k)).Some?;
      }
    }
    var s0 := Slots(kvs, readFaults, n);
    var s1 := Slots(r, readFaults, n + 1);
    forall i | 0 <= i < n + 1
      ensures s1[i] == (s0 + [e])[i]
    {
      if i < n {
        assert ReadSlot(r, readFaults, EidKey(i + 1)) == ReadSlot(kvs, readFaults, EidKey(i + 1));
      }
    }
  }

  /**
    `fdsGetAll` after a delete: a slot whose record was on the deleted list
    now holds the zero entry.
  */
  lemma SlotAfterDelete(kvs: map<string, string>, readFaults: set<string>, key: string, k: int)
    requires EidKey(k) in Listed(kvs, key, FieldSep) && EidKey(k) !in readFaults
    ensures ReadSlot(Removed(kvs, key, FieldSep), readFaults, EidKey(k)) == Some(ZeroEntry)
  {
  }

  /**
    The partial-failure quirk: when a registration stops after its cid append
    (the mac or uuid step failed), the counter does not move, and the next
    registration with the same cid appends the same eid key again, so that
    cid's list names the key twice.
  */
  lemma RetryListsTwice(kvs: map<string, string>, n: int, record: string, fields: seq<string>, record2: string, fields2: seq<string>)
    requires |fields| == NumFields && |fields2| == NumFields && fields2[0] == fields[0]
    ensures Listed(
      Registered(RegistrationSteps(kvs, EidKey(n), record, fields)[2], EidKey(n), record2, fields2, FieldSep),
      IndexKey(Cid, fields[0]), FieldSep) ==
      Listed(kvs, IndexKey(Cid, fields[0]), FieldSep) + [EidKey(n), EidKey(n)]
  {
    var eid := EidKey(n);
    var c := IndexKey(Cid, fields[0]);
    var m2 := RegistrationSteps(kvs, eid, record, fields)[2];
    var before := Listed(kvs, c, FieldSep);
    assert Listed(m2, c, FieldSep) == before + [eid] by {
      CidStepListed(kvs, n, record, fields);
    }
    assert Listed(Registered(m2, eid, record2, fields2, FieldSep), c, FieldSep) == Listed(m2, c, FieldSep) + [eid] by {
      IndexKeyShape(Cid, fields[0]);
      RegisteredListed(m2, n, record2, fields2, FieldSep, c);
      assert c == IndexKey(Cid, fields2[0]);
    }
    AppendTwice(before, eid);
  }

  /** After the first two writes of a registration, the cid list holds the new eid key at its end. */
  lemma CidStepListed(kvs: map<string, string>, n: int, record: string, fields: seq<string>)
    requires |fields| == NumFields
    ensures Listed(RegistrationSteps(kvs, EidKey(n), record, fields)[2], IndexKey(Cid, fields[0]), FieldSep) ==
      Listed(kvs, IndexKey(Cid, fields[0]), FieldSep) + [EidKey(n)]
  {
    var eid := EidKey(n);
    var c := IndexKey(Cid, fields[0]);
    EidKeyShape(n, FieldSep);
    IndexKeyShape(Cid, fields[0]);
    var m1 := kvs[eid := record];
    assert Listed(m1, c, FieldSep) == Listed(kvs, c, FieldSep);
    AddToListListed(m1, c, eid, FieldSep, c);
  }
}
