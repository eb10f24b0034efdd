/**
  The SLA contract registry of chaincode_sla/chaincode_sla.go: a contract is
  a comma-separated text stored under its id, and its id is added to two
  index keys, the contract's name (field 1 of the text) and its client
  (field 4). An index value is the ids joined with '|', written as the id
  alone while the key holds nothing. All calls go to the in-memory ledger,
  whose reads never fail, so every error the source discards is absent here.
*/
module ContractRegistry {
  import opened Wrappers
  import opened Text
  import opened IdList
  import opened MemoryStore

  /** `ContractIDSeparator`. */
  const ContractIDSeparator := '|'
  /** The separator of the fields of a contract text. */
  const FieldSeparator := ','

  /** The index update of `registerContract`: the id alone on an empty value, else appended after a '|'. */
  function AddId(ids: string, id: string): string {
    if ids == "" then id else ids + [ContractIDSeparator] + id
  }

  /** Field 1 of a contract text, its name. */
  function NameOf(csv: string): string
    requires |Split(csv, FieldSeparator)| >= 5
  {
    Split(csv, FieldSeparator)[1]
  }

  /** Field 4 of a contract text, its client. */
  function ClientOf(csv: string): string
    requires |Split(csv, FieldSeparator)| >= 5
  {
    Split(csv, FieldSeparator)[4]
  }

  /**
    The ledger after `registerContract(id, csv)`: the text under the id, then
    the id added to the name key, then to the client key, each read back from
    the ledger as the previous writes left it.
  */
  function ContractRegistered(kvs: map<string, string>, id: string, csv: string): (r: map<string, string>)
    requires |Split(csv, FieldSeparator)| >= 5
    ensures r.Keys == kvs.Keys + {id, NameOf(csv), ClientOf(csv)}
  {
    var m1 := kvs[id := csv];
    var m2 := m1[NameOf(csv) := AddId(Stored(m1, NameOf(csv)), id)];
    m2[ClientOf(csv) := AddId(Stored(m2, ClientOf(csv)), id)]
  }

  /**
    What `searchContractListByName` / `searchContractListByClient` return for
    an index key: its value split at '|' with Go's `strings.Split` (so an
    empty value gives one piece, ""), each piece looked up as a contract id.
  */
  function ContractList(kvs: map<string, string>, key: string): (r: seq<string>)
    ensures |r| >= 1
  {
    Texts(kvs, Split(Stored(kvs, key), ContractIDSeparator))
  }

  /** The text stored under each id, "" for an absent one. */
  function Texts(kvs: map<string, string>, ids: seq<string>): (r: seq<string>)
    ensures |r| == |ids|
  {
    seq(|ids|, i requires 0 <= i < |ids| => Stored(kvs, ids[i]))
  }

  /** `registerContract`: Go panics on fewer than two arguments or fewer than five fields. */
  method RegisterContract(stub: KeyValueStub, args: seq<string>)
    requires |args| >= 2 && |Split(args[1], FieldSeparator)| >= 5
    modifies stub
    ensures stub.kvs == ContractRegistered(old(stub.kvs), args[0], args[1])
  {
    var contractID := args[0];
    var contractName := Split(args[1], FieldSeparator)[1];
    var contractClient := Split(args[1], FieldSeparator)[4];

    var _ := stub.PutState(contractID, Some(args[1]));

    var b := stub.GetState(contractName);
    var ids := b.GetOr("");
    if ids == "" {
      var _ := stub.PutState(contractName, Some(contractID));
    } else {
      var _ := stub.PutState(contractName, Some(ids + [ContractIDSeparator] + contractID));
    }

    b := stub.GetState(contractClient);
    ids := b.GetOr("");
    if ids == "" {
      var _ := stub.PutState(contractClient, Some(contractID));
    } else {
      var _ := stub.PutState(contractClient, Some(ids + [ContractIDSeparator] + contractID));
    }
  }

  /** `searchContractByID`: the stored text, "" for an absent id. */
  method SearchContractByID(stub: KeyValueStub, args: seq<string>) returns (r: string)
    requires |args| >= 1
    ensures args[0] in stub.kvs ==> r == stub.kvs[args[0]]
    ensures args[0] !in stub.kvs ==> r == ""
  {
    var b := stub.GetState(args[0]);
    return b.GetOr("");
  }

  /**
    `searchContractListByName` and `searchContractListByClient`, whose bodies
    are the same: one text per id on the key's list, in list order.
  */
  method SearchContractList(stub: KeyValueStub, args: seq<string>) returns (list: seq<string>)
    requires |args| >= 1
    ensures list == ContractList(stub.kvs, args[0])
  {
    var b := stub.GetState(args[0]);
    var ids := Split(b.GetOr(""), ContractIDSeparator);
    list := [];
    var i := 0;
    while i < |ids|
      invariant 0 <= i <= |ids| && |list| == i
      invariant forall j :: 0 <= j < i ==> list[j] == Stored(stub.kvs, ids[j])
    {
      var c := stub.GetState(ids[i]);
      list := list + [c.GetOr("")];
      i := i + 1;
    }
  }

  /** `updateContractId`: overwrites the id's text and returns what it reads back. */
  method UpdateContractId(stub: KeyValueStub, args: seq<string>) returns (r: string)
    requires |args| >= 2
    modifies stub
    ensures stub.kvs == old(stub.kvs)[args[0] := args[1]]
    ensures r == args[1]
  {
    var _ := stub.PutState(args[0], Some(args[1]));
    var b := stub.GetState(args[0]);
    return b.GetOr("");
  }

  // ---------------------------------------------------------------------
  // Properties
  // ---------------------------------------------------------------------

  /** The registry's own index update is the fraud store's list append with '|'. */
  lemma AddIdIsAppend(ids: string, id: string)
    requires ContractIDSeparator !in id
    ensures AddId(ids, id) == Append(ids, id, ContractIDSeparator)
  {
    SplitNoSep(id, ContractIDSeparator);
    if ids != "" {
      SplitAround(ids, id, ContractIDSeparator);
      JoinSplit(ids + [ContractIDSeparator] + id, ContractIDSeparator);
    }
  }

  /** Adding an id to an index value adds it at the end of the split list (the empty value counts as no ids). */
  lemma AddIdSplits(ids: string, id: string)
    requires ContractIDSeparator !in id
    ensures Split(AddId(ids, id), ContractIDSeparator) ==
      (if ids == "" then [] else Split(ids, ContractIDSeparator)) + [id]
  {
    SplitNoSep(id, ContractIDSeparator);
    if ids != "" {
      SplitAround(ids, id, ContractIDSeparator);
    }
  }

  /** An absent index key still gives one element: the text stored under the empty id. */
  lemma AbsentKeyGivesOneElement(kvs: map<string, string>, key: string)
    requires key !in kvs
    ensures ContractList(kvs, key) == [Stored(kvs, "")]
  {
    assert Split("", ContractIDSeparator) == [""];
  }

  /** The ids on a key's list after a registration. */
  lemma RegisteredIds(kvs: map<string, string>, id: string, csv: string, k: string)
    requires |Split(csv, FieldSeparator)| >= 5
    requires ContractIDSeparator !in id && id != "" && id != NameOf(csv) && id != ClientOf(csv)
    requires k == NameOf(csv) || k == ClientOf(csv)
    ensures Split(Stored(ContractRegistered(kvs, id, csv), k), ContractIDSeparator) ==
      (if Stored(kvs, k) == "" then [] else Split(Stored(kvs, k), ContractIDSeparator)) +
      (if NameOf(csv) == ClientOf(csv) then [id, id] else [id])
  {
    var name, client := NameOf(csv), ClientOf(csv);
    var m1 := kvs[id := csv];
    var m2 := m1[name := AddId(Stored(m1, name), id)];
    assert Stored(m1, name) == Stored(kvs, name);
    AddIdSplits(Stored(kvs, name), id);
    if name == client {
      assert Stored(m2, client) == AddId(Stored(kvs, name), id) != "";
      AddIdSplits(Stored(m2, client), id);
    } else {
      assert Stored(m2, client) == Stored(kvs, client);
      AddIdSplits(Stored(kvs, client), id);
    }
  }

  /** A registration changes no text but those under its id, its name and its client. */
  lemma RegisteredKeepsOthers(kvs: map<string, string>, id: string, csv: string, j: string)
    requires |Split(csv, FieldSeparator)| >= 5
    requires j !in {id, NameOf(csv), ClientOf(csv)}
    ensures Stored(ContractRegistered(kvs, id, csv), j) == Stored(kvs, j)
  {
  }

  /** The texts of a list that grew by `extra`, over a ledger whose old texts are unchanged. */
  lemma TextsGrow(kvs: map<string, string>, r: map<string, string>, before: seq<string>, extra: seq<string>)
    requires forall j :: 0 <= j < |before| ==> Stored(r, before[j]) == Stored(kvs, before[j])
    ensures Texts(r, before + extra) == Texts(kvs, before) + Texts(r, extra)
  {
  }

  /**
    A search after a registration: the registered text is appended to the
    name's and the client's lists (twice when name and client coincide), in
    registration order, provided the list held only other contract ids.
  */
  lemma SearchAfterRegister(kvs: map<string, string>, id: string, csv: string, k: string)
    requires |Split(csv, FieldSeparator)| >= 5
    requires ContractIDSeparator !in id && id != "" && id != NameOf(csv) && id != ClientOf(csv)
    requires k == NameOf(csv) || k == ClientOf(csv)
    requires Stored(kvs, k) != "" ==> forall j :: 0 <= j < |Split(Stored(kvs, k), ContractIDSeparator)| ==>
      Split(Stored(kvs, k), ContractIDSeparator)[j] !in {id, NameOf(csv), ClientOf(csv)}
    ensures ContractList(ContractRegistered(kvs, id, csv), k) ==
      (if Stored(kvs, k) == "" then [] else ContractList(kvs, k)) +
      (if NameOf(csv) == ClientOf(csv) then [csv, csv] else [csv])
  {
    var r := ContractRegistered(kvs, id, csv);
    RegisteredIds(kvs, id, csv, k);
    var before := if Stored(kvs, k) == "" then [] else Split(Stored(kvs, k), ContractIDSeparator);
    var extra := if NameOf(csv) == ClientOf(csv) then [id, id] else [id];
    forall j | 0 <= j < |before|
      ensures Stored(r, before[j]) == Stored(kvs, before[j])
    {
      RegisteredKeepsOthers(kvs, id, csv, before[j]);
    }
    TextsGrow(kvs, r, before, extra);
    assert Stored(r, id) == csv;
    assert Texts(r, extra) == if NameOf(csv) == ClientOf(csv) then [csv, csv] else [csv];
    assert Texts(kvs, before) == if Stored(kvs, k) == "" then [] else ContractList(kvs, k);
  }
}
