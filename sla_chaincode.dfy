/**
  The SLA contract chaincode of sla/chaincode_sla/chaincode_sla.go on the
  peer's ledger. A contract is stored as JSON text under its `RegId`; the
  contract name, the client name and `SLA_ALL_DATA` each hold a '|'-joined
  list of contract ids. Contract ids come from a counter kept in the ledger
  together with the current year. The chaincode object itself has no state.
  The current year and date (`time.Now()`) are parameters.
*/
module SlaChaincode {
  import opened Wrappers
  import opened Text
  import opened Json
  import opened MemoryStore
  import opened Ledger
  import opened SlaRecords

  /** `FIELDSEP`: the separator of the id lists. */
  const FieldSep := '|'
  /** `ENTRYSEP`: the separator of the records `slaGetAllContracts` returns. */
  const EntrySep := ','
  const AllDataKey := "SLA_ALL_DATA"
  const ContractIdPrefix := "SLA_CONT_"
  const ContractCountKey := "SLA_CONTRACT_ID_COUNT"
  const EvaluationCountKey := "SLA_EVALUATION_ID_COUNT"
  const CurrentYearKey := "CURRENT_YEAR"
  /** The width `padLeft` pads to. */
  const IdWidth := 5
  /** The approval state `slaApproveContract` writes: Korean for "approved". */
  const ApprovedState := "\U{C2B9}\U{C778}"

  /** The ledger after a `PutState` whose error the handler does not act on. */
  function Put(state: map<string, string>, writeFaults: set<string>, key: string, value: string): map<string, string> {
    if key in writeFaults then state else state[key := value]
  }

  // ---------------------------------------------------------------------
  // padLeft
  // ---------------------------------------------------------------------

  function Zeros(n: nat): (r: string)
    ensures |r| == n && forall i :: 0 <= i < n ==> r[i] == '0'
  {
    seq(n, _ => '0')
  }

  /**
    What `padLeft` returns: a string of at least five characters that ends
    with `s` and has only '0's in front of it.
  */
  function Padded(s: string): (r: string)
    ensures |r| == if |s| >= IdWidth then |s| else IdWidth
    ensures r[|r| - |s|..] == s
    ensures forall i :: 0 <= i < |r| - |s| ==> r[i] == '0'
  {
    if |s| >= IdWidth then s else Zeros(IdWidth - |s|) + s
  }

  /** `padLeft`: prepend "0" until the string is five characters long. */
  method PadLeft(s: string) returns (r: string)
    ensures r == Padded(s)
  {
    r := s;
    while true
      invariant |s| <= |r| && r == Zeros(|r| - |s|) + s
      invariant |r| > |s| ==> |r| <= IdWidth
      decreases IdWidth - |r|
    {
      if |r| >= IdWidth {
        return;
      }
      r := "0" + r;
    }
  }

  // ---------------------------------------------------------------------
  // Init
  // ---------------------------------------------------------------------

  /** The ledger after `Init`: both counters at "1" and the current year. */
  function InitState(state: map<string, string>, writeFaults: set<string>, year: int): (r: map<string, string>)
    ensures ContractCountKey !in writeFaults ==> Stored(r, ContractCountKey) == "1"
    ensures EvaluationCountKey !in writeFaults ==> Stored(r, EvaluationCountKey) == "1"
    ensures CurrentYearKey !in writeFaults ==> Stored(r, CurrentYearKey) == Itoa(year)
    ensures forall k :: k !in {ContractCountKey, EvaluationCountKey, CurrentYearKey} || k in writeFaults ==>
      (k in r <==> k in state) && Stored(r, k) == Stored(state, k)
  {
    Put(Put(Put(state, writeFaults, ContractCountKey, "1"), writeFaults, EvaluationCountKey, "1"),
      writeFaults, CurrentYearKey, Itoa(year))
  }

  /**
    `Init`: three writes; each one's error overwrites the previous one's, so
    only a failure of the last write (the year) is reported.
  */
  method Init(stub: Shim, year: int) returns (r: Result<()>)
    modifies stub
    ensures stub.state == InitState(old(stub.state), stub.writeFaults, year)
    ensures r.Success? <==> CurrentYearKey !in stub.writeFaults
  {
    var ok := stub.PutState(ContractCountKey, "1");
    ok := stub.PutState(EvaluationCountKey, "1");
    ok := stub.PutState(CurrentYearKey, Itoa(year));
    if !ok {
      return Failure("Failed to put state for " + CurrentYearKey);
    }
    return Success(());
  }

  // ---------------------------------------------------------------------
  // slaGetContractId
  // ---------------------------------------------------------------------

  /** The counter as `slaGetContractId` reads it: 0 when it is absent or not a number. */
  function CurrentCount(state: map<string, string>): int {
    AtoiOrZero(Stored(state, ContractCountKey))
  }

  /** `SLA_CONT_<year>_<padLeft(count)>`. */
  function ContractId(year: int, count: int): string {
    ContractIdPrefix + Itoa(year) + "_" + Padded(Itoa(count))
  }

  /** The first write of `slaGetContractId`: an absent counter is set to "1". */
  function CountInitialised(state: map<string, string>, writeFaults: set<string>): map<string, string> {
    if ContractCountKey in state then state else Put(state, writeFaults, ContractCountKey, "1")
  }

  /**
    The ledger after a `slaGetContractId` whose reads succeed. The counter
    ends at the value read plus one: the reset to "1" for a new year is
    overwritten by the final write, so it never takes effect. The year key
    ends at the current year.
  */
  function IdState(state: map<string, string>, writeFaults: set<string>, year: int): (r: map<string, string>)
    ensures ContractCountKey !in writeFaults ==> Stored(r, ContractCountKey) == Itoa(CurrentCount(state) + 1)
    ensures CurrentYearKey !in writeFaults ==> Stored(r, CurrentYearKey) == Itoa(year)
    ensures forall k :: k !in {ContractCountKey, CurrentYearKey} || k in writeFaults ==>
      (k in r <==> k in state) && Stored(r, k) == Stored(state, k)
  {
    var count := CurrentCount(state);
    Put(YearRolled(CountInitialised(state, writeFaults), writeFaults, year), writeFaults, ContractCountKey, Itoa(count + 1))
  }

  /**
    The year writes of `slaGetContractId`: an absent year is stored, and a
    stored year other than the current one is replaced and the counter reset
    to 1.
  */
  function YearRolled(state: map<string, string>, writeFaults: set<string>, year: int): map<string, string> {
    var s2 := if CurrentYearKey in state then state else Put(state, writeFaults, CurrentYearKey, Itoa(year));
    if Stored(state, CurrentYearKey) != Itoa(year) then
      Put(Put(s2, writeFaults, CurrentYearKey, Itoa(year)), writeFaults, ContractCountKey, "1")
    else s2
  }

  /**
    `slaGetContractId`: reads the counter and the year, returns the id for
    the counter read and stores the counter plus one. A failed read of the
    year ends the call after the counter may have been initialised.
  */
  method GetContractId(stub: Shim, year: int) returns (r: Result<string>)
    modifies stub
    ensures r.Success? <==> ContractCountKey !in stub.readFaults && CurrentYearKey !in stub.readFaults
    ensures r.Success? ==> r.value == ContractId(year, CurrentCount(old(stub.state)))
    ensures stub.state ==
      if ContractCountKey in stub.readFaults then old(stub.state)
      else if CurrentYearKey in stub.readFaults then CountInitialised(old(stub.state), stub.writeFaults)
      else IdState(old(stub.state), stub.writeFaults, year)
  {
    ghost var s0 := stub.state;
    var countText := stub.GetState(ContractCountKey);
    if countText.Failure? {
      return Failure("Failed to SLA_CONTRACT_ID_COUNT_KEY with " + ContractCountKey);
    }
    var ok: bool;
    if countText.value.None? {
      ok := stub.PutState(ContractCountKey, "1");
    }
    assert stub.state == CountInitialised(s0, stub.writeFaults);
    var currentCount := AtoiOrZero(countText.value.GetOr(""));
    assert currentCount == CurrentCount(s0);
    var rolled := RollYear(stub, year);
    if rolled.Failure? {
      return Failure(rolled.error);
    }
    var padded := PadLeft(Itoa(currentCount));
    var contractId := ContractIdPrefix + Itoa(year) + "_" + padded;
    ok := stub.PutState(ContractCountKey, Itoa(currentCount + 1));
    return Success(contractId);
  }

  /** The year step of `slaGetContractId`: a failed read of the year ends the call. */
  method RollYear(stub: Shim, year: int) returns (r: Result<()>)
    modifies stub
    ensures r.Success? <==> CurrentYearKey !in stub.readFaults
    ensures stub.state == if r.Failure? then old(stub.state) else YearRolled(old(stub.state), stub.writeFaults, year)
  {
    var yearText := stub.GetState(CurrentYearKey);
    if yearText.Failure? {
      return Failure("Failed to kvsCurrentYearInBytes with " + CurrentYearKey);
    }
    ghost var s1 := stub.state;
    var ok: bool;
    if yearText.value.None? {
      ok := stub.PutState(CurrentYearKey, Itoa(year));
    }
    assert stub.state == if CurrentYearKey in s1 then s1 else Put(s1, stub.writeFaults, CurrentYearKey, Itoa(year));
    if yearText.value.GetOr("") != Itoa(year) {
      ok := stub.PutState(CurrentYearKey, Itoa(year));
      ok := stub.PutState(ContractCountKey, "1");
    }
    return Success(());
  }

  lemma PaddedDigit(d: string)
    requires |d| == 1
    ensures Padded(d) == "0000" + d
  {
    assert Zeros(4) == "0000";
  }

  /** An absent counter reads as 0: the id ends in `_00000` and the counter is stored as 1. */
  lemma AbsentCounter(state: map<string, string>, writeFaults: set<string>, year: int)
    requires ContractCountKey !in state && ContractCountKey !in writeFaults
    ensures ContractId(year, CurrentCount(state)) == ContractIdPrefix + Itoa(year) + "_00000"
    ensures Stored(IdState(state, writeFaults, year), ContractCountKey) == "1"
  {
    assert Atoi("") == None;
    assert Itoa(0) == "0";
    PaddedDigit("0");
    assert Itoa(1) == "1";
  }

  /** After `Init`, two calls give the ids numbered 00001 and 00002, and the counter stands at 3. */
  lemma InitThenTwoIds(state: map<string, string>, writeFaults: set<string>, year: int)
    requires ContractCountKey !in writeFaults && CurrentYearKey !in writeFaults
    ensures var s1 := InitState(state, writeFaults, year);
      && ContractId(year, CurrentCount(s1)) == ContractIdPrefix + Itoa(year) + "_00001"
      && ContractId(year, CurrentCount(IdState(s1, writeFaults, year))) == ContractIdPrefix + Itoa(year) + "_00002"
      && Stored(IdState(IdState(s1, writeFaults, year), writeFaults, year), ContractCountKey) == "3"
  {
    var s1 := InitState(state, writeFaults, year);
    assert Itoa(1) == "1";
    ItoaRoundTrip(1);
    assert CurrentCount(s1) == 1;
    PaddedDigit("1");
    var s2 := IdState(s1, writeFaults, year);
    ItoaRoundTrip(2);
    assert CurrentCount(s2) == 2;
    assert Itoa(2) == "2";
    PaddedDigit("2");
    var s3 := IdState(s2, writeFaults, year);
    assert Itoa(3) == "3";
  }

  // ---------------------------------------------------------------------
  // Id lists
  // ---------------------------------------------------------------------

  /** The create handler's list update: the id alone when nothing is stored, else appended after '|'. */
  function AppendId(ids: string, id: string): string {
    if ids == "" then id else ids + [FieldSep] + id
  }

  /** The ids listed under a key; an empty or absent value lists none. */
  function ListedIds(state: map<string, string>, key: string): seq<string> {
    if Stored(state, key) == "" then [] else Split(Stored(state, key), FieldSep)
  }

  /** Appending an id without '|' adds exactly that id at the end of the list. */
  lemma AppendIdSplits(ids: string, id: string)
    requires FieldSep !in id
    ensures Split(AppendId(ids, id), FieldSep) == (if ids == "" then [] else Split(ids, FieldSep)) + [id]
  {
    SplitNoSep(id, FieldSep);
    if ids != "" {
      SplitAround(ids, id, FieldSep);
    }
  }

  // ---------------------------------------------------------------------
  // slaCreateContract
  // ---------------------------------------------------------------------

  /**
    `slaCreateContract` for the contract `c` parsed from `content`: the raw
    content goes under `RegId`, then the id is appended to the list under
    the contract's name, the one under its client and `SLA_ALL_DATA`. A
    failed read of the client list is ignored and the list is written as if
    it were empty; any other failure ends the call with the earlier writes
    kept.
  */
  function Create(state: map<string, string>, readFaults: set<string>, writeFaults: set<string>,
                  c: SlaContract, content: string): (r: (Result<()>, map<string, string>))
    ensures r.0.Success? <==>
      c.regId !in writeFaults && c.name !in readFaults && c.name !in writeFaults &&
      c.client !in writeFaults && AllDataKey !in readFaults && AllDataKey !in writeFaults
    ensures c.regId in writeFaults ==> r.1 == state
    ensures forall k :: k !in {c.regId, c.name, c.client, AllDataKey} ==>
      (k in r.1 <==> k in state) && Stored(r.1, k) == Stored(state, k)
  {
    if c.regId in writeFaults then (Failure("Failed to put state with" + content), state)
    else
      var s1 := state[c.regId := content];
      if c.name in readFaults then (Failure("Failed to get state with"), s1)
      else if c.name in writeFaults then (Failure("Failed to put state for " + c.name), s1)
      else
        var s2 := s1[c.name := AppendId(Stored(s1, c.name), c.regId)];
        var clientIds := if c.client in readFaults then "" else Stored(s2, c.client);
        if c.client in writeFaults then (Failure("Failed to put state for " + c.client), s2)
        else
          var s3 := s2[c.client := AppendId(clientIds, c.regId)];
          if AllDataKey in readFaults then (Failure("Failed to get state with"), s3)
          else if AllDataKey in writeFaults then (Failure("Failed to put state for " + AllDataKey), s3)
          else (Success(()), s3[AllDataKey := AppendId(Stored(s3, AllDataKey), c.regId)])
  }

  /** The four keys a registration writes are pairwise distinct. */
  predicate SeparateKeys(c: SlaContract) {
    && c.regId != c.name && c.regId != c.client && c.regId != AllDataKey
    && c.name != c.client && c.name != AllDataKey && c.client != AllDataKey
  }

  /**
    `slaCreateContract`: content that does not unmarshal into a contract is
    refused before anything is written.
  */
  method CreateContract(stub: Shim, args: seq<string>) returns (r: Result<()>)
    requires |args| >= 1
    modifies stub
    ensures ParseContract(args[0]).None? ==> r.Failure? && stub.state == old(stub.state)
    ensures ParseContract(args[0]).Some? ==>
      (r, stub.state) == Create(old(stub.state), stub.readFaults, stub.writeFaults, ParseContract(args[0]).value, args[0])
  {
    var content := args[0];
    var parsed := ParseContract(content);
    if parsed.None? {
      return Failure("Failed to registerContractByIdToJSON with " + content);
    }
    var data := parsed.value;
    var ok := stub.PutState(data.regId, content);
    if !ok {
      return Failure("Failed to put state with" + content);
    }
    var nameIds := stub.GetState(data.name);
    if nameIds.Failure? {
      return Failure("Failed to get state with");
    }
    ok := stub.PutState(data.name, AppendId(nameIds.value.GetOr(""), data.regId));
    if !ok {
      return Failure("Failed to put state for " + data.name);
    }
    var clientIds := stub.GetState(data.client);
    var clientText := if clientIds.Failure? then "" else clientIds.value.GetOr("");
    ok := stub.PutState(data.client, AppendId(clientText, data.regId));
    if !ok {
      return Failure("Failed to put state for " + data.client);
    }
    var allIds := stub.GetState(AllDataKey);
    if allIds.Failure? {
      return Failure("Failed to get state with");
    }
    ok := stub.PutState(AllDataKey, AppendId(allIds.value.GetOr(""), data.regId));
    if !ok {
      return Failure("Failed to put state for " + AllDataKey);
    }
    return Success(());
  }

  /**
    A successful registration over four distinct keys stores the content
    under the id and lists the id last under the name, the client and
    `SLA_ALL_DATA`, without removing duplicates.
  */
  lemma CreateLists(state: map<string, string>, readFaults: set<string>, writeFaults: set<string>,
                    c: SlaContract, content: string)
    requires Create(state, readFaults, writeFaults, c, content).0.Success?
    requires SeparateKeys(c) && FieldSep !in c.regId && c.regId != "" && c.client !in readFaults
    ensures var s := Create(state, readFaults, writeFaults, c, content).1;
      && Stored(s, c.regId) == content
      && ListedIds(s, c.name) == ListedIds(state, c.name) + [c.regId]
      && ListedIds(s, c.client) == ListedIds(state, c.client) + [c.regId]
      && ListedIds(s, AllDataKey) == ListedIds(state, AllDataKey) + [c.regId]
  {
    var s := Create(state, readFaults, writeFaults, c, content).1;
    assert Stored(s, c.name) == AppendId(Stored(state, c.name), c.regId);
    assert Stored(s, c.client) == AppendId(Stored(state, c.client), c.regId);
    assert Stored(s, AllDataKey) == AppendId(Stored(state, AllDataKey), c.regId);
    AppendIdSplits(Stored(state, c.name), c.regId);
    AppendIdSplits(Stored(state, c.client), c.regId);
    AppendIdSplits(Stored(state, AllDataKey), c.regId);
  }

  /** When the client list cannot be read, a successful registration replaces it by the new id alone. */
  lemma CreateClientUnread(state: map<string, string>, readFaults: set<string>, writeFaults: set<string>,
                           c: SlaContract, content: string)
    requires Create(state, readFaults, writeFaults, c, content).0.Success?
    requires SeparateKeys(c) && c.client in readFaults
    ensures Stored(Create(state, readFaults, writeFaults, c, content).1, c.client) == c.regId
  {
  }

  /** A failed read of the name list ends the call with the record already stored. */
  lemma CreateKeepsRecord(state: map<string, string>, readFaults: set<string>, writeFaults: set<string>,
                          c: SlaContract, content: string)
    requires c.regId !in writeFaults && c.name in readFaults
    ensures Create(state, readFaults, writeFaults, c, content) ==
      (Failure("Failed to get state with"), state[c.regId := content])
  {
  }

  /** Registering the same contract twice lists its id twice. */
  lemma CreateTwice(state: map<string, string>, readFaults: set<string>, writeFaults: set<string>,
                    c: SlaContract, content: string)
    requires Create(state, readFaults, writeFaults, c, content).0.Success?
    requires SeparateKeys(c) && FieldSep !in c.regId && c.regId != "" && c.client !in readFaults
    ensures var s := Create(state, readFaults, writeFaults, c, content).1;
      ListedIds(Create(s, readFaults, writeFaults, c, content).1, AllDataKey) ==
        ListedIds(state, AllDataKey) + [c.regId, c.regId]
  {
    var s := Create(state, readFaults, writeFaults, c, content).1;
    CreateLists(state, readFaults, writeFaults, c, content);
    CreateLists(s, readFaults, writeFaults, c, content);
    AppendTwice(ListedIds(state, AllDataKey), c.regId);
  }

  // ---------------------------------------------------------------------
  // slaUpdateContract (and slaAbandonContract)
  // ---------------------------------------------------------------------

  /**
    `slaUpdateContract`: content that unmarshals into a contract is stored
    verbatim under its `RegId`; no list is touched and nothing is checked
    against what was stored before.
  */
  method UpdateContract(stub: Shim, args: seq<string>) returns (r: Result<()>)
    requires |args| >= 1
    modifies stub
    ensures r.Success? <==> ParseContract(args[0]).Some? && ParseContract(args[0]).value.regId !in stub.writeFaults
    ensures r.Success? ==> stub.state == old(stub.state)[ParseContract(args[0]).value.regId := args[0]]
    ensures r.Failure? ==> stub.state == old(stub.state)
  {
    var content := args[0];
    var parsed := ParseContract(content);
    if parsed.None? {
      return Failure("Failed to registerContractByIdToJSON with " + content);
    }
    var ok := stub.PutState(parsed.value.regId, content);
    if !ok {
      return Failure("Failed to put state with" + content);
    }
    return Success(());
  }

  /** The handlers `Invoke` and `Query` dispatch to. */
  datatype Handler =
    | CreateContractHandler | UpdateContractHandler | ApproveContractHandler
    | UpdateDraftHandler      // slaUpdateContract1, not part of this model
    | NoOpHandler             // a handler whose body returns nil, nil
    | GetContractIdHandler | GetAllContractsHandler | GetContractWithIdHandler
    | GetContractsWithNameHandler | GetContractsWithClientHandler

  /** `Invoke`'s switch: None for an unknown function name, which is an error. */
  function InvokeRoute(function_name: string): (h: Option<Handler>) {
    match function_name
    case "slaCreateContract" => Some(CreateContractHandler)
    case "slaUpdateContract" => Some(UpdateContractHandler)
    case "slaUpdateContract1" => Some(UpdateDraftHandler)
    case "slaAbandonContract" => Some(UpdateContractHandler)
    case "slaSubmitContract" => Some(NoOpHandler)
    case "slaApproveContract" => Some(ApproveContractHandler)
    case "slaRejectContract" => Some(NoOpHandler)
    case "slaCloseContract" => Some(NoOpHandler)
    case "slaCreateEvaluationTemplateFromContract" => Some(NoOpHandler)
    case "slaInitEvaluationValues" => Some(NoOpHandler)
    case "slaUpdateEvaluationValues" => Some(NoOpHandler)
    case "slaSubmitEvaluation" => Some(NoOpHandler)
    case "slaApproveEvaluation" => Some(NoOpHandler)
    case "slaRejectEvaluation" => Some(NoOpHandler)
    case "slaSubmitPayment" => Some(NoOpHandler)
    case "slaClosePayment" => Some(NoOpHandler)
    case "slaCloseEvaluation" => Some(NoOpHandler)
    case "slaCloseEvaluationRoot" => Some(NoOpHandler)
    case _ => None
  }

  /** `Query`'s switch: the evaluation queries read the contracts. */
  function QueryRoute(function_name: string): (h: Option<Handler>) {
    match function_name
    case "slaGetContractId" => Some(GetContractIdHandler)
    case "slaGetAllContracts" => Some(GetAllContractsHandler)
    case "slaGetContractWithId" => Some(GetContractWithIdHandler)
    case "slaGetContractsWithName" => Some(GetContractsWithNameHandler)
    case "slaGetContractsWithClient" => Some(GetContractsWithClientHandler)
    case "slaGetEvaluationId" => Some(NoOpHandler)
    case "slaGetAllEvaluations" => Some(GetAllContractsHandler)
    case "slaGetEvaluationWithId" => Some(GetContractWithIdHandler)
    case "slaGetEvaluationsWithName" => Some(GetContractsWithNameHandler)
    case "slaGetEvaluationsWithClient" => Some(GetContractsWithClientHandler)
    case _ => None
  }

  /** Abandoning a contract is an update; submit, reject and close do nothing. */
  lemma AbandonIsUpdate()
    ensures InvokeRoute("slaAbandonContract") == InvokeRoute("slaUpdateContract") == Some(UpdateContractHandler)
    ensures InvokeRoute("slaSubmitContract") == InvokeRoute("slaRejectContract") == InvokeRoute("slaCloseContract") == Some(NoOpHandler)
  {
  }

  // ---------------------------------------------------------------------
  // slaApproveContract
  // ---------------------------------------------------------------------

  /** The contract stored under an id, as `slaApproveContract` reads it: None when the read or Unmarshal fails. */
  function ReadContract(state: map<string, string>, readFaults: set<string>, id: string): Option<SlaContract> {
    if id in readFaults then None else ParseContract(Stored(state, id))
  }

  /** The approval slot `slaApproveContract` signs: `strconv.Atoi(args[3])`, 0 when it is not a number. */
  function ApprovalNo(args: seq<string>): int
    requires |args| >= 4
  {
    AtoiOrZero(args[3])
  }

  /** Go indexes `data.Approvals` with the slot number and panics outside the slice. */
  predicate ApprovalInRange(state: map<string, string>, readFaults: set<string>, args: seq<string>)
    requires |args| >= 4
  {
    var c := ReadContract(state, readFaults, args[0]);
    c.Some? ==> 0 <= ApprovalNo(args) < |c.value.approvals|
  }

  /**
    `slaApproveContract(id, user, comment, slot)`: signs the given slot of
    the stored contract as approved on `date` and stores the contract back,
    re-marshalled, under the id given.
  */
  method ApproveContract(stub: Shim, args: seq<string>, date: string) returns (r: Result<()>)
    requires |args| >= 4
    requires ApprovalInRange(stub.state, stub.readFaults, args)
    modifies stub
    ensures r.Success? <==> ReadContract(old(stub.state), stub.readFaults, args[0]).Some? && args[0] !in stub.writeFaults
    ensures r.Failure? ==> stub.state == old(stub.state)
    ensures r.Success? ==>
      var signed := Sign(ReadContract(old(stub.state), stub.readFaults, args[0]).value, ApprovalNo(args),
                         args[1], ApprovedState, date, args[2]);
      && stub.state == old(stub.state)[args[0] := ContractJson(signed)]
      && ReadContract(stub.state, stub.readFaults, args[0]) == Some(signed)
  {
    var stored := stub.GetState(args[0]);
    if stored.Failure? {
      return Failure("Failed to get state with ");
    }
    var parsed := ParseContract(stored.value.GetOr(""));
    if parsed.None? {
      return Failure("Failed to slaApproveContract with " + stored.value.GetOr(""));
    }
    var k := AtoiOrZero(args[3]);
    var data := Sign(parsed.value, k, args[1], ApprovedState, date, args[2]);
    var content := ContractJson(data);
    var ok := stub.PutState(args[0], content);
    if !ok {
      return Failure("Failed to put state with" + content);
    }
    ParseContractJson(data);
    return Success(());
  }

  // ---------------------------------------------------------------------
  // Lookups
  // ---------------------------------------------------------------------

  /** What a lookup loop reads for a listed id: the stored text, "" when absent or when the read fails. */
  function Fetched(state: map<string, string>, readFaults: set<string>, id: string): string {
    if id in readFaults then "" else Stored(state, id)
  }

  /** The ids a lookup splits out of a list key: an empty or absent list splits to `[""]`. */
  function SplitIds(state: map<string, string>, key: string): (ids: seq<string>)
    ensures |ids| >= 1
    ensures Stored(state, key) != "" ==> ids == ListedIds(state, key)
  {
    Split(Stored(state, key), FieldSep)
  }

  /**
    `slaGetContractWithId`: the stored text, None when nothing is stored.
    Like every lookup it prints `args[0]` before counting the arguments, so
    an empty argument list panics: callers must pass at least one.
  */
  method GetContractWithId(stub: Shim, args: seq<string>) returns (r: Result<Option<string>>)
    requires |args| >= 1
    ensures r.Success? <==> |args| == 1 && args[0] !in stub.readFaults
    ensures r.Success? ==> (r.value.Some? <==> args[0] in stub.state)
    ensures r.Success? && r.value.Some? ==> r.value.value == stub.state[args[0]]
  {
    if |args| != 1 {
      return Failure("Incorrect number of arguments. Expecting name of the Value to slaGetContractWithId");
    }
    var stored := stub.GetState(args[0]);
    if stored.Failure? {
      return Failure("Failed to get state with" + args[0]);
    }
    return Success(stored.value);
  }

  /** The raw records listed under `SLA_ALL_DATA`, one per id. */
  function AllRecords(state: map<string, string>, readFaults: set<string>): (r: seq<string>)
    ensures |r| == |SplitIds(state, AllDataKey)|
  {
    var ids := SplitIds(state, AllDataKey);
    seq(|ids|, i requires 0 <= i < |ids| => Fetched(state, readFaults, ids[i]))
  }

  /** `slaGetAllContracts`: the raw records of every listed id, joined with ',' (an empty argument list panics). */
  method GetAllContracts(stub: Shim, args: seq<string>) returns (r: Result<string>)
    requires |args| >= 1
    ensures r.Success? <==> |args| == 1 && AllDataKey !in stub.readFaults
    ensures r.Success? ==> r.value == Join(AllRecords(stub.state, stub.readFaults), EntrySep)
  {
    if |args| != 1 {
      return Failure("Incorrect number of arguments. Expecting name of the value to slaGetContractsWithName");
    }
    var allIds := stub.GetState(AllDataKey);
    if allIds.Failure? {
      return Failure("Failed to get state with " + args[0]);
    }
    var ids := Split(allIds.value.GetOr(""), FieldSep);
    var list := new string[|ids|](_ => "");
    for i := 0 to |ids|
      invariant forall j :: 0 <= j < i ==> list[j] == Fetched(stub.state, stub.readFaults, ids[j])
    {
      var got := stub.GetState(ids[i]);
      list[i] := if got.Failure? then "" else got.value.GetOr("");
    }
    assert list[..] == AllRecords(stub.state, stub.readFaults);
    return Success(Join(list[..], EntrySep));
  }

  /** The last record `slaGetAllContracts` returns after a registration is the registered content. */
  lemma AllRecordsAfterCreate(state: map<string, string>, readFaults: set<string>, writeFaults: set<string>,
                              c: SlaContract, content: string)
    requires Create(state, readFaults, writeFaults, c, content).0.Success?
    requires SeparateKeys(c) && FieldSep !in c.regId && c.regId != "" && c.client !in readFaults && c.regId !in readFaults
    ensures var s := Create(state, readFaults, writeFaults, c, content).1;
      && SplitIds(s, AllDataKey) == ListedIds(state, AllDataKey) + [c.regId]
      && AllRecords(s, readFaults)[|AllRecords(s, readFaults)| - 1] == content
  {
    var s := Create(state, readFaults, writeFaults, c, content).1;
    CreateLists(state, readFaults, writeFaults, c, content);
    assert Stored(s, AllDataKey) != "";
  }

  /** `data` after the lookup loop has unmarshalled the first n listed records into it. */
  function DataAfter(state: map<string, string>, readFaults: set<string>, ids: seq<string>, n: nat): SlaContract
    requires n <= |ids|
  {
    if n == 0 then ZeroContract
    else Unmarshal(DataAfter(state, readFaults, ids, n - 1), Fetched(state, readFaults, ids[n - 1])).0
  }

  /** The contract list a lookup builds: element i is a copy of `data` after the i-th record. */
  function Collected(state: map<string, string>, readFaults: set<string>, ids: seq<string>): (r: seq<SlaContract>)
    ensures |r| == |ids|
  {
    seq(|ids|, i requires 0 <= i < |ids| => DataAfter(state, readFaults, ids, i + 1))
  }

  /** One step of a lookup loop: the listed record is read (a failed read gives "") and unmarshalled into `data`. */
  method ReadInto(stub: Shim, id: string, data: SlaContract) returns (d: SlaContract)
    ensures d == Unmarshal(data, Fetched(stub.state, stub.readFaults, id)).0
  {
    var got := stub.GetState(id);
    var bytes := if got.Failure? then "" else got.value.GetOr("");
    d := Unmarshal(data, bytes).0;
  }

  /**
    The loop shared by `slaGetContractsWithName` and
    `slaGetContractsWithClient`: every listed record is unmarshalled into
    the one `data` variable, and a copy of `data` fills the next slot.
  */
  method CollectContracts(stub: Shim, key: string) returns (r: Result<string>)
    ensures r.Success? <==> key !in stub.readFaults
    ensures r.Success? ==> r.value == ContractsJson(Collected(stub.state, stub.readFaults, SplitIds(stub.state, key)))
  {
    var listed := stub.GetState(key);
    if listed.Failure? {
      return Failure("Failed to get state with " + key);
    }
    var ids := Split(listed.value.GetOr(""), FieldSep);
    ghost var want := Collected(stub.state, stub.readFaults, ids);
    var list := new SlaContract[|ids|](_ => ZeroContract);
    var data := ZeroContract;
    for i := 0 to |ids|
      invariant data == DataAfter(stub.state, stub.readFaults, ids, i)
      invariant list[..i] == want[..i]
    {
      data := ReadInto(stub, ids[i], data);
      list[i] := data;
      assert list[..i + 1] == list[..i] + [data];
    }
    assert list[..] == list[..|ids|] == want;
    assert ids == SplitIds(stub.state, key);
    return Success(ContractsJson(list[..]));
  }

  /** `slaGetContractsWithName`: the contracts listed under a contract name (an empty argument list panics). */
  method GetContractsWithName(stub: Shim, args: seq<string>) returns (r: Result<string>)
    requires |args| >= 1
    ensures |args| != 1 ==> r == Failure("Incorrect number of arguments. Expecting name of the value to slaGetContractsWithName")
    ensures |args| == 1 ==> (r.Success? <==> args[0] !in stub.readFaults)
    ensures |args| == 1 && r.Success? ==>
      r.value == ContractsJson(Collected(stub.state, stub.readFaults, SplitIds(stub.state, args[0])))
  {
    if |args| != 1 {
      return Failure("Incorrect number of arguments. Expecting name of the value to slaGetContractsWithName");
    }
    r := CollectContracts(stub, args[0]);
  }

  /** `slaGetContractsWithClient`: the contracts listed under a client name (an empty argument list panics). */
  method GetContractsWithClient(stub: Shim, args: seq<string>) returns (r: Result<string>)
    requires |args| >= 1
    ensures |args| != 1 ==> r == Failure("Incorrect number of arguments. Expecting name of the value to slaGetContractsWithClient")
    ensures |args| == 1 ==> (r.Success? <==> args[0] !in stub.readFaults)
    ensures |args| == 1 && r.Success? ==>
      r.value == ContractsJson(Collected(stub.state, stub.readFaults, SplitIds(stub.state, args[0])))
  {
    if |args| != 1 {
      return Failure("Incorrect number of arguments. Expecting name of the value to slaGetContractsWithClient");
    }
    r := CollectContracts(stub, args[0]);
  }

  /** A record that does not parse (an absent one reads as "") repeats the previous element, or the zero contract first. */
  lemma UnreadableRepeats(state: map<string, string>, readFaults: set<string>, ids: seq<string>, i: nat)
    requires i < |ids| && Parse(Fetched(state, readFaults, ids[i])).None?
    ensures Collected(state, readFaults, ids)[i] ==
      if i == 0 then ZeroContract else Collected(state, readFaults, ids)[i - 1]
  {
    assert Collected(state, readFaults, ids)[i] == DataAfter(state, readFaults, ids, i + 1);
    if i > 0 {
      assert Collected(state, readFaults, ids)[i - 1] == DataAfter(state, readFaults, ids, i);
    }
  }

  /** A record the chaincode marshalled itself is read back exactly, whatever came before it. */
  lemma MarshalledReadBack(state: map<string, string>, readFaults: set<string>, ids: seq<string>, i: nat, c: SlaContract)
    requires i < |ids| && Fetched(state, readFaults, ids[i]) == ContractJson(c)
    ensures Collected(state, readFaults, ids)[i] == c
  {
    UnmarshalContractJson(DataAfter(state, readFaults, ids, i), c);
  }

  /** An absent list key still gives a one-element answer. */
  lemma AbsentKeyOneElement(state: map<string, string>, readFaults: set<string>, key: string)
    requires key !in state
    ensures |Collected(state, readFaults, SplitIds(state, key))| == 1
  {
  }
}
