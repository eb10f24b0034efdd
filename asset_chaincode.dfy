/**
  The asset handlers left over in chaincode_fds/chaincode_fds.go: `Init`
  stores two named integer holdings and `Query` reads one back. The ledger
  is the peer's, with its read and write failures as parameters.
*/
module AssetChaincode {
  import opened Wrappers
  import opened Text
  import opened Ledger

  /** What `Init` writes for one holding: the parsed integer, rendered again. */
  function Holding(amount: string): string
    requires Atoi(amount).Some?
  {
    Itoa(Atoi(amount).value)
  }

  /**
    `Init`: exactly four arguments, entity A, its amount, entity B, its
    amount; both amounts must parse as integers before anything is written.
    A is written, then B; a failed write ends the call with the earlier
    write kept.
  */
  method Init(stub: Shim, functionName: string, args: seq<string>) returns (r: Result<()>)
    modifies stub
    ensures r.Success? <==>
      |args| == 4 && Atoi(args[1]).Some? && Atoi(args[3]).Some? &&
      args[0] !in stub.writeFaults && args[2] !in stub.writeFaults
    ensures |args| != 4 || Atoi(args[1]).None? || Atoi(args[3]).None? ==> stub.state == old(stub.state)
    ensures |args| == 4 && Atoi(args[1]).Some? && Atoi(args[3]).Some? ==>
      stub.state ==
        if args[0] in stub.writeFaults then old(stub.state)
        else if args[2] in stub.writeFaults then old(stub.state)[args[0] := Holding(args[1])]
        else old(stub.state)[args[0] := Holding(args[1])][args[2] := Holding(args[3])]
    ensures r.Success? ==> Atoi(stub.state[args[2]]) == Atoi(args[3])
    ensures r.Success? && args[0] != args[2] ==> Atoi(stub.state[args[0]]) == Atoi(args[1])
  {
    if |args| != 4 {
      return Failure("Incorrect number of arguments. Expecting 4");
    }
    var a := args[0];
    var aval := Atoi(args[1]);
    if aval.None? {
      return Failure("Expecting integer value for asset holding");
    }
    var b := args[2];
    var bval := Atoi(args[3]);
    if bval.None? {
      return Failure("Expecting integer value for asset holding");
    }
    var ok := stub.PutState(a, Itoa(aval.value));
    if !ok {
      return Failure("Failed to put state for " + a);
    }
    ok := stub.PutState(b, Itoa(bval.value));
    if !ok {
      return Failure("Failed to put state for " + b);
    }
    ItoaRoundTrip(aval.value);
    ItoaRoundTrip(bval.value);
    return Success(());
  }

  /**
    `Query`: only the function name "query" with one argument, the entity;
    a failed read and an absent entity are errors, otherwise the stored
    amount is returned.
  */
  method Query(stub: Shim, functionName: string, args: seq<string>) returns (r: Result<string>)
    ensures r.Success? <==>
      functionName == "query" && |args| == 1 && args[0] !in stub.readFaults && args[0] in stub.state
    ensures r.Success? ==> r.value == stub.state[args[0]]
  {
    if functionName != "query" {
      return Failure("Invalid query function name. Expecting \"query\"");
    }
    if |args| != 1 {
      return Failure("Incorrect number of arguments. Expecting name of the person to query");
    }
    var a := args[0];
    var v := stub.GetState(a);
    if v.Failure? {
      return Failure("{\"Error\":\"Failed to get state for " + a + "\"}");
    }
    if v.value.None? {
      return Failure("{\"Error\":\"Nil amount for " + a + "\"}");
    }
    return Success(v.value.value);
  }

  /** A holding that `Init` wrote reads back as the amount it was given. */
  lemma HoldingReadsBack(amount: string)
    requires Atoi(amount).Some?
    ensures Atoi(Holding(amount)) == Atoi(amount)
  {
    ItoaRoundTrip(Atoi(amount).value);
  }
}
