/**
  The contract record of sla/chaincode_sla/chaincode_sla.go and how
  `encoding/json` reads and writes it. The struct tags in the source have a
  space after `json:`, so Go ignores them: every JSON key is the Go field
  name, matched up to ASCII case when reading.

  `json.Unmarshal(b, &data)` merges into whatever `data` already holds: a
  syntax error leaves it untouched, members with unknown keys are skipped,
  fields absent from the input keep their values, and a value of the wrong
  kind is reported after the other members have been stored.
*/
module SlaRecords {
  import opened Wrappers
  import opened Json
  import opened GoJson

  // ---------------------------------------------------------------------
  // SlaApproval
  // ---------------------------------------------------------------------

  /** One signer of a contract's approval line. */
  datatype SlaApproval = SlaApproval(
    userId: string, company: string, department: string, name: string,
    state: string, date: string, comment: string, alarm: string)
  {
    function Fields(): (r: seq<string>)
      ensures |r| == |ApprovalNames|
    {
      [userId, company, department, name, state, date, comment, alarm]
    }
  }

  const ApprovalNames: seq<string> := [
    "ApprovalUserId", "ApprovalCompany", "ApprovalDepartment", "ApprovalName",
    "ApprovalState", "ApprovalDate", "ApprovalComment", "ApprovalAlram"]

  function ApprovalFromFields(f: seq<string>): (a: SlaApproval)
    requires |f| == |ApprovalNames|
    ensures a.Fields() == f
  {
    SlaApproval(f[0], f[1], f[2], f[3], f[4], f[5], f[6], f[7])
  }

  function ApprovalRows(approvals: seq<SlaApproval>): (r: seq<seq<string>>)
    ensures |r| == |approvals| && Shaped(ApprovalNames, r)
  {
    seq(|approvals|, i requires 0 <= i < |approvals| => approvals[i].Fields())
  }

  function ApprovalsOf(rows: seq<seq<string>>): (r: seq<SlaApproval>)
    requires Shaped(ApprovalNames, rows)
    ensures |r| == |rows|
  {
    seq(|rows|, i requires 0 <= i < |rows| => ApprovalFromFields(rows[i]))
  }

  lemma ApprovalsOfRows(approvals: seq<SlaApproval>)
    ensures ApprovalsOf(ApprovalRows(approvals)) == approvals
  {
    var r := ApprovalsOf(ApprovalRows(approvals));
    forall i | 0 <= i < |approvals|
      ensures r[i] == approvals[i]
    {
      assert r[i] == ApprovalFromFields(approvals[i].Fields());
    }
  }

  // ---------------------------------------------------------------------
  // SlaServiceItem
  // ---------------------------------------------------------------------

  /** One assessed service item of a contract. */
  datatype SlaServiceItem = SlaServiceItem(
    serviceItem: string, scoreItem: string, measurementItem: string,
    explainItem: string, divideScore: string)
  {
    function Fields(): (r: seq<string>)
      ensures |r| == |ItemNames|
    {
      [serviceItem, scoreItem, measurementItem, explainItem, divideScore]
    }
  }

  const ItemNames: seq<string> := ["ServiceItem", "ScoreItem", "MeasurementItem", "ExplainItem", "DivideScore"]

  function ItemFromFields(f: seq<string>): (s: SlaServiceItem)
    requires |f| == |ItemNames|
    ensures s.Fields() == f
  {
    SlaServiceItem(f[0], f[1], f[2], f[3], f[4])
  }

  function ItemRows(items: seq<SlaServiceItem>): (r: seq<seq<string>>)
    ensures |r| == |items| && Shaped(ItemNames, r)
  {
    seq(|items|, i requires 0 <= i < |items| => items[i].Fields())
  }

  function ItemsOf(rows: seq<seq<string>>): (r: seq<SlaServiceItem>)
    requires Shaped(ItemNames, rows)
    ensures |r| == |rows|
  {
    seq(|rows|, i requires 0 <= i < |rows| => ItemFromFields(rows[i]))
  }

  lemma ItemsOfRows(items: seq<SlaServiceItem>)
    ensures ItemsOf(ItemRows(items)) == items
  {
    var r := ItemsOf(ItemRows(items));
    forall i | 0 <= i < |items|
      ensures r[i] == items[i]
    {
      assert r[i] == ItemFromFields(items[i].Fields());
    }
  }

  // ---------------------------------------------------------------------
  // SlaContract
  // ---------------------------------------------------------------------

  /** The number of string fields of `SlaContract`; the two slices follow them. */
  const NumStrings := 11

  /** A contract: eleven strings, the approval line and the service items. */
  datatype SlaContract = SlaContract(
    regId: string, name: string, kind: string, staDate: string, endDate: string,
    client: string, clientPerson: string, clientPersonTel: string,
    assessDate: string, progression: string, assessYn: string,
    approvals: seq<SlaApproval>, serviceItems: seq<SlaServiceItem>)
  {
    /** The string fields, in declaration order. */
    function Strings(): (r: seq<string>)
      ensures |r| == NumStrings
    {
      [regId, name, kind, staDate, endDate, client, clientPerson, clientPersonTel,
       assessDate, progression, assessYn]
    }

    /** This contract with its string fields replaced and its slices kept. */
    function WithStrings(s: seq<string>): (r: SlaContract)
      requires |s| == NumStrings
      ensures r.Strings() == s
      ensures r.approvals == approvals && r.serviceItems == serviceItems
    {
      SlaContract(s[0], s[1], s[2], s[3], s[4], s[5], s[6], s[7], s[8], s[9], s[10],
        approvals, serviceItems)
    }
  }

  /** A contract is determined by its strings and its two slices. */
  lemma ContractExt(a: SlaContract, b: SlaContract)
    requires a.Strings() == b.Strings()
    requires a.approvals == b.approvals && a.serviceItems == b.serviceItems
    ensures a == b
  {
    assert a.WithStrings(a.Strings()) == a;
    assert b.WithStrings(b.Strings()) == b;
  }

  /** The zero `SlaContract`: empty strings and empty slices. */
  const ZeroContract := SlaContract("", "", "", "", "", "", "", "", "", "", "", [], [])

  const StringNames: seq<string> := [
    "RegId", "Name", "Kind", "StaDate", "EndDate", "Client", "ClientPerson",
    "ClientPersonTel", "AssessDate", "Progression", "AssessYn"]

  /** Every JSON key of a contract, in declaration order. */
  const ContractNames: seq<string> := StringNames + ["Approvals", "ServiceItems"]

  // ---------------------------------------------------------------------
  // Distinct names
  // ---------------------------------------------------------------------

  lemma DiffersAt(a: string, b: string, k: nat)
    requires k < |a| && k < |b| && Lower(a[k]) != Lower(b[k])
    ensures !FoldEq(a, b)
  {
  }

  lemma ApprovalNamesDistinct()
    ensures DistinctNames(ApprovalNames)
  {
    var n := ApprovalNames;
    forall i, j | 0 <= i < j < |n|
      ensures !FoldEq(n[i], n[j])
    {
      if |n[i]| == |n[j]| {
        if i == 1 && j == 6 {
          DiffersAt(n[i], n[j], 11);
        } else {
          DiffersAt(n[i], n[j], 8);
        }
      }
    }
  }

  lemma ItemNamesDistinct()
    ensures DistinctNames(ItemNames)
  {
    var n := ItemNames;
    forall i, j | 0 <= i < j < |n|
      ensures !FoldEq(n[i], n[j])
    {
      if |n[i]| == |n[j]| {
        DiffersAt(n[i], n[j], 0);
      }
    }
  }

  lemma ContractNamesDistinct()
    ensures DistinctNames(ContractNames)
  {
    var n := ContractNames;
    forall i, j | 0 <= i < j < |n|
      ensures !FoldEq(n[i], n[j])
    {
      if |n[i]| == |n[j]| {
        DiffersAt(n[i], n[j], 0);
      }
    }
  }

  // ---------------------------------------------------------------------
  // Reading: json.Unmarshal into an existing SlaContract
  // ---------------------------------------------------------------------

  /** One object member stored into the contract; the flag reports a type error. */
  function DecodeMember(prev: SlaContract, m: Member): (r: (SlaContract, bool))
    ensures FieldIndex(ContractNames, m.key).None? ==> r == (prev, false)
  {
    match FieldIndex(ContractNames, m.key)
    case None => (prev, false)
    case Some(i) =>
      if i < NumStrings then
        var d := DecodeString(prev.Strings()[i], m.value);
        (prev.WithStrings(prev.Strings()[i := d.0]), d.1)
      else if i == NumStrings then
        var d := DecodeSlice(ApprovalNames, ApprovalRows(prev.approvals), m.value);
        (prev.(approvals := ApprovalsOf(d.0)), d.1)
      else
        var d := DecodeSlice(ItemNames, ItemRows(prev.serviceItems), m.value);
        (prev.(serviceItems := ItemsOf(d.0)), d.1)
  }

  function DecodeMembers(prev: SlaContract, ms: seq<Member>): (r: (SlaContract, bool))
    decreases |ms|
  {
    if ms == [] then (prev, false)
    else
      var step := DecodeMember(prev, ms[0]);
      var rest := DecodeMembers(step.0, ms[1..]);
      (rest.0, step.1 || rest.1)
  }

  /** A parsed JSON value stored into a contract. */
  function DecodeContract(prev: SlaContract, v: Value): (r: (SlaContract, bool))
    ensures !v.Obj? ==> r.0 == prev && (r.1 <==> !v.Null?)
  {
    match v
    case Obj(ms) => DecodeMembers(prev, ms)
    case Null => (prev, false)
    case _ => (prev, true)
  }

  /**
    `json.Unmarshal(b, &data)` with `data` holding `prev`: the new value of
    `data` and whether an error was returned.
  */
  function Unmarshal(prev: SlaContract, b: string): (r: (SlaContract, bool))
    ensures Parse(b).None? ==> r == (prev, true)
    ensures b == "" ==> r == (prev, true)
  {
    match Parse(b)
    case None => (prev, true)
    case Some(v) => DecodeContract(prev, v)
  }

  /** `var data SlaContract; err := json.Unmarshal(b, &data)`: None when err is set. */
  function ParseContract(b: string): (r: Option<SlaContract>)
    ensures r.Some? ==> Parse(b).Some?
    ensures r.Some? <==> !Unmarshal(ZeroContract, b).1
  {
    var d := Unmarshal(ZeroContract, b);
    if d.1 then None else Some(d.0)
  }

  // ---------------------------------------------------------------------
  // Writing: json.Marshal
  // ---------------------------------------------------------------------

  /** The object `json.Marshal` writes for a contract, keys in declaration order. */
  function EncodeContract(c: SlaContract): (r: Value)
    ensures r.Obj? && |r.members| == |ContractNames|
    ensures forall i :: 0 <= i < NumStrings ==> r.members[i] == Member(ContractNames[i], Str(c.Strings()[i]))
    ensures r.members[NumStrings] == Member("Approvals", EncodeSlice(ApprovalNames, ApprovalRows(c.approvals)))
    ensures r.members[NumStrings + 1] == Member("ServiceItems", EncodeSlice(ItemNames, ItemRows(c.serviceItems)))
  {
    Obj(EncodeStruct(StringNames, c.Strings()).members + [
      Member("Approvals", EncodeSlice(ApprovalNames, ApprovalRows(c.approvals))),
      Member("ServiceItems", EncodeSlice(ItemNames, ItemRows(c.serviceItems)))])
  }

  /** `json.Marshal(data)`. */
  function ContractJson(c: SlaContract): string {
    Serialize(EncodeContract(c))
  }

  /** `json.Marshal(contractList)`: a JSON array of the contracts. */
  function ContractsJson(cs: seq<SlaContract>): string {
    Serialize(Arr(seq(|cs|, i requires 0 <= i < |cs| => EncodeContract(cs[i]))))
  }

  // ---------------------------------------------------------------------
  // Round trip
  // ---------------------------------------------------------------------

  /** The first j keys of `c`'s encoding stored over `prev`. */
  function Blend(prev: SlaContract, c: SlaContract, j: nat): SlaContract
    requires j <= |ContractNames|
  {
    var k := if j < NumStrings then j else NumStrings;
    prev.(approvals := if j > NumStrings then c.approvals else prev.approvals,
          serviceItems := if j > NumStrings + 1 then c.serviceItems else prev.serviceItems)
      .WithStrings(c.Strings()[..k] + prev.Strings()[k..])
  }

  lemma BlendUpdate<T>(a: seq<T>, b: seq<T>, j: nat)
    requires |a| == |b| && j < |a|
    ensures (a[..j] + b[j..])[j := a[j]] == a[..j + 1] + b[j + 1..]
  {
  }

  /** Storing string member j of `c`'s encoding moves the blend on by one key. */
  lemma DecodeEncodedString(prev: SlaContract, c: SlaContract, j: nat)
    requires j < NumStrings
    ensures DecodeMember(Blend(prev, c, j), EncodeContract(c).members[j]) == (Blend(prev, c, j + 1), false)
  {
    ContractNamesDistinct();
    FieldIndexOfName(ContractNames, j);
    var cur := Blend(prev, c, j);
    var next := Blend(prev, c, j + 1);
    var d := DecodeMember(cur, Member(ContractNames[j], Str(c.Strings()[j])));
    assert d.0 == cur.WithStrings(cur.Strings()[j := c.Strings()[j]]);
    BlendUpdate(c.Strings(), prev.Strings(), j);
    ContractExt(d.0, next);
  }

  /** Storing the approvals member of `c`'s encoding. */
  lemma DecodeEncodedApprovals(prev: SlaContract, c: SlaContract)
    ensures DecodeMember(Blend(prev, c, NumStrings), EncodeContract(c).members[NumStrings]) == (Blend(prev, c, NumStrings + 1), false)
  {
    ContractNamesDistinct();
    FieldIndexOfName(ContractNames, NumStrings);
    var cur := Blend(prev, c, NumStrings);
    ApprovalNamesDistinct();
    DecodeEncodeSlice(ApprovalNames, ApprovalRows(cur.approvals), ApprovalRows(c.approvals));
    ApprovalsOfRows(c.approvals);
    ContractExt(DecodeMember(cur, EncodeContract(c).members[NumStrings]).0, Blend(prev, c, NumStrings + 1));
  }

  /** Storing the service-items member of `c`'s encoding. */
  lemma DecodeEncodedItems(prev: SlaContract, c: SlaContract)
    ensures DecodeMember(Blend(prev, c, NumStrings + 1), EncodeContract(c).members[NumStrings + 1]) == (Blend(prev, c, NumStrings + 2), false)
  {
    ContractNamesDistinct();
    FieldIndexOfName(ContractNames, NumStrings + 1);
    var cur := Blend(prev, c, NumStrings + 1);
    ItemNamesDistinct();
    DecodeEncodeSlice(ItemNames, ItemRows(cur.serviceItems), ItemRows(c.serviceItems));
    ItemsOfRows(c.serviceItems);
    ContractExt(DecodeMember(cur, EncodeContract(c).members[NumStrings + 1]).0, Blend(prev, c, NumStrings + 2));
  }

  lemma {:induction false} DecodeEncodedFrom(prev: SlaContract, c: SlaContract, j: nat)
    requires j <= |ContractNames|
    ensures DecodeMembers(Blend(prev, c, j), EncodeContract(c).members[j..]) == (c, false)
    decreases |ContractNames| - j
  {
    var ms := EncodeContract(c).members;
    if j == |ContractNames| {
      assert ms[j..] == [];
      ContractExt(Blend(prev, c, j), c);
    } else {
      if j < NumStrings {
        DecodeEncodedString(prev, c, j);
      } else if j == NumStrings {
        DecodeEncodedApprovals(prev, c);
      } else {
        DecodeEncodedItems(prev, c);
      }
      assert ms[j..][0] == ms[j];
      assert ms[j..][1..] == ms[j + 1..];
      DecodeEncodedFrom(prev, c, j + 1);
    }
  }

  /** Unmarshalling what Marshal wrote restores the contract, whatever `data` held before. */
  lemma DecodeEncodeContract(prev: SlaContract, c: SlaContract)
    ensures DecodeContract(prev, EncodeContract(c)) == (c, false)
  {
    DecodeEncodedFrom(prev, c, 0);
    ContractExt(Blend(prev, c, 0), prev);
    assert EncodeContract(c).members[0..] == EncodeContract(c).members;
  }

  /** A marshalled contract unmarshals to itself over any previous value. */
  lemma UnmarshalContractJson(prev: SlaContract, c: SlaContract)
    ensures Unmarshal(prev, ContractJson(c)) == (c, false)
  {
    ParseSerialize(EncodeContract(c));
    DecodeEncodeContract(prev, c);
  }

  /** A marshalled contract parses back to itself. */
  lemma ParseContractJson(c: SlaContract)
    ensures ParseContract(ContractJson(c)) == Some(c)
  {
    UnmarshalContractJson(ZeroContract, c);
  }

  /** A record giving only its `RegId` keeps every other field of the value it is read into. */
  lemma MissingFieldsKept(prev: SlaContract, regId: string)
    ensures Unmarshal(prev, Serialize(Obj([Member("RegId", Str(regId))]))) == (prev.(regId := regId), false)
  {
    var m := Member("RegId", Str(regId));
    ParseSerialize(Obj([m]));
    ContractNamesDistinct();
    FieldIndexOfName(ContractNames, 0);
    assert ContractNames[0] == "RegId";
    var d := DecodeMember(prev, m);
    assert d == (prev.WithStrings(prev.Strings()[0 := regId]), false);
    ContractExt(d.0, prev.(regId := regId));
    assert [m][1..] == [];
    assert DecodeMembers(prev, [m]) == d;
  }

  // ---------------------------------------------------------------------
  // Signing one approval slot
  // ---------------------------------------------------------------------

  /**
    Slot k of the approval line signed: its user, state, date and comment
    are set; its company, department, name and alarm, every other slot and
    every other field of the contract are kept.
  */
  function Sign(c: SlaContract, k: int, userId: string, state: string, date: string, comment: string): (r: SlaContract)
    requires 0 <= k < |c.approvals|
    ensures r.Strings() == c.Strings() && r.serviceItems == c.serviceItems
    ensures |r.approvals| == |c.approvals|
    ensures forall j :: 0 <= j < |c.approvals| && j != k ==> r.approvals[j] == c.approvals[j]
    ensures r.approvals[k].userId == userId && r.approvals[k].state == state
    ensures r.approvals[k].date == date && r.approvals[k].comment == comment
    ensures r.approvals[k].company == c.approvals[k].company
    ensures r.approvals[k].department == c.approvals[k].department
    ensures r.approvals[k].name == c.approvals[k].name
    ensures r.approvals[k].alarm == c.approvals[k].alarm
  {
    c.(approvals := c.approvals[k := c.approvals[k].(userId := userId, state := state, date := date, comment := comment)])
  }
}
