# Hyperledger chaincode drafts in Dafny

This project models the Go chaincode of four drafts in one repository. Each
draft is a key-value record store on a ledger, and each builds its secondary
indexes by hand. The drafts overlap but differ in separators, record
encodings and error handling, so each one is modelled on its own terms:

- **sla/chaincode_sla/chaincode_sla.go**: the SLA contract chaincode
  (module `SlaChaincode`). Contracts are JSON texts stored under their
  `RegId`. The keys for the contract name, the client and `SLA_ALL_DATA`
  each hold a `|`-joined list of ids. Ids `SLA_CONT_<year>_<nnnnn>` come
  from a counter and a year kept in the ledger.
  - The contract record and how `encoding/json` reads and writes it are in
    `SlaRecords`, over `Json` and `GoJson`.
  - The approval workflow that the package's tests expect is in
    `ApprovalWorkflow`. It is derived from the tests, because the source's
    submit, reject and close handlers are empty. The tests close a contract
    with close; the model also lets the client manager's approve close it,
    and proves that the two agree in that stage.
- **fds/chaincode_fds/chaincode_fds.go**: the fraud-detection chaincode
  (module `FdsChaincode`, class `SimpleChaincode`). Fraud entries are stored
  as JSON under `eid_<n>`. `cid_`, `mac_` and `uuid_` keys list the eid keys
  of their entries. The counter `nextEID` lives in the chaincode object.
- **chaincode_sla/chaincode_sla.go**: three parts.
  - The in-memory ledger (`MemoryStore.KeyValueStub`).
  - The fraud store `FDSChaincodeStub` (`FraudStub.FdsStub`), whose records
    and lists are joined with `$`.
  - A CSV contract registry (`ContractRegistry`).
- **chaincode_fds/chaincode_fds.go**: the same `FDSChaincodeStub` with `|`
  as the separator (`FraudStub.FdsStub` with `sep == '|'`), and the left-over
  asset `Init`/`Query` handlers (`AssetChaincode`).

Shared layers:

- `Ledger.Shim` is the peer's ledger. Its reads and writes can fail: a fixed
  set of keys fails on read, and another fails on write or delete, so within
  one call each key either always fails or never fails.
- `IdList` is the list codec (`stringArrayToByteArray`,
  `byteArrayToStringArray`, `appendToEIDList`).
- `FraudIndex` is the key layout and index algebra shared by the three
  fraud stores.
- `Text` holds `strings.Join`, `strings.Split`, `strconv.Itoa` and
  `strconv.Atoi`.

The current year and date (`time.Now()`) are parameters.

## Model

| member | source | states |
|---|---|---|
| Text.Join | fds/chaincode_fds/chaincode_fds.go:93-95 | `strings.Join`: empty for no parts, the part itself for one, and the separator occurs once there are two or more parts |
| Text.Split | fds/chaincode_fds/chaincode_fds.go:97-103 | `strings.Split` never returns an empty slice; the empty string splits to `[""]` |
| Text.SplitPiecesHaveNoSep | fds/chaincode_fds/chaincode_fds.go:97-103 | no piece of a split holds the separator |
| Text.JoinSplit | fds/chaincode_fds/chaincode_fds.go:93-103 | joining the pieces of any split gives the string back |
| Text.SplitJoin | fds/chaincode_fds/chaincode_fds.go:93-103 | splitting the join of a non-empty list of separator-free parts gives the parts back |
| Text.SplitNoSep | sla/chaincode_sla/chaincode_sla.go:961 | a string without the separator splits to itself alone |
| Text.SplitAround | sla/chaincode_sla/chaincode_sla.go:894 | splitting `a + sep + b` gives the pieces of a followed by the pieces of b |
| Text.SplitCons | fds/chaincode_fds/chaincode_fds.go:97-103 | splitting `c + t` either starts a new empty piece (c is the separator) or puts c in front of the first piece of t |
| Text.Itoa | fds/chaincode_fds/chaincode_fds.go:244 | `strconv.Itoa` is never empty |
| Text.Atoi | sla/chaincode_sla/chaincode_sla.go:286 | `strconv.Atoi` fails on the empty string |
| Text.NatDigits | fds/chaincode_fds/chaincode_fds.go:244 | the decimal rendering of a natural number is a non-empty digit string |
| Text.DigitsValueOfNatDigits | fds/chaincode_fds/chaincode_fds.go:216-217 | the digits of n read back as n |
| Text.ItoaRoundTrip | fds/chaincode_fds/chaincode_fds.go:216-217 | `Atoi(Itoa(n)) == n` for every integer |
| Text.ItoaInjective | fds/chaincode_fds/chaincode_fds.go:244 | distinct counters give distinct eid suffixes |
| IdList.Decode | fds/chaincode_fds/chaincode_fds.go:97-103 | `byteArrayToStringArray`: the empty string and only it decodes to the empty list; no element holds the separator |
| IdList.DecodeEncode | fds/chaincode_fds/chaincode_fds.go:93-103 | decode(encode(l)) == l for every list without the separator in its elements and other than `[""]` |
| IdList.EncodeDecode | fds/chaincode_fds/chaincode_fds.go:93-103 | encode(decode(b)) == b for every string: the codec is a bijection onto representable lists |
| IdList.DecodeRepresentable | fds/chaincode_fds/chaincode_fds.go:97-103 | every decoded list is representable |
| IdList.AppendDecodes | fds/chaincode_fds/chaincode_fds.go:105-108 | `appendToEIDList(b, e)` decodes to decode(b) + [e], except that an empty e on an empty b gives the empty list |
| MemoryStore.Stored | chaincode_sla/chaincode_sla.go:168-171 | the value of a key, "" (Go's `string(nil)`) when it is absent |
| MemoryStore.KeyValueStub.constructor | chaincode_sla/chaincode_sla.go:68-72 | `CreateStub` makes an empty map |
| MemoryStore.KeyValueStub.PutState | chaincode_sla/chaincode_sla.go:159-166 | a nil value is refused and changes nothing; any other value is stored under the key |
| MemoryStore.KeyValueStub.GetState | chaincode_sla/chaincode_sla.go:168-171 | never fails; the stored value, or nil for an absent key |
| MemoryStore.KeyValueStub.DelState | chaincode_sla/chaincode_sla.go:173-176 | removes the key, keeps every other key, and is harmless on an absent key |
| MemoryStore.KeyValueStub.GetKVSLength | chaincode_sla/chaincode_sla.go:178-180 | the number of stored keys |
| Ledger.Shim.constructor | fds/chaincode_fds/chaincode_fds.go:185-190 | the ledger starts with the given contents and fault sets |
| Ledger.Shim.GetState | fds/chaincode_fds/chaincode_fds.go:260-263 | fails exactly on the faulty keys; otherwise the stored value, nil for an absent key |
| Ledger.Shim.PutState | fds/chaincode_fds/chaincode_fds.go:255-258 | succeeds exactly when the key is writable, and then stores the value; a failed write changes nothing |
| Ledger.Shim.DelState | fds/chaincode_fds/chaincode_fds.go:312-320 | succeeds exactly when the key is writable, and then removes it; a failed delete changes nothing |
| Json.EscapeRoundTrip | fds/chaincode_fds/chaincode_fds.go:250 | an escaped string followed by a closing quote parses back to the string and the rest of the input |
| Json.QuoteRoundTrip | fds/chaincode_fds/chaincode_fds.go:250 | a quoted string parses back from behind its opening quote, leaving the rest of the input |
| Json.LiteralRoundTrip | fds/chaincode_fds/chaincode_fds.go:250 | `null`, `true` and `false` parse back to themselves |
| Json.ValueRoundTrip | fds/chaincode_fds/chaincode_fds.go:250 | every serialized value parses back to itself from the front of any input |
| Json.ArrRoundTrip | fds/chaincode_fds/chaincode_fds.go:423 | a serialized array parses back to the same items |
| Json.ItemsRoundTrip | fds/chaincode_fds/chaincode_fds.go:423 | the comma-separated items of an array parse back up to its closing bracket |
| Json.ObjRoundTrip | fds/chaincode_fds/chaincode_fds.go:250 | a serialized object parses back to the same members, in order |
| Json.MemberRoundTrip | fds/chaincode_fds/chaincode_fds.go:250 | one `"key":value` member parses back to itself |
| Json.MembersRoundTrip | fds/chaincode_fds/chaincode_fds.go:250 | the members of an object parse back up to its closing brace |
| Json.ParseSerialize | fds/chaincode_fds/chaincode_fds.go:416 | `Parse(Serialize(v)) == Some(v)` for every value |
| Json.Parse | fds/chaincode_fds/chaincode_fds.go:416 | empty input (an absent record) is a syntax error |
| GoJson.FieldIndex | sla/chaincode_sla/chaincode_sla.go:41-55 | the key selects the first field whose name matches it up to ASCII case, or none when no name matches |
| GoJson.FieldIndexOfName | sla/chaincode_sla/chaincode_sla.go:41-55 | with pairwise distinct names, a field's own name selects that field |
| GoJson.FieldIndexFrom | sla/chaincode_sla/chaincode_sla.go:41-55 | the search from position `from` finds the first matching name at or after it, or reports that none matches |
| GoJson.DecodeString | sla/chaincode_sla/chaincode_sla.go:325 | a JSON string replaces the field, null keeps it, and any other kind keeps it and reports an error |
| GoJson.DecodeMembers | fds/chaincode_fds/chaincode_fds.go:416 | decoding an object's members keeps one value per field, and no members keep the target unchanged without error |
| GoJson.DecodeStruct | fds/chaincode_fds/chaincode_fds.go:416 | a non-object keeps the struct (an error except for null); every result has one value per field |
| GoJson.DecodeSlice | sla/chaincode_sla/chaincode_sla.go:325 | null empties the slice, and an array gives one element per item |
| GoJson.DecodeElements | sla/chaincode_sla/chaincode_sla.go:325 | decoding array items gives one well-shaped element per item |
| GoJson.Zero | fds/chaincode_fds/chaincode_fds.go:415 | a fresh struct variable holds "" in every field |
| GoJson.EncodeStruct | fds/chaincode_fds/chaincode_fds.go:250 | `json.Marshal` of a struct writes one member per field, under its name and in field order |
| GoJson.EncodeSlice | fds/chaincode_fds/chaincode_fds.go:423 | a slice becomes an array holding each element's encoding |
| GoJson.DecodeEncodeStruct | fds/chaincode_fds/chaincode_fds.go:416 | unmarshalling a marshalled struct restores every field, whatever the target held |
| GoJson.DecodeEncodedFrom | fds/chaincode_fds/chaincode_fds.go:416 | decoding the members of a marshalled struct from field j on, over a target whose first j fields are already restored, restores every field |
| GoJson.DecodeEncodeSlice | fds/chaincode_fds/chaincode_fds.go:423 | unmarshalling a marshalled slice restores the slice, whatever it replaced |
| GoJson.DecodeEncodeElements | fds/chaincode_fds/chaincode_fds.go:423 | the items of a marshalled slice decode back to its elements, whatever the previous elements were |
| SlaRecords.ApprovalsOfRows | sla/chaincode_sla/chaincode_sla.go:58-67 | an approval line survives conversion to field rows and back |
| SlaRecords.ItemsOfRows | sla/chaincode_sla/chaincode_sla.go:70-76 | the service items survive conversion to field rows and back |
| SlaRecords.ContractNamesDistinct | sla/chaincode_sla/chaincode_sla.go:41-55 | the thirteen JSON keys of a contract are pairwise distinct up to ASCII case (the malformed struct tags are ignored, so the keys are the field names) |
| SlaRecords.ApprovalNamesDistinct | sla/chaincode_sla/chaincode_sla.go:58-67 | the approval keys, `ApprovalAlram` included, are pairwise distinct up to case |
| SlaRecords.ItemNamesDistinct | sla/chaincode_sla/chaincode_sla.go:70-76 | the service item keys are pairwise distinct up to case |
| SlaRecords.ContractExt | sla/chaincode_sla/chaincode_sla.go:41-55 | two contracts with the same eleven strings, approvals and service items are equal |
| SlaRecords.Unmarshal | sla/chaincode_sla/chaincode_sla.go:325 | a syntax error, the empty text included, leaves the target untouched and reports an error |
| SlaRecords.DecodeMember | sla/chaincode_sla/chaincode_sla.go:325 | a member whose key matches no field is ignored without error |
| SlaRecords.DecodeContract | sla/chaincode_sla/chaincode_sla.go:325 | a JSON value that is not an object leaves the contract as it was, and is an error unless it is null |
| SlaRecords.ParseContract | sla/chaincode_sla/chaincode_sla.go:325-328 | a contract is produced exactly when unmarshalling into the zero contract reports no error |
| SlaRecords.EncodeContract | sla/chaincode_sla/chaincode_sla.go:788 | `json.Marshal` writes the eleven strings, then `Approvals`, then `ServiceItems`, each under its field name |
| SlaRecords.DecodeEncodeContract | sla/chaincode_sla/chaincode_sla.go:777-788 | decoding an encoded contract over any previous value gives the contract |
| SlaRecords.DecodeEncodedFrom | sla/chaincode_sla/chaincode_sla.go:777-788 | decoding the members of a marshalled contract from position j on, over a target whose first j fields are already restored, restores the contract |
| SlaRecords.UnmarshalContractJson | sla/chaincode_sla/chaincode_sla.go:970 | a marshalled contract unmarshals to itself whatever `data` held before |
| SlaRecords.ParseContractJson | sla/chaincode_sla/chaincode_sla.go:777-788 | what `slaApproveContract` writes reads back as the signed contract |
| SlaRecords.MissingFieldsKept | sla/chaincode_sla/chaincode_sla.go:970 | a record that names only `RegId` keeps every other field of the value it is read into |
| SlaRecords.Sign | sla/chaincode_sla/chaincode_sla.go:781-786 | only slot k's user, state, date and comment change; its other fields, every other slot and every other field of the contract are kept |
| ApprovalWorkflow.ReviewSlot | sla/chaincode_sla/chaincode_sla_test.go:656-665 | the three review stages wait for slots 1, 2 and 3, their rank on the way to CLOSED; no other stage waits for a slot |
| ApprovalWorkflow.SaveTemp | sla/chaincode_sla/chaincode_sla_test.go:106-108 | a temporary save puts the contract at the first stage, TEMP, and changes nothing else |
| ApprovalWorkflow.Submit | sla/chaincode_sla/chaincode_sla_test.go:214-217 | from any stage, the contract goes to internal review and slot 0 reads SUBMITTED; nothing else changes |
| ApprovalWorkflow.Approve | sla/chaincode_sla/chaincode_sla_test.go:656-665 | defined exactly during a review (internal, client or client manager) whose slot exists; moves one stage on, the client manager's approval to CLOSED, and signs that stage's slot APPROVED, keeping everything else |
| ApprovalWorkflow.Close | sla/chaincode_sla/chaincode_sla_test.go:659-665 | defined exactly during the client manager's review; the contract is CLOSED and slot 3 signed APPROVED |
| ApprovalWorkflow.CloseIsFinalApprove | sla/chaincode_sla/chaincode_sla_test.go:659-665 | during the client manager's review, close and approve give the same result, and a successful one leaves the contract CLOSED |
| ApprovalWorkflow.Reject | sla/chaincode_sla/chaincode_sla_test.go:1031-1180 | defined exactly during a review; keeps the stage and signs that stage's slot REJECTED |
| ApprovalWorkflow.ClosedIsFinal | sla/chaincode_sla/chaincode_sla_test.go:659 | a CLOSED contract cannot be approved, closed or rejected |
| ApprovalWorkflow.TempOnlySubmits | sla/chaincode_sla/chaincode_sla_test.go:656-665 | a contract saved as TEMP can be submitted but not approved, closed or rejected |
| ApprovalWorkflow.FullRun | sla/chaincode_sla/chaincode_sla_test.go:652-665 | submit, approve, approve, close ends CLOSED, with slots 0 to 3 reading SUBMITTED, APPROVED, APPROVED, APPROVED, signed by the given users, and everything else kept |
| ApprovalWorkflow.ResubmitAfterReject | sla/chaincode_sla/chaincode_sla_test.go:1031-1180 | a rejected contract can be submitted again, and the rejection stays on its line |
| SlaChaincode.Padded | sla/chaincode_sla/chaincode_sla.go:112-123 | the padded id has length max(\|s\|, 5), ends with s and has only '0's in front of it |
| SlaChaincode.PadLeft | sla/chaincode_sla/chaincode_sla.go:112-123 | the prepend loop returns exactly the padded string |
| SlaChaincode.PaddedDigit | sla/chaincode_sla/chaincode_sla.go:112-123 | a one-digit count pads to "0000" followed by the digit |
| SlaChaincode.InitState | sla/chaincode_sla/chaincode_sla.go:130-139 | after `Init` both counters read "1" and the year key the current year, unless their writes fail; every other key is kept |
| SlaChaincode.Init | sla/chaincode_sla/chaincode_sla.go:130-139 | the three writes happen in order, and only a failure of the last write (the year) is reported |
| SlaChaincode.IdState | sla/chaincode_sla/chaincode_sla.go:272-312 | after a call the counter is the value read plus one (the new-year reset to 1 is overwritten) and the year key holds the current year; no other key changes |
| SlaChaincode.GetContractId | sla/chaincode_sla/chaincode_sla.go:272-312 | fails exactly when a read fails; returns `SLA_CONT_<year>_<padLeft(count)>` for the count read; the ledger ends as `IdState`, or as left after the counter step when the year read fails |
| SlaChaincode.RollYear | sla/chaincode_sla/chaincode_sla.go:289-302 | a failed year read changes nothing; otherwise an absent year is stored, and a different stored year is replaced and the counter reset |
| SlaChaincode.AbsentCounter | sla/chaincode_sla/chaincode_sla.go:283-309 | an absent counter reads as 0: the id ends in `_00000` and the counter is left at 1 |
| SlaChaincode.InitThenTwoIds | sla/chaincode_sla/chaincode_sla_test.go:86-93 | after `Init`, two calls give the ids ending in 00001 and 00002, and the counter stands at 3 |
| SlaChaincode.AppendIdSplits | sla/chaincode_sla/chaincode_sla.go:392-402 | writing the id alone on an empty list, else after a '\|', adds exactly that id at the end of the split list |
| SlaChaincode.Create | sla/chaincode_sla/chaincode_sla.go:355-444 | succeeds exactly when the record write, the name list's read and write, the client write and `SLA_ALL_DATA`'s read and write succeed; a failed record write changes nothing; keys other than the four are never touched |
| SlaChaincode.CreateContract | sla/chaincode_sla/chaincode_sla.go:315-473 | content that does not unmarshal is refused with no write; otherwise the outcome and the ledger are those of `Create` |
| SlaChaincode.CreateLists | sla/chaincode_sla/chaincode_sla.go:355-444 | a successful registration stores the raw content under the id and appends the id to the name, client and `SLA_ALL_DATA` lists |
| SlaChaincode.CreateClientUnread | sla/chaincode_sla/chaincode_sla.go:393-408 | when the client list cannot be read, it is overwritten by the new id alone |
| SlaChaincode.CreateKeepsRecord | sla/chaincode_sla/chaincode_sla.go:367-373 | a failed read of the name list ends the call with the record already stored |
| SlaChaincode.CreateTwice | sla/chaincode_sla/chaincode_sla.go:411-440 | registering the same contract twice lists its id twice: there is no de-duplication |
| SlaChaincode.UpdateContract | sla/chaincode_sla/chaincode_sla.go:515-577 | content that unmarshals is written verbatim under its `RegId` and nothing else changes; otherwise nothing changes |
| SlaChaincode.AbandonIsUpdate | sla/chaincode_sla/chaincode_sla.go:142-217 | `Invoke` routes abandon to the update handler, and submit, reject and close to handlers that do nothing |
| SlaChaincode.ApproveContract | sla/chaincode_sla/chaincode_sla.go:742-806 | succeeds exactly when the stored contract reads and unmarshals and the write succeeds; then the id holds the marshalled contract with slot `Atoi(args[3])` signed "승인" on the date, and it reads back as that contract; a failure changes nothing |
| SlaChaincode.SplitIds | sla/chaincode_sla/chaincode_sla.go:961 | the lookups split the list key into at least one id, and into the listed ids when the key holds something |
| SlaChaincode.GetContractWithId | sla/chaincode_sla/chaincode_sla.go:914-935 | fails on a wrong argument count or a failed read; otherwise the stored text, or nil when absent |
| SlaChaincode.AllRecords | sla/chaincode_sla/chaincode_sla.go:894-903 | one record per split id of `SLA_ALL_DATA` |
| SlaChaincode.GetAllContracts | sla/chaincode_sla/chaincode_sla.go:873-911 | fails on a wrong argument count or a failed list read; otherwise every listed raw record ("" when absent or unreadable) joined with ',' |
| SlaChaincode.AllRecordsAfterCreate | sla/chaincode_sla/chaincode_sla.go:873-911 | after a registration, `SLA_ALL_DATA` lists the new id last and the last record returned is the registered content |
| SlaChaincode.Collected | sla/chaincode_sla/chaincode_sla.go:964-972 | the contract list has one element per split id |
| SlaChaincode.ReadInto | sla/chaincode_sla/chaincode_sla.go:966-971 | one loop step unmarshals the listed record (a failed read gives "") into the shared `data` |
| SlaChaincode.CollectContracts | sla/chaincode_sla/chaincode_sla.go:955-977 | fails exactly when the list read fails; otherwise the marshalled list whose element i is `data` after the first i+1 records |
| SlaChaincode.GetContractsWithName | sla/chaincode_sla/chaincode_sla.go:938-980 | fails on a wrong argument count or a failed list read; otherwise the collected contracts of the name's list |
| SlaChaincode.GetContractsWithClient | sla/chaincode_sla/chaincode_sla.go:983-1025 | fails on a wrong argument count or a failed list read; otherwise the collected contracts of the client's list |
| SlaChaincode.UnreadableRepeats | sla/chaincode_sla/chaincode_sla.go:964-972 | a record that does not parse (an absent one reads as "") repeats the previous element, or the zero contract in first position |
| SlaChaincode.MarshalledReadBack | sla/chaincode_sla/chaincode_sla.go:964-972 | after the step that reads a record the chaincode marshalled itself, `data` is exactly that record, whatever came before it (the list element copied from it can still be changed by later steps in Go, see the CollectContracts line under Left out) |
| SlaChaincode.AbsentKeyOneElement | sla/chaincode_sla/chaincode_sla.go:961-964 | an absent list key splits to `[""]` and so gives a one-element answer |
| FraudIndex.EidKeyShape | fds/chaincode_fds/chaincode_fds.go:46-49 | an eid key is never an index key, is not empty, and holds no allowed separator |
| FraudIndex.IndexKeyShape | fds/chaincode_fds/chaincode_fds.go:46-49 | an index key is never an eid key |
| FraudIndex.IndexKeyInjective | fds/chaincode_fds/chaincode_fds.go:245-247 | two index keys coincide exactly when attribute and value do |
| FraudIndex.EidKeyInjective | fds/chaincode_fds/chaincode_fds.go:244 | two eid keys coincide exactly when their numbers do |
| FraudIndex.EidNotIndex | fds/chaincode_fds/chaincode_fds.go:46-49 | no eid key has the shape of an index key |
| FraudIndex.EmptyConsistent | fds/chaincode_fds/chaincode_fds.go:222-229 | an empty store with counter 1 is consistent |
| FraudIndex.AddToList | fds/chaincode_fds/chaincode_fds.go:260-266 | one read-append-write of a list changes that key only |
| FraudIndex.AddToListListed | fds/chaincode_fds/chaincode_fds.go:105-108 | adding an eid key to a list appends it to that list and leaves every other list alone |
| FraudIndex.RegisteredListed | fds/chaincode_fds/chaincode_fds.go:255-285 | after a registration, each of the entry's three lists has gained its eid key at the end, and every other list is unchanged |
| FraudIndex.RegisteredKeepsRecords | fds/chaincode_fds/chaincode_fds.go:255-285 | a registration changes no record other than its own |
| FraudIndex.RegisteredRecord | fds/chaincode_fds/chaincode_fds.go:255-258 | a registration stores its record under its eid key |
| FraudIndex.RegisteredKeepsListed | fds/chaincode_fds/chaincode_fds.go:255-285 | the records of older listed entries survive a registration |
| FraudIndex.RegisteredFresh | fds/chaincode_fds/chaincode_fds.go:244-287 | no eid key beyond the advanced counter is stored after a registration |
| FraudIndex.RegisteredListsPast | fds/chaincode_fds/chaincode_fds.go:244-287 | every list still names only eid keys below the advanced counter |
| FraudIndex.ListsPastGrow | fds/chaincode_fds/chaincode_fds.go:260-285 | appending the new eid key (or nothing) to a list of older keys gives a list of keys below the advanced counter |
| FraudIndex.RegisteredConsistent | fds/chaincode_fds/chaincode_fds.go:235-289 | registering at the counter and advancing it keeps the store consistent: nothing stored at or past the counter, and lists name only older entries |
| FraudIndex.RegisteredSize | chaincode_sla/chaincode_sla.go:186-219 | with fresh attribute values a registration adds exactly four keys, so ten distinct entries make forty |
| FraudIndex.ListedSetStep | fds/chaincode_fds/chaincode_fds.go:311-317 | the ids of a list prefix one longer gain exactly the next id |
| FraudIndex.Removed | fds/chaincode_fds/chaincode_fds.go:295-322 | after removal the list key and every id it listed are gone, and no key is added |
| FraudIndex.RemovedListed | fds/chaincode_fds/chaincode_fds.go:295-380 | after removal the value lists nothing, and every other list is unchanged |
| FraudIndex.RemovedStored | fds/chaincode_fds/chaincode_fds.go:295-380 | a record survives removal exactly when it was not on the removed list |
| FraudIndex.RemovedConsistent | fds/chaincode_fds/chaincode_fds.go:295-380 | removal keeps the store consistent |
| FraudStub.DraftSeparatorsOk | chaincode_sla/chaincode_sla.go:61 | both drafts' separators, '$' and '\|', can never occur inside an eid key |
| FraudStub.Records | chaincode_sla/chaincode_sla.go:287-292 | one decoded record per listed eid key |
| FraudStub.FdsStub.constructor | chaincode_sla/chaincode_sla.go:74-79 | `CreateFDSChaincodeStub`: an empty store, `nextEID` 1, a consistent state |
| FraudStub.FdsStub.RegisterFraudEntry | chaincode_sla/chaincode_sla.go:186-219 | true exactly for eight fields; then the separator-joined record is stored under `eid_<nextEID>`, the key is appended to the three lists and the counter advances; otherwise nothing changes; consistency is kept |
| FraudStub.FdsStub.RemoveWith | chaincode_sla/chaincode_sla.go:225-274 | always true; the listed records and the list are deleted; consistency is kept |
| FraudStub.FdsStub.LookupWith | chaincode_sla/chaincode_sla.go:280-332 | always true; one decoded record per listed eid key, in list order, `[]` for one that is gone |
| FraudStub.RecordRoundTrip | chaincode_sla/chaincode_sla.go:138-148 | eight fields without the separator decode back from their record |
| FraudStub.EntriesGrow | chaincode_sla/chaincode_sla.go:280-296 | the entries of a grown list over unchanged old records are the old entries followed by the new ones |
| FraudStub.RegisteredEntries | chaincode_sla/chaincode_sla.go:186-219 | after a registration, a list that names only older entries gains the new record exactly when it is one of the entry's lists |
| FraudStub.LookupAfterRegister | chaincode_fds/chaincode_fds.go:220-253 | after a registration, the lookup of each of the entry's three values gains its record at the end; every other lookup is unchanged |
| FraudStub.LookupAfterRemove | chaincode_fds/chaincode_fds.go:259-308 | after a removal the removed value's lookup is empty; another lookup keeps its length, with `[]` exactly at the positions of removed records |
| FraudStub.RemoveKeepsOtherLists | chaincode_sla/chaincode_sla.go:225-274 | a removal leaves every other index key exactly as it was, so those lists may now name deleted records |
| ContractRegistry.ContractRegistered | chaincode_sla/chaincode_sla.go:338-372 | a registration adds exactly the id, the name and the client keys |
| ContractRegistry.ContractList | chaincode_sla/chaincode_sla.go:385-405 | a search gives at least one element, because `strings.Split` never returns an empty slice |
| ContractRegistry.Texts | chaincode_sla/chaincode_sla.go:396-403 | one text per id |
| ContractRegistry.RegisterContract | chaincode_sla/chaincode_sla.go:338-372 | the ledger becomes `ContractRegistered`: the text under the id, the id added to the name's list, then to the client's |
| ContractRegistry.SearchContractByID | chaincode_sla/chaincode_sla.go:379-382 | the stored text, "" for an absent id |
| ContractRegistry.SearchContractList | chaincode_sla/chaincode_sla.go:385-427 | the loop returns exactly the contract list of the key |
| ContractRegistry.UpdateContractId | chaincode_sla/chaincode_sla.go:433-453 | overwrites the id's text and returns exactly the new text |
| ContractRegistry.AddIdIsAppend | chaincode_sla/chaincode_sla.go:346-369 | the registry's inline list update is the fraud store's `appendToEIDList` with '\|' |
| ContractRegistry.AddIdSplits | chaincode_sla/chaincode_sla.go:346-369 | adding an id appends it to the split list, an empty value counting as none |
| ContractRegistry.AbsentKeyGivesOneElement | chaincode_sla/chaincode_sla.go:385-405 | a search on an absent key gives one element, the text under the empty id |
| ContractRegistry.RegisteredIds | chaincode_sla/chaincode_sla.go:338-372 | after a registration the name's and client's lists end with the new id, twice when name and client coincide |
| ContractRegistry.RegisteredKeepsOthers | chaincode_sla/chaincode_sla.go:338-372 | a registration changes no text but those under its id, name and client |
| ContractRegistry.TextsGrow | chaincode_sla/chaincode_sla.go:385-405 | the texts of a grown list over unchanged old texts are the old texts followed by the new ones |
| ContractRegistry.SearchAfterRegister | chaincode_sla/chaincode_sla.go:338-427 | a search after a registration returns the earlier texts followed by the registered text, in registration order |
| AssetChaincode.Init | chaincode_fds/chaincode_fds.go:133-167 | succeeds exactly for four arguments with integer amounts and writable keys; non-integer amounts change nothing; the written holdings read back as the given amounts |
| AssetChaincode.Query | chaincode_fds/chaincode_fds.go:186-214 | succeeds exactly for "query" with one readable, present entity, and returns its stored value |
| AssetChaincode.HoldingReadsBack | chaincode_fds/chaincode_fds.go:144-160 | a holding `Init` wrote parses back to the amount given |
| FdsChaincode.FromFields | fds/chaincode_fds/chaincode_fds.go:249 | the entry built from the eight arguments has them as its fields, in order |
| FdsChaincode.FraudEntry.Fields | fds/chaincode_fds/chaincode_fds.go:21-30 | an entry has eight fields, cid, mac and uuid first |
| FdsChaincode.FieldNamesDistinct | fds/chaincode_fds/chaincode_fds.go:21-30 | the eight JSON tags are pairwise distinct up to ASCII case |
| FdsChaincode.ParseEntry | fds/chaincode_fds/chaincode_fds.go:412-419 | an absent record (empty bytes) never unmarshals |
| FdsChaincode.ReadAll | fds/chaincode_fds/chaincode_fds.go:407-420 | one entry per listed id |
| FdsChaincode.Lookup | fds/chaincode_fds/chaincode_fds.go:387-430 | a failed list read fails the lookup; a lookup gives one entry per listed eid key |
| FdsChaincode.Slots | fds/chaincode_fds/chaincode_fds.go:533-552 | `fdsGetAll` gives exactly n entries for a counter of n + 1 |
| FdsChaincode.MissingSlot | fds/chaincode_fds/chaincode_fds.go:535-550 | one slot that fails to read fails them all |
| FdsChaincode.FillStep | fds/chaincode_fds/chaincode_fds.go:546-551 | storing the entry a slot reads as at its position extends the filled prefix of the `fdsGetAll` loop by one |
| FdsChaincode.SkipStep | fds/chaincode_fds/chaincode_fds.go:542-544 | skipping an absent record keeps the zero entry `make` left there, which is what the slot reads as |
| FdsChaincode.SlotsRead | fds/chaincode_fds/chaincode_fds.go:533-552 | entries that agree with every slot read are the slots |
| FdsChaincode.RegistrationSteps | fds/chaincode_fds/chaincode_fds.go:255-285 | the registration passes through five ledgers, starting from the old one |
| FdsChaincode.AppendEid | fds/chaincode_fds/chaincode_fds.go:260-266 | succeeds exactly when the list key is readable and writable, and then appends the eid key; otherwise nothing changes |
| FdsChaincode.RegistrationStepsComplete | fds/chaincode_fds/chaincode_fds.go:255-285 | the last of the five ledgers is the full registration |
| FdsChaincode.ReadListed | fds/chaincode_fds/chaincode_fds.go:408-420 | fails exactly on a failed read, an absent record or one that does not unmarshal; otherwise the record's entry |
| FdsChaincode.ReadRecord | fds/chaincode_fds/chaincode_fds.go:535-550 | fails exactly on a failed read or a bad record; an absent record is the zero slot |
| FdsChaincode.InvokeRoute | fds/chaincode_fds/chaincode_fds.go:192-204 | `Invoke` dispatches only to registration and the deletes |
| FdsChaincode.QueryRoute | fds/chaincode_fds/chaincode_fds.go:206-220 | `Query` dispatches only to the lookups and "getnexteid" |
| FdsChaincode.SimpleChaincode.constructor | fds/chaincode_fds/chaincode_fds.go:222-229 | `main` starts the counter at 1 |
| FdsChaincode.SimpleChaincode.Init | fds/chaincode_fds/chaincode_fds.go:185-190 | succeeds exactly for no arguments |
| FdsChaincode.SimpleChaincode.CreateFraudEntry | fds/chaincode_fds/chaincode_fds.go:235-289 | succeeds exactly for eight arguments with writable eid key and readable, writable lists; the counter advances exactly on success; the ledger is the registration cut after the writes made before the first faulty key (none if the eid key is unwritable, the record alone if the cid list faults, then the cid append, the mac append, all four), so a partial failure keeps the earlier writes |
| FdsChaincode.SimpleChaincode.DeleteWith | fds/chaincode_fds/chaincode_fds.go:295-380 | succeeds exactly for one argument with a readable list and deletable records and list; success leaves the store `Removed`; a failed list read changes nothing; any other failure leaves exactly the listed records before the first undeletable one deleted (all of them when the list key itself cannot be deleted) and everything else as it was |
| FdsChaincode.FirstFaulty | fds/chaincode_fds/chaincode_fds.go:310-315 | the delete loop stops at the first listed key whose delete fails: every key before that position deletes, the key at it does not, and the position is the list's length when none fails |
| FdsChaincode.SimpleChaincode.GetWith | fds/chaincode_fds/chaincode_fds.go:387-522 | succeeds exactly for one argument when the lookup succeeds, and returns the marshalled entries in list order |
| FdsChaincode.SimpleChaincode.ReadEach | fds/chaincode_fds/chaincode_fds.go:407-420 | the loop succeeds exactly when every listed record reads, and then returns them all in order |
| FdsChaincode.SimpleChaincode.GetAll | fds/chaincode_fds/chaincode_fds.go:524-561 | succeeds exactly for no arguments when every slot reads; returns `nextEID - 1` entries, slot i from `eid_<i+1>` or zero when absent |
| FdsChaincode.SimpleChaincode.Invoke | fds/chaincode_fds/chaincode_fds.go:192-204 | an unknown name fails and changes nothing; registration advances the counter exactly on success and then leaves the full registration; a delete keeps the counter and on success leaves the store `Removed` |
| FdsChaincode.SimpleChaincode.Query | fds/chaincode_fds/chaincode_fds.go:206-220 | an unknown name fails; "getnexteid" returns the counter in decimal; the lookups behave as `GetAll` and `GetWith` |
| FdsChaincode.EntryRoundTrip | fds/chaincode_fds/chaincode_fds.go:250-416 | a stored entry unmarshals back to itself |
| FdsChaincode.ResponseRoundTrip | fds/chaincode_fds/chaincode_fds.go:423 | a client unmarshalling a lookup response gets the entries' fields back |
| FdsChaincode.DanglingFailsLookup | fds/chaincode_fds/chaincode_fds.go:408-420 | a listed record that is gone makes the whole lookup fail |
| FdsChaincode.DeleteLeavesDangling | fds/chaincode_fds/chaincode_fds.go:295-430 | deleting by one attribute makes a lookup on another of the entry's lists fail from then on |
| FdsChaincode.ReadAllGrow | fds/chaincode_fds/chaincode_fds.go:407-420 | reading a grown list over unchanged old records gives the old entries followed by the new ones |
| FdsChaincode.LookupGrow | fds/chaincode_fds/chaincode_fds.go:387-430 | a lookup on a grown list gives the old lookup followed by the new entries |
| FdsChaincode.LookupGrowBy | fds/chaincode_fds/chaincode_fds.go:387-430 | the same, for a list that grew by at most one id |
| FdsChaincode.RegisteredReads | fds/chaincode_fds/chaincode_fds.go:255-258 | the registered record reads back as its entry, both for the lookups and for `fdsGetAll` |
| FdsChaincode.RegisteredLookup | fds/chaincode_fds/chaincode_fds.go:255-285 | after a registration, a lookup on a list that names only older entries gains the new entry exactly for the entry's own lists |
| FdsChaincode.LookupAfterCreate | fds/chaincode_fds/chaincode_fds.go:235-289 | after a successful create, the lookup of each of the entry's values gains the entry at its end; every other lookup is unchanged |
| FdsChaincode.SlotsAfterCreate | fds/chaincode_fds/chaincode_fds.go:524-561 | after a successful create `fdsGetAll` has one more slot, holding the new entry |
| FdsChaincode.RegisteredSlots | fds/chaincode_fds/chaincode_fds.go:244-287 | a registration keeps every older slot and fills slot `nextEID` |
| FdsChaincode.RegisteredKeepsSlot | fds/chaincode_fds/chaincode_fds.go:244-287 | a registration leaves every older slot as it was |
| FdsChaincode.SlotsGrow | fds/chaincode_fds/chaincode_fds.go:533-552 | slots over a ledger that kept the first n slots and gained slot n+1 are the old slots followed by the new one |
| FdsChaincode.SlotAfterDelete | fds/chaincode_fds/chaincode_fds.go:535-550 | after a delete, a slot whose record was on the deleted list holds the zero entry |
| FdsChaincode.RetryListsTwice | fds/chaincode_fds/chaincode_fds.go:255-287 | a create that stops after the cid append leaves the counter alone, so the next create with the same cid lists the same eid key twice |
| FdsChaincode.CidStepListed | fds/chaincode_fds/chaincode_fds.go:255-266 | after the first two writes the cid list ends with the new eid key |

## Left out

- Output: `fmt` printing; `printFraudEntries`, which every `fdsGetWith*` handler and `fdsGetAll` call but which only prints; `entryStringsToJsonString`, which is never called; and `json.MarshalIndent`, whose result is only printed.
- JSON: numbers, `\u` escapes and the escaping of control characters and HTML characters are not modelled. The model reader skips whitespace and accepts the simple escapes; the writer escapes only the quote and the backslash. Key matching folds ASCII case only, not the Unicode case folding Go's decoder also applies.
- Json.Parse: raw control characters (below U+0020) inside a string literal are accepted, where Go's scanner reports a syntax error. So `SlaChaincode.CreateContract`, `SlaChaincode.UpdateContract`, `SlaChaincode.ApproveContract`, `FdsChaincode.ParseEntry` and the SLA lookups' reads accept such content, where Go refuses it (and leaves `data` untouched). Refusing them in the reader would also need the writer's `\u00XX` escapes, which are not modelled.
- SlaChaincode.CreateContract, SlaChaincode.UpdateContract and SlaChaincode.ApproveContract: because JSON numbers are not parsed, content holding a number anywhere, even under a key that matches no field (which Go skips without error), is refused here, where Go accepts it.
- `nil` and empty slices are not told apart, so `null` and `[]` responses are the same value here.
- `time.Now()`: the current year and date are parameters of `GetContractId`, `Init` and `ApproveContract`.
- `slaUpdateContract1` is not part of this model: it is a debug draft that overwrites fields with fixed values. `Invoke` routes to it, and the route is kept.
- The SLA `Invoke` and `Query` handlers are modelled by their routing (`InvokeRoute`, `QueryRoute`), not as methods. The empty evaluation and payment handlers, and the empty `slaSubmitContract`, `slaRejectContract` and `slaCloseContract`, return nothing and change nothing. The approval workflow the tests expect is modelled separately in `ApprovalWorkflow`.
- `RegisterFraudEntryUsingFDSValues`, `FDSValuesToByteArray` and `ByteArrayToFDSValues` of chaincode_sla/chaincode_sla.go are not modelled: they are unused.
- `main` and `shim.Start` are not modelled, except that `main` sets `nextEID` to 1.
- The `Invoke` of chaincode_fds/chaincode_fds.go is not modelled: it uses a different shim API and calls methods that do not exist.
- The commented-out helpers of chaincode_fds/chaincode_fds.go are not modelled. That file's stub is `FraudStub.FdsStub` with the separator '|', matching its `SEP`.
- Go `int` overflow is not modelled: counters are unbounded. `strconv.Atoi`'s range limit is not modelled.
- `padLeft` counts bytes in Go. Ids hold only ASCII, so the model counts characters.
- SlaChaincode.CollectContracts: the list elements are copies of `data`. In Go, `Approvals` and `ServiceItems` share backing arrays between elements, and a later `Unmarshal` can overwrite them in place. That aliasing is not modelled.
- Error texts of the shim are not modelled. The handlers' own error messages are kept.
- FdsChaincode.SimpleChaincode.CreateFraudEntry: its contract does not state the store consistency predicate. `FraudIndex.RegisteredConsistent` proves it for the state the contract gives.
- SlaChaincode.GetContractWithId, SlaChaincode.GetAllContracts, SlaChaincode.GetContractsWithName and SlaChaincode.GetContractsWithClient require at least one argument. Go prints `args[0]` before it checks the count, so an empty argument list panics.
- SlaChaincode.CreateContract and SlaChaincode.UpdateContract require at least one argument, for the same reason.
- SlaChaincode.ApproveContract requires four arguments and an approval slot inside the line, because Go panics otherwise.
- ContractRegistry.RegisterContract requires at least two arguments and five CSV fields, because Go panics otherwise.
- ContractRegistry.SearchContractByID and ContractRegistry.SearchContractList require at least one argument, because Go panics otherwise.
- ContractRegistry.UpdateContractId requires at least two arguments, because Go panics otherwise.
- Concurrency and consensus do not exist in these handlers, so they are not modelled: every handler runs one sequential read-modify-write.
