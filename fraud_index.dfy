/**
  The key layout shared by every fraud-entry store.

  Entry number n is stored under `eid_<n>`. For each of the three indexed
  attributes (cid, mac, uuid) the key `<prefix><value>` holds the encoded list
  of the eid keys of the entries with that value, in registration order.
  Registering writes the entry and appends its eid key to its three lists;
  removing by one attribute deletes every listed entry and that list, and
  leaves the other lists untouched (so they may name deleted entries).
*/
module FraudIndex {
  import opened Wrappers
  import opened Text
  import opened IdList
  import opened MemoryStore

  /** `NUM_FIELDS`: cid, mac, uuid, final date, final time, produced by, registered by, reason. */
  const NumFields := 8

  datatype Attribute = Cid | Mac | Uuid {
    /** `PREFIX_CID`, `PREFIX_MAC`, `PREFIX_UUID`. */
    function Prefix(): string {
      match this
      case Cid => "cid_"
      case Mac => "mac_"
      case Uuid => "uuid_"
    }

    /** `IND_CID`, `IND_MAC`, `IND_UUID`: the attribute's position in a field list. */
    function Index(): nat {
      match this
      case Cid => 0
      case Mac => 1
      case Uuid => 2
    }
  }

  /** `PREFIX_EID + strconv.Itoa(n)`. */
  function EidKey(n: int): string {
    "eid_" + Itoa(n)
  }

  function IndexKey(a: Attribute, value: string): string {
    a.Prefix() + value
  }

  predicate IsEidKey(k: string) {
    |k| >= 4 && k[..4] == "eid_"
  }

  predicate IsIndexKey(k: string) {
    |k| >= 4 && (k[..4] == "cid_" || k[..4] == "mac_" || k[..4] == "uuid")
  }

  /** A separator that can never occur inside an eid key. */
  predicate SepOk(sep: char) {
    sep !in "eid_-" && !IsDigit(sep)
  }

  /** The ids listed under a key: the decoded stored value ("" when absent). */
  function Listed(kvs: map<string, string>, key: string, sep: char): seq<string> {
    Decode(Stored(kvs, key), sep)
  }

  // ---------------------------------------------------------------------
  // Facts about keys
  // ---------------------------------------------------------------------

  lemma EidKeyShape(n: int, sep: char)
    requires SepOk(sep)
    ensures IsEidKey(EidKey(n)) && !IsIndexKey(EidKey(n))
    ensures sep !in EidKey(n) && EidKey(n) != ""
  {
    var k := EidKey(n);
    assert k[..4] == "eid_";
    var d := if n < 0 then NatDigits(-n) else NatDigits(n);
    assert Itoa(n) == (if n < 0 then "-" else "") + d;
  }

  lemma IndexKeyShape(a: Attribute, v: string)
    ensures IsIndexKey(IndexKey(a, v)) && !IsEidKey(IndexKey(a, v))
  {
    var k := IndexKey(a, v);
    assert k[..|a.Prefix()|] == a.Prefix();
    assert k[..4] == a.Prefix()[..4];
  }

  /** Index keys of different attributes never coincide; for one attribute they coincide exactly for equal values. */
  lemma IndexKeyInjective(a: Attribute, v: string, b: Attribute, w: string)
    ensures IndexKey(a, v) == IndexKey(b, w) <==> a == b && v == w
  {
    if IndexKey(a, v) == IndexKey(b, w) {
      var k := IndexKey(a, v);
      assert k[0] == a.Prefix()[0] == b.Prefix()[0];
      assert v == k[|a.Prefix()|..] == w;
    }
  }

  lemma EidKeyInjective(n: int, m: int)
    ensures EidKey(n) == EidKey(m) <==> n == m
  {
    if EidKey(n) == EidKey(m) {
      assert Itoa(n) == EidKey(n)[4..] == EidKey(m)[4..] == Itoa(m);
      ItoaInjective(n, m);
    }
  }

  lemma EidNotIndex(k: string)
    requires IsEidKey(k)
    ensures !IsIndexKey(k)
  {
  }

  // ---------------------------------------------------------------------
  // Consistency of the lists with the eid counter
  // ---------------------------------------------------------------------

  /** Every listed id is an eid key below `next`. */
  ghost predicate ListsPast(ids: seq<string>, next: int) {
    forall i :: 0 <= i < |ids| ==> IsEidKey(ids[i]) && forall n :: n >= next ==> ids[i] != EidKey(n)
  }

  /**
    What registration and removal maintain: the counter is positive, no entry
    is stored at or beyond it, and every list names only eid keys below it.
  */
  ghost predicate Consistent(kvs: map<string, string>, next: int, sep: char) {
    && next >= 1
    && (forall n :: n >= next ==> EidKey(n) !in kvs)
    && (forall k :: k in kvs && IsIndexKey(k) ==> ListsPast(Listed(kvs, k, sep), next))
  }

  lemma EmptyConsistent(sep: char)
    ensures Consistent(map[], 1, sep)
  {
  }

  // ---------------------------------------------------------------------
  // Registration
  // ---------------------------------------------------------------------

  /** One `appendToEIDList` write: key's list gains `eid` at its end. */
  function AddToList(kvs: map<string, string>, key: string, eid: string, sep: char): (r: map<string, string>)
    ensures key in r
    ensures forall k :: k != key ==> (k in r <==> k in kvs) && Stored(r, k) == Stored(kvs, k)
  {
    kvs[key := Append(Stored(kvs, key), eid, sep)]
  }

  /**
    The four writes of a registration: the record under `eid`, then `eid`
    appended to the cid, mac and uuid lists of the fields, in that order.
  */
  function Registered(kvs: map<string, string>, eid: string, record: string, fields: seq<string>, sep: char): (r: map<string, string>)
    requires |fields| == NumFields
  {
    var m1 := kvs[eid := record];
    var m2 := AddToList(m1, IndexKey(Cid, fields[Cid.Index()]), eid, sep);
    var m3 := AddToList(m2, IndexKey(Mac, fields[Mac.Index()]), eid, sep);
    AddToList(m3, IndexKey(Uuid, fields[Uuid.Index()]), eid, sep)
  }

  /** Adding an eid key to one list extends that list by it and leaves every other list alone. */
  lemma AddToListListed(kvs: map<string, string>, key: string, eid: string, sep: char, k: string)
    requires sep !in eid && eid != ""
    ensures Listed(AddToList(kvs, key, eid, sep), k, sep) ==
      if k == key then Listed(kvs, k, sep) + [eid] else Listed(kvs, k, sep)
  {
    if k == key {
      AppendDecodes(Stored(kvs, key), eid, sep);
    }
  }

  /** The lists after a registration: each of the entry's three lists gains its eid key at the end. */
  lemma RegisteredListed(kvs: map<string, string>, n: int, record: string, fields: seq<string>, sep: char, k: string)
    requires |fields| == NumFields && SepOk(sep) && IsIndexKey(k)
    ensures Listed(Registered(kvs, EidKey(n), record, fields, sep), k, sep) ==
      Listed(kvs, k, sep) + (if k in {IndexKey(Cid, fields[0]), IndexKey(Mac, fields[1]), IndexKey(Uuid, fields[2])} then [EidKey(n)] else [])
  {
    var eid := EidKey(n);
    EidKeyShape(n, sep);
    var c, m, u := IndexKey(Cid, fields[0]), IndexKey(Mac, fields[1]), IndexKey(Uuid, fields[2]);
    IndexKeyInjective(Cid, fields[0], Mac, fields[1]);
    IndexKeyInjective(Cid, fields[0], Uuid, fields[2]);
    IndexKeyInjective(Mac, fields[1], Uuid, fields[2]);
    var m1 := kvs[eid := record];
    assert Listed(m1, k, sep) == Listed(kvs, k, sep) by {
      assert k != eid;
    }
    var m2 := AddToList(m1, c, eid, sep);
    var m3 := AddToList(m2, m, eid, sep);
    AddToListListed(m1, c, eid, sep, k);
    AddToListListed(m2, m, eid, sep, k);
    AddToListListed(m3, u, eid, sep, k);
  }

  /** A registration changes no stored record other than its own. */
  lemma RegisteredKeepsRecords(kvs: map<string, string>, next: int, record: string, fields: seq<string>, sep: char, id: string)
    requires SepOk(sep) && |fields| == NumFields && IsEidKey(id) && id != EidKey(next)
    ensures id in Registered(kvs, EidKey(next), record, fields, sep) <==> id in kvs
    ensures Stored(Registered(kvs, EidKey(next), record, fields, sep), id) == Stored(kvs, id)
  {
    EidNotIndex(id);
    IndexKeyShape(Cid, fields[0]);
    IndexKeyShape(Mac, fields[1]);
    IndexKeyShape(Uuid, fields[2]);
  }

  /** A registration stores its record under its eid key. */
  lemma RegisteredRecord(kvs: map<string, string>, next: int, record: string, fields: seq<string>, sep: char)
    requires SepOk(sep) && |fields| == NumFields
    ensures Stored(Registered(kvs, EidKey(next), record, fields, sep), EidKey(next)) == record
  {
    EidKeyShape(next, sep);
    IndexKeyShape(Cid, fields[0]);
    IndexKeyShape(Mac, fields[1]);
    IndexKeyShape(Uuid, fields[2]);
  }

  /** The records of older entries survive a registration. */
  lemma RegisteredKeepsListed(kvs: map<string, string>, next: int, record: string, fields: seq<string>, sep: char, ids: seq<string>)
    requires SepOk(sep) && |fields| == NumFields && ListsPast(ids, next)
    ensures forall i :: 0 <= i < |ids| ==> Stored(Registered(kvs, EidKey(next), record, fields, sep), ids[i]) == Stored(kvs, ids[i])
  {
    forall i | 0 <= i < |ids|
      ensures Stored(Registered(kvs, EidKey(next), record, fields, sep), ids[i]) == Stored(kvs, ids[i])
    {
      RegisteredKeepsRecords(kvs, next, record, fields, sep, ids[i]);
    }
  }

  /** No eid key at or beyond the advanced counter is stored after a registration. */
  lemma RegisteredFresh(kvs: map<string, string>, next: int, record: string, fields: seq<string>, sep: char, n: int)
    requires SepOk(sep) && |fields| == NumFields && n != next && EidKey(n) !in kvs
    ensures EidKey(n) !in Registered(kvs, EidKey(next), record, fields, sep)
  {
    EidKeyInjective(n, next);
    EidKeyShape(n, sep);
    IndexKeyShape(Cid, fields[0]);
    IndexKeyShape(Mac, fields[1]);
    IndexKeyShape(Uuid, fields[2]);
  }

  /** Every list still names only eid keys below the advanced counter. */
  lemma RegisteredListsPast(kvs: map<string, string>, next: int, record: string, fields: seq<string>, sep: char, k: string)
    requires SepOk(sep) && |fields| == NumFields && IsIndexKey(k) && ListsPast(Listed(kvs, k, sep), next)
    ensures ListsPast(Listed(Registered(kvs, EidKey(next), record, fields, sep), k, sep), next + 1)
  {
    RegisteredListed(kvs, next, record, fields, sep, k);
    EidKeyShape(next, sep);
    var extra: seq<string> :=
      if k in {IndexKey(Cid, fields[0]), IndexKey(Mac, fields[1]), IndexKey(Uuid, fields[2])} then [EidKey(next)] else [];
    ListsPastGrow(Listed(kvs, k, sep), next, extra);
  }

  /** A list below the counter, possibly extended by the counter's own key, is below the next counter. */
  lemma ListsPastGrow(ids: seq<string>, next: int, extra: seq<string>)
    requires ListsPast(ids, next) && IsEidKey(EidKey(next))
    requires extra == [] || extra == [EidKey(next)]
    ensures ListsPast(ids + extra, next + 1)
  {
    forall n | n >= next + 1
      ensures EidKey(next) != EidKey(n)
    {
      EidKeyInjective(n, next);
    }
  }

  /** Registering at the counter and advancing it keeps the store consistent. */
  lemma RegisteredConsistent(kvs: map<string, string>, next: int, record: string, fields: seq<string>, sep: char)
    requires Consistent(kvs, next, sep) && SepOk(sep) && |fields| == NumFields
    ensures Consistent(Registered(kvs, EidKey(next), record, fields, sep), next + 1, sep)
  {
    var r := Registered(kvs, EidKey(next), record, fields, sep);
    forall n | n >= next + 1
      ensures EidKey(n) !in r
    {
      RegisteredFresh(kvs, next, record, fields, sep, n);
    }
    forall k | k in r && IsIndexKey(k)
      ensures ListsPast(Listed(r, k, sep), next + 1)
    {
      assert ListsPast(Listed(kvs, k, sep), next) by {
        if k !in kvs {
          assert Listed(kvs, k, sep) == [];
        }
      }
      RegisteredListsPast(kvs, next, record, fields, sep, k);
    }
  }

  /**
    When none of the entry's three index keys was stored, a registration adds
    exactly four keys: ten entries with distinct attributes make forty keys.
  */
  lemma RegisteredSize(kvs: map<string, string>, next: int, record: string, fields: seq<string>, sep: char)
    requires Consistent(kvs, next, sep) && SepOk(sep) && |fields| == NumFields
    requires IndexKey(Cid, fields[0]) !in kvs && IndexKey(Mac, fields[1]) !in kvs && IndexKey(Uuid, fields[2]) !in kvs
    ensures |Registered(kvs, EidKey(next), record, fields, sep)| == |kvs| + 4
  {
    var eid := EidKey(next);
    var c, m, u := IndexKey(Cid, fields[0]), IndexKey(Mac, fields[1]), IndexKey(Uuid, fields[2]);
    EidKeyShape(next, sep);
    IndexKeyShape(Cid, fields[0]);
    IndexKeyShape(Mac, fields[1]);
    IndexKeyShape(Uuid, fields[2]);
    IndexKeyInjective(Cid, fields[0], Mac, fields[1]);
    IndexKeyInjective(Cid, fields[0], Uuid, fields[2]);
    IndexKeyInjective(Mac, fields[1], Uuid, fields[2]);
    var m1 := kvs[eid := record];
    assert |m1| == |kvs| + 1;
    var m2 := AddToList(m1, c, eid, sep);
    var m3 := AddToList(m2, m, eid, sep);
    assert Registered(kvs, eid, record, fields, sep) == AddToList(m3, u, eid, sep);
  }

  // ---------------------------------------------------------------------
  // Removal
  // ---------------------------------------------------------------------

  /** The ids of a list, as a set. */
  function ListedSet(ids: seq<string>): set<string> {
    set i | 0 <= i < |ids| :: ids[i]
  }

  /** The ids of a prefix one longer. */
  lemma ListedSetStep(ids: seq<string>, i: nat)
    requires i < |ids|
    ensures ListedSet(ids[..i + 1]) == ListedSet(ids[..i]) + {ids[i]}
  {
    assert ids[..i + 1] == ids[..i] + [ids[i]];
  }

  /** `RemoveWith*`: every listed entry deleted, then the list itself. */
  function Removed(kvs: map<string, string>, key: string, sep: char): (r: map<string, string>)
    ensures key !in r && r.Keys <= kvs.Keys
    ensures forall id :: id in Listed(kvs, key, sep) ==> id !in r
  {
    kvs - ListedSet(Listed(kvs, key, sep)) - {key}
  }

  /** After removal the attribute value lists nothing, and every other list is unchanged. */
  lemma RemovedListed(kvs: map<string, string>, next: int, key: string, sep: char, k: string)
    requires Consistent(kvs, next, sep) && IsIndexKey(key) && IsIndexKey(k)
    ensures Listed(Removed(kvs, key, sep), key, sep) == []
    ensures k != key ==> Listed(Removed(kvs, key, sep), k, sep) == Listed(kvs, k, sep)
  {
    if k != key && key in kvs {
      assert k !in ListedSet(Listed(kvs, key, sep)) by {
        if k in ListedSet(Listed(kvs, key, sep)) {
          EidNotIndex(k);
        }
      }
    }
  }

  /** An entry is readable after removal exactly when it was readable before and was not listed. */
  lemma RemovedStored(kvs: map<string, string>, next: int, key: string, sep: char, id: string)
    requires Consistent(kvs, next, sep) && IsIndexKey(key) && IsEidKey(id)
    ensures Stored(Removed(kvs, key, sep), id) == if id in ListedSet(Listed(kvs, key, sep)) then "" else Stored(kvs, id)
  {
    EidNotIndex(id);
  }

  /** Removal keeps the store consistent. */
  lemma RemovedConsistent(kvs: map<string, string>, next: int, key: string, sep: char)
    requires Consistent(kvs, next, sep) && IsIndexKey(key)
    ensures Consistent(Removed(kvs, key, sep), next, sep)
  {
    var r := Removed(kvs, key, sep);
    forall k | k in r && IsIndexKey(k)
      ensures ListsPast(Listed(r, k, sep), next)
    {
      RemovedListed(kvs, next, key, sep, k);
    }
  }
}
