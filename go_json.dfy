/**
  How Go's `encoding/json` maps JSON values onto the chaincode's structs,
  all of whose fields are strings or slices of such structs.

  A struct of string fields is the sequence of its field values, described by
  the sequence of its field names. `json.Unmarshal` into an existing value:
   - an object member whose key equals a field name up to ASCII case sets
     that field; members with other keys are ignored; later duplicates win;
   - `null` leaves a string field or a struct unchanged and empties a slice;
   - a value of the wrong kind leaves the field unchanged and makes the whole
     call report an error, but decoding goes on with the other members;
   - an array decodes element by element into the existing elements of a
     slice (so fields missing from an element keep their previous values) and
     starts from the zero value beyond the old length, as Go does for a
     slice without spare capacity (Go reuses the elements between length
     and capacity, which this model does not have); the slice takes the
     array's length.
  `json.Marshal` writes every field, in declaration order, under its name.
*/
module GoJson {
  import opened Wrappers
  import opened Json

  // ---------------------------------------------------------------------
  // Field names
  // ---------------------------------------------------------------------

  function Lower(c: char): char {
    if 'A' <= c <= 'Z' then (c as int + 32) as char else c
  }

  /** Equality up to ASCII case, the test Go applies to keys and field names. */
  predicate FoldEq(a: string, b: string) {
    |a| == |b| && forall i :: 0 <= i < |a| ==> Lower(a[i]) == Lower(b[i])
  }

  /** No two field names of a struct match the same key. */
  predicate DistinctNames(names: seq<string>) {
    forall i, j :: 0 <= i < j < |names| ==> !FoldEq(names[i], names[j])
  }

  /** The first field (from index `from` on) whose name matches `key`. */
  function FieldIndexFrom(names: seq<string>, key: string, from: nat): (r: Option<nat>)
    requires from <= |names|
    ensures r.Some? ==> from <= r.value < |names| && FoldEq(names[r.value], key)
    ensures r.Some? ==> forall i :: from <= i < r.value ==> !FoldEq(names[i], key)
    ensures r.None? ==> forall i :: from <= i < |names| ==> !FoldEq(names[i], key)
    decreases |names| - from
  {
    if from == |names| then None
    else if FoldEq(names[from], key) then Some(from)
    else FieldIndexFrom(names, key, from + 1)
  }

  function FieldIndex(names: seq<string>, key: string): (r: Option<nat>)
    ensures r.Some? ==> r.value < |names| && FoldEq(names[r.value], key)
    ensures r.Some? ==> forall i :: 0 <= i < r.value ==> !FoldEq(names[i], key)
    ensures r.None? ==> forall i :: 0 <= i < |names| ==> !FoldEq(names[i], key)
  {
    FieldIndexFrom(names, key, 0)
  }

  /** A field's own name selects that field when the names are distinct. */
  lemma FieldIndexOfName(names: seq<string>, j: nat)
    requires DistinctNames(names) && j < |names|
    ensures FieldIndex(names, names[j]) == Some(j)
  {
    assert FoldEq(names[j], names[j]);
  }

  // ---------------------------------------------------------------------
  // Decoding: each function returns the new value and whether a type error
  // was reported.
  // ---------------------------------------------------------------------

  /** A JSON value decoded into a string field. */
  function DecodeString(prev: string, v: Value): (r: (string, bool))
    ensures v.Str? ==> r == (v.s, false)
    ensures !v.Str? ==> r.0 == prev
    ensures r.1 <==> !(v.Str? || v.Null?)
  {
    match v
    case Str(s) => (s, false)
    case Null => (prev, false)
    case _ => (prev, true)
  }

  /** The members of an object decoded, in order, into a struct of string fields. */
  function DecodeMembers(names: seq<string>, prev: seq<string>, ms: seq<Member>): (r: (seq<string>, bool))
    requires |prev| == |names|
    ensures |r.0| == |names|
    ensures ms == [] ==> r == (prev, false)
    decreases |ms|
  {
    if ms == [] then (prev, false)
    else
      var step :=
        match FieldIndex(names, ms[0].key)
        case None => (prev, false)
        case Some(i) =>
          var d := DecodeString(prev[i], ms[0].value);
          (prev[i := d.0], d.1);
      var rest := DecodeMembers(names, step.0, ms[1..]);
      (rest.0, step.1 || rest.1)
  }

  /** A JSON value decoded into a struct of string fields. */
  function DecodeStruct(names: seq<string>, prev: seq<string>, v: Value): (r: (seq<string>, bool))
    requires |prev| == |names|
    ensures |r.0| == |names|
    ensures !v.Obj? ==> r.0 == prev
    ensures !v.Obj? ==> (r.1 <==> !v.Null?)
  {
    match v
    case Obj(ms) => DecodeMembers(names, prev, ms)
    case Null => (prev, false)
    case _ => (prev, true)
  }

  /** The zero value of a struct of string fields. */
  function Zero(names: seq<string>): (r: seq<string>)
    ensures |r| == |names| && forall i :: 0 <= i < |r| ==> r[i] == ""
  {
    seq(|names|, _ => "")
  }

  predicate Shaped(names: seq<string>, vals: seq<seq<string>>) {
    forall i :: 0 <= i < |vals| ==> |vals[i]| == |names|
  }

  /** Array elements decoded into the elements of an existing slice. */
  function DecodeElements(names: seq<string>, prev: seq<seq<string>>, items: seq<Value>): (r: (seq<seq<string>>, bool))
    requires Shaped(names, prev)
    ensures |r.0| == |items| && Shaped(names, r.0)
    decreases |items|
  {
    if items == [] then ([], false)
    else
      var base := if |prev| > 0 then prev[0] else Zero(names);
      var e := DecodeStruct(names, base, items[0]);
      var rest := DecodeElements(names, if |prev| > 0 then prev[1..] else [], items[1..]);
      ([e.0] + rest.0, e.1 || rest.1)
  }

  /** A JSON value decoded into a slice of structs of string fields. */
  function DecodeSlice(names: seq<string>, prev: seq<seq<string>>, v: Value): (r: (seq<seq<string>>, bool))
    requires Shaped(names, prev)
    ensures Shaped(names, r.0)
    ensures v.Null? ==> r == ([], false)
    ensures v.Arr? ==> |r.0| == |v.items|
  {
    match v
    case Null => ([], false)
    case Arr(items) => DecodeElements(names, prev, items)
    case _ => (prev, true)
  }

  // ---------------------------------------------------------------------
  // Encoding
  // ---------------------------------------------------------------------

  /** `json.Marshal` of a struct of string fields: every field under its name. */
  function EncodeStruct(names: seq<string>, vals: seq<string>): (r: Value)
    requires |vals| == |names|
    ensures r.Obj? && |r.members| == |names|
    ensures forall i :: 0 <= i < |names| ==> r.members[i] == Member(names[i], Str(vals[i]))
  {
    Obj(seq(|names|, i requires 0 <= i < |names| => Member(names[i], Str(vals[i]))))
  }

  /** `json.Marshal` of a slice of such structs: an array of their encodings. */
  function EncodeSlice(names: seq<string>, vals: seq<seq<string>>): (r: Value)
    requires Shaped(names, vals)
    ensures r.Arr? && |r.items| == |vals|
    ensures forall i :: 0 <= i < |vals| ==> r.items[i] == EncodeStruct(names, vals[i])
  {
    Arr(seq(|vals|, i requires 0 <= i < |vals| => EncodeStruct(names, vals[i])))
  }

  // ---------------------------------------------------------------------
  // Round trip
  // ---------------------------------------------------------------------

  /** Decoding the members from index j on, once the first j fields already hold their new values. */
  lemma {:induction false} DecodeEncodedFrom(names: seq<string>, prev: seq<string>, vals: seq<string>, j: nat)
    requires DistinctNames(names) && |prev| == |names| == |vals| && j <= |names|
    ensures DecodeMembers(names, vals[..j] + prev[j..], EncodeStruct(names, vals).members[j..]) == (vals, false)
    decreases |names| - j
  {
    var ms := EncodeStruct(names, vals).members;
    var cur := vals[..j] + prev[j..];
    if j == |names| {
      assert ms[j..] == [];
      assert cur == vals;
    } else {
      FieldIndexOfName(names, j);
      assert ms[j..][0] == Member(names[j], Str(vals[j]));
      assert ms[j..][1..] == ms[j + 1..];
      assert cur[j := vals[j]] == vals[..j + 1] + prev[j + 1..];
      DecodeEncodedFrom(names, prev, vals, j + 1);
    }
  }

  /** Unmarshalling what Marshal wrote restores every field, whatever the struct held before. */
  lemma DecodeEncodeStruct(names: seq<string>, prev: seq<string>, vals: seq<string>)
    requires DistinctNames(names) && |prev| == |names| == |vals|
    ensures DecodeStruct(names, prev, EncodeStruct(names, vals)) == (vals, false)
  {
    DecodeEncodedFrom(names, prev, vals, 0);
    assert vals[..0] + prev[0..] == prev;
    assert EncodeStruct(names, vals).members[0..] == EncodeStruct(names, vals).members;
  }

  lemma {:induction false} DecodeEncodeElements(names: seq<string>, prev: seq<seq<string>>, vals: seq<seq<string>>)
    requires DistinctNames(names) && Shaped(names, prev) && Shaped(names, vals)
    ensures DecodeElements(names, prev, EncodeSlice(names, vals).items) == (vals, false)
    decreases |vals|
  {
    var items := EncodeSlice(names, vals).items;
    if vals != [] {
      var base := if |prev| > 0 then prev[0] else Zero(names);
      DecodeEncodeStruct(names, base, vals[0]);
      DecodeEncodeElements(names, if |prev| > 0 then prev[1..] else [], vals[1..]);
      assert items[1..] == EncodeSlice(names, vals[1..]).items;
      assert [vals[0]] + vals[1..] == vals;
    }
  }

  /** Unmarshalling a marshalled slice gives back the slice, whatever it replaced. */
  lemma DecodeEncodeSlice(names: seq<string>, prev: seq<seq<string>>, vals: seq<seq<string>>)
    requires DistinctNames(names) && Shaped(names, prev) && Shaped(names, vals)
    ensures DecodeSlice(names, prev, EncodeSlice(names, vals)) == (vals, false)
  {
    DecodeEncodeElements(names, prev, vals);
  }
}
