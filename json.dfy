/**
  The part of JSON the chaincode stores: null, booleans, strings, arrays and
  objects.
  `Serialize` is the writer used for records the chaincode marshals itself;
  `Parse` is the reader applied to every stored or submitted record. The
  reader skips whitespace between tokens (the SLA tests submit indented JSON)
  and accepts the escapes \" \\ \/ \b \f \n \r \t; the writer escapes only
  the quote and the backslash. `Parse(Serialize(v)) == Some(v)` for every v.
*/
module Json {
  import opened Wrappers

  datatype Value = Null | Bool(b: bool) | Str(s: string) | Arr(items: seq<Value>) | Obj(members: seq<Member>)
  datatype Member = Member(key: string, value: Value)

  // ---------------------------------------------------------------------
  // Writer
  // ---------------------------------------------------------------------

  function Escape(s: string): string {
    if s == [] then []
    else (if s[0] == '"' || s[0] == '\\' then ['\\', s[0]] else [s[0]]) + Escape(s[1..])
  }

  function Quote(s: string): string {
    "\"" + Escape(s) + "\""
  }

  function Serialize(v: Value): string
    decreases v
  {
    match v
    case Null => "null"
    case Bool(b) => if b then "true" else "false"
    case Str(s) => Quote(s)
    case Arr(items) => "[" + SerializeItems(items) + "]"
    case Obj(ms) => "{" + SerializeMembers(ms) + "}"
  }

  function SerializeItems(items: seq<Value>): string
    decreases items
  {
    if |items| == 0 then ""
    else if |items| == 1 then Serialize(items[0])
    else Serialize(items[0]) + "," + SerializeItems(items[1..])
  }

  function SerializeMembers(ms: seq<Member>): string
    decreases ms
  {
    if |ms| == 0 then ""
    else
      var m := Quote(ms[0].key) + ":" + Serialize(ms[0].value);
      if |ms| == 1 then m else m + "," + SerializeMembers(ms[1..])
  }

  // ---------------------------------------------------------------------
  // Reader
  // ---------------------------------------------------------------------

  predicate IsWhitespace(c: char) {
    c == ' ' || c == '\t' || c == '\n' || c == '\r'
  }

  function SkipWhitespace(s: string): (r: string)
    ensures |r| <= |s|
  {
    if s != [] && IsWhitespace(s[0]) then SkipWhitespace(s[1..]) else s
  }

  /** The character a backslash escape stands for. */
  function Unescape(c: char): Option<char> {
    if c == '"' || c == '\\' || c == '/' then Some(c)
    else if c == 'b' then Some('\U{8}')
    else if c == 'f' then Some('\U{C}')
    else if c == 'n' then Some('\n')
    else if c == 'r' then Some('\r')
    else if c == 't' then Some('\t')
    else None
  }

  /** The body of a string literal up to its closing quote, and what follows it. */
  function ParseString(s: string): (r: Option<(string, string)>)
    ensures r.Some? ==> |r.value.1| < |s|
  {
    if s == [] then None
    else if s[0] == '"' then Some(("", s[1..]))
    else if s[0] == '\\' then
      if |s| >= 2 && Unescape(s[1]).Some? then
        match ParseString(s[2..])
        case None => None
        case Some((t, rest)) => Some(([Unescape(s[1]).value] + t, rest))
      else None
    else
      match ParseString(s[1..])
      case None => None
      case Some((t, rest)) => Some(([s[0]] + t, rest))
  }

  /** `null`, `true` or `false` at the start of s, and what follows it. */
  function ParseLiteral(s: string): (r: Option<(Value, string)>)
    ensures r.Some? ==> |r.value.1| < |s| && s[0] in {'n', 't', 'f'}
  {
    if |s| >= 4 && s[..4] == "null" then Some((Null, s[4..]))
    else if |s| >= 4 && s[..4] == "true" then Some((Bool(true), s[4..]))
    else if |s| >= 5 && s[..5] == "false" then Some((Bool(false), s[5..]))
    else None
  }

  /** One value after optional whitespace, and what follows it. */
  function ParseValue(s: string): (r: Option<(Value, string)>)
    ensures r.Some? ==> |r.value.1| < |s|
    decreases |s|, 1
  {
    var t := SkipWhitespace(s);
    if t == [] then None
    else if ParseLiteral(t).Some? then ParseLiteral(t)
    else if t[0] == '"' then
      match ParseString(t[1..])
      case None => None
      case Some((str, rest)) => Some((Str(str), rest))
    else if t[0] == '[' then
      var u := SkipWhitespace(t[1..]);
      if u != [] && u[0] == ']' then Some((Arr([]), u[1..]))
      else
        match ParseItems(t[1..])
        case None => None
        case Some((items, rest)) => Some((Arr(items), rest))
    else if t[0] == '{' then
      var u := SkipWhitespace(t[1..]);
      if u != [] && u[0] == '}' then Some((Obj([]), u[1..]))
      else
        match ParseMembers(t[1..])
        case None => None
        case Some((ms, rest)) => Some((Obj(ms), rest))
    else None
  }

  /** `value (, value)* ]`: the elements of a non-empty array. */
  function ParseItems(s: string): (r: Option<(seq<Value>, string)>)
    ensures r.Some? ==> |r.value.1| < |s|
    decreases |s|, 2
  {
    match ParseValue(s)
    case None => None
    case Some((v, rest)) =>
      var t := SkipWhitespace(rest);
      if t != [] && t[0] == ']' then Some(([v], t[1..]))
      else if t != [] && t[0] == ',' then
        match ParseItems(t[1..])
        case None => None
        case Some((vs, r)) => Some(([v] + vs, r))
      else None
  }

  /** One `"key" : value` member, and what follows it. */
  function ParseMember(s: string): (r: Option<(Member, string)>)
    ensures r.Some? ==> |r.value.1| < |s|
    decreases |s|, 2
  {
    var t := SkipWhitespace(s);
    if t == [] || t[0] != '"' then None
    else
      match ParseString(t[1..])
      case None => None
      case Some((key, rest)) =>
        var u := SkipWhitespace(rest);
        if u == [] || u[0] != ':' then None
        else
          match ParseValue(u[1..])
          case None => None
          case Some((v, rest2)) => Some((Member(key, v), rest2))
  }

  /** `member (, member)* }`: the members of a non-empty object. */
  function ParseMembers(s: string): (r: Option<(seq<Member>, string)>)
    ensures r.Some? ==> |r.value.1| < |s|
    decreases |s|, 3
  {
    match ParseMember(s)
    case None => None
    case Some((m, rest)) =>
      var w := SkipWhitespace(rest);
      if w != [] && w[0] == '}' then Some(([m], w[1..]))
      else if w != [] && w[0] == ',' then
        match ParseMembers(w[1..])
        case None => None
        case Some((ms, r)) => Some(([m] + ms, r))
      else None
  }

  /**
    The syntax check in front of `json.Unmarshal`: one value, surrounded by
    whitespace only. Unlike Go's scanner it lets raw control characters
    through inside a string.
  */
  function Parse(s: string): (r: Option<Value>)
    ensures s == "" ==> r == None
  {
    match ParseValue(s)
    case None => None
    case Some((v, rest)) => if SkipWhitespace(rest) == [] then Some(v) else None
  }

  // ---------------------------------------------------------------------
  // Round trip
  // ---------------------------------------------------------------------

  lemma SkipNothing(s: string)
    requires s != [] && !IsWhitespace(s[0])
    ensures SkipWhitespace(s) == s
  {
  }

  /** Dropping the first character of a one-character prefix leaves the rest. */
  lemma DropOne(c: string, s: string)
    requires |c| == 1
    ensures (c + s)[1..] == s
  {
  }

  /** A non-empty sequence is its head followed by its tail. */
  lemma HeadTail<T>(s: seq<T>)
    requires |s| >= 1
    ensures [s[0]] + s[1..] == s
  {
  }

  lemma {:induction false} EscapeRoundTrip(x: string, rest: string)
    ensures ParseString(Escape(x) + "\"" + rest) == Some((x, rest))
  {
    if x == [] {
      assert Escape(x) + "\"" + rest == "\"" + rest;
    } else {
      EscapeRoundTrip(x[1..], rest);
      EscapeStep(x, rest);
    }
  }

  /** One step of the escape round trip: the first character, given the rest. */
  lemma EscapeStep(x: string, rest: string)
    requires x != [] && ParseString(Escape(x[1..]) + "\"" + rest) == Some((x[1..], rest))
    ensures ParseString(Escape(x) + "\"" + rest) == Some((x, rest))
  {
    var tail := Escape(x[1..]) + "\"" + rest;
    if x[0] == '"' || x[0] == '\\' {
      var s := ['\\', x[0]] + tail;
      assert Escape(x) + "\"" + rest == s;
      assert s[0] == '\\' && s[1] == x[0] && s[2..] == tail;
      assert Unescape(x[0]) == Some(x[0]);
    } else {
      var s := [x[0]] + tail;
      assert Escape(x) + "\"" + rest == s;
      assert s[0] == x[0] && s[1..] == tail;
    }
    HeadTail(x);
  }

  lemma QuoteRoundTrip(x: string, rest: string)
    ensures ParseString((Quote(x) + rest)[1..]) == Some((x, rest))
    ensures Quote(x) + rest != [] && (Quote(x) + rest)[0] == '"'
  {
    assert (Quote(x) + rest)[1..] == Escape(x) + "\"" + rest;
    EscapeRoundTrip(x, rest);
  }

  /** Every serialised value starts with a letter, a quote, a bracket or a brace. */
  lemma SerializeStart(v: Value)
    ensures |Serialize(v)| >= 1
    ensures Serialize(v)[0] in {'n', 't', 'f', '"', '[', '{'}
  {
  }

  lemma LiteralRoundTrip(v: Value, rest: string)
    requires v.Null? || v.Bool?
    ensures ParseLiteral(Serialize(v) + rest) == Some((v, rest))
  {
    var s := Serialize(v) + rest;
    if v.Null? {
      assert s[..4] == "null" && s[4..] == rest;
    } else if v.b {
      assert s[..4] == "true" && s[4..] == rest;
    } else {
      assert s[..5] == "false" && s[5..] == rest;
      assert s[..4] == "fals";
    }
  }

  lemma {:induction false} ValueRoundTrip(v: Value, rest: string)
    ensures ParseValue(Serialize(v) + rest) == Some((v, rest))
    decreases v, 2
  {
    match v
    case Null =>
      SerializeStart(v);
      SkipNothing(Serialize(v) + rest);
      LiteralRoundTrip(v, rest);
    case Bool(_) =>
      SerializeStart(v);
      SkipNothing(Serialize(v) + rest);
      LiteralRoundTrip(v, rest);
    case Str(x) =>
      SerializeStart(v);
      SkipNothing(Serialize(v) + rest);
      QuoteRoundTrip(x, rest);
    case Arr(items) =>
      ArrRoundTrip(items, rest);
    case Obj(ms) =>
      ObjRoundTrip(ms, rest);
  }

  /** ValueRoundTrip for an array. */
  lemma {:induction false} ArrRoundTrip(items: seq<Value>, rest: string)
    ensures ParseValue(Serialize(Arr(items)) + rest) == Some((Arr(items), rest))
    decreases items, 2
  {
    var s := Serialize(Arr(items)) + rest;
    SkipNothing(s);
    var inner := SerializeItems(items) + "]" + rest;
    assert s == "[" + inner;
    DropOne("[", inner);
    if |items| == 0 {
      assert inner == "]" + rest;
      SkipNothing(s[1..]);
    } else {
      ItemsStart(items);
      SkipNothing(s[1..]);
      ItemsRoundTrip(items, rest);
    }
  }

  /** ValueRoundTrip for an object. */
  lemma {:induction false} ObjRoundTrip(ms: seq<Member>, rest: string)
    ensures ParseValue(Serialize(Obj(ms)) + rest) == Some((Obj(ms), rest))
    decreases ms, 2
  {
    var s := Serialize(Obj(ms)) + rest;
    SkipNothing(s);
    var inner := SerializeMembers(ms) + "}" + rest;
    assert s == "{" + inner;
    DropOne("{", inner);
    if |ms| == 0 {
      assert inner == "}" + rest;
      SkipNothing(s[1..]);
    } else {
      MembersStart(ms);
      SkipNothing(s[1..]);
      MembersRoundTrip(ms, rest);
    }
  }

  lemma ItemsStart(items: seq<Value>)
    requires |items| >= 1
    ensures |SerializeItems(items)| >= 1
    ensures SerializeItems(items)[0] in {'n', 't', 'f', '"', '[', '{'}
  {
    SerializeStart(items[0]);
  }

  lemma MembersStart(ms: seq<Member>)
    requires |ms| >= 1
    ensures |SerializeMembers(ms)| >= 1 && SerializeMembers(ms)[0] == '"'
  {
  }

  lemma {:induction false} ItemsRoundTrip(items: seq<Value>, rest: string)
    requires |items| >= 1
    ensures ParseItems(SerializeItems(items) + "]" + rest) == Some((items, rest))
    decreases items, 0
  {
    var s := SerializeItems(items) + "]" + rest;
    if |items| == 1 {
      assert s == Serialize(items[0]) + ("]" + rest);
      ValueRoundTrip(items[0], "]" + rest);
      SkipNothing("]" + rest);
      DropOne("]", rest);
      assert [items[0]] == items;
    } else {
      var body := SerializeItems(items[1..]) + "]" + rest;
      var tail := "," + body;
      assert s == Serialize(items[0]) + tail;
      ValueRoundTrip(items[0], tail);
      SkipNothing(tail);
      DropOne(",", body);
      ItemsRoundTrip(items[1..], rest);
      HeadTail(items);
    }
  }

  lemma {:induction false} MemberRoundTrip(m: Member, after: string)
    ensures ParseMember(Quote(m.key) + ":" + Serialize(m.value) + after) == Some((m, after))
    decreases m, 0
  {
    var body := Serialize(m.value) + after;
    var afterKey := ":" + body;
    var s := Quote(m.key) + afterKey;
    assert Quote(m.key) + ":" + Serialize(m.value) + after == s;
    QuoteRoundTrip(m.key, afterKey);
    SkipNothing(s);
    SkipNothing(afterKey);
    DropOne(":", body);
    ValueRoundTrip(m.value, after);
  }

  lemma {:induction false} MembersRoundTrip(ms: seq<Member>, rest: string)
    requires |ms| >= 1
    ensures ParseMembers(SerializeMembers(ms) + "}" + rest) == Some((ms, rest))
    decreases ms, 1
  {
    var m := ms[0];
    if |ms| == 1 {
      var after := "}" + rest;
      assert SerializeMembers(ms) + "}" + rest == Quote(m.key) + ":" + Serialize(m.value) + after;
      MemberRoundTrip(m, after);
      SkipNothing(after);
      DropOne("}", rest);
      assert [m] == ms;
    } else {
      var body := SerializeMembers(ms[1..]) + "}" + rest;
      var after := "," + body;
      assert SerializeMembers(ms) + "}" + rest == Quote(m.key) + ":" + Serialize(m.value) + after;
      MemberRoundTrip(m, after);
      SkipNothing(after);
      DropOne(",", body);
      MembersRoundTrip(ms[1..], rest);
      HeadTail(ms);
    }
  }

  /** The reader accepts exactly what the writer produced. */
  lemma ParseSerialize(v: Value)
    ensures Parse(Serialize(v)) == Some(v)
  {
    ValueRoundTrip(v, "");
    assert Serialize(v) + "" == Serialize(v);
  }
}
