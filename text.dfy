/**
  The Go standard-library string operations the chaincode relies on:
  `strings.Join` and `strings.Split` with a one-character separator, and
  `strconv.Itoa` / `strconv.Atoi` on unbounded integers.
*/
module Text {
  import opened Wrappers

  /** `strings.Join(parts, string(sep))`. */
  function Join(parts: seq<string>, sep: char): (r: string)
    ensures |parts| == 0 ==> r == ""
    ensures |parts| == 1 ==> r == parts[0]
    ensures |parts| >= 2 ==> sep in r
  {
    if |parts| == 0 then ""
    else if |parts| == 1 then parts[0]
    else
      var tail := Join(parts[1..], sep);
      assert (parts[0] + [sep] + tail)[|parts[0]|] == sep;
      parts[0] + [sep] + tail
  }

  /**
    `strings.Split(s, string(sep))`: the pieces between separators, so the
    empty string splits to `[""]` and the result is never empty.
  */
  function Split(s: string, sep: char): (r: seq<string>)
    ensures |r| >= 1
  {
    if s == [] then [""]
    else
      var rest := Split(s[1..], sep);
      if s[0] == sep then [""] + rest
      else [[s[0]] + rest[0]] + rest[1..]
  }

  /** No piece produced by Split holds the separator. */
  lemma {:induction false} SplitPiecesHaveNoSep(s: string, sep: char)
    ensures forall i :: 0 <= i < |Split(s, sep)| ==> sep !in Split(s, sep)[i]
  {
    if s != [] {
      SplitPiecesHaveNoSep(s[1..], sep);
      var rest := Split(s[1..], sep);
      if s[0] != sep {
        assert sep !in rest[0];
        assert sep !in [s[0]] + rest[0];
      }
    }
  }

  /** Joining the pieces of a split restores the string. */
  lemma {:induction false} JoinSplit(s: string, sep: char)
    ensures Join(Split(s, sep), sep) == s
  {
    if s != [] {
      var c, t := s[0], s[1..];
      assert s == [c] + t;
      JoinSplit(t, sep);
      SplitCons(c, t, sep);
      if c == sep {
        JoinEmptyHead(Split(t, sep), sep);
      } else {
        JoinConsHead(c, Split(t, sep), sep);
      }
    }
  }

  /** Join unfolded at an empty first part. */
  lemma JoinEmptyHead(parts: seq<string>, sep: char)
    requires |parts| >= 1
    ensures Join([""] + parts, sep) == [sep] + Join(parts, sep)
  {
    assert ([""] + parts)[1..] == parts;
  }

  /** Join with one more character in front of the first part. */
  lemma JoinConsHead(c: char, parts: seq<string>, sep: char)
    requires |parts| >= 1
    ensures Join([[c] + parts[0]] + parts[1..], sep) == [c] + Join(parts, sep)
  {
    var q := [[c] + parts[0]] + parts[1..];
    assert q[0] == [c] + parts[0] && q[1..] == parts[1..];
  }

  /** A string without the separator splits to itself alone. */
  lemma {:induction false} SplitNoSep(a: string, sep: char)
    requires sep !in a
    ensures Split(a, sep) == [a]
  {
    if a != [] {
      assert sep !in a[1..];
      SplitNoSep(a[1..], sep);
      assert [a[0]] + a[1..] == a;
    }
  }

  /** Split unfolded at a leading character. */
  lemma SplitCons(c: char, t: string, sep: char)
    ensures Split([c] + t, sep) ==
      if c == sep then [""] + Split(t, sep)
      else [[c] + Split(t, sep)[0]] + Split(t, sep)[1..]
  {
    assert ([c] + t)[0] == c && ([c] + t)[1..] == t;
  }

  /** Splitting distributes over one separator occurrence. */
  lemma {:induction false} SplitAround(a: string, b: string, sep: char)
    ensures Split(a + [sep] + b, sep) == Split(a, sep) + Split(b, sep)
  {
    if a == [] {
      assert a + [sep] + b == [sep] + b;
      SplitCons(sep, b, sep);
    } else {
      SplitAround(a[1..], b, sep);
      SplitAroundStep(a[0], a[1..], b, sep);
      assert a == [a[0]] + a[1..];
    }
  }

  /** The inductive step of SplitAround, for a leading character c. */
  lemma SplitAroundStep(c: char, a: string, b: string, sep: char)
    requires Split(a + [sep] + b, sep) == Split(a, sep) + Split(b, sep)
    ensures Split([c] + a + [sep] + b, sep) == Split([c] + a, sep) + Split(b, sep)
  {
    assert [c] + a + [sep] + b == [c] + (a + [sep] + b);
    SplitConsConcat(c, Split(a, sep), Split(b, sep), Split(a + [sep] + b, sep), sep,
      Split([c] + (a + [sep] + b), sep), Split([c] + a, sep)) by {
      SplitCons(c, a + [sep] + b, sep);
      SplitCons(c, a, sep);
    }
  }

  /** The sequence algebra behind SplitAroundStep, free of Split itself. */
  lemma SplitConsConcat(c: char, rest: seq<string>, bs: seq<string>, whole: seq<string>, sep: char,
                        left: seq<string>, right: seq<string>)
    requires |rest| >= 1 && whole == rest + bs
    requires left == if c == sep then [""] + whole else [[c] + whole[0]] + whole[1..]
    requires right == if c == sep then [""] + rest else [[c] + rest[0]] + rest[1..]
    ensures left == right + bs
  {
    if c != sep {
      assert whole[0] == rest[0];
      assert whole[1..] == rest[1..] + bs;
    }
  }

  /** Splitting a join whose parts hold no separator gives the parts back. */
  lemma {:induction false} SplitJoin(parts: seq<string>, sep: char)
    requires |parts| >= 1
    requires forall i :: 0 <= i < |parts| ==> sep !in parts[i]
    ensures Split(Join(parts, sep), sep) == parts
  {
    SplitNoSep(parts[0], sep);
    if |parts| >= 2 {
      SplitJoin(parts[1..], sep);
      SplitAround(parts[0], Join(parts[1..], sep), sep);
      assert [parts[0]] + parts[1..] == parts;
    }
  }

  // ---------------------------------------------------------------------
  // Decimal integers
  // ---------------------------------------------------------------------

  predicate IsDigit(c: char) {
    '0' <= c <= '9'
  }

  predicate AllDigits(s: string) {
    forall i :: 0 <= i < |s| ==> IsDigit(s[i])
  }

  function DigitChar(d: nat): (c: char)
    requires d < 10
    ensures IsDigit(c)
  {
    "0123456789"[d]
  }

  function DigitValue(c: char): nat
    requires IsDigit(c)
  {
    c as int - '0' as int
  }

  /** Decimal rendering of a natural number, most significant digit first. */
  function NatDigits(n: nat): (r: string)
    ensures |r| >= 1 && AllDigits(r)
  {
    if n < 10 then [DigitChar(n)] else NatDigits(n / 10) + [DigitChar(n % 10)]
  }

  /** The value of a string of decimal digits. */
  function DigitsValue(s: string): nat
    requires AllDigits(s)
  {
    if s == [] then 0 else DigitsValue(s[..|s| - 1]) * 10 + DigitValue(s[|s| - 1])
  }

  lemma {:induction false} DigitsValueOfNatDigits(n: nat)
    ensures DigitsValue(NatDigits(n)) == n
  {
    if n >= 10 {
      DigitsValueOfNatDigits(n / 10);
      var s := NatDigits(n);
      assert s[..|s| - 1] == NatDigits(n / 10);
      assert DigitValue(DigitChar(n % 10)) == n % 10 by {
        assert "0123456789"[n % 10] as int == '0' as int + n % 10;
      }
    } else {
      assert "0123456789"[n] as int == '0' as int + n;
    }
  }

  /** `strconv.Itoa`: an optional minus sign and the decimal digits. */
  function Itoa(n: int): (r: string)
    ensures |r| >= 1
  {
    if n < 0 then "-" + NatDigits(-n) else NatDigits(n)
  }

  /**
    `strconv.Atoi`: an optional sign followed by at least one decimal digit;
    anything else is a syntax error (None).
  */
  function Atoi(s: string): (r: Option<int>)
    ensures r.Some? ==> |s| >= 1
  {
    if |s| >= 1 && (s[0] == '-' || s[0] == '+') then
      if |s| >= 2 && AllDigits(s[1..]) then
        var v: int := DigitsValue(s[1..]);
        Some(if s[0] == '-' then -v else v)
      else None
    else if |s| >= 1 && AllDigits(s) then Some(DigitsValue(s))
    else None
  }

  /** Go's `n, _ := strconv.Atoi(s)`: a syntax error reads as 0. */
  function AtoiOrZero(s: string): int {
    Atoi(s).GetOr(0)
  }

  /** Atoi reads back what Itoa writes. */
  lemma ItoaRoundTrip(n: int)
    ensures Atoi(Itoa(n)) == Some(n)
  {
    if n < 0 {
      DigitsValueOfNatDigits(-n);
      var d := NatDigits(-n);
      var s := "-" + d;
      assert s[0] == '-' && s[1..] == d;
    } else {
      DigitsValueOfNatDigits(n);
      var d := NatDigits(n);
      assert d[0] != '-' && d[0] != '+' by { assert IsDigit(d[0]); }
      assert Atoi(d) == Some(DigitsValue(d));
    }
  }

  /** Distinct numbers have distinct renderings. */
  lemma ItoaInjective(a: int, b: int)
    requires Itoa(a) == Itoa(b)
    ensures a == b
  {
    ItoaRoundTrip(a);
    ItoaRoundTrip(b);
  }

  /** Appending one element twice appends the pair. */
  lemma AppendTwice<T>(s: seq<T>, x: T)
    ensures s + [x] + [x] == s + [x, x]
  {
  }
}
