/** Values that may be absent, and the position of the first element with a property. */
module Basics {

  datatype Option<+T> = None | Some(value: T)

  /** Index of the first element satisfying `p`, or the length when there is none. */
  function First<T>(s: seq<T>, p: T -> bool): (i: nat)
    ensures i <= |s|
    ensures i < |s| ==> p(s[i])
    ensures forall j | 0 <= j < i :: !p(s[j])
  {
    if s == [] || p(s[0]) then 0 else 1 + First(s[1..], p)
  }

  /** A first match stays the first match when the sequence is extended at its end. */
  lemma FirstOfPrefix<T>(s: seq<T>, t: seq<T>, p: T -> bool)
    requires s <= t
    ensures First(s, p) < |s| ==> First(t, p) == First(s, p)
    ensures First(s, p) == |s| ==> First(t, p) >= |s|
  {
  }

  lemma ConcatAssociative<T>(a: seq<T>, b: seq<T>, c: seq<T>)
    ensures a + (b + c) == a + b + c
  {
  }

  lemma NewHead<T>(h: T, x: seq<T>, y: seq<T>)
    requires x != []
    ensures [h] + (x + y)[1..] == [h] + x[1..] + y
  {
  }

  const INT32_MIN: int := -0x8000_0000
  const INT32_MAX: int := 0x7FFF_FFFF

  predicate IsInt32(n: int) { INT32_MIN <= n <= INT32_MAX }

  type Int32 = n: int | -0x8000_0000 <= n <= 0x7FFF_FFFF

  /** Go's int32 arithmetic: two's complement wrap-around. */
  function Wrap32(n: int): (r: Int32)
    ensures IsInt32(n) ==> r == n
  {
    (n + 0x8000_0000) % 0x1_0000_0000 - 0x8000_0000
  }
}

/** The string operations of Go's `strings` and `strconv` packages that the program uses, over ASCII text. */
module Text {
  import opened Basics

  predicate IsSpace(c: char) { c == ' ' || '\t' <= c <= '\r' }

  function TrimLeft(s: string): (r: string)
    ensures |r| <= |s|
    ensures r != "" ==> !IsSpace(r[0])
  {
    if s != "" && IsSpace(s[0]) then TrimLeft(s[1..]) else s
  }

  function TrimRight(s: string): (r: string)
    ensures r <= s
    ensures r != "" ==> !IsSpace(r[|r| - 1])
  {
    if s != "" && IsSpace(s[|s| - 1]) then TrimRight(s[..|s| - 1]) else s
  }

  /** strings.TrimSpace */
  function TrimSpace(s: string): (r: string)
    ensures r != "" ==> !IsSpace(r[0]) && !IsSpace(r[|r| - 1])
  {
    TrimRight(TrimLeft(s))
  }

  /** strings.TrimRight(s, ".") */
  function TrimDots(s: string): (r: string)
    ensures r <= s
    ensures r != "" ==> r[|r| - 1] != '.'
  {
    if s != "" && s[|s| - 1] == '.' then TrimDots(s[..|s| - 1]) else s
  }

  function LowerChar(c: char): (r: char)
    ensures !('A' <= r <= 'Z')
    ensures IsSpace(r) == IsSpace(c) && (r == ',') == (c == ',')
  {
    if 'A' <= c <= 'Z' then (c as int + 32) as char else c
  }

  /** strings.ToLower */
  function ToLower(s: string): (r: string)
    ensures |r| == |s|
    ensures forall i | 0 <= i < |s| :: r[i] == LowerChar(s[i])
  {
    seq(|s|, i requires 0 <= i < |s| => LowerChar(s[i]))
  }

  /** strings.Split with a one-character separator. */
  function Split(s: string, sep: char): (parts: seq<string>)
    ensures |parts| >= 1
  {
    if s == "" then [""]
    else
      var rest := Split(s[1..], sep);
      if s[0] == sep then [""] + rest else [[s[0]] + rest[0]] + rest[1..]
  }

  lemma SplitCons(c: char, s: string, sep: char)
    ensures Split([c] + s, sep) ==
            var rest := Split(s, sep);
            if c == sep then [""] + rest else [[c] + rest[0]] + rest[1..]
  {
  }

  lemma SplitConcatCons(c: char, t: string, s: string, y: seq<string>, sep: char)
    requires Split(s, sep) == Split(t, sep) + y
    ensures Split([c] + s, sep) == Split([c] + t, sep) + y
  {
    var x := Split(t, sep);
    SplitCons(c, t, sep);
    SplitCons(c, s, sep);
    ConcatAssociative([""], x, y);
    NewHead([c] + x[0], x, y);
  }

  lemma {:induction false} SplitConcat(a: string, b: string, sep: char)
    ensures Split(a + [sep] + b, sep) == Split(a, sep) + Split(b, sep)
  {
    if a == "" {
      SplitCons(sep, b, sep);
      assert a + [sep] + b == [sep] + b;
    } else {
      var c, t := a[0], a[1..];
      SplitConcat(t, b, sep);
      SplitConcatCons(c, t, t + [sep] + b, Split(b, sep), sep);
      assert a == [c] + t && a + [sep] + b == [c] + (t + [sep] + b);
    }
  }

  lemma {:induction false} SplitParts(s: string, sep: char)
    ensures forall p | p in Split(s, sep) :: sep !in p
  {
    if s != "" {
      SplitParts(s[1..], sep);
    }
  }

  lemma {:induction false} SplitWhole(s: string, sep: char)
    ensures sep !in s <==> Split(s, sep) == [s]
    ensures sep !in s <==> |Split(s, sep)| == 1
  {
    if s != "" {
      SplitWhole(s[1..], sep);
      assert s == [s[0]] + s[1..];
    }
  }

  /** `r` is what comes before the first separator, or all of `s`. */
  predicate UpTo(s: string, sep: char, r: string) {
    r <= s && sep !in r && (r == s || s[|r|] == sep)
  }

  /** The first part is what comes before the first separator. */
  lemma {:induction false} SplitFirst(s: string, sep: char)
    ensures UpTo(s, sep, Split(s, sep)[0])
  {
    if s != "" {
      SplitFirst(s[1..], sep);
      assert s == [s[0]] + s[1..];
    }
  }

  /** Only the first part is such a text. */
  lemma UpToIsFirst(s: string, sep: char, r: string)
    requires UpTo(s, sep, r)
    ensures Split(s, sep)[0] == r
  {
    SplitWhole(r, sep);
    if r != s {
      var rest := s[|r| + 1..];
      assert s == r + [sep] + rest;
      SplitConcat(r, rest, sep);
    }
  }

  /** strings.Join */
  function Join(parts: seq<string>, sep: string): (r: string)
  {
    if parts == [] then "" else if |parts| == 1 then parts[0] else parts[0] + sep + Join(parts[1..], sep)
  }

  lemma {:induction false} SplitJoin(parts: seq<string>, sep: char)
    requires parts != [] && forall p | p in parts :: sep !in p
    ensures Split(Join(parts, [sep]), sep) == parts
  {
    SplitWhole(parts[0], sep);
    if |parts| > 1 {
      SplitJoin(parts[1..], sep);
      SplitConcat(parts[0], Join(parts[1..], [sep]), sep);
    }
  }

  /** strings.Contains */
  predicate Contains(s: string, q: string) {
    q <= s || (s != "" && Contains(s[1..], q))
  }

  function NonEmpty(parts: seq<string>): (r: seq<string>)
    ensures forall p | p in r :: p != "" && p in parts
  {
    if parts == [] then []
    else (if parts[0] == "" then [] else [parts[0]]) + NonEmpty(parts[1..])
  }

  /** strings.Fields: the maximal runs of non-blank characters. */
  function Fields(s: string): (r: seq<string>)
    ensures forall p | p in r :: p != ""
  {
    NonEmpty(Split(seq(|s|, i requires 0 <= i < |s| => if IsSpace(s[i]) then ' ' else s[i]), ' '))
  }

  // ---------- decimal integers ----------

  predicate IsDigits(s: string) { s != "" && forall i | 0 <= i < |s| :: '0' <= s[i] <= '9' }

  function DigitsValue(s: string): (n: nat)
    requires forall i | 0 <= i < |s| :: '0' <= s[i] <= '9'
  {
    if s == "" then 0 else DigitsValue(s[..|s| - 1]) * 10 + (s[|s| - 1] as int - '0' as int)
  }

  function NatDigits(n: nat): (s: string)
    ensures IsDigits(s)
  {
    (if n < 10 then "" else NatDigits(n / 10)) + [(n % 10 + '0' as int) as char]
  }

  /** strconv.Itoa */
  function Itoa(n: int): (s: string)
    ensures s != ""
  {
    if n < 0 then "-" + NatDigits(-n) else NatDigits(n)
  }

  function Fit32(n: int): (r: Option<Int32>) {
    if IsInt32(n) then Some(n) else None
  }

  /** strconv.ParseInt(s, 10, 32): an optional sign, decimal digits, and a value that fits. */
  function ParseInt32(s: string): (r: Option<Int32>)
  {
    if IsDigits(s) then Fit32(DigitsValue(s))
    else if s == "" || !IsDigits(s[1..]) then None
    else if s[0] == '-' then Fit32(0 - DigitsValue(s[1..]))
    else if s[0] == '+' then Fit32(DigitsValue(s[1..]))
    else None
  }

  lemma {:induction false} DigitsRoundTrip(n: nat)
    ensures DigitsValue(NatDigits(n)) == n
  {
    var s := NatDigits(n);
    if n >= 10 {
      DigitsRoundTrip(n / 10);
      assert s[..|s| - 1] == NatDigits(n / 10);
    } else {
      assert s[..|s| - 1] == "";
    }
  }

  /** Every 32-bit id written as a label reads back as the same id. */
  lemma IdRoundTrip(n: int)
    ensures ParseInt32(Itoa(n)) == if IsInt32(n) then Some(n) else None
  {
    var d := NatDigits(if n < 0 then -n else n);
    DigitsRoundTrip(if n < 0 then -n else n);
    assert ("-" + d)[1..] == d && ("-" + d)[0] == '-';
  }

  lemma SevenParses()
    ensures ParseInt32("7") == Some(7)
  {
    IdRoundTrip(7);
    assert Itoa(7) == "7";
  }
}
