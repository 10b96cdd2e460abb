/** The Go library behaviour the id lists rely on: strings.Split and strings.Join
    with a one-character separator, the blank test len(strings.TrimSpace(s)) == 0,
    strconv.ParseInt(s, 10, 64) and strconv.Itoa. */
module Text {
  import opened Common

  /** unicode.IsSpace. */
  predicate IsSpace(c: char) {
    var n := c as int;
    (9 <= n <= 13) || n == 32 || n == 0x85 || n == 0xA0 || n == 0x1680
    || (0x2000 <= n <= 0x200A) || n == 0x2028 || n == 0x2029
    || n == 0x202F || n == 0x205F || n == 0x3000
  }

  /** len(strings.TrimSpace(s)) == 0: the token holds white space only. */
  predicate IsBlank(s: string) {
    forall i :: 0 <= i < |s| ==> IsSpace(s[i])
  }

  /** strings.Join(parts, string(sep)). */
  function Join(parts: seq<string>, sep: char): string
  {
    if |parts| == 0 then ""
    else if |parts| == 1 then parts[0]
    else parts[0] + [sep] + Join(parts[1..], sep)
  }

  /** strings.Split(s, string(sep)): the pieces between separators, always at least one. */
  function Split(s: string, sep: char): (parts: seq<string>)
    ensures |parts| >= 1
    ensures forall k :: 0 <= k < |parts| ==> sep !in parts[k]
    ensures Join(parts, sep) == s
    decreases |s|
  {
    if |s| == 0 then [""]
    else if s[0] == sep then [""] + Split(s[1..], sep)
    else
      var rest := Split(s[1..], sep);
      [[s[0]] + rest[0]] + rest[1..]
  }

  /** Splitting a piece without separators, followed by more text, extends the first part. */
  lemma {:induction false} SplitPrefix(p: string, s: string, sep: char)
    requires sep !in p
    ensures Split(p + s, sep) == [p + Split(s, sep)[0]] + Split(s, sep)[1..]
    decreases |p|
  {
    if |p| > 0 {
      assert (p + s)[1..] == p[1..] + s;
      assert (p + s)[0] == p[0];
      SplitPrefix(p[1..], s, sep);
      assert [p[0]] + (p[1..] + Split(s, sep)[0]) == p + Split(s, sep)[0];
    } else {
      assert p + s == s && p + Split(s, sep)[0] == Split(s, sep)[0];
      assert Split(s, sep) == [Split(s, sep)[0]] + Split(s, sep)[1..];
    }
  }

  /** Joining separator-free parts and splitting again gives the parts back. */
  lemma {:induction false} SplitJoin(parts: seq<string>, sep: char)
    requires |parts| >= 1
    requires forall k :: 0 <= k < |parts| ==> sep !in parts[k]
    ensures Split(Join(parts, sep), sep) == parts
  {
    if |parts| == 1 {
      SplitPrefix(parts[0], "", sep);
      assert parts[0] + "" == parts[0];
    } else {
      var tail := Join(parts[1..], sep);
      SplitJoin(parts[1..], sep);
      assert parts[0] + [sep] + tail == parts[0] + ([sep] + tail);
      SplitPrefix(parts[0], [sep] + tail, sep);
      assert ([sep] + tail)[1..] == tail;
      assert Split([sep] + tail, sep) == [""] + parts[1..];
      assert parts[0] + "" == parts[0];
    }
  }

  predicate IsDigit(c: char) { '0' <= c <= '9' }

  predicate AllDigits(s: string) { forall i :: 0 <= i < |s| ==> IsDigit(s[i]) }

  /** The number a string of decimal digits denotes, most significant digit first. */
  function DigitsValue(s: string): nat
    requires AllDigits(s)
  {
    if |s| == 0 then 0
    else DigitsValue(s[..|s| - 1]) * 10 + (s[|s| - 1] as int - '0' as int)
  }

  /** The shortest decimal digit string of n. */
  function Digits(n: nat): string
    decreases n
  {
    if n < 10 then [('0' as int + n) as char]
    else Digits(n / 10) + [('0' as int + n % 10) as char]
  }

  lemma {:induction false} DigitsRoundTrip(n: nat)
    ensures |Digits(n)| >= 1 && AllDigits(Digits(n))
    ensures DigitsValue(Digits(n)) == n
    decreases n
  {
    if n >= 10 {
      DigitsRoundTrip(n / 10);
      var d := Digits(n);
      assert d[..|d| - 1] == Digits(n / 10);
    }
  }

  /** strconv.ParseInt(s, 10, 64): an optional sign followed by at least one decimal
      digit, within the int64 range; anything else is an error (None). */
  function ParseInt64(s: string): (r: Option<Int64>)
    ensures r.Some? ==> |s| >= 1 && !IsBlank(s)
  {
    if |s| == 0 then None
    else
      var body := if s[0] == '+' || s[0] == '-' then s[1..] else s;
      if |body| == 0 || !AllDigits(body) then None
      else
        var n: int := DigitsValue(body);
        if s[0] == '-' then (if n <= MaxInt64 + 1 then Some(-n) else None)
        else (if n <= MaxInt64 then Some(n) else None)
  }

  /** strconv.Itoa: the decimal form, with a leading '-' for negative numbers. */
  function FormatInt(x: int): string {
    if x < 0 then "-" + Digits(0 - x) else Digits(x)
  }

  /** ParseInt reads back what Itoa writes for a non-negative number. */
  lemma FormatNonNegativeRoundTrip(x: Int64)
    requires x >= 0
    ensures ParseInt64(FormatInt(x)) == Some(x)
  {
    DigitsRoundTrip(x);
    assert FormatInt(x)[0] == Digits(x)[0];
  }

  /** ParseInt reads back what Itoa writes for a negative number. */
  lemma FormatNegativeRoundTrip(x: Int64)
    requires x < 0
    ensures ParseInt64(FormatInt(x)) == Some(x)
  {
    var s := FormatInt(x);
    var m: nat := 0 - x as int;
    DigitsRoundTrip(m);
    assert s == "-" + Digits(m);
    assert s[0] == '-' && s[1..] == Digits(m);
    assert m <= MaxInt64 + 1;
  }

  /** Itoa's output is a token of digits after an optional '-': it holds no
      other separator and is not blank. */
  lemma FormatIntToken(x: int, sep: char)
    requires sep != '-' && !IsDigit(sep)
    ensures sep !in FormatInt(x) && !IsBlank(FormatInt(x))
  {
    var s := FormatInt(x);
    if x < 0 {
      var m: nat := 0 - x;
      DigitsRoundTrip(m);
      assert s[1..] == Digits(m);
      assert forall i :: 0 <= i < |s| ==> s[i] == '-' || IsDigit(s[i]);
    } else {
      DigitsRoundTrip(x);
    }
    assert !IsSpace(s[|s| - 1]);
  }

  /** Itoa's output is a non-blank token free of the separator, and ParseInt reads it back. */
  lemma FormatIntRoundTrip(x: Int64, sep: char)
    requires sep != '-' && !IsDigit(sep)
    ensures ParseInt64(FormatInt(x)) == Some(x)
    ensures sep !in FormatInt(x) && !IsBlank(FormatInt(x))
  {
    if x < 0 {
      FormatNegativeRoundTrip(x);
    } else {
      FormatNonNegativeRoundTrip(x);
    }
    FormatIntToken(x, sep);
  }
}
