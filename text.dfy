/** The parts of Rust's standard string handling that the wire formats rely on:
    decimal printing of integers (`to_string`, `format!("{}")`), `str::parse`
    for `u8`, `u32` and `i32`, `str::split(char)`, `str::split_whitespace`,
    `str::trim_end_matches(char)` and `str::ends_with`. Text is a sequence of
    Unicode scalar values. */
module Text {
  import opened Outcomes

  const U8_MAX: nat := 255
  const U16_MAX: nat := 0xFFFF
  const U32_MAX: nat := 0xFFFF_FFFF
  const I32_MIN: int := -0x8000_0000
  const I32_MAX: int := 0x7FFF_FFFF

  type U8 = n: int | 0 <= n <= U8_MAX
  type I32 = n: int | I32_MIN <= n <= I32_MAX

  predicate IsU32(n: int) { 0 <= n <= U32_MAX }
  predicate IsI32(n: int) { I32_MIN <= n <= I32_MAX }

  // ---------------------------------------------------------------------------
  // Decimal digits

  predicate IsDigit(c: char) { '0' <= c <= '9' }

  predicate AllDigits(s: string) { forall i :: 0 <= i < |s| ==> IsDigit(s[i]) }

  function DigitChar(d: nat): (c: char)
    requires d < 10
    ensures IsDigit(c) && c as int - '0' as int == d
  {
    ('0' as int + d) as char
  }

  /** The value of a run of decimal digits, most significant first. */
  function DigitsValue(s: string): nat
    requires AllDigits(s)
    decreases |s|
  {
    if s == [] then 0 else 10 * DigitsValue(s[..|s| - 1]) + (s[|s| - 1] as int - '0' as int)
  }

  /** `n.to_string()` for an unsigned integer: the shortest decimal text of n,
      so without sign and without leading zeros. */
  function NatToString(n: nat): (s: string)
    ensures 1 <= |s| && AllDigits(s)
    ensures DigitsValue(s) == n
    ensures s[0] == '0' ==> n == 0
    ensures n < 10 <==> |s| == 1
    decreases n
  {
    if n < 10 then [DigitChar(n)] else NatToString(n / 10) + [DigitChar(n % 10)]
  }

  /** `i.to_string()` for a signed integer: a '-' before the magnitude of a
      negative value. */
  function IntToString(i: int): (s: string)
    ensures 1 <= |s|
    ensures i < 0 <==> s[0] == '-'
    ensures i >= 0 ==> s == NatToString(i)
    ensures i < 0 ==> s[1..] == NatToString(-i)
  {
    if i < 0 then "-" + NatToString(-i) else NatToString(i)
  }

  // ---------------------------------------------------------------------------
  // str::parse

  /** `s.parse::<uN>()` where max is the type's largest value: an optional '+',
      then at least one ASCII digit (leading zeros allowed); a '-', an empty
      string, a lone '+', any other character or a value above max fail. */
  function ParseUnsigned(s: string, max: nat): (r: Option<nat>)
    ensures r.Some? ==> r.value <= max
  {
    var k := if 0 < |s| && s[0] == '+' then 1 else 0;
    var digits := s[k..];
    if digits == [] || !AllDigits(digits) || DigitsValue(digits) > max then None
    else Some(DigitsValue(digits))
  }

  /** `s.parse::<iN>()` for a signed type with range min..max: like
      ParseUnsigned, but a leading '-' negates the digits that follow it. */
  function ParseSigned(s: string, min: int, max: int): (r: Option<int>)
    requires min <= 0 <= max
    ensures r.Some? ==> min <= r.value <= max
  {
    if 0 < |s| && s[0] == '-' then
      var digits := s[1..];
      if digits == [] || !AllDigits(digits) || DigitsValue(digits) > -min then None
      else Some(-(DigitsValue(digits) as int))
    else
      match ParseUnsigned(s, max)
      case None => None
      case Some(v) => Some(v)
  }

  function ParseU8(s: string): Option<nat> { ParseUnsigned(s, U8_MAX) }
  function ParseU32(s: string): Option<nat> { ParseUnsigned(s, U32_MAX) }
  function ParseI32(s: string): Option<int> { ParseSigned(s, I32_MIN, I32_MAX) }

  /** Parsing the printed form of any value of the type gives the value back. */
  lemma ParseUnsignedOfNatToString(n: nat, max: nat)
    requires n <= max
    ensures ParseUnsigned(NatToString(n), max) == Some(n)
  {
    var s := NatToString(n);
    assert s[0] != '+' by { assert IsDigit(s[0]); }
    assert s[0..] == s;
  }

  /** Parsing the printed form of any value in range gives the value back. */
  lemma ParseSignedOfIntToString(i: int, min: int, max: int)
    requires min <= 0 <= max && min <= i <= max
    ensures ParseSigned(IntToString(i), min, max) == Some(i)
  {
    var s := IntToString(i);
    if i < 0 {
      assert s[1..] == NatToString(-i);
    } else {
      assert s[0] != '-' by { assert IsDigit(s[0]); }
      ParseUnsignedOfNatToString(i, max);
    }
  }

  /** An unsigned parse rejects a leading '-', even before "0". */
  lemma ParseUnsignedRejectsMinus(s: string, max: nat)
    requires 0 < |s| && s[0] == '-'
    ensures ParseUnsigned(s, max) == None
  {
    assert !IsDigit(s[0]);
  }

  // ---------------------------------------------------------------------------
  // The last two decimal digits

  lemma LastDigit(n: nat)
    ensures NatToString(n)[|NatToString(n)| - 1] == DigitChar(n % 10)
  {
  }

  lemma {:induction false} HundredsSplit(n: nat)
    ensures n % 100 == 10 * ((n / 10) % 10) + n % 10
  {
    var q := n / 100;
    var r := n % 100;
    assert n == 100 * q + r;
    assert n / 10 == 10 * q + r / 10;
    assert (n / 10) % 10 == r / 10;
  }

  /** For n >= 10 the printed text has at least two characters, and its last
      two characters are the digits of n % 100. */
  lemma {:induction false} LastTwoDigits(n: nat)
    requires n >= 10
    ensures |NatToString(n)| >= 2
    ensures var s := NatToString(n); AllDigits(s[|s| - 2..]) && DigitsValue(s[|s| - 2..]) == n % 100
  {
    var s := NatToString(n);
    var p := NatToString(n / 10);
    assert s == p + [DigitChar(n % 10)];
    LastDigit(n / 10);
    var t := s[|s| - 2..];
    assert t == [DigitChar((n / 10) % 10), DigitChar(n % 10)];
    assert t[..1] == [DigitChar((n / 10) % 10)];
    assert DigitsValue(t[..1][..0]) == 0;
    HundredsSplit(n);
  }

  // ---------------------------------------------------------------------------
  // str::split(char)

  /** `s.split(sep).collect::<Vec<_>>()`: the maximal sep-free pieces between
      separators. There is always at least one piece, and joining the pieces
      with sep gives s back. */
  function Split(s: string, sep: char): (parts: seq<string>)
    ensures 1 <= |parts|
    ensures forall i :: 0 <= i < |parts| ==> sep !in parts[i]
    ensures Join(parts, sep) == s
    decreases |s|
  {
    if s == [] then [""]
    else if s[0] == sep then [""] + Split(s[1..], sep)
    else
      var rest := Split(s[1..], sep);
      JoinConsHead(s[0], rest, sep);
      [[s[0]] + rest[0]] + rest[1..]
  }

  /** The pieces separated by sep, as `format!("{}|{}|…")` writes them. */
  function Join(parts: seq<string>, sep: char): string
    requires 1 <= |parts|
    decreases |parts|
  {
    if |parts| == 1 then parts[0] else parts[0] + [sep] + Join(parts[1..], sep)
  }

  lemma JoinConsHead(c: char, parts: seq<string>, sep: char)
    requires 1 <= |parts|
    ensures Join([[c] + parts[0]] + parts[1..], sep) == [c] + Join(parts, sep)
  {
    var q := [[c] + parts[0]] + parts[1..];
    if |parts| > 1 {
      assert q[1..] == parts[1..];
    }
  }

  lemma JoinTwo(a: string, b: string, sep: char)
    ensures Join([a, b], sep) == a + [sep] + b
  {
    assert [a, b][1..] == [b];
  }

  lemma JoinThree(a: string, b: string, c: string, sep: char)
    ensures Join([a, b, c], sep) == a + [sep] + b + [sep] + c
  {
    assert [a, b, c][1..] == [b, c];
    JoinTwo(b, c, sep);
  }

  lemma JoinFour(a: string, b: string, c: string, d: string, sep: char)
    ensures Join([a, b, c, d], sep) == a + [sep] + b + [sep] + c + [sep] + d
  {
    assert [a, b, c, d][1..] == [b, c, d];
    JoinThree(b, c, d, sep);
  }

  lemma JoinFive(a: string, b: string, c: string, d: string, e: string, sep: char)
    ensures Join([a, b, c, d, e], sep) == a + [sep] + b + [sep] + c + [sep] + d + [sep] + e
  {
    assert [a, b, c, d, e][1..] == [b, c, d, e];
    JoinFour(b, c, d, e, sep);
  }

  predicate NoSeparator(fields: seq<string>, sep: char)
  {
    forall i :: 0 <= i < |fields| ==> sep !in fields[i]
  }

  /** Splitting undoes joining when no field holds the separator. */
  lemma {:induction false} SplitJoin(fields: seq<string>, sep: char)
    requires 1 <= |fields| && NoSeparator(fields, sep)
    ensures Split(Join(fields, sep), sep) == fields
    decreases |fields|
  {
    if |fields| == 1 {
      SplitFieldOnly(fields[0], sep);
    } else {
      SplitJoin(fields[1..], sep);
      SplitFieldThenRest(fields[0], Join(fields[1..], sep), sep);
      assert fields == [fields[0]] + fields[1..];
    }
  }

  lemma {:induction false} SplitFieldOnly(a: string, sep: char)
    requires sep !in a
    ensures Split(a, sep) == [a]
    decreases |a|
  {
    if a != [] {
      SplitFieldOnly(a[1..], sep);
      assert [a[0]] + a[1..] == a;
    }
  }

  lemma {:induction false} SplitFieldThenRest(a: string, b: string, sep: char)
    requires sep !in a
    ensures Split(a + [sep] + b, sep) == [a] + Split(b, sep)
    decreases |a|
  {
    if a == [] {
      assert a + [sep] + b == [sep] + b;
      assert ([sep] + b)[1..] == b;
    } else {
      var s := a + [sep] + b;
      assert s[1..] == a[1..] + [sep] + b;
      SplitFieldThenRest(a[1..], b, sep);
      assert [a[0]] + a[1..] == a;
    }
  }

  /** The first piece of s is tag (a separator-free text) exactly when s is
      tag alone or starts with tag and a separator. */
  lemma FirstFieldIs(s: string, tag: string, sep: char)
    requires sep !in tag
    ensures Split(s, sep)[0] == tag <==> (s == tag || tag + [sep] <= s)
  {
    var parts := Split(s, sep);
    if parts[0] == tag && |parts| > 1 {
      assert s == tag + [sep] + Join(parts[1..], sep);
    }
    if s == tag {
      SplitFieldOnly(s, sep);
    } else if tag + [sep] <= s {
      var rest := s[|tag| + 1..];
      assert s == tag + [sep] + rest;
      SplitFieldThenRest(tag, rest, sep);
    }
  }

  // ---------------------------------------------------------------------------
  // str::split_whitespace

  /** `char::is_whitespace`: the Unicode White_Space property. */
  predicate IsWhitespace(c: char)
  {
    c == ' ' || ('\t' <= c <= '\r') || c == '\U{85}' || c == '\U{A0}' || c == '\U{1680}'
    || ('\U{2000}' <= c <= '\U{200A}') || c == '\U{2028}' || c == '\U{2029}' || c == '\U{202F}'
    || c == '\U{205F}' || c == '\U{3000}'
  }

  predicate NoWhitespace(s: string) { forall i :: 0 <= i < |s| ==> !IsWhitespace(s[i]) }

  /** Length of the token at the start of s. */
  function TokenLength(s: string): (n: nat)
    ensures n <= |s|
    ensures NoWhitespace(s[..n])
    ensures n == |s| || IsWhitespace(s[n])
    decreases |s|
  {
    if s == [] || IsWhitespace(s[0]) then 0 else 1 + TokenLength(s[1..])
  }

  /** `s.split_whitespace().collect::<Vec<_>>()`: the non-empty maximal runs
      of non-whitespace characters, in order. */
  function SplitWhitespace(s: string): (tokens: seq<string>)
    ensures forall i :: 0 <= i < |tokens| ==> tokens[i] != [] && NoWhitespace(tokens[i])
    decreases |s|
  {
    if s == [] then []
    else if IsWhitespace(s[0]) then SplitWhitespace(s[1..])
    else
      var n := TokenLength(s);
      [s[..n]] + SplitWhitespace(s[n..])
  }

  lemma {:induction false} TokenLengthOfToken(a: string, rest: string)
    requires NoWhitespace(a)
    requires rest == [] || IsWhitespace(rest[0])
    ensures TokenLength(a + rest) == |a|
    decreases |a|
  {
    if a != [] {
      assert (a + rest)[1..] == a[1..] + rest;
      TokenLengthOfToken(a[1..], rest);
    }
  }

  /** A whitespace-free token followed by nothing or by whitespace is the
      first token. */
  lemma SplitWhitespaceOfToken(a: string, rest: string)
    requires a != [] && NoWhitespace(a)
    requires rest == [] || IsWhitespace(rest[0])
    ensures SplitWhitespace(a + rest) == [a] + SplitWhitespace(rest)
  {
    var s := a + rest;
    TokenLengthOfToken(a, rest);
    assert s[..|a|] == a;
    assert s[|a|..] == rest;
  }

  /** Two whitespace-free, non-empty tokens joined by one space split back into
      exactly those two tokens. */
  lemma SplitWhitespaceOfPair(a: string, b: string)
    requires a != [] && b != [] && NoWhitespace(a) && NoWhitespace(b)
    ensures SplitWhitespace(a + " " + b) == [a, b]
  {
    SplitWhitespaceOfToken(b, "");
    assert b + "" == b;
    assert (" " + b)[1..] == b;
    assert SplitWhitespace(" " + b) == [b];
    SplitWhitespaceOfToken(a, " " + b);
    assert a + " " + b == a + (" " + b);
  }

  /** The decimal text of an integer is one whitespace-free token. */
  lemma IntToStringIsToken(i: int)
    ensures IntToString(i) != [] && NoWhitespace(IntToString(i))
  {
    var s := IntToString(i);
    forall k | 0 <= k < |s|
      ensures !IsWhitespace(s[k])
    {
      if i < 0 && k > 0 {
        assert s[k] == s[1..][k - 1];
      }
    }
  }

  /** "x y" splits on whitespace into the texts of x and y. */
  lemma SplitWhitespaceOfInts(x: int, y: int)
    ensures SplitWhitespace(IntToString(x) + " " + IntToString(y)) == [IntToString(x), IntToString(y)]
  {
    IntToStringIsToken(x);
    IntToStringIsToken(y);
    SplitWhitespaceOfPair(IntToString(x), IntToString(y));
  }

  // ---------------------------------------------------------------------------
  // trim_end_matches(char), ends_with

  /** `s.trim_end_matches(c)`: s without the run of c at its end. */
  function TrimEnd(s: string, c: char): (r: string)
    ensures r <= s
    ensures r == [] || r[|r| - 1] != c
    ensures forall i :: |r| <= i < |s| ==> s[i] == c
    decreases |s|
  {
    if s != [] && s[|s| - 1] == c then TrimEnd(s[..|s| - 1], c) else s
  }

  /** `s.ends_with(suffix)`. */
  predicate EndsWith(s: string, suffix: string)
  {
    |suffix| <= |s| && s[|s| - |suffix|..] == suffix
  }
}
