/** Decimal numbers: the parser `p_u32`, which skips underscores, and the printer of `{}`. */
module NumberParser {
  import opened Bytes

  /** Result of a parser: the value and the unread rest of the input. */
  datatype Parse<+T> = Fail | Ok(value: T, rest: string)

  predicate IsDigit(c: char) { '0' <= c <= '9' }

  predicate InNumber(c: char) { IsDigit(c) || c == '_' }

  function DigitValue(c: char): nat
    requires IsDigit(c)
  {
    c as int - '0' as int
  }

  function DigitChar(d: nat): (c: char)
    requires d < 10
    ensures IsDigit(c) && DigitValue(c) == d
  {
    ('0' as int + d) as char
  }

  /** Length of the longest prefix of digits and underscores. */
  function NumberSpan(s: string): (n: nat)
    ensures n <= |s|
    ensures forall k :: 0 <= k < n ==> InNumber(s[k])
    ensures n < |s| ==> !InNumber(s[n])
  {
    if s == [] || !InNumber(s[0]) then 0 else 1 + NumberSpan(s[1..])
  }

  function OnlyDigits(s: string): (r: string)
    ensures forall k :: 0 <= k < |r| ==> IsDigit(r[k])
  {
    if s == [] then []
    else OnlyDigits(s[..|s| - 1]) + if IsDigit(s[|s| - 1]) then [s[|s| - 1]] else []
  }

  predicate AllDigits(s: string) { forall k :: 0 <= k < |s| ==> IsDigit(s[k]) }

  /** The number a string of digits denotes. */
  function Value(s: string): nat
    requires AllDigits(s)
  {
    if s == [] then 0 else Value(s[..|s| - 1]) * 10 + DigitValue(s[|s| - 1])
  }

  /** `p_u32`: a digit, then digits and underscores; the number must fit into 32 bits. */
  function PU32(s: string): (r: Parse<U32>)
    ensures r.Ok? ==> |r.rest| < |s|
  {
    if s == [] || !IsDigit(s[0]) then Fail
    else
      var n := NumberSpan(s);
      var v := Value(OnlyDigits(s[..n]));
      if v < 0x1_0000_0000 then Ok(v, s[n..]) else Fail
  }

  /** Decimal notation without leading zeros. */
  function Decimal(n: nat): (s: string)
    ensures s != [] && AllDigits(s)
  {
    if n < 10 then [DigitChar(n)] else Decimal(n / 10) + [DigitChar(n % 10)]
  }

  // ---- Printing and parsing ------------------------------------------------------------------

  lemma {:induction false} ValueOfDecimal(n: nat)
    ensures Value(Decimal(n)) == n
  {
    var s := Decimal(n);
    if n < 10 {
      assert s[..0] == [];
    } else {
      ValueOfDecimal(n / 10);
      assert s[..|s| - 1] == Decimal(n / 10);
    }
  }

  lemma {:induction false} DigitsStay(s: string)
    requires AllDigits(s)
    ensures OnlyDigits(s) == s
  {
    if s != [] { DigitsStay(s[..|s| - 1]); }
  }

  predicate NumberEnds(rest: string) { rest != [] ==> !InNumber(rest[0]) }

  lemma {:induction false} SpanOf(s: string, rest: string)
    requires forall k :: 0 <= k < |s| ==> InNumber(s[k])
    requires NumberEnds(rest)
    ensures NumberSpan(s + rest) == |s|
  {
    if s != [] {
      SpanOf(s[1..], rest);
      assert (s + rest)[1..] == s[1..] + rest;
    } else {
      assert s + rest == rest;
    }
  }

  /** Printing a number and parsing it gives the number back, whatever non-number follows. */
  lemma NumberRoundTrip(n: U32, rest: string)
    requires NumberEnds(rest)
    ensures PU32(Decimal(n) + rest) == Ok(n, rest)
  {
    hide Decimal, OnlyDigits, Value, PU32;
    ParseBody(Decimal(n), rest);
    DigitsStay(Decimal(n));
    ValueOfDecimal(n);
  }

  /** Underscores after the first digit do not matter: only the digits count. */
  lemma UnderscoresAreIgnored(s: string, rest: string)
    requires s != [] && IsDigit(s[0]) && forall k :: 0 <= k < |s| ==> InNumber(s[k])
    requires NumberEnds(rest)
    ensures OnlyDigits(s) != [] && PU32(s + rest) == PU32(OnlyDigits(s) + rest)
  {
    hide OnlyDigits, PU32;
    FirstDigitStays(s);
    ParseBody(s, rest);
    ParseBody(OnlyDigits(s), rest);
    DigitsStay(OnlyDigits(s));
  }

  lemma ParseBody(s: string, rest: string)
    requires s != [] && IsDigit(s[0]) && forall k :: 0 <= k < |s| ==> InNumber(s[k])
    requires NumberEnds(rest)
    ensures PU32(s + rest) == var v := Value(OnlyDigits(s)); if v < 0x1_0000_0000 then Ok(v, rest) else Fail
  {
    hide NumberSpan, Value, OnlyDigits;
    SpanOf(s, rest);
    assert (s + rest)[..|s|] == s && (s + rest)[|s|..] == rest;
  }

  lemma {:induction false} FirstDigitStays(s: string)
    requires s != [] && IsDigit(s[0])
    ensures OnlyDigits(s) != [] && OnlyDigits(s)[0] == s[0]
  {
    if |s| > 1 {
      FirstDigitStays(s[..|s| - 1]);
    } else {
      assert s[..0] == [];
    }
  }

  // ---- What a text means, character by character ---------------------------------------------

  /** The digits in the order of their values. */
  const DIGITS := "0123456789"

  lemma DigitsAre(d: nat)
    requires d < 10
    ensures IsDigit(DIGITS[d]) && DigitValue(DIGITS[d]) == d && DigitChar(d) == DIGITS[d]
  {
    assert DIGITS[0] == '0' && DIGITS[1] == '1' && DIGITS[2] == '2' && DIGITS[3] == '3' && DIGITS[4] == '4';
    assert DIGITS[5] == '5' && DIGITS[6] == '6' && DIGITS[7] == '7' && DIGITS[8] == '8' && DIGITS[9] == '9';
  }

  /** One digit denotes its place among the digits. */
  lemma DigitParses(d: nat, rest: string)
    requires d < 10 && NumberEnds(rest)
    ensures PU32(["0123456789"[d]] + rest) == Ok(d, rest)
  {
    hide PU32, OnlyDigits, Value, DigitValue;
    var c := "0123456789"[d];
    DigitsAre(d);
    ParseBody([c], rest);
    DigitsStay([c]);
    ValueOfDigit(c);
  }

  lemma ValueOfDigit(c: char)
    requires IsDigit(c)
    ensures Value([c]) == DigitValue(c)
  {
    assert [c][..0] == [];
  }

  /** A further digit multiplies by ten and adds its value; a further underscore changes nothing. */
  lemma PlaceValue(s: string, d: nat, rest: string)
    requires s != [] && IsDigit(s[0]) && (forall k :: 0 <= k < |s| ==> InNumber(s[k])) && d < 10 && NumberEnds(rest)
    ensures
      var before, after := PU32(s + rest), PU32(s + ["0123456789"[d]] + rest);
      && (before.Fail? ==> after.Fail?)
      && (before.Ok? ==> after == if 10 * before.value + d < 0x1_0000_0000 then Ok(10 * before.value + d, rest) else Fail)
    ensures PU32(s + "_" + rest) == PU32(s + rest)
  {
    hide PU32, OnlyDigits, Value, DigitValue;
    var c := "0123456789"[d];
    DigitsAre(d);
    ParseBody(s, rest);
    ParseBody(s + [c], rest);
    ParseBody(s + "_", rest);
    OnlyDigitsSnoc(s, c);
    assert OnlyDigits(s + "_") == OnlyDigits(s) by {
      assert "_" == ['_'];
      OnlyDigitsSnoc(s, '_');
      assert OnlyDigits(s) + [] == OnlyDigits(s);
    }
    ValueSnoc(OnlyDigits(s), c);
  }

  lemma OnlyDigitsSnoc(s: string, c: char)
    ensures OnlyDigits(s + [c]) == OnlyDigits(s) + if IsDigit(c) then [c] else []
  {
    assert (s + [c])[..|s|] == s;
  }

  lemma ValueSnoc(s: string, c: char)
    requires AllDigits(s) && IsDigit(c)
    ensures Value(s + [c]) == Value(s) * 10 + DigitValue(c)
  {
    assert (s + [c])[..|s|] == s;
  }

  /** How a number is printed: digit by digit, without leading zeros. */
  lemma DecimalDigits(n: nat, d: nat)
    requires d < 10
    ensures Decimal(d) == ["0123456789"[d]]
    ensures n > 0 ==> Decimal(10 * n + d) == Decimal(n) + ["0123456789"[d]]
  {
    DigitsAre(d);
  }

  lemma NotANumber(s: string)
    requires s == [] || !IsDigit(s[0])
    ensures PU32(s) == Fail
  {
  }
}
