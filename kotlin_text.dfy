/**
 * The pieces of the Kotlin standard library that the item-entry screen relies on:
 * `Int`'s 32-bit range, `String.toIntOrNull()` (radix 10), `Int.toString()` and
 * `CharSequence.isNotBlank()`.
 */
module KotlinText {
  import opened Wrappers

  const MinInt: int := -0x8000_0000
  const MaxInt: int := 0x7fff_ffff

  /** Kotlin's `Int`: a 32-bit two's-complement integer. */
  type Int32 = x: int | MinInt <= x <= MaxInt

  // ---------------------------------------------------------------------------
  // Whitespace and blankness
  // ---------------------------------------------------------------------------

  /**
   * `Char.isWhitespace()` on the JVM: `Character.isWhitespace(c) || Character.isSpaceChar(c)`,
   * i.e. the ASCII controls TAB..CR and FS..US, and every space, line or paragraph separator.
   */
  predicate IsWhitespace(c: char) {
    || ('\t' <= c <= '\r')
    || ('\U{1C}' <= c <= ' ')
    || c == '\U{A0}' || c == '\U{1680}'
    || ('\U{2000}' <= c <= '\U{200A}')
    || c == '\U{2028}' || c == '\U{2029}' || c == '\U{202F}' || c == '\U{205F}' || c == '\U{3000}'
  }

  /** `CharSequence.isBlank()`: empty, or nothing but whitespace. */
  predicate IsBlank(s: string) {
    forall i | 0 <= i < |s| :: IsWhitespace(s[i])
  }

  /** `CharSequence.isNotBlank()`: some character is not whitespace, so the text is nonempty. */
  predicate IsNotBlank(s: string)
    ensures IsNotBlank(s) <==> exists i :: 0 <= i < |s| && !IsWhitespace(s[i])
    ensures IsNotBlank(s) ==> |s| > 0
  {
    !IsBlank(s)
  }

  lemma EmptyIsBlank()
    ensures IsBlank("") && !IsNotBlank("")
  {
  }

  // ---------------------------------------------------------------------------
  // Decimal digits
  // ---------------------------------------------------------------------------

  predicate IsDigit(c: char) {
    '0' <= c <= '9'
  }

  predicate AllDigits(s: string) {
    forall i | 0 <= i < |s| :: IsDigit(s[i])
  }

  function DigitValue(c: char): (d: nat)
    requires IsDigit(c)
    ensures d < 10
  {
    c as int - '0' as int
  }

  function DigitChar(d: nat): (c: char)
    requires d < 10
    ensures IsDigit(c) && DigitValue(c) == d
  {
    ('0' as int + d) as char
  }

  function Pow10(n: nat): (p: nat)
    ensures p >= 1
  {
    if n == 0 then 1 else 10 * Pow10(n - 1)
  }

  /**
   * The number a string of decimal digits denotes, read the usual way: the last digit
   * is the units digit.  This is the reference meaning the parser is proved against.
   */
  function DecimalValue(ds: string): nat
    requires AllDigits(ds)
  {
    if |ds| == 0 then 0 else 10 * DecimalValue(ds[..|ds| - 1]) + DigitValue(ds[|ds| - 1])
  }

  /** An integer literal as `toIntOrNull` reads it: an optional `+` or `-`, then at least one digit. */
  predicate IsIntLiteral(s: string) {
    if |s| > 0 && (s[0] == '+' || s[0] == '-') then |s| > 1 && AllDigits(s[1..])
    else |s| > 0 && AllDigits(s)
  }

  /** The signed value of an integer literal, before any range check. */
  function LiteralValue(s: string): int
    requires IsIntLiteral(s)
  {
    if s[0] == '-' then -(DecimalValue(s[1..]) as int)
    else if s[0] == '+' then DecimalValue(s[1..])
    else DecimalValue(s)
  }

  // ---------------------------------------------------------------------------
  // String.toIntOrNull()
  // ---------------------------------------------------------------------------

  /**
   * Left-to-right accumulation of a digit run, as the library's loop does it:
   * `None` as soon as a character is not a digit.
   */
  function AccumulateDigits(ds: string, acc: nat): Option<nat>
    decreases |ds|
  {
    if |ds| == 0 then Some(acc)
    else if !IsDigit(ds[0]) then None
    else AccumulateDigits(ds[1..], 10 * acc + DigitValue(ds[0]))
  }

  /** A nonempty string is all digits iff its head is a digit and its tail is all digits. */
  lemma AllDigitsCons(ds: string)
    requires |ds| > 0
    ensures AllDigits(ds) <==> IsDigit(ds[0]) && AllDigits(ds[1..])
  {
    var tail := ds[1..];
    if IsDigit(ds[0]) && AllDigits(tail) {
      forall i | 0 <= i < |ds| ensures IsDigit(ds[i]) {
        if i > 0 { assert ds[i] == tail[i - 1]; }
      }
    }
    if AllDigits(ds) {
      forall i | 0 <= i < |tail| ensures IsDigit(tail[i]) { assert tail[i] == ds[i + 1]; }
    }
  }

  /** Moving one digit from the accumulator into the weighted tail. */
  lemma ShiftDigit(acc: nat, d: nat, p: nat, rest: nat)
    ensures (10 * acc + d) * p + rest == acc * (10 * p) + (d * p + rest)
  {
    calc {
      (10 * acc + d) * p + rest;
      (10 * acc) * p + d * p + rest;
      { assert (10 * acc) * p == acc * (10 * p); }
      acc * (10 * p) + (d * p + rest);
    }
  }

  /** The accumulation fails exactly on a non-digit and otherwise yields the reference value. */
  lemma {:induction false} AccumulateDigitsCorrect(ds: string, acc: nat)
    ensures AccumulateDigits(ds, acc).Some? <==> AllDigits(ds)
    ensures AccumulateDigits(ds, acc).Some? ==> AccumulateDigits(ds, acc).value == acc * Pow10(|ds|) + DecimalValue(ds)
    decreases |ds|
  {
    if |ds| > 0 {
      var tail := ds[1..];
      AllDigitsCons(ds);
      if IsDigit(ds[0]) {
        var d := DigitValue(ds[0]);
        AccumulateDigitsCorrect(tail, 10 * acc + d);
        assert AccumulateDigits(ds, acc) == AccumulateDigits(tail, 10 * acc + d);
        if AllDigits(ds) {
          DecimalValueCons(ds);
          assert Pow10(|ds|) == 10 * Pow10(|tail|);
          ShiftDigit(acc, d, Pow10(|tail|), DecimalValue(tail));
        }
      }
    }
  }

  /** Reading a digit string from the front: the first digit weighs `10^(|ds|-1)`. */
  lemma {:induction false} DecimalValueCons(ds: string)
    requires |ds| > 0 && AllDigits(ds)
    ensures AllDigits(ds[1..])
    ensures DecimalValue(ds) == DigitValue(ds[0]) * Pow10(|ds| - 1) + DecimalValue(ds[1..])
    decreases |ds|
  {
    assert AllDigits(ds[1..]) by {
      forall i | 0 <= i < |ds[1..]| ensures IsDigit(ds[1..][i]) { assert ds[1..][i] == ds[i + 1]; }
    }
    if |ds| > 1 {
      var init := ds[..|ds| - 1];
      assert AllDigits(init) by {
        forall i | 0 <= i < |init| ensures IsDigit(init[i]) { assert init[i] == ds[i]; }
      }
      DecimalValueCons(init);
      assert init[0] == ds[0];
      assert init[1..] == ds[1..][..|ds[1..]| - 1];
      assert ds[1..][|ds[1..]| - 1] == ds[|ds| - 1];
    }
  }

  /** The Int32 value `v` if it is in range, `None` (null) otherwise. */
  function InRange(v: int): (r: Option<Int32>)
    ensures r.Some? <==> MinInt <= v <= MaxInt
    ensures r.Some? ==> r.value == v
  {
    if MinInt <= v <= MaxInt then Some(v as Int32) else None
  }

  /**
   * `String.toIntOrNull()`: an optional sign and decimal digits whose value fits in
   * an `Int`; `null` for the empty string, a lone sign, any other character, or a
   * value outside the 32-bit range.  The first character is looked at as the library
   * does: below `'0'` it may only be a sign.
   */
  function ParseInt(s: string): (r: Option<Int32>)
    ensures r.Some? <==> IsIntLiteral(s) && MinInt <= LiteralValue(s) <= MaxInt
    ensures r.Some? ==> r.value == LiteralValue(s)
  {
    if |s| == 0 then None
    else if s[0] < '0' then
      if |s| == 1 then None
      else if s[0] == '-' then
        AccumulateDigitsCorrect(s[1..], 0);
        match AccumulateDigits(s[1..], 0)
        case None => None
        case Some(n) => InRange(-(n as int))
      else if s[0] == '+' then
        AccumulateDigitsCorrect(s[1..], 0);
        match AccumulateDigits(s[1..], 0)
        case None => None
        case Some(n) => InRange(n)
      else None
    else
      AccumulateDigitsCorrect(s, 0);
      match AccumulateDigits(s, 0)
      case None => None
      case Some(n) => InRange(n)
  }

  /** Text that is not a sign followed by digits is rejected: `"abc"`, `""`, `"-"`, `" 1"`. */
  lemma ParseIntRejectsNonLiterals()
    ensures ParseInt("abc") == None
    ensures ParseInt("") == None && ParseInt("-") == None && ParseInt(" 1") == None
  {
    assert !IsDigit("abc"[0]);
  }

  /** The digits of `2^31`. */
  lemma DecimalValueTwoPow31()
    ensures AllDigits("2147483648") && DecimalValue("2147483648") == 2147483648
  {
    assert DecimalValue("2") == 2;
    assert "21"[..1] == "2" && DecimalValue("21") == 21;
    assert "214"[..2] == "21" && DecimalValue("214") == 214;
    assert "2147"[..3] == "214" && DecimalValue("2147") == 2147;
    assert "21474"[..4] == "2147" && DecimalValue("21474") == 21474;
    assert "214748"[..5] == "21474" && DecimalValue("214748") == 214748;
    assert "2147483"[..6] == "214748" && DecimalValue("2147483") == 2147483;
    assert "21474836"[..7] == "2147483" && DecimalValue("21474836") == 21474836;
    assert "214748364"[..8] == "21474836" && DecimalValue("214748364") == 214748364;
    assert "2147483648"[..9] == "214748364" && DecimalValue("2147483648") == 2147483648;
  }

  /** `"2147483648"` is one past `Int.MAX_VALUE` and is rejected. */
  lemma ParseIntAboveMax()
    ensures ParseInt("2147483648") == None
  {
    DecimalValueTwoPow31();
  }

  /** `"-2147483648"` is `Int.MIN_VALUE`. */
  lemma ParseIntMin()
    ensures ParseInt("-2147483648") == Some(MinInt)
  {
    DecimalValueTwoPow31();
    assert "-2147483648"[1..] == "2147483648";
  }

  /** Leading zeros are allowed: `"-007"` is -7. */
  lemma ParseIntLeadingZeros()
    ensures ParseInt("-007") == Some(-7)
  {
    assert "-007"[1..] == "007";
    assert DecimalValue("007") == 7 by {
      assert "007"[..2] == "00";
      assert "00"[..1] == "0";
    }
  }

  // ---------------------------------------------------------------------------
  // Int.toString()
  // ---------------------------------------------------------------------------

  /** The shortest decimal digits of a natural number (no leading zeros). */
  function Digits(n: nat): (ds: string)
    ensures |ds| > 0 && AllDigits(ds)
    ensures DecimalValue(ds) == n
    ensures |ds| > 1 ==> ds[0] != '0'
  {
    if n < 10 then [DigitChar(n)]
    else
      var init := Digits(n / 10);
      var ds := init + [DigitChar(n % 10)];
      assert ds[..|ds| - 1] == init;
      ds
  }

  /** `Int.toString()`: a `-` before the digits of a negative number. */
  function FormatInt(n: int): (s: string)
    ensures |s| > 0 && (s[0] == '-' <==> n < 0)
    ensures n >= 0 ==> AllDigits(s) && DecimalValue(s) == n
    ensures n < 0 ==> AllDigits(s[1..]) && DecimalValue(s[1..]) == -n
  {
    assert n < 0 ==> ("-" + Digits(-n))[1..] == Digits(-n);
    if n < 0 then "-" + Digits(-n) else Digits(n)
  }

  /** `Int.toString()` never yields a blank string. */
  lemma FormatIntNotBlank(n: int)
    ensures IsNotBlank(FormatInt(n))
  {
    var s := FormatInt(n);
    assert !IsWhitespace(s[|s| - 1]);
  }

  /** `n.toString().toIntOrNull() == n` for every `Int` n. */
  lemma ParseFormatRoundTrip(n: Int32)
    ensures ParseInt(FormatInt(n)) == Some(n)
  {
    var s := FormatInt(n);
    if n < 0 {
      assert s[1..] == Digits(-(n as int));
    } else {
      assert s == Digits(n);
    }
  }
}
