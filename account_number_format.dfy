/** The account-number text format `<typeCode><counter zero-padded to 20 digits>`
    (`String.format("%s%020d", code, counter)`), its reading back with
    `new BigInteger(String)`, and `BigInteger.toString()`. */
module AccountNumberFormat {
  import opened Wrappers

  /** The 20 of the format specifier `%020d`: the minimum width of the counter field. */
  const SequenceWidth: nat := 20

  function Pow10(k: nat): (r: nat)
    ensures r >= 1
  {
    if k == 0 then 1 else 10 * Pow10(k - 1)
  }

  predicate IsDigit(c: char) {
    '0' <= c <= '9'
  }

  /** Every character is an ASCII decimal digit (the empty string included).
      Stated from the right, as the digits are read. */
  predicate IsDecimal(s: string) {
    s == [] || (IsDecimal(s[..|s| - 1]) && IsDigit(s[|s| - 1]))
  }

  /** The first character of a non-empty digit string is a digit. */
  lemma {:induction false} FirstIsDigit(s: string)
    requires IsDecimal(s) && |s| >= 1
    ensures IsDigit(s[0])
  {
    if |s| > 1 {
      FirstIsDigit(s[..|s| - 1]);
    }
  }

  function DigitChar(d: nat): (c: char)
    requires d < 10
    ensures IsDigit(c) && c as int - '0' as int == d
  {
    ('0' as int + d) as char
  }

  /** The value of a digit string read in base 10; leading zeros do not count. */
  function DigitsValue(s: string): (v: nat)
    requires IsDecimal(s)
    ensures v < Pow10(|s|)
  {
    if s == [] then 0
    else DigitsValue(s[..|s| - 1]) * 10 + (s[|s| - 1] as int - '0' as int)
  }

  /** The decimal text of a non-negative number with no leading zeros, as
      `BigInteger.toString()` and `%d` print it. */
  function DecimalString(n: nat): (s: string)
    ensures 1 <= |s| && IsDecimal(s)
    ensures DigitsValue(s) == n
    ensures |s| > 1 ==> s[0] != '0'
  {
    if n < 10 then [DigitChar(n)]
    else
      var prefix := DecimalString(n / 10);
      var s := prefix + [DigitChar(n % 10)];
      assert s[..|s| - 1] == prefix;
      assert |prefix| == 1 ==> DigitsValue(prefix) == prefix[0] as int - '0' as int by {
        if |prefix| == 1 { assert prefix[..0] == []; }
      }
      s
  }

  function Zeros(k: nat): (z: string)
    ensures |z| == k && IsDecimal(z)
  {
    if k == 0 then [] else
      var z := Zeros(k - 1) + ['0'];
      assert z[..k - 1] == Zeros(k - 1);
      z
  }

  lemma {:induction false} ZerosValue(k: nat)
    ensures DigitsValue(Zeros(k)) == 0
  {
    if k > 0 {
      ZerosValue(k - 1);
    }
  }

  /** Reading the concatenation of two digit strings: the left part is shifted
      by the length of the right part. */
  lemma {:induction false} DigitsValueAppend(a: string, b: string)
    requires IsDecimal(a) && IsDecimal(b)
    ensures IsDecimal(a + b) && DigitsValue(a + b) == DigitsValue(a) * Pow10(|b|) + DigitsValue(b)
  {
    if b == [] {
      assert a + b == a;
    } else {
      var b' := b[..|b| - 1];
      var d := b[|b| - 1] as int - '0' as int;
      assert (a + b)[..|a + b| - 1] == a + b';
      assert (a + b)[|a + b| - 1] == b[|b| - 1];
      DigitsValueAppend(a, b');
      ShiftStep(DigitsValue(a), Pow10(|b'|), DigitsValue(b'), d);
    }
  }

  lemma ShiftStep(va: int, p: int, vb: int, d: int)
    ensures (va * p + vb) * 10 + d == va * (10 * p) + (vb * 10 + d)
  {
  }

  /** `%0<width>d` applied to an already printed number: zeros on the left up
      to `width` characters, never truncating a longer text. */
  function ZeroPad(s: string, width: nat): (r: string)
    requires IsDecimal(s)
    ensures |r| == if |s| < width then width else |s|
    ensures IsDecimal(r) && DigitsValue(r) == DigitsValue(s)
    ensures r[|r| - |s|..] == s
  {
    if |s| >= width then s
    else
      LeadingZeros(width - |s|, s);
      Zeros(width - |s|) + s
  }

  /** Zeros put in front of a digit string keep it a digit string of the
      same value. */
  lemma LeadingZeros(k: nat, s: string)
    requires IsDecimal(s)
    ensures IsDecimal(Zeros(k) + s) && DigitsValue(Zeros(k) + s) == DigitsValue(s)
    ensures (Zeros(k) + s)[k..] == s
  {
    hide DigitsValue, Pow10;
    ZerosValue(k);
    DigitsValueAppend(Zeros(k), s);
    assert DigitsValue(Zeros(k)) * Pow10(|s|) == 0;
    assert (Zeros(k) + s)[k..] == s;
  }

  /** The number of decimal digits of `n`. */
  function DigitCount(n: nat): nat {
    if n < 10 then 1 else DigitCount(n / 10) + 1
  }

  lemma {:induction false} DigitCountIsLength(n: nat)
    ensures |DecimalString(n)| == DigitCount(n)
  {
    if n >= 10 {
      DigitCountIsLength(n / 10);
    }
  }

  /** Width of the counter field in a formatted number: 20, or more when the
      counter has more than 20 digits. */
  function FieldWidth(counter: nat): nat {
    var k := DigitCount(counter);
    if k < SequenceWidth then SequenceWidth else k
  }

  /** `String.format("%s%020d", code, counter)`. */
  function FormatNumber(code: string, counter: nat): (r: string)
    ensures |r| == |code| + FieldWidth(counter)
    ensures r[..|code|] == code
    ensures IsDecimal(r[|code|..]) && DigitsValue(r[|code|..]) == counter
  {
    var field := ZeroPad(DecimalString(counter), SequenceWidth);
    DigitCountIsLength(counter);
    assert (code + field)[..|code|] == code;
    assert (code + field)[|code|..] == field;
    code + field
  }

  /** `new BigInteger(s)`: an optional `-` or `+` followed by one or more
      decimal digits; anything else is a NumberFormatException (None). */
  function ParseBigInteger(s: string): (r: Option<int>)
    ensures |s| >= 1 && IsDecimal(s) ==> r == Some(DigitsValue(s))
    ensures r.Some? ==> |s| >= 1 && (r.value < 0 ==> s[0] == '-')
    ensures |s| == 1 && !IsDigit(s[0]) ==> r.None?
  {
    if |s| >= 2 && s[0] == '-' && IsDecimal(s[1..]) then
      assert !IsDecimal(s) by { if IsDecimal(s) { FirstIsDigit(s); } }
      Some(-(DigitsValue(s[1..]) as int))
    else if |s| >= 2 && s[0] == '+' && IsDecimal(s[1..]) then
      assert !IsDecimal(s) by { if IsDecimal(s) { FirstIsDigit(s); } }
      Some(DigitsValue(s[1..]))
    else if |s| >= 1 && IsDecimal(s) then Some(DigitsValue(s))
    else None
  }

  /** Every character of a digit string is a digit. */
  lemma {:induction false} DigitAt(s: string, i: nat)
    requires IsDecimal(s) && i < |s|
    ensures IsDigit(s[i])
  {
    if i < |s| - 1 {
      DigitAt(s[..|s| - 1], i);
    }
  }

  /** A character that is not a digit, anywhere but in a leading sign
      position, makes `new BigInteger` fail. */
  lemma ParseRejects(s: string, i: nat)
    requires i < |s| && !IsDigit(s[i])
    requires i > 0 || (s[0] != '-' && s[0] != '+')
    ensures ParseBigInteger(s) == None
  {
    if IsDecimal(s) {
      DigitAt(s, i);
    }
    if |s| >= 2 && IsDecimal(s[1..]) && i > 0 {
      DigitAt(s[1..], i - 1);
    }
  }

  /** `BigInteger.toString()`: the decimal digits of the magnitude with no
      leading zero, behind a `-` exactly when the number is negative. */
  function ToString(n: int): (r: string)
    ensures n >= 0 ==> |r| >= 1 && IsDecimal(r) && DigitsValue(r) == n && (r[0] == '0' ==> r == "0")
    ensures n < 0 ==> |r| >= 2 && r[0] == '-' && IsDecimal(r[1..]) && DigitsValue(r[1..]) == -n
    ensures n < 0 && |r| > 2 ==> r[1] != '0'
  {
    if n < 0 then
      var r := "-" + DecimalString(-n);
      assert r[1..] == DecimalString(-n);
      r
    else
      var r := DecimalString(n);
      assert r[0] == '0' && |r| == 1 ==> DigitsValue(r) == 0 by {
        if |r| == 1 { assert r[..0] == []; }
      }
      r
  }

  /** `v` followed by `w` zero digits. */
  function ShiftLeft(v: nat, w: nat): nat {
    if w == 0 then v else 10 * ShiftLeft(v, w - 1)
  }

  lemma {:induction false} ShiftLeftIsProduct(v: nat, w: nat)
    ensures ShiftLeft(v, w) == v * Pow10(w)
  {
    if w > 0 {
      ShiftLeftIsProduct(v, w - 1);
      assert v * Pow10(w) == 10 * (v * Pow10(w - 1));
    }
  }

  lemma {:induction false} ShiftLeftMonotone(v: nat, w1: nat, w2: nat)
    requires w1 <= w2
    ensures ShiftLeft(v, w1) <= ShiftLeft(v, w2)
  {
    if w1 < w2 {
      ShiftLeftMonotone(v, w1, w2 - 1);
    }
  }

  /** The integer an account number of type `code` and counter value `counter`
      denotes: the code's digits shifted left past the counter field. */
  function AccountNumberValue(code: string, counter: nat): int
    requires IsDecimal(code)
  {
    ShiftLeft(DigitsValue(code), FieldWidth(counter)) + counter
  }

  /** Reading a printed BigInteger back gives the same value (the
      `toString` / `new BigInteger` pair is the identity). */
  lemma ParseToString(n: int)
    ensures ParseBigInteger(ToString(n)) == Some(n)
  {
    var s := ToString(n);
    if n < 0 {
      assert s[1..] == DecimalString(-n);
    } else {
      FirstIsDigit(s);
    }
  }

  /** The formatted text is all digits and reads as the number's value. */
  lemma FormattedDigits(code: string, counter: nat)
    requires IsDecimal(code)
    ensures IsDecimal(FormatNumber(code, counter))
    ensures DigitsValue(FormatNumber(code, counter)) == AccountNumberValue(code, counter)
  {
    var field := ZeroPad(DecimalString(counter), SequenceWidth);
    DigitCountIsLength(counter);
    assert |field| == FieldWidth(counter) && DigitsValue(field) == counter;
    DigitsValueAppend(code, field);
    ShiftLeftIsProduct(DigitsValue(code), |field|);
  }

  /** Reading a formatted account number gives its arithmetic value: the
      format never produces something `new BigInteger` rejects, as long as the
      type code is made of digits. */
  lemma ParseFormattedNumber(code: string, counter: nat)
    requires IsDecimal(code)
    ensures ParseBigInteger(FormatNumber(code, counter)) == Some(AccountNumberValue(code, counter))
  {
    hide FormatNumber, AccountNumberValue, DigitsValue;
    var s := FormatNumber(code, counter);
    FormattedDigits(code, counter);
    FirstIsDigit(s);
    assert s[0] != '-' && s[0] != '+';
  }

  /** The number saved for a counter value: the formatted text read back
      with `new BigInteger`, which for a digit type code always succeeds. */
  method NewAccountNumber(code: string, counter: nat) returns (number: int)
    requires IsDecimal(code)
    ensures number == AccountNumberValue(code, counter)
  {
    var text := FormatNumber(code, counter);
    ParseFormattedNumber(code, counter);
    number := ParseBigInteger(text).value;
  }

  /** A number below 10^w prints in at most w digits. */
  lemma {:induction false} DecimalLengthBound(n: nat, w: nat)
    requires 1 <= w && n < Pow10(w)
    ensures DigitCount(n) <= w
  {
    if n >= 10 {
      assert Pow10(1) == 10;
      assert w >= 2;
      assert Pow10(w) == 10 * Pow10(w - 1);
      DecimalLengthBound(n / 10, w - 1);
    }
  }

  /** A larger number never prints in fewer digits. */
  lemma {:induction false} DecimalLengthMonotone(a: nat, b: nat)
    requires a <= b
    ensures DigitCount(a) <= DigitCount(b)
  {
    if a >= 10 {
      DecimalLengthMonotone(a / 10, b / 10);
    }
  }

  /** Counters below 10^20 fill exactly the 20-digit field. */
  lemma FieldWidthOfSmallCounter(counter: nat)
    requires counter < Pow10(SequenceWidth)
    ensures FieldWidth(counter) == SequenceWidth
  {
    DecimalLengthBound(counter, SequenceWidth);
  }

  lemma MulAtLeast(k: int, m: nat)
    requires k >= 1
    ensures k * m >= m
  {
    assert k * m == m + (k - 1) * m;
  }

  /** Euclidean division of `q * m + r` by `m` gives back `q` and `r`. */
  lemma DivModOfSum(q: nat, m: nat, r: nat)
    requires r < m
    ensures (q * m + r) / m == q && (q * m + r) % m == r
  {
    var x := q * m + r;
    var q', r' := x / m, x % m;
    assert x == q' * m + r';
    var k := q - q';
    assert k * m == q * m - q' * m;
    if k >= 1 {
      MulAtLeast(k, m);
    } else if k <= -1 {
      MulAtLeast(-k, m);
    }
  }

  /** Decoding: when the counter is below 10^20, `number % 10^20` recovers the
      counter and `number / 10^20` the type code's value. */
  lemma DecodeAccountNumber(code: string, counter: nat)
    requires IsDecimal(code) && counter < Pow10(SequenceWidth)
    ensures AccountNumberValue(code, counter) % Pow10(SequenceWidth) == counter
    ensures AccountNumberValue(code, counter) / Pow10(SequenceWidth) == DigitsValue(code)
  {
    hide Pow10, ShiftLeft, DigitsValue, DigitCount;
    FieldWidthOfSmallCounter(counter);
    DecodeShift(DigitsValue(code), SequenceWidth, counter);
  }

  /** A value shifted left by `w` digits, plus something below 10^w, splits
      back into its two parts. */
  lemma DecodeShift(v: nat, w: nat, c: nat)
    requires c < Pow10(w)
    ensures (ShiftLeft(v, w) + c) % Pow10(w) == c && (ShiftLeft(v, w) + c) / Pow10(w) == v
  {
    ShiftLeftIsProduct(v, w);
    DivModOfSum(v, Pow10(w), c);
  }

  /** Successive counter values of one type give strictly increasing numbers,
      also past 10^20 where the field grows wider. */
  lemma AccountNumberIncreasing(code: string, c1: nat, c2: nat)
    requires IsDecimal(code) && c1 < c2
    ensures AccountNumberValue(code, c1) < AccountNumberValue(code, c2)
  {
    DecimalLengthMonotone(c1, c2);
    ShiftLeftMonotone(DigitsValue(code), FieldWidth(c1), FieldWidth(c2));
  }

  /** Two types whose codes have different values never produce the same
      number while their counters stay below 10^20. */
  lemma DistinctCodesDistinctNumbers(code1: string, c1: nat, code2: string, c2: nat)
    requires IsDecimal(code1) && IsDecimal(code2) && DigitsValue(code1) != DigitsValue(code2)
    requires c1 < Pow10(SequenceWidth) && c2 < Pow10(SequenceWidth)
    ensures AccountNumberValue(code1, c1) != AccountNumberValue(code2, c2)
  {
    DecodeAccountNumber(code1, c1);
    DecodeAccountNumber(code2, c2);
  }
}
