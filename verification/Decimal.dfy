/** Decimal text of machine integers: formatting, and parsing with Go's saturation and error rules. */
module Decimal {

  const MAX_INT64 := 0x7FFF_FFFF_FFFF_FFFF
  const MIN_INT64 := -0x8000_0000_0000_0000
  const MAX_UINT64 := 0xFFFF_FFFF_FFFF_FFFF

  predicate IsInt64(n: int)
  {
    MIN_INT64 <= n <= MAX_INT64
  }

  function DigitChar(d: int): char
    requires 0 <= d < 10
  {
    '0' + d as char
  }

  predicate IsDigit(c: char)
  {
    '0' <= c <= '9'
  }

  function DigitValue(c: char): int
    requires IsDigit(c)
  {
    c as int - '0' as int
  }

  function Digits(n: nat): (s: string)
    ensures |s| > 0 && forall i :: 0 <= i < |s| ==> IsDigit(s[i])
  {
    if n < 10 then [DigitChar(n)] else Digits(n / 10) + [DigitChar(n % 10)]
  }

  function Itoa(n: int): string
  {
    if n < 0 then "-" + Digits(-n) else Digits(n)
  }

  /** Outcome of scanning digits into an unsigned 64-bit accumulator. */
  datatype Scan = Number(n: nat) | BadSyntax | OutOfRange

  function ScanStep(acc: Scan, c: char): Scan
  {
    match acc
    case Number(n) =>
      if !IsDigit(c) then BadSyntax
      else if n * 10 + DigitValue(c) > MAX_UINT64 then OutOfRange
      else Number(n * 10 + DigitValue(c))
    case _ => acc
  }

  /** Left to right; the first bad character or the first overflow decides. */
  function ScanDigits(s: string): Scan
  {
    if |s| == 0 then Number(0) else ScanStep(ScanDigits(s[..|s| - 1]), s[|s| - 1])
  }

  /** A parsed value together with whether the parse reported no error. */
  datatype Parsed = Parsed(value: int, ok: bool)

  function Signed(negative: bool, u: Scan): Parsed
  {
    match u
    case BadSyntax => Parsed(0, false)
    case OutOfRange => Parsed(if negative then MIN_INT64 else MAX_INT64, false)
    case Number(n) =>
      if !negative && n > MAX_INT64 then Parsed(MAX_INT64, false)
      else if negative && n > MAX_INT64 + 1 then Parsed(MIN_INT64, false)
      else Parsed(if negative then 0 - n else n, true)
  }

  /** strconv.ParseInt(s, 10, 64), and strconv.Atoi on a 64-bit machine. */
  function ParseInt(s: string): (p: Parsed)
    ensures IsInt64(p.value)
  {
    if |s| == 0 then Parsed(0, false)
    else
      var signed := s[0] == '-' || s[0] == '+';
      var digits := if signed then s[1..] else s;
      if |digits| == 0 then Parsed(0, false) else Signed(s[0] == '-', ScanDigits(digits))
  }

  // ------------------------------------------------------------------ formatting and parsing are inverse

  lemma {:induction false} ScanOfDigits(n: nat)
    requires n <= MAX_UINT64
    ensures ScanDigits(Digits(n)) == Number(n)
    decreases n
  {
    if n >= 10 {
      ScanOfDigits(n / 10);
      var s := Digits(n);
      assert s[..|s| - 1] == Digits(n / 10);
    } else {
      assert Digits(n)[..0] == "";
    }
  }

  /** A text that starts with neither a digit nor a sign does not parse, and its value is 0. */
  lemma {:induction false} NotANumber(s: string)
    requires |s| > 0 && !IsDigit(s[0])
    ensures ScanDigits(s) == BadSyntax
    ensures s[0] != '-' && s[0] != '+' ==> ParseInt(s) == Parsed(0, false)
    decreases |s|
  {
    if |s| > 1 {
      NotANumber(s[..|s| - 1]);
    } else {
      assert s[..0] == "";
    }
  }

  lemma ParseOfItoa(n: int)
    requires IsInt64(n)
    ensures ParseInt(Itoa(n)) == Parsed(n, true)
  {
    ScanOfDigits(if n < 0 then -n else n);
    if n < 0 {
      assert Itoa(n)[1..] == Digits(-n);
    }
  }

  lemma ItoaInjective(m: int, n: int)
    requires IsInt64(m) && IsInt64(n) && Itoa(m) == Itoa(n)
    ensures m == n
  {
    ParseOfItoa(m);
    ParseOfItoa(n);
  }

  /** Numbers beyond 64 bits saturate, with an error. */
  lemma {:induction false} ScanOverflows(n: nat)
    requires n > MAX_UINT64
    ensures ScanDigits(Digits(n)) == OutOfRange
    decreases n
  {
    var s := Digits(n);
    assert s[..|s| - 1] == Digits(n / 10);
    if n / 10 > MAX_UINT64 {
      ScanOverflows(n / 10);
    } else {
      ScanOfDigits(n / 10);
    }
  }

  lemma ParseSaturates(n: int)
    ensures n > 9_223_372_036_854_775_807 ==> ParseInt(Itoa(n)) == Parsed(9_223_372_036_854_775_807, false)
    ensures n < -9_223_372_036_854_775_808 ==> ParseInt(Itoa(n)) == Parsed(-9_223_372_036_854_775_808, false)
  {
    var u: nat := if n < 0 then -n else n;
    if u > MAX_UINT64 {
      ScanOverflows(u);
    } else {
      ScanOfDigits(u);
    }
    if n < 0 {
      assert Itoa(n)[1..] == Digits(-n);
    }
  }

  /** All ten digits, and a sign. */
  lemma ItoaSpells()
    ensures Itoa(12345) == "12345" && Itoa(-67890) == "-67890" && Itoa(0) == "0"
  {
    assert Digits(12) == "12" && Digits(67) == "67";
    assert Digits(1234) == "1234" && Digits(6789) == "6789";
  }
}
