/** Unsigned decimal text, as printed by "%u" and read back by the parsers. */
module Numbers {
  import opened Options

  const UINT32_MAX: nat := 0xFFFF_FFFF

  type Uint32 = n: nat | n <= UINT32_MAX

  predicate IsDigit(c: char) {
    '0' <= c <= '9'
  }

  predicate AllDigits(s: string) {
    forall i :: 0 <= i < |s| ==> IsDigit(s[i])
  }

  function DigitValue(c: char): nat
    requires IsDigit(c)
  {
    c as int - '0' as int
  }

  function DigitChar(d: nat): (c: char)
    requires d < 10
    ensures IsDigit(c) && DigitValue(c) == d
  {
    '0' + d as char
  }

  /** The number a digit string stands for; leading zeros are allowed. */
  function Value(s: string): nat
    requires AllDigits(s)
  {
    if s == [] then 0 else Value(s[..|s| - 1]) * 10 + DigitValue(s[|s| - 1])
  }

  /** "%u". */
  function Decimal(n: nat): (s: string)
    ensures s != [] && AllDigits(s)
  {
    if n < 10 then [DigitChar(n)] else Decimal(n / 10) + [DigitChar(n % 10)]
  }

  lemma {:induction false} ValueOfDecimal(n: nat)
    ensures Value(Decimal(n)) == n
  {
    var s := Decimal(n);
    if n < 10 {
      assert s[..|s| - 1] == [];
      assert Value([]) == 0;
    } else {
      ValueOfDecimal(n / 10);
      assert s[..|s| - 1] == Decimal(n / 10);
    }
  }

  lemma {:induction false} DecimalLength(n: nat, bound: nat, digits: nat)
    requires digits >= 1 && bound == Pow10(digits) && n < bound
    ensures |Decimal(n)| <= digits
    decreases digits
  {
    if n >= 10 {
      assert digits > 1;
      DecimalLength(n / 10, bound / 10, digits - 1);
    }
  }

  function Pow10(k: nat): nat {
    if k == 0 then 1 else 10 * Pow10(k - 1)
  }

  lemma Uint32Length(n: Uint32)
    ensures |Decimal(n)| <= 10
  {
    assert Pow10(5) == 100000;
    assert Pow10(10) == 10000000000;
    DecimalLength(n, Pow10(10), 10);
  }

  /** Only zero is printed with a leading zero. */
  lemma {:induction false} DecimalLeads(n: nat)
    ensures Decimal(n)[0] == '0' <==> n == 0
  {
    if n >= 10 {
      DecimalLeads(n / 10);
    }
  }

  lemma {:induction false} ValueGrows(s: string, k: nat)
    requires AllDigits(s) && k <= |s|
    ensures Value(s[..k]) <= Value(s)
    decreases |s| - k
  {
    if k == |s| {
      assert s[..k] == s;
    } else {
      ValueGrows(s, k + 1);
      assert s[..k + 1][..k] == s[..k];
    }
  }

  /** What `parse_unsigned` accepts: a nonempty digit string of at most UINT32_MAX. */
  function Parsed(text: string): Option<Uint32> {
    if text != [] && AllDigits(text) && Value(text) <= UINT32_MAX then Some(Value(text)) else None
  }

  /** `parse_unsigned` of the host and of the device: the overflow test before each step is exact. */
  method ParseUnsigned(text: string) returns (r: Option<Uint32>)
    ensures r == Parsed(text)
  {
    if text == [] {
      return None;
    }
    var result: nat := 0;
    for i := 0 to |text|
      invariant AllDigits(text[..i]) && result == Value(text[..i]) <= UINT32_MAX
    {
      assert text[..i + 1][..i] == text[..i];
      if !IsDigit(text[i]) {
        return None;
      }
      var digit := DigitValue(text[i]);
      if result > (UINT32_MAX - digit) / 10 {
        if AllDigits(text) {
          ValueGrows(text, i + 1);
        }
        return None;
      }
      result := result * 10 + digit;
    }
    assert text[..|text|] == text;
    r := Some(result);
  }
}
