/** Numbers in messages: std::to_string, IsCanBeDigit and StringToInt for 64-bit numbers. */
module Decimal {
  import opened Sockets

  function DigitChar(d: nat): byte
    requires d < 10
  {
    '0' as byte + d
  }

  function ToString(n: nat): Text {
    if n < 10 then [DigitChar(n)] else ToString(n / 10) + [DigitChar(n % 10)]
  }

  predicate IsDigit(c: byte) { '0' as byte <= c <= '9' as byte }

  function DigitValue(c: byte): nat
    requires IsDigit(c)
  {
    c - '0' as byte
  }

  predicate AllDigits(str: Text) { str != [] && forall k | 0 <= k < |str| :: IsDigit(str[k]) }

  method IsCanBeDigit(str: Text) returns (can: bool)
    ensures can <==> AllDigits(str)
  {
    if str == [] || (str[0] < '0' as byte && str[0] != '-' as byte) || str[0] > '9' as byte {
      return false;
    }
    for i := 0 to |str|
      invariant forall k | 0 <= k < i :: IsDigit(str[k])
    {
      if str[i] < '0' as byte || str[i] > '9' as byte { return false; }
    }
    can := true;
  }

  function Number(str: Text): nat
    requires forall k | 0 <= k < |str| :: IsDigit(str[k])
  {
    if str == [] then 0 else 10 * Number(str[..|str| - 1]) + DigitValue(str[|str| - 1])
  }

  /** `OutOfRange` is an exception in the code: the number does not fit 64 bits. */
  datatype Parsed = NotDigits | OutOfRange | Value(n: nat)

  function Parse(str: Text): Parsed {
    if !AllDigits(str) then NotDigits
    else if Number(str) >= WORD then OutOfRange
    else Value(Number(str))
  }

  method StringToInt(str: Text) returns (res: Parsed)
    ensures res == Parse(str)
  {
    var can := IsCanBeDigit(str);
    if !can { return NotDigits; }
    var n := 0;
    for i := 0 to |str|
      invariant n == Number(str[..i])
    {
      assert str[..i + 1][..i] == str[..i];
      n := 10 * n + DigitValue(str[i]);
    }
    assert str[..|str|] == str;
    res := if n >= WORD then OutOfRange else Value(n);
  }

  /** A number that was written out is digits and nothing else, and reads back if it has 64 bits. */
  lemma {:induction false} ParseOfToString(n: nat)
    ensures AllDigits(ToString(n)) && Number(ToString(n)) == n
    ensures Parse(ToString(n)) == if n < WORD then Value(n) else OutOfRange
  {
    if n >= 10 {
      ParseOfToString(n / 10);
      assert ToString(n)[..|ToString(n)| - 1] == ToString(n / 10);
    } else {
      assert ToString(n)[..0] == [];
    }
  }

  /** Twenty characters are enough for 64 bits. */
  lemma ToStringIsShort(n: nat)
    requires n < WORD
    ensures |ToString(n)| <= 20
  {
    assert Power10(4) == 10000;
    assert Power10(8) == 100000000;
    assert Power10(12) == 1000000000000;
    assert Power10(16) == 10000000000000000;
    assert Power10(20) == 100000000000000000000;
    ShortEnough(n, 20);
  }

  function Power10(k: nat): nat { if k == 0 then 1 else 10 * Power10(k - 1) }

  lemma {:induction false} ShortEnough(n: nat, k: nat)
    requires k > 0 && n < Power10(k)
    ensures |ToString(n)| <= k
  {
    if n >= 10 {
      assert k > 1;
      ShortEnough(n / 10, k - 1);
    }
  }
}
