/**
 * Decimal integers as text: `strconv.Itoa` and `strconv.ParseInt(s, 10, bitSize)`,
 * and the two's-complement wrap-around of Go's fixed-width signed integers.
 */
module Decimal {
  import opened Wrappers
  import opened Errors

  predicate IsDigit(c: char) {
    '0' <= c <= '9'
  }

  predicate AllDigits(s: string) {
    forall i :: 0 <= i < |s| ==> IsDigit(s[i])
  }

  function DigitValue(c: char): nat
    requires IsDigit(c)
  {
    c as int - '0' as int
  }

  function DigitChar(d: nat): (c: char)
    requires d < 10
    ensures IsDigit(c) && DigitValue(c) == d
  {
    ('0' as int + d) as char
  }

  /** The value of a string of decimal digits, read most significant digit first. */
  function DigitsValue(s: string): nat
    requires AllDigits(s)
  {
    if |s| == 0 then 0 else DigitsValue(s[..|s| - 1]) * 10 + DigitValue(s[|s| - 1])
  }

  /** The shortest decimal digit string of `n`. */
  function NatDigits(n: nat): (s: string)
    ensures |s| >= 1 && AllDigits(s)
  {
    if n < 10 then [DigitChar(n)] else NatDigits(n / 10) + [DigitChar(n % 10)]
  }

  /** `strconv.Itoa`: a leading '-' for negative numbers, no '+' and no leading zeros. */
  function Itoa(n: int): string {
    if n < 0 then "-" + NatDigits(-n) else NatDigits(n)
  }

  /**
   * The digit loop of `strconv.ParseUint`: left to right, a non-digit is a
   * syntax error and a running value above `maxVal` is a range error.
   */
  function ScanUint(s: string, i: nat, n: nat, maxVal: nat): Result<nat, NumReason>
    requires i <= |s|
    decreases |s| - i
  {
    if i == |s| then Ok(n)
    else if !IsDigit(s[i]) then Err(Syntax)
    else
      var n1 := n * 10 + DigitValue(s[i]);
      if n1 > maxVal then Err(Range) else ScanUint(s, i + 1, n1, maxVal)
  }

  function Pow2(k: nat): (p: int)
    ensures p >= 1
  {
    if k == 0 then 1 else 2 * Pow2(k - 1)
  }

  /** `strconv.ParseInt(s, 10, bitSize)` for `1 <= bitSize <= 64`. */
  function ParseInt(s: string, bitSize: nat): (r: Result<int, Err>)
    requires 1 <= bitSize <= 64
    ensures r.Ok? ==> -Pow2(bitSize - 1) <= r.value < Pow2(bitSize - 1)
    ensures r.Err? ==> r.error.NumError? && r.error.input == s
  {
    if |s| == 0 then Err(NumError(s, Syntax))
    else
      var neg := s[0] == '-';
      var body := if s[0] == '+' || s[0] == '-' then s[1..] else s;
      if |body| == 0 then Err(NumError(s, Syntax))
      else
        match ScanUint(body, 0, 0, Pow2(bitSize) - 1)
        case Err(reason) => Err(NumError(s, reason))
        case Ok(un) =>
          var cutoff := Pow2(bitSize - 1);
          if !neg && un >= cutoff then Err(NumError(s, Range))
          else if neg && un > cutoff then Err(NumError(s, Range))
          else if neg then Ok(-(un as int))
          else Ok(un)
  }

  /** A value fits in a Go `int64`. */
  predicate IsInt64(n: int) {
    -0x8000_0000_0000_0000 <= n < 0x8000_0000_0000_0000
  }

  lemma {:induction false} Pow2Add(a: nat, b: nat)
    ensures Pow2(a + b) == Pow2(a) * Pow2(b)
  {
    if a > 0 {
      Pow2Add(a - 1, b);
    }
  }

  /** The bounds of `int64` are the powers of two `ParseInt` computes for 64 bits. */
  lemma Int64Bounds()
    ensures Pow2(63) == 0x8000_0000_0000_0000
    ensures Pow2(64) == 0x1_0000_0000_0000_0000
  {
    assert Pow2(1) == 2;
    Pow2Add(1, 1);
    assert Pow2(2) == 4;
    Pow2Add(2, 2);
    assert Pow2(4) == 16;
    Pow2Add(4, 4);
    assert Pow2(8) == 0x100;
    Pow2Add(8, 8);
    assert Pow2(16) == 0x1_0000;
    Pow2Add(16, 16);
    assert Pow2(32) == 0x1_0000_0000;
    Pow2Add(32, 16);
    assert Pow2(48) == 0x1_0000_0000_0000;
    Pow2Add(48, 8);
    assert Pow2(56) == 0x100_0000_0000_0000;
    Pow2Add(56, 4);
    assert Pow2(60) == 0x1000_0000_0000_0000;
    Pow2Add(60, 2);
    assert Pow2(62) == 0x4000_0000_0000_0000;
    Pow2Add(62, 1);
    Pow2Add(62, 2);
  }

  /** The bound of `int32`. */
  lemma Int32Bound()
    ensures Pow2(31) == 0x8000_0000
  {
    assert Pow2(1) == 2;
    Pow2Add(1, 1);
    assert Pow2(2) == 4;
    Pow2Add(2, 1);
    assert Pow2(3) == 8;
    Pow2Add(2, 2);
    assert Pow2(4) == 16;
    Pow2Add(4, 3);
    assert Pow2(7) == 128;
    Pow2Add(4, 4);
    assert Pow2(8) == 256;
    Pow2Add(8, 7);
    assert Pow2(15) == 0x8000;
    Pow2Add(8, 8);
    assert Pow2(16) == 0x1_0000;
    Pow2Add(16, 15);
  }

  /** `int32(x)`: the two's-complement reduction Go applies when int32 arithmetic overflows. */
  function WrapInt32(x: int): (r: int)
    ensures -0x8000_0000 <= r < 0x8000_0000
    ensures (r - x) % 0x1_0000_0000 == 0
    ensures -0x8000_0000 <= x < 0x8000_0000 ==> r == x
  {
    (x + 0x8000_0000) % 0x1_0000_0000 - 0x8000_0000
  }

  // ---------------------------------------------------------------------------
  // Itoa / ParseInt round trip

  lemma {:induction false} DigitsValueSnoc(s: string, c: char)
    requires AllDigits(s) && IsDigit(c)
    ensures AllDigits(s + [c])
    ensures DigitsValue(s + [c]) == DigitsValue(s) * 10 + DigitValue(c)
  {
    assert (s + [c])[..|s + [c]| - 1] == s;
  }

  /** `NatDigits` is read back as the number it was made from. */
  lemma {:induction false} NatDigitsValue(n: nat)
    ensures DigitsValue(NatDigits(n)) == n
    ensures DigitValue(NatDigits(n)[0]) != 0 || n == 0
  {
    if n < 10 {
      assert NatDigits(n) == [DigitChar(n)];
      assert DigitsValue([DigitChar(n)]) == DigitsValue([]) * 10 + DigitValue(DigitChar(n));
    } else {
      NatDigitsValue(n / 10);
      DigitsValueSnoc(NatDigits(n / 10), DigitChar(n % 10));
    }
  }

  lemma {:induction false} PrefixValueBounded(s: string, k: nat)
    requires AllDigits(s) && k <= |s|
    ensures AllDigits(s[..k])
    ensures DigitsValue(s[..k]) <= DigitsValue(s)
    decreases |s| - k
  {
    if k < |s| {
      PrefixValueBounded(s, k + 1);
      assert s[..k + 1][..k] == s[..k];
      assert DigitsValue(s[..k + 1]) == DigitsValue(s[..k]) * 10 + DigitValue(s[k]);
    } else {
      assert s[..k] == s;
    }
  }

  /** The digit loop reads a digit string whose value fits as exactly that value. */
  lemma {:induction false} ScanDigits(s: string, i: nat, maxVal: nat)
    requires AllDigits(s) && i <= |s| && DigitsValue(s) <= maxVal
    ensures AllDigits(s[..i])
    ensures ScanUint(s, i, DigitsValue(s[..i]), maxVal) == Ok(DigitsValue(s))
    decreases |s| - i
  {
    PrefixValueBounded(s, i);
    if i == |s| {
      assert s[..i] == s;
    } else {
      PrefixValueBounded(s, i + 1);
      assert s[..i + 1][..i] == s[..i];
      assert DigitsValue(s[..i + 1]) == DigitsValue(s[..i]) * 10 + DigitValue(s[i]);
      ScanDigits(s, i + 1, maxVal);
    }
  }

  lemma Pow2Split(k: nat)
    requires k >= 1
    ensures Pow2(k) == 2 * Pow2(k - 1)
  {
  }

  /** `strconv.ParseInt(strconv.Itoa(n), 10, bitSize)` returns `n` for every `n` of that width. */
  lemma {:induction false} ItoaParseRoundTripBits(n: int, bitSize: nat)
    requires 1 <= bitSize <= 64
    requires -Pow2(bitSize - 1) <= n < Pow2(bitSize - 1)
    ensures ParseInt(Itoa(n), bitSize) == Ok(n)
  {
    var m: nat := if n < 0 then -n else n;
    var d := NatDigits(m);
    NatDigitsValue(m);
    Pow2Split(bitSize);
    assert DigitsValue(d) <= Pow2(bitSize) - 1;
    ScanDigits(d, 0, Pow2(bitSize) - 1);
    assert d[..0] == [];
    if n < 0 {
      var s := "-" + d;
      assert s[0] == '-' && s[1..] == d;
    } else {
      assert IsDigit(d[0]);
    }
  }

  /** `strconv.ParseInt(strconv.Itoa(n), 10, 64)` returns `n` for every `int64`. */
  lemma ItoaParseRoundTrip(n: int)
    requires IsInt64(n)
    ensures ParseInt(Itoa(n), 64) == Ok(n)
  {
    Int64Bounds();
    ItoaParseRoundTripBits(n, 64);
  }
}
