/**
  Decimal digit strings: `strconv.Itoa` on non-negative values, the zero
  padding of Go's time formatting, and the digit-run reading of Go's time
  parser.
 */
module Decimal {
  import opened Common

  predicate IsDigit(c: char) {
    '0' <= c <= '9'
  }

  function DigitChar(d: nat): (c: char)
    requires d < 10
    ensures IsDigit(c)
  {
    ('0' as int + d) as char
  }

  function Pow10(n: nat): (p: nat)
    ensures p >= 1
  {
    if n == 0 then 1 else 10 * Pow10(n - 1)
  }

  predicate AllDigits(s: string) {
    forall i :: 0 <= i < |s| ==> IsDigit(s[i])
  }

  /** `strconv.Itoa(n)` for n >= 0: no leading zeros, at least one digit. */
  function Itoa(n: nat): (s: string)
    ensures |s| >= 1 && AllDigits(s)
  {
    if n < 10 then [DigitChar(n)] else Itoa(n / 10) + [DigitChar(n % 10)]
  }

  function Zeros(k: nat): (s: string)
    ensures |s| == k && AllDigits(s)
  {
    if k == 0 then [] else Zeros(k - 1) + ['0']
  }

  /** The digits of n, left-padded with zeros to at least `width` characters. */
  function Pad(n: nat, width: nat): (s: string)
    ensures AllDigits(s)
  {
    var d := Itoa(n);
    if |d| >= width then d else Zeros(width - |d|) + d
  }

  /** The number a string of digits spells, read left to right (Go's `parseUint` loop). */
  function Num(s: string): (n: int)
    ensures AllDigits(s) ==> 0 <= n < Pow10(|s|)
  {
    if s == [] then 0 else Num(s[..|s| - 1]) * 10 + (s[|s| - 1] as int - '0' as int)
  }

  /** The number a run of digits spells; None when some character is not a digit. */
  function Value(s: string): (r: Option<nat>)
    ensures r.Some? <==> AllDigits(s)
    ensures r.Some? ==> r.value < Pow10(|s|)
  {
    if AllDigits(s) then Some(Num(s)) else None
  }

  lemma {:induction false} NumAppend(a: string, b: string)
    ensures Num(a + b) == Num(a) * Pow10(|b|) + Num(b)
    decreases |b|
  {
    if b == [] {
      assert a + b == a;
    } else {
      var b' := b[..|b| - 1];
      assert (a + b)[..|a + b| - 1] == a + b';
      NumAppend(a, b');
      NumAppendStep(Num(a), Num(b'), Pow10(|b'|), b[|b| - 1] as int - '0' as int);
    }
  }

  lemma NumAppendStep(x: int, y: int, p: int, d: int)
    ensures (x * p + y) * 10 + d == x * (p * 10) + (y * 10 + d)
  {
  }

  lemma {:induction false} ValueZeros(k: nat)
    ensures Value(Zeros(k)) == Some(0)
  {
    if k > 0 {
      assert Zeros(k)[..k - 1] == Zeros(k - 1);
      ValueZeros(k - 1);
    }
  }

  lemma {:induction false} ValueItoa(n: nat)
    ensures Value(Itoa(n)) == Some(n)
  {
    if n >= 10 {
      var s := Itoa(n);
      assert s[..|s| - 1] == Itoa(n / 10);
      ValueItoa(n / 10);
    }
  }

  lemma {:induction false} ItoaLength(n: nat, width: nat)
    requires width >= 1 && n < Pow10(width)
    ensures |Itoa(n)| <= width
  {
    if n >= 10 {
      ItoaLength(n / 10, width - 1);
    }
  }

  lemma ZerosPrefix(k: nat, d: string)
    requires AllDigits(d)
    ensures AllDigits(Zeros(k) + d) && Num(Zeros(k) + d) == Num(d)
  {
    ValueZeros(k);
    NumAppend(Zeros(k), d);
  }

  /** Padding a number that fits gives exactly `width` digits that read back as the number. */
  lemma PadValue(n: nat, width: nat)
    requires width >= 1 && n < Pow10(width)
    ensures |Pad(n, width)| == width
    ensures Value(Pad(n, width)) == Some(n)
  {
    var d := Itoa(n);
    ItoaLength(n, width);
    ValueItoa(n);
    assert AllDigits(d) && Num(d) == n;
    if |d| < width {
      var z := Zeros(width - |d|);
      ZerosPrefix(width - |d|, d);
      assert Pad(n, width) == z + d;
      assert AllDigits(z + d) && Num(z + d) == n;
    } else {
      assert Pad(n, width) == d;
    }
  }
}
