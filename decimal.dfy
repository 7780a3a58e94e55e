/** Decimal integers over Go strings (byte sequences): the behaviour of
    `strconv.Atoi` that the step relies on, and a canonical formatter that Atoi inverts. */
module Decimal {
  import opened Wrappers

  newtype byte = x: int | 0 <= x < 256
  type bytes = seq<byte>

  const ZERO: byte := 0x30
  const NINE: byte := 0x39
  const PLUS: byte := 0x2B
  const MINUS: byte := 0x2D

  predicate IsDigit(b: byte) { ZERO <= b <= NINE }

  predicate IsSign(b: byte) { b == PLUS || b == MINUS }

  predicate AllDigits(s: bytes) { forall i :: 0 <= i < |s| ==> IsDigit(s[i]) }

  function DigitValue(b: byte): (d: nat)
    requires IsDigit(b)
    ensures d < 10
  {
    (b - ZERO) as nat
  }

  function DigitByte(d: nat): (b: byte)
    requires d < 10
    ensures IsDigit(b) && DigitValue(b) == d
  {
    ZERO + d as byte
  }

  /** The value of a string of decimal digits, most significant first. */
  function DigitsValue(s: bytes): nat
    requires AllDigits(s)
  {
    if s == [] then 0 else 10 * DigitsValue(s[..|s| - 1]) + DigitValue(s[|s| - 1])
  }

  /** Only syntax errors are modelled; integers are unbounded, so `strconv.ErrRange` never arises. */
  datatype NumErrorKind = ErrSyntax

  /** Go's `*strconv.NumError`: the function that failed, its input and the cause. */
  datatype NumError = NumError(fn: string, num: bytes, err: NumErrorKind)

  /** `strconv.Atoi` in base 10: an optional leading '+' or '-' followed by at
      least one ASCII digit; anything else is a syntax error naming the input. */
  function Atoi(s: bytes): (r: Result<int, NumError>)
    ensures r.Failure? ==> r.error == NumError("Atoi", s, ErrSyntax)
  {
    var signed := |s| > 0 && IsSign(s[0]);
    var digits := if signed then s[1..] else s;
    if |digits| == 0 || !AllDigits(digits) then Failure(NumError("Atoi", s, ErrSyntax))
    else if signed && s[0] == MINUS then Success(-(DigitsValue(digits) as int))
    else Success(DigitsValue(digits))
  }

  /** Canonical decimal form of a natural number: no sign, no leading zeros. */
  function FormatNat(n: nat): (s: bytes)
    ensures |s| > 0 && AllDigits(s)
    ensures |s| > 1 ==> s[0] != ZERO
    decreases n
  {
    if n < 10 then [DigitByte(n)] else FormatNat(n / 10) + [DigitByte(n % 10)]
  }

  /** Canonical decimal form of an integer, '-' first when negative. */
  function Format(n: int): (s: bytes)
    ensures |s| > 0 && (n < 0 <==> s[0] == MINUS)
  {
    if n < 0 then [MINUS] + FormatNat(-n) else FormatNat(n)
  }

  lemma {:induction false} DigitsValueOfFormatNat(n: nat)
    ensures DigitsValue(FormatNat(n)) == n
    decreases n
  {
    var s := FormatNat(n);
    if n >= 10 {
      assert s[..|s| - 1] == FormatNat(n / 10);
      DigitsValueOfFormatNat(n / 10);
    }
  }

  /** Atoi inverts Format: every integer survives a round trip through its decimal text. */
  lemma AtoiFormat(n: int)
    ensures Atoi(Format(n)) == Success(n)
  {
    var s := Format(n);
    if n < 0 {
      assert s[1..] == FormatNat(-n);
      DigitsValueOfFormatNat(-n);
    } else {
      DigitsValueOfFormatNat(n);
    }
  }

  /** Exactly the strings of digits, with or without one leading sign, parse:
      the empty string, a lone sign and any non-digit after the sign fail. */
  lemma AtoiAccepts(s: bytes)
    ensures Atoi(s).Success? <==>
      (|s| > 0 && AllDigits(s)) || (|s| > 1 && IsSign(s[0]) && AllDigits(s[1..]))
  {
  }

  /** k zero digits. */
  function Zeros(k: nat): (z: bytes)
    ensures |z| == k && AllDigits(z)
    ensures forall i :: 0 <= i < k ==> z[i] == ZERO
  {
    if k == 0 then [] else Zeros(k - 1) + [ZERO]
  }

  lemma {:induction false} DigitsValueZeros(k: nat)
    ensures DigitsValue(Zeros(k)) == 0
  {
    if k > 0 {
      assert Zeros(k)[..k - 1] == Zeros(k - 1);
      DigitsValueZeros(k - 1);
    }
  }

  /** Leading zeros do not change the value of a digit string. */
  lemma {:induction false} DigitsValueLeadingZeros(k: nat, t: bytes)
    requires AllDigits(t)
    ensures AllDigits(Zeros(k) + t) && DigitsValue(Zeros(k) + t) == DigitsValue(t)
    decreases |t|
  {
    var u := Zeros(k) + t;
    assert AllDigits(u) by {
      forall i | 0 <= i < |u| ensures IsDigit(u[i]) {
        if i >= k { assert u[i] == t[i - k]; }
      }
    }
    if t == [] {
      assert u == Zeros(k);
      DigitsValueZeros(k);
    } else {
      assert u[..|u| - 1] == Zeros(k) + t[..|t| - 1];
      assert u[|u| - 1] == t[|t| - 1];
      DigitsValueLeadingZeros(k, t[..|t| - 1]);
    }
  }

  /** A non-empty digit string parses to its value, bare or after either sign. */
  lemma AtoiDigits(d: bytes, n: nat)
    requires |d| > 0 && AllDigits(d) && DigitsValue(d) == n
    ensures Atoi(d) == Success(n as int)
    ensures Atoi([PLUS] + d) == Success(n as int)
    ensures Atoi([MINUS] + d) == Success(-(n as int))
  {
    assert IsDigit(d[0]);
    assert ([PLUS] + d)[1..] == d;
    assert ([MINUS] + d)[1..] == d;
  }

  /** The canonical text of n after k zeros is still a digit string of value n. */
  lemma PaddedValue(n: nat, k: nat)
    ensures AllDigits(Zeros(k) + FormatNat(n)) && DigitsValue(Zeros(k) + FormatNat(n)) == n
  {
    DigitsValueLeadingZeros(k, FormatNat(n));
    DigitsValueOfFormatNat(n);
  }

  /** Atoi also reads non-canonical text: leading zeros and an explicit '+'
      are accepted, so "05", "+05" and "-05" parse to 5, 5 and -5. */
  lemma AtoiPadded(n: nat, k: nat)
    ensures Atoi(Zeros(k) + FormatNat(n)) == Success(n as int)
    ensures Atoi([PLUS] + (Zeros(k) + FormatNat(n))) == Success(n as int)
    ensures Atoi([MINUS] + (Zeros(k) + FormatNat(n))) == Success(-(n as int))
  {
    PaddedValue(n, k);
    AtoiDigits(Zeros(k) + FormatNat(n), n);
  }

  /** A one-byte string parses exactly when that byte is a digit, to that digit's value. */
  lemma AtoiSingleByte(b: byte)
    ensures Atoi([b]).Success? <==> IsDigit(b)
    ensures IsDigit(b) ==> Atoi([b]) == Success(DigitValue(b) as int)
  {
    if IsDigit(b) {
      assert [b][..0] == [];
      assert DigitsValue([b]) == DigitValue(b);
    }
  }
}
