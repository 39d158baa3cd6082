/**
 * The integer conversions the core relies on: `strconv.ParseInt(s, 2, 64)`,
 * Go's `&` on int64 values, and decimal formatting (`%d`) with its inverse.
 */
module Strconv {
  import opened Wrappers

  const MinInt64: int := -0x8000_0000_0000_0000
  const MaxInt64: int := 0x7FFF_FFFF_FFFF_FFFF
  const MaxUint64: int := 0xFFFF_FFFF_FFFF_FFFF

  /** The Err field of Go's *strconv.NumError. */
  datatype NumError = ErrSyntax | ErrRange

  // ---------------------------------------------------------------------
  // Reference meaning of a base-2 literal
  // ---------------------------------------------------------------------

  predicate IsBinaryDigits(s: string) {
    forall i :: 0 <= i < |s| ==> s[i] == '0' || s[i] == '1'
  }

  /** The value of a string of binary digits, most significant first. */
  function BinaryValue(s: string): nat
    requires IsBinaryDigits(s)
  {
    if s == [] then 0 else 2 * BinaryValue(s[..|s| - 1]) + (if s[|s| - 1] == '1' then 1 else 0)
  }

  /** s without its one optional leading sign. */
  function Unsigned(s: string): string {
    if s != [] && (s[0] == '+' || s[0] == '-') then s[1..] else s
  }

  /** An optional sign followed by at least one binary digit. */
  predicate IsBinaryLiteral(s: string) {
    Unsigned(s) != [] && IsBinaryDigits(Unsigned(s))
  }

  function LiteralValue(s: string): int
    requires IsBinaryLiteral(s)
  {
    if s[0] == '-' then -(BinaryValue(Unsigned(s)) as int) else BinaryValue(Unsigned(s))
  }

  lemma {:induction false} PrefixValueBounded(s: string, j: nat)
    requires IsBinaryDigits(s) && j <= |s|
    ensures BinaryValue(s[..j]) <= BinaryValue(s)
    decreases |s| - j
  {
    if j < |s| {
      var t := s[..j + 1];
      assert t[..|t| - 1] == s[..j];
      PrefixValueBounded(s, j + 1);
    } else {
      assert s[..j] == s;
    }
  }

  /** Some run of leading binary digits of s already exceeds 64 bits. */
  predicate Overflows(s: string) {
    exists m :: 0 <= m <= |s| && IsBinaryDigits(s[..m]) && BinaryValue(s[..m]) > MaxUint64
  }

  /**
   * When the digits before i fit in 64 bits and the digits stop at i, no
   * run of leading digits overflows.
   */
  lemma NoOverflowBefore(s: string, i: nat)
    requires i <= |s| && IsBinaryDigits(s[..i]) && BinaryValue(s[..i]) <= MaxUint64
    requires i == |s| || (s[i] != '0' && s[i] != '1')
    ensures !Overflows(s)
  {
    forall m | 0 <= m <= |s| && IsBinaryDigits(s[..m])
      ensures BinaryValue(s[..m]) <= MaxUint64
    {
      assert s[..i][..m] == s[..m];
      PrefixValueBounded(s[..i], m);
    }
  }

  // ---------------------------------------------------------------------
  // The parser
  // ---------------------------------------------------------------------

  /**
   * The digit loop of strconv.ParseUint for base 2 and 64 bits, from index i
   * on, where acc already holds the value of s[..i]. A character that is not
   * a digit is a syntax error; a digit arriving when acc has no room left
   * for it is a range error, whichever comes first.
   */
  function ParseDigits(s: string, i: nat, acc: nat): (r: Result<nat, NumError>)
    requires i <= |s| && IsBinaryDigits(s[..i]) && acc == BinaryValue(s[..i]) && acc <= MaxUint64
    ensures r.Success? <==> IsBinaryDigits(s) && BinaryValue(s) <= MaxUint64
    ensures r.Success? ==> r.value == BinaryValue(s)
    ensures r == Failure(ErrRange) <==> Overflows(s)
    decreases |s| - i
  {
    if i == |s| then
      assert s[..i] == s;
      NoOverflowBefore(s, i);
      Success(acc)
    else if s[i] != '0' && s[i] != '1' then
      NoOverflowBefore(s, i);
      Failure(ErrSyntax)
    else if acc >= 0x8000_0000_0000_0000 then
      var t := s[..i + 1];
      assert t[..|t| - 1] == s[..i];
      assert IsBinaryDigits(s) ==> BinaryValue(t) <= BinaryValue(s) by {
        if IsBinaryDigits(s) { PrefixValueBounded(s, i + 1); }
      }
      assert IsBinaryDigits(s[..i + 1]) && BinaryValue(s[..i + 1]) > MaxUint64;
      Failure(ErrRange)
    else
      var t := s[..i + 1];
      assert t[..|t| - 1] == s[..i];
      ParseDigits(s, i + 1, 2 * acc + (if s[i] == '1' then 1 else 0))
  }

  /** strconv.ParseUint(s, 2, 64). */
  function ParseUint(s: string): (r: Result<nat, NumError>)
    ensures r.Success? <==> s != [] && IsBinaryDigits(s) && BinaryValue(s) <= MaxUint64
    ensures r.Success? ==> r.value == BinaryValue(s)
    ensures s == [] ==> r == Failure(ErrSyntax)
    ensures r == Failure(ErrRange) <==> Overflows(s)
  {
    if s == [] then
      NoOverflowBefore(s, 0);
      Failure(ErrSyntax)
    else
      assert s[..0] == [];
      ParseDigits(s, 0, 0)
  }

  /**
   * strconv.ParseInt(s, 2, 64): an optional sign, then ParseUint on the rest;
   * a magnitude beyond int64 is a range error.
   */
  function ParseInt(s: string): (r: Result<int, NumError>)
    ensures r.Success? <==> IsBinaryLiteral(s) && MinInt64 <= LiteralValue(s) <= MaxInt64
    ensures r.Success? ==> r.value == LiteralValue(s)
    ensures s == [] ==> r == Failure(ErrSyntax)
    ensures r == Failure(ErrRange) <==>
      Overflows(Unsigned(s)) || (IsBinaryLiteral(s) && !(MinInt64 <= LiteralValue(s) <= MaxInt64))
  {
    if s == [] then Failure(ErrSyntax)
    else
      var neg := s[0] == '-';
      assert Unsigned(s)[..|Unsigned(s)|] == Unsigned(s);
      match ParseUint(Unsigned(s))
      case Failure(e) => Failure(e)
      case Success(u) =>
        if !neg && u > MaxInt64 then Failure(ErrRange)
        else if neg && u > -MinInt64 then Failure(ErrRange)
        else Success(if neg then -(u as int) else u)
  }

  /**
   * Digits that overflow are a range error whatever follows them: the loop
   * stops at the overflow before it reaches a later bad character.
   */
  lemma RangeErrorBeforeLaterSyntax(digits: string, rest: string)
    requires digits != [] && IsBinaryDigits(digits) && BinaryValue(digits) > MaxUint64
    ensures ParseInt(digits + rest) == Failure(ErrRange)
  {
    var s := digits + rest;
    assert Unsigned(s) == s;
    assert s[..|digits|] == digits;
  }

  /**
   * The int64 ParseInt returns beside its error: 0 after a syntax error,
   * the bound on the side of the sign after a range error.
   */
  function ParseIntValue(s: string): (v: int)
    ensures MinInt64 <= v <= MaxInt64
    ensures ParseInt(s).Success? ==> v == LiteralValue(s)
    ensures ParseInt(s) == Failure(ErrSyntax) ==> v == 0
    ensures ParseInt(s) == Failure(ErrRange) ==> s != [] && v == (if s[0] == '-' then MinInt64 else MaxInt64)
  {
    match ParseInt(s)
    case Success(v) => v
    case Failure(ErrSyntax) => 0
    case Failure(ErrRange) => if s[0] == '-' then MinInt64 else MaxInt64
  }

  /** The error ParseInt returns, nil or not. */
  function ParseIntError(s: string): (e: Option<NumError>)
    ensures e == None <==> ParseInt(s).Success?
    ensures e.Some? ==> ParseInt(s) == Failure(e.value)
  {
    match ParseInt(s)
    case Success(_) => None
    case Failure(err) => Some(err)
  }

  /** A digit string shorter than 64 characters always parses, to its value. */
  lemma ShortDigitsParse(s: string)
    requires s != [] && IsBinaryDigits(s) && |s| <= 63
    ensures ParseInt(s) == Success(BinaryValue(s) as int)
  {
    assert BinaryValue(s) <= MaxInt64 by {
      BinaryValueBound(s);
      Pow2Monotone(|s|, 63);
      Pow2Of63();
    }
    assert Unsigned(s) == s;
    assert IsBinaryLiteral(s) && LiteralValue(s) == BinaryValue(s);
  }

  // ---------------------------------------------------------------------
  // Bits
  // ---------------------------------------------------------------------

  function Pow2(k: nat): (p: nat)
    ensures p >= 1
  {
    if k == 0 then 1 else 2 * Pow2(k - 1)
  }

  lemma {:induction false} Pow2Add(a: nat, b: nat)
    ensures Pow2(a + b) == Pow2(a) * Pow2(b)
    decreases a
  {
    if a > 0 { Pow2Add(a - 1, b); }
  }

  lemma {:induction false} Pow2Monotone(a: nat, b: nat)
    requires a <= b
    ensures Pow2(a) <= Pow2(b)
    decreases b
  {
    if a < b { Pow2Monotone(a, b - 1); }
  }

  lemma Pow2Of63()
    ensures Pow2(63) == 0x8000_0000_0000_0000 == MaxInt64 + 1 == -MinInt64
  {
    assert Pow2(4) == 16;
    Pow2Add(4, 4);
    assert Pow2(8) == 0x100;
    Pow2Add(8, 8);
    assert Pow2(16) == 0x1_0000;
    Pow2Add(16, 16);
    assert Pow2(32) == 0x1_0000_0000;
    Pow2Add(32, 32);
    assert Pow2(64) == 0x1_0000_0000_0000_0000 == 2 * Pow2(63);
  }

  /** A string of n binary digits has a value below 2^n. */
  lemma {:induction false} BinaryValueBound(s: string)
    requires IsBinaryDigits(s)
    ensures BinaryValue(s) < Pow2(|s|)
  {
    if s != [] {
      BinaryValueBound(s[..|s| - 1]);
    }
  }

  /** Bit k of x in two's complement (so every bit of -1 is set). */
  function Bit(x: int, k: nat): bool
    decreases k
  {
    if k == 0 then x % 2 == 1 else Bit(x / 2, k - 1)
  }

  /**
   * Bitwise AND of two integers in two's complement, as Go computes `x & y`
   * on int64 operands (they agree on every value int64 can hold).
   */
  function And(x: int, y: int): int
    decreases (if x < 0 then -x else x) + (if y < 0 then -y else y)
  {
    if x == 0 || y == 0 then 0
    else if x == -1 then y
    else if y == -1 then x
    else 2 * And(x / 2, y / 2) + (if x % 2 == 1 && y % 2 == 1 then 1 else 0)
  }

  lemma {:induction false} BitOfZero(k: nat)
    ensures !Bit(0, k)
  {
    if k > 0 { BitOfZero(k - 1); }
  }

  lemma {:induction false} BitOfMinusOne(k: nat)
    ensures Bit(-1, k)
  {
    if k > 0 { BitOfMinusOne(k - 1); }
  }

  /** The low n bits of 2^n - 1 are set, and no other. */
  lemma {:induction false} BitOfLowOnes(n: nat, k: nat)
    ensures Bit(Pow2(n) - 1, k) <==> k < n
    decreases k
  {
    if n == 0 {
      BitOfZero(k);
    } else if k > 0 {
      assert (Pow2(n) - 1) / 2 == Pow2(n - 1) - 1;
      BitOfLowOnes(n - 1, k - 1);
    }
  }

  /** The low n bits of -2^n are clear. */
  lemma {:induction false} BitOfMinusPow2(n: nat, k: nat)
    requires k < n
    ensures !Bit(-(Pow2(n) as int), k)
    decreases k
  {
    if k > 0 {
      assert -(Pow2(n) as int) / 2 == -(Pow2(n - 1) as int);
      BitOfMinusPow2(n - 1, k - 1);
    }
  }

  /** Masking with a single bit keeps that bit of x and nothing else. */
  lemma {:induction false} AndSingleBit(x: int, k: nat)
    ensures And(x, Pow2(k)) == if Bit(x, k) then Pow2(k) else 0
    decreases k
  {
    if x == 0 {
      BitOfZero(k);
    } else if x == -1 {
      BitOfMinusOne(k);
    } else if k > 0 {
      AndSingleBit(x / 2, k - 1);
      assert Pow2(k) / 2 == Pow2(k - 1);
    }
  }

  /** Bit k of the value of a digit string is its k-th digit from the right. */
  lemma {:induction false} BitOfBinary(s: string, k: nat)
    requires IsBinaryDigits(s)
    ensures Bit(BinaryValue(s), k) <==> k < |s| && s[|s| - 1 - k] == '1'
  {
    if s == [] {
      BitOfZero(k);
    } else if k > 0 {
      var init := s[..|s| - 1];
      var d := if s[|s| - 1] == '1' then 1 else 0;
      assert BinaryValue(s) == 2 * BinaryValue(init) + d;
      assert BinaryValue(s) / 2 == BinaryValue(init);
      BitOfBinary(init, k - 1);
    }
  }

  // ---------------------------------------------------------------------
  // Decimal formatting and its inverse
  // ---------------------------------------------------------------------

  predicate IsDecimalDigits(s: string) {
    forall i :: 0 <= i < |s| ==> '0' <= s[i] <= '9'
  }

  function DigitChar(d: nat): (c: char)
    requires d < 10
    ensures '0' <= c <= '9'
  {
    ('0' as int + d) as char
  }

  /** strconv.FormatUint(n, 10): no leading zeros, "0" for zero. */
  function FormatNat(n: nat): (s: string)
    ensures s != [] && IsDecimalDigits(s)
  {
    if n < 10 then [DigitChar(n)] else FormatNat(n / 10) + [DigitChar(n % 10)]
  }

  /** fmt's %d on an integer. */
  function FormatInt(x: int): (s: string)
    ensures s != []
  {
    if x < 0 then "-" + FormatNat(-x) else FormatNat(x)
  }

  function DecimalValue(s: string): nat
    requires IsDecimalDigits(s)
  {
    if s == [] then 0 else 10 * DecimalValue(s[..|s| - 1]) + (s[|s| - 1] as int - '0' as int)
  }

  /** Reads back what FormatInt writes: an optional '-' and at least one digit. */
  function ParseDecimal(s: string): Option<int> {
    if s != [] && s[0] == '-' && s[1..] != [] && IsDecimalDigits(s[1..]) then Some(-(DecimalValue(s[1..]) as int))
    else if s != [] && IsDecimalDigits(s) then Some(DecimalValue(s))
    else None
  }

  lemma {:induction false} FormatNatRoundTrip(n: nat)
    ensures DecimalValue(FormatNat(n)) == n
  {
    if n >= 10 {
      var s := FormatNat(n);
      assert s[..|s| - 1] == FormatNat(n / 10);
      FormatNatRoundTrip(n / 10);
    }
  }

  /** Decimal formatting loses nothing: parsing it back gives the number. */
  lemma FormatIntRoundTrip(x: int)
    ensures ParseDecimal(FormatInt(x)) == Some(x)
  {
    var s := FormatInt(x);
    if x < 0 {
      assert s[0] == '-' && s[1..] == FormatNat(-x);
      FormatNatRoundTrip(-x);
    } else {
      assert s == FormatNat(x) && s[0] != '-';
      FormatNatRoundTrip(x);
    }
  }

  lemma FormatIntInjective(x: int, y: int)
    ensures FormatInt(x) == FormatInt(y) ==> x == y
  {
    FormatIntRoundTrip(x);
    FormatIntRoundTrip(y);
  }
}
