/** std::to_string, std::stoi and std::stol, on which both codecs stand. */
module Decimal {
  import opened Base

  const ZERO: byte := 48
  const MINUS: byte := 45
  const PLUS: byte := 43

  function Digits(n: nat): (s: bytes)
    ensures |s| > 0
  {
    if n < 10 then [ZERO + n] else Digits(n / 10) + [ZERO + n % 10]
  }

  function ToString(v: int): bytes {
    if v < 0 then [MINUS] + Digits(-v) else Digits(v)
  }

  predicate IsDigit(b: byte) {
    ZERO <= b <= ZERO + 9
  }

  predicate IsSpace(b: byte) {
    b == 32 || 9 <= b <= 13
  }

  function SpaceRun(s: bytes): (n: nat)
    ensures n <= |s|
  {
    if s != [] && IsSpace(s[0]) then 1 + SpaceRun(s[1..]) else 0
  }

  /** Reads digits onto acc; returns the number and how many characters were used. */
  function Scan(s: bytes, acc: nat, used: nat): (r: (nat, nat))
    ensures used <= r.1 <= used + |s|
  {
    if s != [] && IsDigit(s[0]) then Scan(s[1..], acc * 10 + (s[0] - ZERO), used + 1) else (acc, used)
  }

  /** strtol with the range check of stoi or stol: value and number of characters used. */
  function StrToInt(s: bytes, low: int, high: int): (r: Result<(int, nat)>)
    ensures r.Ok? ==> low <= r.value.0 <= high && r.value.1 <= |s|
  {
    var start := SpaceRun(s);
    var signed := start < |s| && (s[start] == MINUS || s[start] == PLUS);
    var first := if signed then start + 1 else start;
    var (magnitude, end) := Scan(s[first..], 0, first);
    if end == first then Err(InvalidArgument)
    else InRange(if signed && s[start] == MINUS then 0 - magnitude else magnitude, end, low, high)
  }

  function InRange(value: int, end: nat, low: int, high: int): Result<(int, nat)> {
    if low <= value <= high then Ok((value, end)) else Err(OutOfRange)
  }

  predicate Stops(rest: bytes) {
    rest == [] || !IsDigit(rest[0])
  }

  lemma {:induction false} ScanPastDigits(n: nat, rest: bytes, used: nat)
    ensures Scan(Digits(n) + rest, 0, used) == Scan(rest, n, used + |Digits(n)|)
  {
    if n >= 10 {
      var last := [ZERO + n % 10];
      ScanPastDigits(n / 10, last + rest, used);
      assert Digits(n) + rest == Digits(n / 10) + (last + rest);
      ScanOne(ZERO + n % 10, rest, n / 10, used + |Digits(n / 10)|);
    } else {
      ScanOne(ZERO + n, rest, 0, used);
    }
  }

  lemma ScanOne(digit: byte, rest: bytes, acc: nat, used: nat)
    requires IsDigit(digit)
    ensures Scan([digit] + rest, acc, used) == Scan(rest, acc * 10 + (digit - ZERO), used + 1)
  {
    assert ([digit] + rest)[1..] == rest;
  }

  lemma {:induction false} DigitsStartWithDigit(n: nat)
    ensures IsDigit(Digits(n)[0])
  {
    if n >= 10 {
      DigitsStartWithDigit(n / 10);
    }
  }

  predicate AllSpace(s: bytes) {
    forall i :: 0 <= i < |s| ==> s[i] == 32 || 9 <= s[i] <= 13
  }

  lemma {:induction false} SpacesRun(spaces: bytes, rest: bytes)
    requires AllSpace(spaces) && (rest == [] || !(rest[0] == 32 || 9 <= rest[0] <= 13))
    ensures SpaceRun(spaces + rest) == |spaces|
  {
    if spaces == [] {
      assert spaces + rest == rest;
    } else {
      SpacesRun(spaces[1..], rest);
      assert (spaces + rest)[1..] == spaces[1..] + rest;
    }
  }

  /** Blanks and a sign may stand before the number; they count as used. */
  lemma ReadsNumber(spaces: bytes, sign: bytes, n: nat, rest: bytes, low: int, high: int)
    requires AllSpace(spaces) && (sign == [] || sign == [43] || sign == [45])
    requires rest == [] || !(48 <= rest[0] <= 57)
    ensures var v := if sign == [45] then 0 - n else n;
            StrToInt(spaces + (sign + Digits(n) + rest), low, high)
              == if low <= v <= high then Ok((v, |spaces| + |sign| + |Digits(n)|)) else Err(OutOfRange)
  {
    hide Digits;
    var number := sign + Digits(n) + rest;
    DigitsStartWithDigit(n);
    SpacesRun(spaces, number);
    ScanPastDigits(n, rest, |spaces| + |sign|);
    var s := spaces + number;
    assert s[|spaces| + |sign|..] == Digits(n) + rest;
    assert s[|spaces|] == number[0];
    assert sign == [] ==> number[0] == Digits(n)[0];
  }

  /** What to_string prints, stoi and stol read back, and they stop right behind it; a value
      outside the target type is refused and never comes back as another number. */
  lemma RoundTrip(v: int, rest: bytes, low: int, high: int)
    requires Stops(rest)
    ensures StrToInt(ToString(v) + rest, low, high)
         == if low <= v <= high then Ok((v, |ToString(v)|)) else Err(OutOfRange)
  {
    hide StrToInt;
    var magnitude: nat := if v < 0 then -v else v;
    var sign: bytes := if v < 0 then [MINUS] else [];
    ReadsNumber([], sign, magnitude, rest, low, high);
    assert [] + (sign + Digits(magnitude) + rest) == ToString(v) + rest;
  }

  /** Without a digit behind them there is nothing to convert. */
  lemma ReadsNothing(spaces: bytes, sign: bytes, rest: bytes, low: int, high: int)
    requires AllSpace(spaces) && (sign == [] || sign == [43] || sign == [45])
    requires rest == [] || !(48 <= rest[0] <= 57)
    requires sign == [] && rest != [] ==> !(rest[0] == 32 || 9 <= rest[0] <= 13 || rest[0] == 43 || rest[0] == 45)
    ensures StrToInt(spaces + (sign + rest), low, high) == Err(InvalidArgument)
  {
    SpacesRun(spaces, sign + rest);
    var s := spaces + (sign + rest);
    assert s[|spaces| + |sign|..] == rest;
    assert sign + rest != [] ==> s[|spaces|] == (sign + rest)[0];
  }

  /** Numbers are printed in ASCII, most significant digit first. */
  lemma Printed()
    ensures ToString(0) == [48] && ToString(105) == [49, 48, 53] && ToString(-79) == [45, 55, 57]
  {
    assert Digits(10) == Digits(1) + [48] && Digits(105) == Digits(10) + [53];
  }

  function Power10(k: nat): nat {
    if k == 0 then 1 else 10 * Power10(k - 1)
  }

  /** n has at most k decimal digits exactly when n is below ten to the k. */
  lemma {:induction false} DigitCount(n: nat, k: nat)
    requires k > 0
    ensures |Digits(n)| <= k <==> n < Power10(k)
  {
    if k == 1 {
      assert Power10(1) == 10 * Power10(0);
    } else if n < 10 {
      Power10Positive(k - 1);
    } else {
      DigitCount(n / 10, k - 1);
    }
  }

  lemma Power10Positive(k: nat)
    ensures Power10(k) >= 1
  {
  }
}
