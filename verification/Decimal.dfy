/** The decimal text that the agent writes with printf and reads back with atoi and strtol. */
module Decimal {
  import opened Bytes

  predicate IsDigit(b: byte) { 48 <= b <= 57 }

  function Pow10(k: nat): (r: nat)
    ensures r >= 1
  {
    if k == 0 then 1 else 10 * Pow10(k - 1)
  }

  /** "%u": no padding, at least one digit. */
  function Digits(n: nat): (s: seq<byte>)
    ensures |s| >= 1 && forall i :: 0 <= i < |s| ==> IsDigit(s[i])
  {
    if n < 10 then [ZERO + n] else Digits(n / 10) + [ZERO + n % 10]
  }

  function Zeros(k: nat): (s: seq<byte>)
    ensures |s| == k && forall i :: 0 <= i < k ==> s[i] == ZERO
  {
    seq(k, i => ZERO)
  }

  /** "%09d" of a non-negative number. */
  function Padded9(n: nat): (s: seq<byte>)
    ensures |s| >= 9 && forall i :: 0 <= i < |s| ==> IsDigit(s[i])
  {
    var d := Digits(n);
    if |d| < 9 then Zeros(9 - |d|) + d else d
  }

  /** The digit loop shared by atoi and strtol: value and number of bytes consumed. */
  function ScanDigits(s: seq<byte>, acc: nat): (r: (nat, nat))
    ensures r.1 <= |s|
  {
    if s == [] || !IsDigit(s[0]) then (acc, 0)
    else
      var (v, k) := ScanDigits(s[1..], 10 * acc + (s[0] - ZERO));
      (v, k + 1)
  }

  /** strtol(s, &end, 10) on the bytes before the NUL: the value and where it stopped.
      With no digits at all the value is 0 and end is s itself. */
  function Strtol(s: seq<byte>): (r: (int, nat))
    ensures r.1 <= |s|
    decreases |s|
  {
    if s != [] && IsSpace(s[0]) then
      var (v, k) := Strtol(s[1..]);
      (v, if k == 0 then 0 else k + 1)
    else if s != [] && (s[0] == 45 || s[0] == 43) then
      var r := ScanDigits(s[1..], 0);
      var v: int := r.0;
      (if s[0] == 45 then -v else v, if r.1 == 0 then 0 else r.1 + 1)
    else
      ScanDigits(s, 0)
  }

  function Atoi(s: seq<byte>): int { Strtol(CStr(s)).0 }

  // ---- Lemmas --------------------------------------------------------------

  lemma {:induction false} ScanAppend(a: seq<byte>, b: seq<byte>, acc: nat)
    requires forall i :: 0 <= i < |a| ==> IsDigit(a[i])
    ensures ScanDigits(a + b, acc).0 == ScanDigits(b, ScanDigits(a, acc).0).0
    ensures ScanDigits(a + b, acc).1 == |a| + ScanDigits(b, ScanDigits(a, acc).0).1
  {
    if a == [] {
      assert a + b == b;
    } else {
      assert (a + b)[1..] == a[1..] + b;
      ScanAppend(a[1..], b, 10 * acc + (a[0] - ZERO));
    }
  }

  lemma {:induction false} ScanOfDigits(n: nat)
    ensures ScanDigits(Digits(n), 0).0 == n
  {
    if n >= 10 {
      ScanOfDigits(n / 10);
      ScanAppend(Digits(n / 10), [ZERO + n % 10], 0);
    }
  }

  lemma {:induction false} ScanOfZeros(k: nat)
    ensures ScanDigits(Zeros(k), 0).0 == 0
  {
    if k > 0 {
      assert Zeros(k)[1..] == Zeros(k - 1);
      ScanOfZeros(k - 1);
    }
  }

  lemma {:induction false} DigitsLength(n: nat, k: nat)
    requires k >= 1
    ensures |Digits(n)| <= k <==> n < Pow10(k)
    decreases n
  {
    if n < 10 {
      Pow10Monotone(1, k);
    } else if k == 1 {
    } else {
      DigitsLength(n / 10, k - 1);
    }
  }

  lemma {:induction false} Pow10Monotone(a: nat, b: nat)
    requires a <= b
    ensures Pow10(a) <= Pow10(b)
  {
    if a < b { Pow10Monotone(a, b - 1); }
  }

  /** strtol undoes "%u" and consumes the whole text, whatever non-digit follows it. */
  lemma StrtolOfDigits(n: nat)
    ensures Strtol(Digits(n)) == (n, |Digits(n)|)
  {
    var d := Digits(n);
    ScanOfDigits(n);
    ScanAppend(d, [], 0);
    assert d + [] == d;
    assert IsDigit(d[0]);
  }

  /** White space, a sign or none, and digits to the end. */
  predicate IsNumber(s: seq<byte>) {
    if s != [] && IsSpace(s[0]) then IsNumber(s[1..])
    else IsUnsigned(if s != [] && s[0] in {43, 45} then s[1..] else s)
  }

  predicate IsUnsigned(s: seq<byte>) { s != [] && forall i :: 0 <= i < |s| ==> IsDigit(s[i]) }

  lemma {:induction false} ScanAll(s: seq<byte>, acc: nat)
    ensures ScanDigits(s, acc).1 == |s| <==> forall i :: 0 <= i < |s| ==> IsDigit(s[i])
  {
    if s != [] && IsDigit(s[0]) {
      ScanAll(s[1..], 10 * acc + (s[0] - ZERO));
      assert s == [s[0]] + s[1..];
    }
  }

  /** strtol stops at the end of the text exactly if the text is a number. */
  lemma {:induction false} StrtolConsumesIff(s: seq<byte>)
    requires s != []
    ensures Strtol(s).1 == |s| <==> IsNumber(s)
    decreases |s|
  {
    if IsSpace(s[0]) {
      if |s| > 1 { StrtolConsumesIff(s[1..]); }
    } else if s[0] in {43, 45} {
      ScanAll(s[1..], 0);
    } else {
      ScanAll(s, 0);
    }
  }

  lemma {:induction false} NumberHasNoNul(s: seq<byte>)
    requires IsNumber(s)
    ensures NUL !in s
  {
    if s != [] && IsSpace(s[0]) { NumberHasNoNul(s[1..]); }
  }

  lemma NoNulInDigits(s: seq<byte>)
    requires forall i :: 0 <= i < |s| ==> IsDigit(s[i])
    ensures NUL !in s
  {
  }

  /** atoi undoes "%09d " for every length the protocol admits, in exactly ten bytes. */
  lemma HeaderRoundTrip(n: nat)
    requires n < 1000000000
    ensures |Padded9(n)| == 9
    ensures Atoi(Padded9(n) + [SPACE]) == n
  {
    assert Pow10(9) == 1000000000 by {
      assert Pow10(3) == 1000;
      assert Pow10(6) == 1000000;
    }
    DigitsLength(n, 9);
    var d := Digits(n);
    var z := Zeros(9 - |d|);
    var p := z + d;
    assert Padded9(n) == p by { if |d| == 9 { assert p == d; } }
    ScanOfZeros(9 - |d|);
    ScanOfDigits(n);
    ScanAppend(z, d, 0);
    ScanAppend(p, [SPACE], 0);
    var h := p + [SPACE];
    NoNulInDigits(p);
    CStrWithoutNul(h);
    assert IsDigit(h[0]);
  }
}
