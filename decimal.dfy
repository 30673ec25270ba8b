/** Decimal rendering of integers as Rust's `Display` and `{:0N}` formats
    print them, together with the digit-string value used to read them back. */
module Decimal {

  function DigitChar(d: nat): (c: char)
    requires d < 10
    ensures '0' <= c <= '9'
  {
    (48 + d) as char
  }

  predicate AllDigits(s: string) {
    forall i :: 0 <= i < |s| ==> '0' <= s[i] <= '9'
  }

  /** The number a string of ASCII digits denotes (leading zeros allowed). */
  function Value(s: string): nat
    requires AllDigits(s)
  {
    if s == [] then 0 else 10 * Value(s[..|s| - 1]) + (s[|s| - 1] as int - 48)
  }

  function Pow10(k: nat): (p: nat)
    ensures p >= 1
  {
    if k == 0 then 1 else 10 * Pow10(k - 1)
  }

  /** Rust's `Display` for an unsigned integer: shortest digit string. */
  function NatToString(n: nat): (r: string)
    ensures 1 <= |r| && AllDigits(r)
    ensures |r| > 1 ==> r[0] != '0'
    decreases n
  {
    if n < 10 then [DigitChar(n)] else NatToString(n / 10) + [DigitChar(n % 10)]
  }

  /** The shortest rendering has no more digits than the number needs. */
  lemma {:induction false} NatToStringBound(n: nat)
    ensures n < Pow10(|NatToString(n)|)
    decreases n
  {
    if n >= 10 {
      NatToStringBound(n / 10);
    }
  }

  lemma {:induction false} NatToStringRoundTrip(n: nat)
    ensures Value(NatToString(n)) == n
    decreases n
  {
    if n >= 10 {
      NatToStringRoundTrip(n / 10);
      var s := NatToString(n);
      assert s[..|s| - 1] == NatToString(n / 10);
    }
  }

  function Zeros(k: nat): (r: string)
    ensures |r| == k && AllDigits(r)
    ensures forall i :: 0 <= i < k ==> r[i] == '0'
  {
    seq(k, i => '0')
  }

  lemma {:induction false} ValueOfZerosPrefix(k: nat, s: string)
    requires AllDigits(s)
    ensures AllDigits(Zeros(k) + s) && Value(Zeros(k) + s) == Value(s)
    decreases |s|
  {
    var z := Zeros(k);
    if s == [] {
      assert z + s == z;
      ZerosValue(k);
    } else {
      ValueOfZerosPrefix(k, s[..|s| - 1]);
      assert (z + s)[..|z + s| - 1] == z + s[..|s| - 1];
    }
  }

  lemma {:induction false} ZerosValue(k: nat)
    ensures Value(Zeros(k)) == 0
  {
    if k > 0 {
      ZerosValue(k - 1);
      assert Zeros(k)[..k - 1] == Zeros(k - 1);
    }
  }

  /** Rust's `{:0width}` for an unsigned integer: zero-padded on the left to
      at least `width` characters, never truncated. */
  function PaddedNat(n: nat, width: nat): (r: string)
    ensures AllDigits(r)
    ensures |r| == if |NatToString(n)| < width then width else |NatToString(n)|
    ensures Value(r) == n
  {
    var digits := NatToString(n);
    NatToStringRoundTrip(n);
    if |digits| < width then
      ValueOfZerosPrefix(width - |digits|, digits);
      Zeros(width - |digits|) + digits
    else digits
  }

  /** A number below `10^width` fills exactly `width` characters. */
  lemma {:induction false} PaddedNatWidth(n: nat, width: nat)
    requires 1 <= width && n < Pow10(width)
    ensures |PaddedNat(n, width)| == width
  {
    ShortEnough(n, width);
  }

  lemma {:induction false} ShortEnough(n: nat, width: nat)
    requires 1 <= width && n < Pow10(width)
    ensures |NatToString(n)| <= width
    decreases n
  {
    if n >= 10 {
      assert width > 1;
      ShortEnough(n / 10, width - 1);
    }
  }

  /** Rust's `Display` for a signed integer. */
  function IntToString(i: int): (r: string)
    ensures i >= 0 ==> r == NatToString(i)
    ensures i < 0 ==> r == "-" + NatToString(-i)
  {
    if i < 0 then "-" + NatToString(-i) else NatToString(i)
  }
}
