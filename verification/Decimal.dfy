/** Decimal notation of integers, as `format!` writes it. */
module Decimal {

  function Digit(d: nat): char
    requires d < 10
  {
    '0' + d as char
  }

  function Digits(n: nat): (s: string)
    ensures s != ""
    ensures forall i :: 0 <= i < |s| ==> '0' <= s[i] <= '9'
  {
    if n < 10 then [Digit(n)] else Digits(n / 10) + [Digit(n % 10)]
  }

  /** `{}` */
  function Show(n: int): (s: string)
    ensures s != ""
    ensures forall i :: 0 <= i < |s| ==> s[i] == '-' || '0' <= s[i] <= '9'
  {
    if n < 0 then "-" + Digits(-n) else Digits(n)
  }

  /** `{:0width}` of a natural number */
  function Pad(n: nat, width: nat): string {
    Zeros(width - |Digits(n)|) + Digits(n)
  }

  function Zeros(n: int): string {
    if n <= 0 then "" else Zeros(n - 1) + "0"
  }

  /** Reading digits back. */
  function Value(s: string): int {
    if s == "" then 0 else Value(s[..|s| - 1]) * 10 + (s[|s| - 1] as int - '0' as int)
  }

  lemma {:induction false} ReadDigits(n: nat)
    ensures Value(Digits(n)) == n
  {
    var s := Digits(n);
    if n < 10 {
      assert s[..|s| - 1] == "";
    } else {
      assert s[..|s| - 1] == Digits(n / 10);
      ReadDigits(n / 10);
    }
  }

  lemma {:induction false} ReadZeros(k: int)
    ensures Value(Zeros(k)) == 0
  {
    if k > 0 {
      assert Zeros(k)[..|Zeros(k)| - 1] == Zeros(k - 1);
      ReadZeros(k - 1);
    }
  }

  lemma {:induction false} ReadAfterZeros(k: int, s: string)
    ensures Value(Zeros(k) + s) == Value(s)
  {
    if s == "" {
      ReadZeros(k);
      assert Zeros(k) + s == Zeros(k);
    } else {
      var n := |s| - 1;
      assert (Zeros(k) + s)[..|Zeros(k) + s| - 1] == Zeros(k) + s[..n];
      ReadAfterZeros(k, s[..n]);
    }
  }

  /** A padded number reads back. */
  lemma ReadPad(n: nat, width: nat)
    ensures Value(Pad(n, width)) == n
  {
    ReadAfterZeros(width - |Digits(n)|, Digits(n));
    ReadDigits(n);
  }

  lemma {:induction false} ZerosLength(k: int)
    ensures |Zeros(k)| == if k <= 0 then 0 else k
  {
    if k > 0 {
      ZerosLength(k - 1);
    }
  }

  /** Different integers are written differently. */
  lemma ShowInjective(a: int, b: int)
    requires Show(a) == Show(b)
    ensures a == b
  {
    assert (a < 0 <==> Show(a)[0] == '-') && (b < 0 <==> Show(b)[0] == '-');
    if a < 0 && b < 0 {
      assert Show(a)[1..] == Digits(-a) && Show(b)[1..] == Digits(-b);
      DigitsInjective(-a, -b);
    } else if a >= 0 && b >= 0 {
      DigitsInjective(a, b);
    }
  }

  lemma DigitsInjective(a: nat, b: nat)
    requires Digits(a) == Digits(b)
    ensures a == b
  {
    ReadDigits(a);
    ReadDigits(b);
  }
}
