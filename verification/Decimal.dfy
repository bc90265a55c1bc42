/** Decimal numerals and their order as text. */
module Decimal {
  import opened Js

  predicate IsDigit(c: char) {
    '0' <= c <= '9'
  }

  function Digit(n: nat): (c: char)
    requires n < 10
    ensures IsDigit(c)
  {
    '0' + n as char
  }

  predicate Digits(s: string) {
    forall i :: 0 <= i < |s| ==> IsDigit(s[i])
  }

  /** `BigInt(n).toString(10)` */
  function ToDec(n: nat): (s: string)
    ensures s != [] && Digits(s)
  {
    if n < 10 then [Digit(n)] else ToDec(n / 10) + [Digit(n % 10)]
  }

  function Value(s: string): nat
    requires Digits(s)
  {
    if s == [] then 0 else 10 * Value(s[..|s| - 1]) + (s[|s| - 1] as int - '0' as int)
  }

  /** A decimal quantity read back from text. */
  function ParseDec(s: string): Option<nat> {
    if s != [] && Digits(s) then Some(Value(s)) else None
  }

  function Zeros(n: nat): (s: string)
    ensures |s| == n && Digits(s)
  {
    if n == 0 then [] else Zeros(n - 1) + ['0']
  }

  /** `padStart(width, '0')` */
  function PadStart(s: string, width: nat): string {
    if |s| >= width then s else Zeros(width - |s|) + s
  }

  function Pow10(n: nat): (r: nat)
    ensures r >= 1
  {
    if n == 0 then 1 else 10 * Pow10(n - 1)
  }

  lemma ValueSnoc(s: string, c: char)
    requires Digits(s) && IsDigit(c)
    ensures Digits(s + [c]) && Value(s + [c]) == 10 * Value(s) + (c as int - '0' as int)
  {
    assert (s + [c])[..|s|] == s;
  }

  lemma {:induction false} ToDecValue(n: nat)
    ensures Value(ToDec(n)) == n
  {
    if n < 10 {
      ValueSnoc([], Digit(n));
      assert [] + [Digit(n)] == ToDec(n);
    } else {
      ToDecValue(n / 10);
      ValueSnoc(ToDec(n / 10), Digit(n % 10));
    }
  }

  lemma DecRoundTrip(n: nat)
    ensures ParseDec(ToDec(n)) == Some(n)
  {
    ToDecValue(n);
  }

  lemma {:induction false} ZerosValue(k: nat, s: string)
    requires Digits(s)
    ensures Digits(Zeros(k) + s) && Value(Zeros(k) + s) == Value(s)
  {
    if s == [] {
      assert Zeros(k) + s == Zeros(k);
      if k > 0 {
        ZerosValue(k - 1, []);
        assert Zeros(k - 1) + [] == Zeros(k - 1);
        ValueSnoc(Zeros(k - 1), '0');
      }
    } else {
      var front, last := s[..|s| - 1], s[|s| - 1];
      ZerosValue(k, front);
      ValueSnoc(Zeros(k) + front, last);
      assert Zeros(k) + s == Zeros(k) + front + [last];
    }
  }

  lemma PadValue(s: string, width: nat)
    requires Digits(s)
    ensures Digits(PadStart(s, width)) && Value(PadStart(s, width)) == Value(s)
  {
    if |s| < width {
      ZerosValue(width - |s|, s);
    }
  }

  lemma {:induction false} ToDecFits(n: nat, width: nat)
    requires width > 0
    ensures |ToDec(n)| <= width <==> n < Pow10(width)
  {
    if n >= 10 {
      if width == 1 {
        assert Pow10(1) == 10 * Pow10(0) == 10;
      } else {
        ToDecFits(n / 10, width - 1);
        var p := Pow10(width - 1);
        assert n / 10 < p <==> n < 10 * p;
      }
    } else {
      assert Pow10(width) == 10 * Pow10(width - 1);
    }
  }

  // ---------------------------------------------------------------- text order

  /** `a < b` on strings of code units. */
  predicate TextLess(a: string, b: string) {
    b != [] && (a == [] || a[0] < b[0] || (a[0] == b[0] && TextLess(a[1..], b[1..])))
  }

  lemma {:induction false} TextLessAppend(a: string, r: string, b: string, t: string)
    requires |a| == |b|
    ensures TextLess(a + r, b + t) <==> TextLess(a, b) || (a == b && TextLess(r, t))
  {
    if a == [] {
      assert a + r == r && b + t == t;
    } else {
      assert (a + r)[1..] == a[1..] + r && (b + t)[1..] == b[1..] + t;
      TextLessAppend(a[1..], r, b[1..], t);
      assert a == [a[0]] + a[1..] && b == [b[0]] + b[1..];
    }
  }

  lemma SnocLess(a: string, c: char, b: string, d: char)
    requires |a| == |b|
    ensures TextLess(a + [c], b + [d]) <==> TextLess(a, b) || (a == b && c < d)
  {
    TextLessAppend(a, [c], b, [d]);
    assert [c][1..] == [] && [d][1..] == [];
  }

  /** Numerals of one width: equal values are equal texts, and text order is numeric order. */
  lemma {:induction false} FixedWidthOrder(a: string, b: string)
    requires Digits(a) && Digits(b) && |a| == |b|
    ensures Value(a) == Value(b) <==> a == b
    ensures TextLess(a, b) <==> Value(a) < Value(b)
  {
    if a == [] {
    } else {
      var n := |a| - 1;
      FixedWidthOrder(a[..n], b[..n]);
      SnocLess(a[..n], a[n], b[..n], b[n]);
      assert a == a[..n] + [a[n]] && b == b[..n] + [b[n]];
    }
  }
}
