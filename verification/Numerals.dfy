/** Numerals as text: what `BigInt` reads, and what it writes. */
module Numerals {
  import opened Js
  import opened Hex
  import opened Decimal

  // ---------------------------------------------------------------- what `BigInt` writes

  /** `n.toString(10)` */
  function IntText(n: int): string {
    if n < 0 then ['-'] + ToDec(-n) else ToDec(n)
  }

  /** Decimal without a sign or a leading zero: the way numbers below no bound are written. */
  predicate CanonicalDec(s: string) {
    s != [] && Digits(s) && (|s| > 1 ==> s[0] != '0')
  }

  lemma {:induction false} NoLeadingZero(n: nat)
    ensures n > 0 ==> ToDec(n)[0] != '0'
    ensures CanonicalDec(ToDec(n))
  {
    if n < 10 {
      assert |ToDec(n)| == 1;
    } else {
      NoLeadingZero(n / 10);
    }
  }

  lemma FrontIsPositive(s: string)
    requires Digits(s) && s != [] && ToDec(Value(s)) == s && s[0] != '0'
    ensures Value(s) > 0
  {
  }

  /** Exactly the canonical numerals are written the way they are read. */
  lemma {:induction false} CanonicalIff(s: string)
    requires s != [] && Digits(s)
    ensures CanonicalDec(s) <==> ToDec(Value(s)) == s
  {
    NoLeadingZero(Value(s));
    if |s| == 1 {
      ValueSnoc([], s[0]);
      assert [] + [s[0]] == s;
    } else {
      var front, last := s[..|s| - 1], s[|s| - 1];
      if CanonicalDec(s) {
        CanonicalIff(front);
        FrontIsPositive(front);
        assert s == front + [last];
      }
    }
  }

  // ---------------------------------------------------------------- what `BigInt` reads

  predicate IsSpace(c: char) {
    || '\U{9}' <= c <= '\U{D}' || c == ' ' || c == '\U{A0}' || c == '\U{1680}' || '\U{2000}' <= c <= '\U{200A}'
    || c == '\U{2028}' || c == '\U{2029}' || c == '\U{202F}' || c == '\U{205F}' || c == '\U{3000}' || c == '\U{FEFF}'
  }

  function TrimStart(s: string): string {
    if s != [] && IsSpace(s[0]) then TrimStart(s[1..]) else s
  }

  function TrimEnd(s: string): string {
    if s != [] && IsSpace(s[|s| - 1]) then TrimEnd(s[..|s| - 1]) else s
  }

  /** The base a prefix announces. */
  function BaseOf(s: string): nat {
    if |s| < 2 || s[0] != '0' then 10
    else if s[1] in {'x', 'X'} then 16
    else if s[1] in {'o', 'O'} then 8
    else if s[1] in {'b', 'B'} then 2
    else 10
  }

  /** Digits of a base, most significant first. */
  function ValueIn(base: nat, s: string): Option<nat> {
    if s == [] then Some(0)
    else
      match (ValueIn(base, s[..|s| - 1]), DigitValue(s[|s| - 1]))
      case (Some(high), Some(d)) => if d < base then Some(base * high + d) else None
      case _ => None
  }

  /** `BigInt(s)`: white space around it does not matter, no text is zero, only decimal numerals
      have a sign, and any other text throws. */
  function ParseBigInt(s: string): Option<int> {
    var t := TrimEnd(TrimStart(s));
    if t == [] then Some(0)
    else if BaseOf(t) != 10 then
      match ValueIn(BaseOf(t), t[2..])
      case Some(n) => if |t| > 2 then Some(n) else None
      case None => None
    else
      match ParseDec(if t[0] in {'+', '-'} then t[1..] else t)
      case Some(n) => var v: int := if t[0] == '-' then 0 - n else n; Some(v)
      case None => None
  }

  lemma DigitsStay(s: string)
    requires s != [] && Digits(s)
    ensures TrimEnd(TrimStart(s)) == s && BaseOf(s) == 10
    ensures TrimEnd(TrimStart(['-'] + s)) == ['-'] + s && BaseOf(['-'] + s) == 10
  {
    assert IsDigit(s[0]) && IsDigit(s[|s| - 1]);
  }

  /** Decimal text, leading zeros or not, reads as its value. */
  lemma DecimalReads(s: string)
    requires s != [] && Digits(s)
    ensures ParseBigInt(s) == Some(Value(s))
  {
    DigitsStay(s);
  }

  lemma SignedReads(s: string)
    requires s != [] && Digits(s)
    ensures ParseBigInt(['-'] + s) == Some(0 - Value(s))
  {
    DigitsStay(s);
    assert (['-'] + s)[1..] == s;
  }

  /** Reading undoes writing. */
  lemma BigIntRoundTrip(n: int)
    ensures ParseBigInt(IntText(n)) == Some(n)
  {
    var m: nat := if n < 0 then -n else n;
    ToDecValue(m);
    DecimalReads(ToDec(m));
    SignedReads(ToDec(m));
  }

  // ---------------------------------------------------------------- other bases, signs and white space

  /** The digits of a number in a base up to sixteen. */
  function InBase(n: nat, base: nat): (s: string)
    requires 2 <= base <= 16
    ensures s != []
  {
    if n < base then [LOWER[n]] else InBase(n / base, base) + [LOWER[n % base]]
  }

  lemma DigitAppended(high: string, h: nat, d: nat, base: nat)
    requires ValueIn(base, high) == Some(h) && d < base <= 16
    ensures ValueIn(base, high + [LOWER[d]]) == Some(base * h + d)
  {
    DigitsMean(d);
    assert (high + [LOWER[d]])[..|high|] == high;
  }

  lemma Divided(n: nat, base: nat)
    requires base > 0
    ensures base * (n / base) + n % base == n
  {
  }

  lemma {:induction false} InBaseReads(n: nat, base: nat)
    requires 2 <= base <= 16
    ensures ValueIn(base, InBase(n, base)) == Some(n)
  {
    if n < base {
      DigitAppended([], 0, n, base);
      assert [] + [LOWER[n]] == InBase(n, base);
    } else {
      InBaseReads(n / base, base);
      DigitAppended(InBase(n / base, base), n / base, n % base, base);
      Divided(n, base);
    }
  }

  lemma InBaseEnds(n: nat, base: nat)
    requires 2 <= base <= 16
    ensures !IsSpace(InBase(n, base)[|InBase(n, base)| - 1])
  {
    LowerIsNoSpace(if n < base then n else n % base);
  }

  lemma LowerIsNoSpace(d: nat)
    requires d < 16
    ensures !IsSpace(LOWER[d])
  {
  }

  /** Numerals in the three other bases read as their numbers, whatever the case of the prefix. */
  lemma PrefixedReads(n: nat, prefix: char)
    requires prefix in {'x', 'X', 'o', 'O', 'b', 'B'}
    ensures var base := if prefix in {'x', 'X'} then 16 else if prefix in {'o', 'O'} then 8 else 2;
      ParseBigInt(['0', prefix] + InBase(n, base)) == Some(n)
  {
    var base := if prefix in {'x', 'X'} then 16 else if prefix in {'o', 'O'} then 8 else 2;
    InBaseReads(n, base);
    InBaseEnds(n, base);
    var digits := InBase(n, base);
    var s := ['0', prefix] + digits;
    assert s[|s| - 1] == digits[|digits| - 1] && s[2..] == digits;
    assert TrimEnd(TrimStart(s)) == s && BaseOf(s) == base;
  }

  /** White space around a numeral does not matter. */
  lemma SpacesIgnored(s: string, c: char)
    requires IsSpace(c)
    ensures ParseBigInt([c] + s) == ParseBigInt(s)
    ensures ParseBigInt(s + [c]) == ParseBigInt(s)
  {
    assert ([c] + s)[1..] == s;
    TrimmedTail(s, c);
  }

  lemma {:induction false} TrimmedTail(s: string, c: char)
    requires IsSpace(c)
    ensures TrimEnd(TrimStart(s + [c])) == TrimEnd(TrimStart(s))
  {
    if s == [] {
      assert s + [c] == [c] && [c][1..] == [];
    } else if IsSpace(s[0]) {
      assert (s + [c])[1..] == s[1..] + [c];
      TrimmedTail(s[1..], c);
    } else {
      assert (s + [c])[..|s|] == s;
    }
  }

  /** A plus sign changes nothing. */
  lemma PlusReads(s: string)
    requires s != [] && Digits(s)
    ensures ParseBigInt(['+'] + s) == Some(Value(s))
  {
    var t := ['+'] + s;
    DigitsStay(s);
    assert IsDigit(s[0]) && IsDigit(s[|s| - 1]) && t[1..] == s && t[|t| - 1] == s[|s| - 1];
  }

  /** Nor do leading zeros. */
  lemma LeadingZeros(n: nat, k: nat)
    ensures ParseBigInt(Zeros(k) + ToDec(n)) == Some(n)
  {
    ToDecValue(n);
    ZerosValue(k, ToDec(n));
    DecimalReads(Zeros(k) + ToDec(n));
  }

  /** Zero has more than one spelling. */
  lemma ZeroSpellings()
    ensures ParseBigInt("0") == ParseBigInt("00") == ParseBigInt("0x0") == Some(0)
  {
    LeadingZeros(0, 0);
    LeadingZeros(0, 1);
    PrefixedReads(0, 'x');
    assert Zeros(0) + ToDec(0) == "0" && Zeros(1) + ToDec(0) == "00";
    assert ['0', 'x'] + InBase(0, 16) == "0x0";
  }
}
