/** UTF-8 as in section 3 of RFC 3629. Dafny's `char` is a Unicode scalar value, so a `string` is
    a well-formed Unicode string. */
module Utf8 {
  import opened Js

  type Byte = b: int | 0 <= b < 256

  const REPLACEMENT: char := '\U{FFFD}'

  function EncodeChar(c: char): (r: seq<Byte>)
    ensures 1 <= |r| <= 4
  {
    var n := c as int;
    if n < 0x80 then [n]
    else if n < 0x800 then [0xC0 + n / 64, 0x80 + n % 64]
    else if n < 0x10000 then [0xE0 + n / 4096, 0x80 + n / 64 % 64, 0x80 + n % 64]
    else [0xF0 + n / 262144, 0x80 + n / 4096 % 64, 0x80 + n / 64 % 64, 0x80 + n % 64]
  }

  function Encode(s: string): seq<Byte> {
    if s == [] then [] else EncodeChar(s[0]) + Encode(s[1..])
  }

  /** Length of the sequence a lead byte announces; 0 if it cannot start one. */
  function Announced(lead: Byte): nat {
    if lead < 0x80 then 1
    else if 0xC2 <= lead <= 0xDF then 2
    else if 0xE0 <= lead <= 0xEF then 3
    else if 0xF0 <= lead <= 0xF4 then 4
    else 0
  }

  /** The second byte is restricted so that overlong forms and surrogates are malformed. */
  predicate SecondOk(lead: Byte, b: Byte) {
    (if lead == 0xE0 then 0xA0 else if lead == 0xF0 then 0x90 else 0x80) <= b
    && b <= (if lead == 0xED then 0x9F else if lead == 0xF4 then 0x8F else 0xBF)
  }

  predicate Trailing(b: Byte) {
    0x80 <= b <= 0xBF
  }

  /** How many of the leading bytes of `b` form a prefix of a well-formed sequence. */
  function Accepted(b: seq<Byte>): (r: nat)
    requires b != []
    ensures r <= |b| && r <= Announced(b[0])
  {
    var n := Announced(b[0]);
    if n <= 1 then n
    else if |b| < 2 || !SecondOk(b[0], b[1]) then 1
    else if n == 2 || |b| < 3 || !Trailing(b[2]) then 2
    else if n == 3 || |b| < 4 || !Trailing(b[3]) then 3
    else 4
  }

  function Combine(b: seq<Byte>): (r: int)
    requires b != []
    requires Announced(b[0]) != 0 && Accepted(b) == Announced(b[0])
    ensures 0 <= r < 0xD800 || 0xE000 <= r < 0x110000
  {
    var lead: int := b[0];
    var n := Announced(b[0]);
    if n == 1 then lead
    else
      var x: int := b[1] - 0x80;
      if n == 2 then (lead - 0xC0) * 64 + x
      else
        var y: int := b[2] - 0x80;
        if n == 3 then (lead - 0xE0) * 4096 + x * 64 + y
        else
          var z: int := b[3] - 0x80;
          (lead - 0xF0) * 262144 + x * 4096 + y * 64 + z
  }

  /** The first character of `b` and its length, unless malformed. */
  function DecodeOne(b: seq<Byte>): Option<(char, nat)>
    requires b != []
  {
    var n := Announced(b[0]);
    if n != 0 && Accepted(b) == n then Some((Combine(b) as char, n)) else None
  }

  /** Decoding as Node's `Buffer` and the URL Standard do it: each maximal malformed prefix
      becomes one replacement character. */
  function Decode(b: seq<Byte>): string {
    if b == [] then []
    else
      match DecodeOne(b)
      case Some((c, n)) => assert n > 0; [c] + Decode(b[n..])
      case None => [REPLACEMENT] + Decode(b[if Accepted(b) == 0 then 1 else Accepted(b)..])
  }

  lemma CharBytes(c: char)
    ensures var b := EncodeChar(c); Announced(b[0]) == |b| && Accepted(b) == |b| && Combine(b) == c as int
  {
    var n := c as int;
    if n < 0x800 {
      ShortBytes(c);
    } else if n < 0x10000 {
      ThreeBytes(c);
    } else {
      FourBytes(c);
    }
  }

  lemma ShortBytes(c: char)
    requires c as int < 0x800
    ensures var b := EncodeChar(c); Announced(b[0]) == |b| && Accepted(b) == |b| && Combine(b) == c as int
  {
  }

  lemma ThreeBytes(c: char)
    requires 0x800 <= c as int < 0x10000
    ensures var b := EncodeChar(c); Announced(b[0]) == |b| && Accepted(b) == |b| && Combine(b) == c as int
  {
  }

  lemma FourBytes(c: char)
    requires 0x10000 <= c as int
    ensures var b := EncodeChar(c); Announced(b[0]) == |b| && Accepted(b) == |b| && Combine(b) == c as int
  {
  }

  lemma DecodeFirst(c: char, rest: seq<Byte>)
    ensures DecodeOne(EncodeChar(c) + rest) == Some((c, |EncodeChar(c)|))
  {
    CharBytes(c);
    var b := EncodeChar(c);
    assert forall i :: 0 <= i < |b| ==> (b + rest)[i] == b[i];
  }

  lemma {:induction false} RoundTrip(s: string)
    ensures Decode(Encode(s)) == s
  {
    if s == [] {
    } else {
      var b, rest := EncodeChar(s[0]), Encode(s[1..]);
      DecodeFirst(s[0], rest);
      assert (b + rest)[|b|..] == rest;
      RoundTrip(s[1..]);
    }
  }
}
