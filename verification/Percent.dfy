/** Percent-encoding (section 2.1 of RFC 3986) in its two uses: `encodeURIComponent` (section
    19.2.6 of ECMA-262) and the form encoding of `URLSearchParams` (section 5 of the URL
    Standard). */
module Percent {
  import opened Js
  import opened Utf8
  import opened Hex

  datatype Mode = Component | Form

  predicate Alphanumeric(c: char) {
    'a' <= c <= 'z' || 'A' <= c <= 'Z' || '0' <= c <= '9'
  }

  /** Characters left as they are. */
  predicate Kept(mode: Mode, c: char) {
    Alphanumeric(c) || c == '-' || c == '_' || c == '.' || c == '*' ||
    (mode.Component? && (c == '!' || c == '~' || c == '\'' || c == '(' || c == ')'))
  }

  function Octet(b: Byte): (r: string)
    ensures |r| == 3
  {
    ['%', UPPER[b / 16], UPPER[b % 16]]
  }

  function Octets(bytes: seq<Byte>): string {
    if bytes == [] then [] else Octet(bytes[0]) + Octets(bytes[1..])
  }

  function EncodeOne(mode: Mode, c: char): string {
    if Kept(mode, c) then [c]
    else if mode.Form? && c == ' ' then ['+']
    else Octets(EncodeChar(c))
  }

  function EncodeText(mode: Mode, s: string): string {
    if s == [] then [] else EncodeOne(mode, s[0]) + EncodeText(mode, s[1..])
  }

  /** Alphabet of the encoded text: no separator of either format is in it. */
  predicate Encoded(mode: Mode, c: char) {
    Kept(mode, c) || c == '%' || (mode.Form? && c == '+')
  }

  lemma {:induction false} OctetsAlphabet(mode: Mode, bytes: seq<Byte>)
    ensures forall c :: c in Octets(bytes) ==> Encoded(mode, c)
  {
    if bytes == [] {
    } else {
      OctetsAlphabet(mode, bytes[1..]);
    }
  }

  lemma {:induction false} EncodedAlphabet(mode: Mode, s: string)
    ensures forall c :: c in EncodeText(mode, s) ==> Encoded(mode, c)
  {
    if s == [] {
    } else {
      EncodedAlphabet(mode, s[1..]);
      OctetsAlphabet(mode, EncodeChar(s[0]));
    }
  }

  // ---------------------------------------------------------------- decodeURIComponent

  /** Reads `n` percent-encoded octets. */
  function TakeOctets(s: string, n: nat): (r: Option<seq<Byte>>)
    ensures r.Some? ==> |r.value| == n && |s| >= 3 * n
  {
    if n == 0 then Some([])
    else if |s| < 3 || s[0] != '%' then None
    else
      match (PairValue(s[1], s[2]), TakeOctets(s[3..], n - 1))
      case (Some(b), Some(rest)) => Some([b] + rest)
      case _ => None
  }

  /** The character at the front of `s` and the length of its encoding; `None` is a URIError. */
  function DecodeHead(s: string): Option<(char, nat)>
    requires s != []
  {
    if s[0] != '%' then Some((s[0], 1))
    else
      match TakeOctets(s, 1)
      case None => None
      case Some(lead) =>
        var n := Announced(lead[0]);
        if n == 0 then None
        else
          match TakeOctets(s, n)
          case None => None
          case Some(bytes) =>
            if bytes[0] != lead[0] then None
            else
              match DecodeOne(bytes)
              case Some((c, k)) => if k == n then Some((c, 3 * n)) else None
              case None => None
  }

  function DecodeComponent(s: string): Option<string> {
    if s == [] then Some([])
    else
      match DecodeHead(s)
      case Some((c, n)) =>
        if 0 < n <= |s| then
          match DecodeComponent(s[n..])
          case Some(rest) => Some([c] + rest)
          case None => None
        else None
      case None => None
  }

  lemma {:induction false} OctetsLength(bytes: seq<Byte>)
    ensures |Octets(bytes)| == 3 * |bytes|
  {
    if bytes == [] {
    } else {
      OctetsLength(bytes[1..]);
    }
  }

  lemma {:induction false} TakeOctetsBack(bytes: seq<Byte>, rest: string, n: nat)
    requires n <= |bytes|
    ensures TakeOctets(Octets(bytes) + rest, n) == Some(bytes[..n])
  {
    if n == 0 {
    } else {
      var s := Octets(bytes) + rest;
      PairRoundTrip(bytes[0]);
      assert s[3..] == Octets(bytes[1..]) + rest;
      TakeOctetsBack(bytes[1..], rest, n - 1);
      assert bytes[..n] == [bytes[0]] + bytes[1..][..n - 1];
    }
  }

  lemma DecodeHeadBack(c: char, rest: string)
    ensures var e := EncodeOne(Component, c); e != [] && DecodeHead(e + rest) == Some((c, |e|))
  {
    if !Kept(Component, c) {
      var bytes := EncodeChar(c);
      TakeOctetsBack(bytes, rest, 1);
      TakeOctetsBack(bytes, rest, |bytes|);
      assert bytes[..|bytes|] == bytes;
      OctetsLength(bytes);
      CharBytes(c);
      DecodeFirst(c, []);
      assert bytes + [] == bytes;
    }
  }

  lemma {:induction false} ComponentRoundTrip(s: string)
    ensures DecodeComponent(EncodeText(Component, s)) == Some(s)
  {
    if s == [] {
    } else {
      var e, rest := EncodeOne(Component, s[0]), EncodeText(Component, s[1..]);
      DecodeHeadBack(s[0], rest);
      assert (e + rest)[|e|..] == rest;
      ComponentRoundTrip(s[1..]);
      assert [s[0]] + s[1..] == s;
    }
  }

  // ---------------------------------------------------------------- form decoding

  /** Percent-decoding of the URL Standard, one step: the bytes at the front of `s` and how many
      characters they take. A `%` not followed by two hex digits stays, and `+` is a space. */
  function FormHead(s: string): (r: (seq<Byte>, nat))
    requires s != []
    ensures 0 < r.1 <= |s|
  {
    if s[0] == '+' then ([0x20], 1)
    else if s[0] == '%' && |s| >= 3 && PairValue(s[1], s[2]).Some? then ([PairValue(s[1], s[2]).value], 3)
    else (EncodeChar(s[0]), 1)
  }

  function FormBytes(s: string): seq<Byte> {
    if s == [] then [] else FormHead(s).0 + FormBytes(s[FormHead(s).1..])
  }

  function FormDecode(s: string): string {
    Decode(FormBytes(s))
  }

  lemma FormStep(s: string, bytes: seq<Byte>, n: nat, rest: string)
    requires s != [] && FormHead(s) == (bytes, n) && s[n..] == rest
    ensures FormBytes(s) == bytes + FormBytes(rest)
  {
  }

  lemma FormOctet(b: Byte, s: string, tail: string)
    requires s == Octet(b) + tail
    ensures FormBytes(s) == [b] + FormBytes(tail)
  {
    PairRoundTrip(b);
    FormStep(s, [b], 3, tail);
  }

  lemma {:induction false} FormOctets(bytes: seq<Byte>, rest: string, s: string)
    requires s == Octets(bytes) + rest
    ensures FormBytes(s) == bytes + FormBytes(rest)
  {
    if bytes != [] {
      var tail := Octets(bytes[1..]) + rest;
      assert s == Octet(bytes[0]) + tail;
      FormOctet(bytes[0], s, tail);
      FormOctets(bytes[1..], rest, tail);
    } else {
      assert s == rest;
    }
  }

  lemma {:induction false} FormBytesBack(s: string)
    ensures FormBytes(EncodeText(Form, s)) == Encode(s)
  {
    if s == [] {
    } else {
      var c, rest := s[0], EncodeText(Form, s[1..]);
      FormBytesBack(s[1..]);
      if Kept(Form, c) || c == ' ' {
        FormStep(EncodeOne(Form, c) + rest, EncodeChar(c), 1, rest);
      } else {
        FormOctets(EncodeChar(c), rest, EncodeOne(Form, c) + rest);
      }
    }
  }

  lemma FormRoundTrip(s: string)
    ensures FormDecode(EncodeText(Form, s)) == s
  {
    FormBytesBack(s);
    RoundTrip(s);
  }

  /** Plain names encode to themselves. */
  lemma {:induction false} PlainText(mode: Mode, s: string)
    requires forall c :: c in s ==> Kept(mode, c)
    ensures EncodeText(mode, s) == s
  {
    if s == [] {
    } else {
      assert s[0] in s && forall c :: c in s[1..] ==> c in s;
      PlainText(mode, s[1..]);
    }
  }
}
