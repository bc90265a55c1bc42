/** `decodeURIComponent` on every text: what it returns and when it throws. */
module Escapes {
  import opened Js
  import opened Utf8
  import opened Hex
  import opened Percent

  // ---------------------------------------------------------------- decoding one character

  lemma OneByte(b: seq<Byte>)
    requires b != [] && DecodeOne(b).Some? && Announced(b[0]) == 1
    ensures b[..1] == EncodeChar(DecodeOne(b).value.0)
  {
  }

  lemma TwoBytes(b: seq<Byte>)
    requires b != [] && DecodeOne(b).Some? && Announced(b[0]) == 2
    ensures |b| >= 2 && b[..2] == EncodeChar(DecodeOne(b).value.0)
  {
  }

  lemma Lowest(m: nat, z: nat)
    requires z < 64
    ensures (m * 64 + z) / 64 == m && (m * 64 + z) % 64 == z
  {
  }

  lemma Quotients(n: nat)
    ensures n / 4096 == n / 64 / 64 && n / 262144 == n / 64 / 64 / 64
  {
  }

  lemma ThreeBytes(b: seq<Byte>)
    requires b != [] && DecodeOne(b).Some? && Announced(b[0]) == 3
    ensures |b| >= 3 && b[..3] == EncodeChar(DecodeOne(b).value.0)
  {
    var a: nat, x: nat, y: nat := b[0] - 0xE0, b[1] - 0x80, b[2] - 0x80;
    Lowest(a * 64 + x, y);
    Lowest(a, x);
    var c := DecodeOne(b).value.0;
    assert c as int == (a * 64 + x) * 64 + y;
    Quotients(c as int);
    assert EncodeChar(c) == [0xE0 + a, 0x80 + x, 0x80 + y];
  }

  lemma FourBytes(b: seq<Byte>)
    requires b != [] && DecodeOne(b).Some? && Announced(b[0]) == 4
    ensures |b| >= 4 && b[..4] == EncodeChar(DecodeOne(b).value.0)
  {
    var a: nat, x: nat, y: nat, z: nat := b[0] - 0xF0, b[1] - 0x80, b[2] - 0x80, b[3] - 0x80;
    Lowest((a * 64 + x) * 64 + y, z);
    Lowest(a * 64 + x, y);
    Lowest(a, x);
    var c := DecodeOne(b).value.0;
    assert c as int == ((a * 64 + x) * 64 + y) * 64 + z;
    Quotients(c as int);
    assert EncodeChar(c) == [0xF0 + a, 0x80 + x, 0x80 + y, 0x80 + z];
  }

  /** A character is only ever decoded from its own encoding. */
  lemma DecodedFromEncoding(b: seq<Byte>)
    requires b != [] && DecodeOne(b).Some?
    ensures var (c, n) := DecodeOne(b).value; n <= |b| && b[..n] == EncodeChar(c)
  {
    match Announced(b[0])
    case 1 => OneByte(b);
    case 2 => TwoBytes(b);
    case 3 => ThreeBytes(b);
    case _ => FourBytes(b);
  }

  lemma FirstByteLeads(c: char)
    ensures !Trailing(EncodeChar(c)[0]) && Announced(EncodeChar(c)[0]) == |EncodeChar(c)|
    ensures forall i :: 0 < i < |EncodeChar(c)| ==> Trailing(EncodeChar(c)[i])
  {
    CharBytes(c);
  }

  // ---------------------------------------------------------------- the bytes of an escaped text

  function Prepend(bytes: seq<Byte>, rest: Option<seq<Byte>>): Option<seq<Byte>> {
    if rest.Some? then Some(bytes + rest.value) else None
  }

  /** Octets for their escapes, and every other character as it is encoded; nothing if a percent sign
      starts no octet. */
  function Unescaped(s: string): Option<seq<Byte>> {
    if s == [] then Some([])
    else if s[0] != '%' then Prepend(EncodeChar(s[0]), Unescaped(s[1..]))
    else if |s| < 3 || PairValue(s[1], s[2]).None? then None
    else Prepend([PairValue(s[1], s[2]).value], Unescaped(s[3..]))
  }

  lemma PrependTwice(a: seq<Byte>, b: seq<Byte>, rest: Option<seq<Byte>>)
    ensures Prepend(a, Prepend(b, rest)) == Prepend(a + b, rest) && Prepend([], rest) == rest
  {
    if rest.Some? {
      assert a + (b + rest.value) == a + b + rest.value && [] + rest.value == rest.value;
    }
  }

  lemma {:induction false} OctetsUnescaped(s: string, n: nat)
    requires TakeOctets(s, n).Some?
    ensures Unescaped(s) == Prepend(TakeOctets(s, n).value, Unescaped(s[3 * n..]))
  {
    if n == 0 {
      assert s[0..] == s;
      PrependTwice([], [], Unescaped(s));
    } else {
      OctetsUnescaped(s[3..], n - 1);
      assert s[3..][3 * (n - 1)..] == s[3 * n..];
      PrependTwice([PairValue(s[1], s[2]).value], TakeOctets(s[3..], n - 1).value, Unescaped(s[3 * n..]));
    }
  }

  lemma HeadUnescaped(s: string)
    requires s != [] && DecodeHead(s).Some?
    ensures var (c, n) := DecodeHead(s).value;
      0 < n <= |s| && Unescaped(s) == Prepend(EncodeChar(c), Unescaped(s[n..]))
  {
    if s[0] == '%' {
      var n := Announced(TakeOctets(s, 1).value[0]);
      var bytes := TakeOctets(s, n).value;
      DecodedFromEncoding(bytes);
      assert bytes[..n] == bytes;
      OctetsUnescaped(s, n);
    }
  }

  lemma {:induction false} DecodedIsUnescaped(s: string)
    requires DecodeComponent(s).Some?
    ensures Unescaped(s) == Some(Encode(DecodeComponent(s).value))
    decreases |s|
  {
    if s == [] {
    } else {
      HeadUnescaped(s);
      var (c, n) := DecodeHead(s).value;
      DecodedIsUnescaped(s[n..]);
      var rest := DecodeComponent(s[n..]).value;
      assert ([c] + rest)[1..] == rest;
    }
  }

  // ---------------------------------------------------------------- and back

  lemma LiteralLeads(s: string, bytes: seq<Byte>)
    requires bytes != [] && Unescaped(s) == Some(bytes)
    ensures s != [] && (s[0] != '%' ==> !Trailing(bytes[0]))
    ensures s[0] == '%' ==> TakeOctets(s, 1) == Some([bytes[0]]) && Unescaped(s[3..]) == Some(bytes[1..])
  {
    if s[0] != '%' {
      FirstByteLeads(s[0]);
    } else {
      var tail := Unescaped(s[3..]).value;
      var b := PairValue(s[1], s[2]).value;
      assert bytes == [b] + tail && TakeOctets(s[3..], 0) == Some([]) && [b] + [] == [b];
    }
  }

  lemma FirstOf(b: seq<Byte>, rest: seq<Byte>, all: seq<Byte>)
    requires b != [] && all == b + rest
    ensures all[0] == b[0] && all[1..] == b[1..] + rest && b == [b[0]] + b[1..]
  {
  }

  /** Bytes that start no character come from escapes. */
  lemma {:induction false} TrailingEscaped(s: string, b: seq<Byte>, rest: seq<Byte>)
    requires Unescaped(s) == Some(b + rest) && forall i :: 0 <= i < |b| ==> Trailing(b[i])
    ensures TakeOctets(s, |b|) == Some(b) && Unescaped(s[3 * |b|..]) == Some(rest)
    decreases |b|
  {
    if b == [] {
      assert s[0..] == s && b + rest == rest;
    } else {
      FirstOf(b, rest, b + rest);
      LiteralLeads(s, b + rest);
      TrailingEscaped(s[3..], b[1..], rest);
      assert s[3..][3 * (|b| - 1)..] == s[3 * |b|..];
    }
  }

  lemma LiteralHead(s: string, c: char, rest: seq<Byte>, all: seq<Byte>)
    requires s != [] && s[0] != '%' && all == EncodeChar(c) + rest && Unescaped(s) == Some(all)
    ensures s[0] == c && Unescaped(s[1..]) == Some(rest)
  {
    var tail := Unescaped(s[1..]).value;
    DecodeFirst(c, rest);
    DecodeFirst(s[0], tail);
    assert all == EncodeChar(s[0]) + tail;
    assert all[|EncodeChar(c)|..] == rest && all[|EncodeChar(c)|..] == tail;
  }

  lemma EscapedHead(s: string, c: char, rest: seq<Byte>, all: seq<Byte>)
    requires s != [] && s[0] == '%' && all == EncodeChar(c) + rest && Unescaped(s) == Some(all)
    ensures var n := |EncodeChar(c)|; TakeOctets(s, n) == Some(EncodeChar(c)) && Unescaped(s[3 * n..]) == Some(rest)
    ensures TakeOctets(s, 1) == Some([EncodeChar(c)[0]])
  {
    var e := EncodeChar(c);
    FirstByteLeads(c);
    FirstOf(e, rest, all);
    LiteralLeads(s, all);
    TrailingEscaped(s[3..], e[1..], rest);
    assert s[3..][3 * (|e| - 1)..] == s[3 * |e|..];
  }

  lemma HeadDecodes(s: string, c: char, rest: seq<Byte>)
    requires s != [] && Unescaped(s) == Some(EncodeChar(c) + rest)
    ensures DecodeHead(s).Some? && DecodeHead(s).value.0 == c
    ensures var n := DecodeHead(s).value.1; 0 < n <= |s| && Unescaped(s[n..]) == Some(rest)
  {
    var e := EncodeChar(c);
    if s[0] != '%' {
      LiteralHead(s, c, rest, e + rest);
    } else {
      EscapedHead(s, c, rest, e + rest);
      FirstByteLeads(c);
      DecodeFirst(c, []);
      assert e + [] == e;
    }
  }

  lemma {:induction false} UnescapedDecodes(s: string, t: string)
    requires Unescaped(s) == Some(Encode(t))
    ensures DecodeComponent(s) == Some(t)
    decreases |s|
  {
    if s == [] {
    } else {
      assert Unescaped(s).value != [];
      HeadDecodes(s, t[0], Encode(t[1..]));
      var n := DecodeHead(s).value.1;
      UnescapedDecodes(s[n..], t[1..]);
      assert t == [t[0]] + t[1..];
    }
  }

  /** On every text: it returns `t` if and only if the escapes are whole and the bytes they stand for,
      with all other characters encoded, are the UTF-8 of `t`; otherwise it throws. */
  lemma ComponentIff(s: string, t: string)
    ensures DecodeComponent(s) == Some(t) <==> Unescaped(s) == Some(Encode(t))
  {
    if DecodeComponent(s) == Some(t) {
      DecodedIsUnescaped(s);
    }
    if Unescaped(s) == Some(Encode(t)) {
      UnescapedDecodes(s, t);
    }
  }
}
