/** The very texts the codecs write, character by character, and how names the connector does not
    write itself are read. */
module TextForms {
  import opened Js
  import opened Text
  import opened Utf8
  import opened Hex
  import opened Percent
  import opened Names

  // ---------------------------------------------------------------- percent-encoding

  /** What is left as it is: letters, digits, and the marks of each of the two standards. */
  predicate Unreserved(mode: Mode, c: char) {
    || 'A' <= c <= 'Z' || 'a' <= c <= 'z' || '0' <= c <= '9'
    || c in (if mode.Component? then "-_.!~*'()" else "*-._")
  }

  /** An octet as a percent sign and two upper-case digits. */
  predicate IsOctet(s: string, i: nat, b: Byte) {
    i + 2 < |s| && s[i] == '%' && s[i + 1] == "0123456789ABCDEF"[b / 16] && s[i + 2] == "0123456789ABCDEF"[b % 16]
  }

  lemma KeptIff(mode: Mode, c: char)
    ensures Kept(mode, c) <==> Unreserved(mode, c)
  {
  }

  lemma Shifted(first: string, rest: string, i: nat, b: Byte)
    requires |first| == 3 && IsOctet(rest, i, b)
    ensures IsOctet(first + rest, i + 3, b)
  {
  }

  lemma {:induction false} OctetsAt(bytes: seq<Byte>, j: nat)
    requires j < |bytes|
    ensures IsOctet(Octets(bytes), 3 * j, bytes[j])
  {
    OctetsLength(bytes);
    var rest := Octets(bytes[1..]);
    assert Octets(bytes) == Octet(bytes[0]) + rest;
    if j == 0 {
    } else {
      OctetsAt(bytes[1..], j - 1);
      Shifted(Octet(bytes[0]), rest, 3 * (j - 1), bytes[j]);
    }
  }

  lemma OneChar(mode: Mode, c: char)
    ensures EncodeText(mode, [c]) == EncodeOne(mode, c)
  {
    assert [c][1..] == [];
  }

  /** A character is left as it is, or it is a space that a form writes as `+`, or its UTF-8 bytes are
      written one after the other. */
  lemma CharText(mode: Mode, c: char)
    ensures Unreserved(mode, c) ==> EncodeText(mode, [c]) == [c]
    ensures mode.Form? && c == ' ' ==> EncodeText(mode, [c]) == "+"
    ensures !Unreserved(mode, c) && !(mode.Form? && c == ' ') ==>
      |EncodeText(mode, [c])| == 3 * |EncodeChar(c)|
      && forall j :: 0 <= j < |EncodeChar(c)| ==> IsOctet(EncodeText(mode, [c]), 3 * j, EncodeChar(c)[j])
  {
    KeptIff(mode, c);
    OneChar(mode, c);
    var bytes := EncodeChar(c);
    OctetsLength(bytes);
    forall j: nat | j < |bytes| ensures IsOctet(Octets(bytes), 3 * j, bytes[j]) {
      OctetsAt(bytes, j);
    }
  }

  lemma FirstChar(mode: Mode, s: string, c: char, rest: string)
    requires s == [c] + rest
    ensures EncodeText(mode, s) == EncodeOne(mode, c) + EncodeText(mode, rest)
  {
    assert s[1..] == rest;
  }

  lemma Regrouped(a: string, b: string, c: string)
    ensures a + b + c == a + (b + c)
  {
  }

  lemma OrderStep(mode: Mode, s: string, t: string, c: char, rest: string, both: string, tail: string)
    requires s == [c] + rest && both == [c] + tail
    requires EncodeText(mode, tail) == EncodeText(mode, rest) + EncodeText(mode, t)
    ensures EncodeText(mode, both) == EncodeText(mode, s) + EncodeText(mode, t)
  {
    FirstChar(mode, s, c, rest);
    FirstChar(mode, both, c, tail);
    Regrouped(EncodeOne(mode, c), EncodeText(mode, rest), EncodeText(mode, t));
  }

  /** A text is its characters' texts, in order. */
  lemma {:induction false} TextInOrder(mode: Mode, s: string, t: string, both: string)
    requires both == s + t
    ensures EncodeText(mode, both) == EncodeText(mode, s) + EncodeText(mode, t)
  {
    if s == [] {
      assert both == t;
    } else {
      assert both[1..] == s[1..] + t && both == [s[0]] + both[1..] && s == [s[0]] + s[1..];
      TextInOrder(mode, s[1..], t, both[1..]);
      OrderStep(mode, s, t, s[0], s[1..], both, both[1..]);
    }
  }

  // ---------------------------------------------------------------- hex

  lemma {:induction false} HexAt(bytes: seq<Byte>, j: nat)
    requires j < |bytes|
    ensures |ToHex(bytes)| == 2 * |bytes|
    ensures ToHex(bytes)[2 * j] == "0123456789abcdef"[bytes[j] / 16]
    ensures ToHex(bytes)[2 * j + 1] == "0123456789abcdef"[bytes[j] % 16]
  {
    HexRoundTrip(bytes);
    if j == 0 {
    } else {
      HexAt(bytes[1..], j - 1);
      assert ToHex(bytes)[2..] == ToHex(bytes[1..]);
    }
  }

  /** Data is `0x` and two lower-case digits for each of its UTF-8 bytes, `0x00` if it has none. */
  lemma DataText(data: string, j: nat)
    ensures data == "" ==> EncodeHex(data) == "0x00"
    ensures j < |Encode(data)| ==>
      && |EncodeHex(data)| == 2 + 2 * |Encode(data)| && EncodeHex(data)[..2] == "0x"
      && EncodeHex(data)[2 * j + 2] == "0123456789abcdef"[Encode(data)[j] / 16]
      && EncodeHex(data)[2 * j + 3] == "0123456789abcdef"[Encode(data)[j] % 16]
  {
    var bytes := Encode(data);
    if j < |bytes| {
      HexAt(bytes, j);
      assert ("0x" + ToHex(bytes))[2..] == ToHex(bytes);
    }
  }

  lemma HexStep(b: Byte, more: string, all: string)
    requires all == ByteToHex(b) + more
    ensures FromHex(all) == [b] + FromHex(more)
  {
    PairRoundTrip(b);
    assert all[0] == ByteToHex(b)[0] && all[1] == ByteToHex(b)[1] && all[2..] == more;
  }

  /** Hex is read up to the first pair that is not two digits. */
  lemma {:induction false} HexStops(bytes: seq<Byte>, rest: string, all: string)
    requires all == ToHex(bytes) + rest && (|rest| < 2 || PairValue(rest[0], rest[1]).None?)
    ensures FromHex(all) == bytes
  {
    if bytes == [] {
      assert all == rest;
    } else {
      var more := ToHex(bytes[1..]) + rest;
      HexStops(bytes[1..], rest, more);
      assert all == ByteToHex(bytes[0]) + more;
      HexStep(bytes[0], more, all);
    }
  }

  // ---------------------------------------------------------------- malformed bytes and escapes

  lemma DecodeStep(c: char, more: seq<Byte>, all: seq<Byte>)
    requires all == EncodeChar(c) + more
    ensures Decode(all) == [c] + Decode(more)
  {
    DecodeFirst(c, more);
    assert all[|EncodeChar(c)|..] == more;
  }

  lemma FirstEncoded(s: string, rest: seq<Byte>, all: seq<Byte>, more: seq<Byte>)
    requires s != [] && all == Encode(s) + rest && more == Encode(s[1..]) + rest
    ensures all == EncodeChar(s[0]) + more
  {
  }

  lemma Prepended(s: string, t: string, all: string)
    requires s != [] && all == [s[0]] + (s[1..] + t)
    ensures all == s + t
  {
  }

  /** Well-formed text in front is read whatever follows it. */
  lemma {:induction false} DecodeAfter(s: string, rest: seq<Byte>, all: seq<Byte>)
    requires all == Encode(s) + rest
    ensures Decode(all) == s + Decode(rest)
  {
    if s == [] {
      assert all == rest && s + Decode(rest) == Decode(rest);
    } else {
      var more := Encode(s[1..]) + rest;
      DecodeAfter(s[1..], rest, more);
      FirstEncoded(s, rest, all, more);
      DecodeStep(s[0], more, all);
      Prepended(s, Decode(rest), Decode(all));
    }
  }

  lemma CutShort(c: char, n: nat)
    requires 0 < n < |EncodeChar(c)|
    ensures Accepted(EncodeChar(c)[..n]) == n && Announced(EncodeChar(c)[0]) > n
  {
    CharBytes(c);
  }

  /** A character cut short reads as one replacement character. */
  lemma TruncatedReads(s: string, c: char, n: nat)
    requires 0 < n < |EncodeChar(c)|
    ensures Decode(Encode(s) + EncodeChar(c)[..n]) == s + [REPLACEMENT]
  {
    var cut := EncodeChar(c)[..n];
    CutShort(c, n);
    DecodeAfter(s, cut, Encode(s) + cut);
    assert DecodeOne(cut).None? && cut[n..] == [];
  }

  /** A byte that starts no character reads as a replacement character. */
  lemma StrayByte(s: string, b: Byte, rest: seq<Byte>)
    requires Announced(b) == 0
    ensures Decode(Encode(s) + ([b] + rest)) == s + ([REPLACEMENT] + Decode(rest))
  {
    var stray := [b] + rest;
    DecodeAfter(s, stray, Encode(s) + stray);
    assert stray[1..] == rest && Accepted(stray) == 0;
  }

  // ---------------------------------------------------------------- names

  lemma JoinTwo(a: string, b: string, d: char)
    ensures Join([a, b], d) == a + [d] + b
  {
    assert [a, b][1..] == [b];
  }

  lemma JoinThree(a: string, b: string, c: string, d: char)
    ensures Join([a, b, c], d) == a + [d] + (b + [d] + c)
  {
    assert [a, b, c][1..] == [b, c];
    JoinTwo(b, c, d);
  }

  lemma JoinFour(a: string, b: string, c: string, e: string, d: char)
    ensures Join([a, b, c, e], d) == a + [d] + (b + [d] + (c + [d] + e))
  {
    assert [a, b, c, e][1..] == [b, c, e];
    JoinThree(b, c, e, d);
  }

  lemma ThreeFields(a: Pair, b: Pair, c: Pair)
    ensures Fields([a, b, c]) == [Field(a)] + ([Field(b)] + ([Field(c)] + []))
  {
    assert [a, b, c][1..] == [b, c] && [b, c][1..] == [c] && [c][1..] == [];
    assert Fields([c]) == [Field(c)] + [];
    assert Fields([b, c]) == [Field(b)] + Fields([c]);
  }

  predicate LowerCase(key: string) {
    key != "" && forall i :: 0 <= i < |key| ==> 'a' <= key[i] <= 'z'
  }

  lemma FieldText(p: Pair)
    requires LowerCase(p.0)
    ensures Field(p) == p.0 + "=" + EncodeText(Form, p.1)
  {
    PlainText(Form, p.0);
  }

  lemma QueryText(a: Pair, b: Pair, c: Pair)
    requires LowerCase(a.0) && LowerCase(b.0) && LowerCase(c.0)
    ensures Serialize([a, b, c]) ==
      (a.0 + "=" + EncodeText(Form, a.1)) + ['&'] +
        ((b.0 + "=" + EncodeText(Form, b.1)) + ['&'] + (c.0 + "=" + EncodeText(Form, c.1)))
  {
    FieldText(a);
    FieldText(b);
    FieldText(c);
    ThreeFields(a, b, c);
    JoinThree(Field(a), Field(b), Field(c), '&');
    assert [Field(a)] + ([Field(b)] + ([Field(c)] + [])) == [Field(a), Field(b), Field(c)];
  }

  /** The locator's three fields, in this order. */
  lemma LocatorText(address: string, schema: string, tokenType: string)
    ensures PackPoolLocator(address, schema, tokenType) ==
      ("address" + "=" + EncodeText(Form, address)) + ['&'] +
        (("schema" + "=" + EncodeText(Form, schema)) + ['&'] + ("type" + "=" + EncodeText(Form, tokenType)))
  {
    QueryText(("address", address), ("schema", schema), ("type", tokenType));
  }

  /** Prefix, locator, event and the pool data if there is any, in this order. */
  lemma NameText(poolLocator: string, event: string, poolData: Option<string>)
    ensures PackSubscriptionName(poolLocator, event, poolData) ==
      "fft" + [':'] + (poolLocator + [':'] + (
        if poolData.Some? then event + [':'] + EncodeText(Component, poolData.value) else event))
  {
    JoinThree("fft", poolLocator, event, ':');
    if poolData.Some? {
      JoinFour("fft", poolLocator, event, EncodeText(Component, poolData.value), ':');
    }
  }

  /** How the parts of a name are read, by their number; only with four does the prefix matter. */
  lemma NameParts(parts: seq<string>)
    requires parts != [] && forall p :: p in parts ==> ':' !in p
    ensures var u := UnpackSubscriptionName(Join(parts, ':')); var n := |parts|;
      && (n == 2 ==> u == Parsed(SubscriptionName(Some(parts[1]), None, None)))
      && (n == 3 ==> u == Parsed(SubscriptionName(Some(parts[1]), Some(parts[2]), None)))
      && (n == 4 && parts[0] == "fft" ==>
            u == if DecodeComponent(parts[3]).Some?
                 then Parsed(SubscriptionName(Some(parts[1]), Some(parts[2]), DecodeComponent(parts[3]))) else UriError)
      && (n == 1 || n > 4 || (n == 4 && parts[0] != "fft") ==> u == Parsed(SubscriptionName(None, None, None)))
  {
    SplitJoin(parts, ':');
  }

  lemma GetFirst(name: string, value: string, rest: seq<Pair>)
    ensures Get([(name, value)] + rest, name) == Some(value)
  {
  }

  lemma GetOther(other: string, value: string, rest: seq<Pair>, name: string)
    requires other != name
    ensures Get([(other, value)] + rest, name) == Get(rest, name)
  {
    assert ([(other, value)] + rest)[1..] == rest;
  }

  /** A question mark in front of a query and empty fields in it do not matter. */
  lemma QueryNoise(s: string, fields: seq<string>)
    ensures s == "" || s[0] != '?' ==> ParseQuery(['?'] + s) == ParseQuery(s)
    ensures ParseFields([""] + fields) == ParseFields(fields)
  {
    assert (['?'] + s)[1..] == s;
    assert ([""] + fields)[1..] == fields && [] + ParseFields(fields) == ParseFields(fields);
  }

  /** In a form, a percent sign that starts no octet stands for itself. */
  lemma StrayPercent(rest: string)
    requires |rest| < 2 || PairValue(rest[0], rest[1]).None?
    ensures FormBytes(['%'] + rest) == Encode("%") + FormBytes(rest)
  {
    var s := ['%'] + rest;
    assert "%"[1..] == "" && EncodeChar('%') + [] == EncodeChar('%');
    assert |s| >= 3 ==> s[1] == rest[0] && s[2] == rest[1];
    FormStep(s, EncodeChar('%'), 1, rest);
  }

  lemma QueryKept(key: string, value: string, rest: seq<Pair>)
    requires LowerCase(key)
    ensures ParseQuery(Serialize([(key, value)] + rest)) == [(key, value)] + rest
  {
    QueryParsesBack([(key, value)] + rest);
  }

  lemma SecondKey(k1: string, v1: string, k2: string, v2: string, rest: seq<Pair>)
    requires LowerCase(k1) && k1 != k2
    ensures Get(ParseQuery(Serialize([(k1, v1)] + ([(k2, v2)] + rest))), k2) == Some(v2)
  {
    QueryKept(k1, v1, [(k2, v2)] + rest);
    GetOther(k1, v1, [(k2, v2)] + rest, k2);
    GetFirst(k2, v2, rest);
  }

  /** The schema key is preferred to its former name, even after it. */
  lemma SchemaPreferred(former: string, schema: string, rest: seq<Pair>)
    ensures UnpackPoolLocator(Serialize([("standard", former)] + ([("schema", schema)] + rest))).schema == Some(schema)
  {
    assert |"standard"| == 8 && |"schema"| == 6;
    SecondKey("standard", former, "schema", schema, rest);
  }
}
