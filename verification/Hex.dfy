/** `encodeHex` and `decodeHex`: arbitrary text as the bytes argument of a token method. */
module Hex {
  import opened Js
  import opened Utf8

  const LOWER := "0123456789abcdef"
  const UPPER := "0123456789ABCDEF"

  function DigitValue(c: char): Option<nat> {
    if '0' <= c <= '9' then Some(c as int - '0' as int)
    else if 'a' <= c <= 'f' then Some(c as int - 'a' as int + 10)
    else if 'A' <= c <= 'F' then Some(c as int - 'A' as int + 10)
    else None
  }

  lemma DigitsMean(n: nat)
    requires n < 16
    ensures DigitValue(LOWER[n]) == Some(n) && DigitValue(UPPER[n]) == Some(n)
  {
  }

  function ByteToHex(b: Byte): (r: string)
    ensures |r| == 2
  {
    [LOWER[b / 16], LOWER[b % 16]]
  }

  function ToHex(bytes: seq<Byte>): string {
    if bytes == [] then [] else ByteToHex(bytes[0]) + ToHex(bytes[1..])
  }

  /** The byte two hex digits stand for. */
  function PairValue(hi: char, lo: char): Option<Byte> {
    match (DigitValue(hi), DigitValue(lo))
    case (Some(h), Some(l)) => if h < 16 && l < 16 then Some(h * 16 + l) else None
    case _ => None
  }

  /** `Buffer.from(s, 'hex')`: stops at the first pair that is not two hex digits. */
  function FromHex(s: string): seq<Byte> {
    if |s| < 2 then []
    else
      match PairValue(s[0], s[1])
      case Some(b) => [b] + FromHex(s[2..])
      case None => []
  }

  /** `data.replace('0x', '')`: the first occurrence, wherever it is. */
  function DropPrefix(s: string): string {
    if |s| < 2 then s
    else if s[0] == '0' && s[1] == 'x' then s[2..]
    else [s[0]] + DropPrefix(s[1..])
  }

  /** Empty bytes arguments are not handled well downstream: no data becomes one null byte. */
  function EncodeHex(data: string): string {
    var encoded := ToHex(Encode(data));
    if encoded == "" then "0x00" else "0x" + encoded
  }

  function DecodeHex(data: string): string {
    var decoded := Decode(FromHex(DropPrefix(data)));
    if decoded == "\0" then "" else decoded
  }

  lemma PairRoundTrip(b: Byte)
    ensures PairValue(LOWER[b / 16], LOWER[b % 16]) == Some(b)
    ensures PairValue(UPPER[b / 16], UPPER[b % 16]) == Some(b)
  {
    DigitsMean(b / 16);
    DigitsMean(b % 16);
  }

  lemma {:induction false} HexRoundTrip(bytes: seq<Byte>)
    ensures FromHex(ToHex(bytes)) == bytes
    ensures |ToHex(bytes)| == 2 * |bytes|
  {
    if bytes == [] {
    } else {
      PairRoundTrip(bytes[0]);
      HexRoundTrip(bytes[1..]);
      assert ToHex(bytes)[2..] == ToHex(bytes[1..]);
    }
  }

  /** Every text survives the chain, except the single null character, which reads back as no
      data. */
  lemma DataRoundTrip(data: string)
    ensures DecodeHex(EncodeHex(data)) == if data == "\0" then "" else data
  {
    var bytes := Encode(data);
    HexRoundTrip(bytes);
    RoundTrip(data);
    if data == "" {
      NullDecodes();
    } else {
      assert |bytes| > 0;
      assert ("0x" + ToHex(bytes))[2..] == ToHex(bytes);
    }
  }

  lemma NullDecodes()
    ensures DecodeHex("0x00") == ""
  {
    assert "0x00"[2..] == "00";
    assert PairValue('0', '0') == Some(0);
    assert "00"[2..] == "";
    assert FromHex("00") == [0];
    RoundTrip("\0");
    assert Encode("\0") == [0] + Encode("\0"[1..]);
  }

  /** Two texts share an encoding only if they are equal or are the two ways to say "no data". */
  lemma EncodeHexInjective(a: string, b: string)
    ensures EncodeHex(a) == EncodeHex(b) <==> a == b || {a, b} == {"", "\0"}
  {
    DataRoundTrip(a);
    DataRoundTrip(b);
    NullEncodes();
    if {a, b} == {"", "\0"} {
      assert a in {a, b} && b in {a, b};
    }
  }

  lemma NullEncodes()
    ensures EncodeHex("\0") == "0x00" == EncodeHex("")
  {
    assert Encode("\0") == [0] + Encode("\0"[1..]);
    assert ToHex([0]) == ByteToHex(0) + ToHex([0][1..]);
  }
}
