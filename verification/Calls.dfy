/** A compiled call on its way to the chain: the blockchain connector turns the parameters into
    the values of the method's inputs, and turns values back into text for events. */
module Calls {
  import opened Js
  import opened Utf8
  import opened Hex
  import opened Decimal
  import opened Numerals
  import opened MethodTables
  import opened AbiMapper

  // ---------------------------------------------------------------- addresses

  function Lower(c: char): char {
    if 'A' <= c <= 'F' then c - 'A' + 'a' else c
  }

  function LowerAll(s: string): (r: string)
    ensures |r| == |s|
  {
    if s == [] then [] else [Lower(s[0])] + LowerAll(s[1..])
  }

  predicate HexDigits(s: string) {
    forall i :: 0 <= i < |s| ==> DigitValue(s[i]).Some?
  }

  /** The lower-case form an address has in every event. */
  predicate IsAddress(s: string) {
    |s| == 42 && s[..2] == "0x" && HexDigits(s[2..]) && LowerAll(s[2..]) == s[2..]
  }

  /** The address a text denotes: forty hex digits of either case behind `0x`. */
  function Canonical(s: string): Option<string> {
    if |s| == 42 && s[..2] == "0x" && HexDigits(s[2..]) then Some("0x" + LowerAll(s[2..])) else None
  }

  lemma {:induction false} LowerTwice(s: string)
    requires HexDigits(s)
    ensures HexDigits(LowerAll(s)) && LowerAll(LowerAll(s)) == LowerAll(s)
  {
    if s == [] {
    } else {
      LowerTwice(s[1..]);
      var r := LowerAll(s);
      assert r[1..] == LowerAll(s[1..]);
      assert forall i :: 0 <= i < |s| ==> r[i] == if i == 0 then Lower(s[0]) else LowerAll(s[1..])[i - 1];
    }
  }

  /** Canonical texts are addresses and denote themselves. */
  lemma CanonicalIs(s: string)
    ensures Canonical(s).Some? ==> IsAddress(Canonical(s).value)
    ensures IsAddress(s) ==> Canonical(s) == Some(s)
  {
    if Canonical(s).Some? {
      LowerTwice(s[2..]);
      var r := Canonical(s).value;
      assert r[..2] == "0x" && r[2..] == LowerAll(s[2..]);
    }
    if IsAddress(s) {
      assert s == s[..2] + s[2..];
    }
  }

  lemma SameDigit(c: char, d: char)
    requires DigitValue(c).Some? && DigitValue(d).Some?
    ensures Lower(c) == Lower(d) <==> DigitValue(c) == DigitValue(d)
  {
  }

  lemma {:induction false} LowerAt(s: string, i: nat)
    requires i < |s|
    ensures LowerAll(s)[i] == Lower(s[i])
  {
    if i == 0 {
    } else {
      LowerAt(s[1..], i - 1);
    }
  }

  lemma SameDigits(s: string, t: string)
    requires |s| == |t| && HexDigits(s) && HexDigits(t)
    ensures LowerAll(s) == LowerAll(t) <==> forall i :: 0 <= i < |s| ==> DigitValue(s[i]) == DigitValue(t[i])
  {
    forall i: nat | i < |s|
      ensures LowerAll(s)[i] == LowerAll(t)[i] <==> DigitValue(s[i]) == DigitValue(t[i])
    {
      LowerAt(s, i);
      LowerAt(t, i);
      SameDigit(s[i], t[i]);
    }
  }

  /** Two texts denote one address exactly if they agree digit by digit, whatever the case. */
  lemma SameAddressIff(s: string, t: string)
    requires Canonical(s).Some? && Canonical(t).Some?
    ensures Canonical(s) == Canonical(t) <==>
      forall i :: 2 <= i < 42 ==> DigitValue(s[i]) == DigitValue(t[i])
  {
    SameDigits(s[2..], t[2..]);
    var a, b := "0x" + LowerAll(s[2..]), "0x" + LowerAll(t[2..]);
    assert a[2..] == LowerAll(s[2..]) && b[2..] == LowerAll(t[2..]);
    if Canonical(s) == Canonical(t) {
      forall i | 2 <= i < 42 ensures DigitValue(s[i]) == DigitValue(t[i]) {
        assert s[2..][i - 2] == s[i] && t[2..][i - 2] == t[i];
      }
    }
  }

  /** The greatest uint256. */
  lemma GreatestUint256()
    ensures var word := 0x1_0000_0000_0000_0000; UINT256_MAX + 1 == word * word * word * word
  {
  }

  lemma {:induction false} LowerKeeps(s: string)
    requires forall i :: 0 <= i < |s| ==> s[i] == '0'
    ensures LowerAll(s) == s
  {
    if s == [] {
    } else {
      LowerKeeps(s[1..]);
      assert s == [s[0]] + s[1..];
    }
  }

  lemma ZeroIsCanonical()
    ensures Canonical(ZERO_ADDRESS) == Some(ZERO_ADDRESS)
  {
    var digits := Repeat(40, '0');
    LowerKeeps(digits);
    assert ZERO_ADDRESS[2..] == digits && ZERO_ADDRESS[..2] == "0x";
  }

  // ---------------------------------------------------------------- values

  datatype Value =
    | AddressValue(address: string)
    | UintValue(n: nat)
    | BoolValue(b: bool)
    | BytesValue(bytes: seq<Byte>)
    | TextValue(text: string)

  predicate HasKind(v: Value, t: AbiType) {
    match t
    case Address => v.AddressValue?
    case Uint256 => v.UintValue?
    case Boolean => v.BoolValue?
    case Bytes => v.BytesValue?
    case Text => v.TextValue?
    case OtherType(_) => false
  }

  predicate Typed(types: seq<AbiType>, values: seq<Value>) {
    |types| == |values| && forall i :: 0 <= i < |types| ==> HasKind(values[i], types[i])
  }

  /** How the blockchain connector reads the text of a quantity. Nothing is assumed of it, except
      where a result asks for `Honest`. */
  type Reading = string -> Option<nat>

  /** A number the way it is written in events is read as that number. */
  ghost predicate Honest(read: Reading) {
    forall n: nat :: read(ToDec(n)) == Some(n)
  }

  /** A quantity is read by the connector and has to fit a uint256. */
  function Uint256Of(read: Reading, s: string): Option<nat> {
    match read(s)
    case Some(n) => if n <= UINT256_MAX then Some(n) else None
    case None => None
  }

  function BytesOf(s: string): Option<seq<Byte>> {
    if |s| >= 2 && s[..2] == "0x" then Some(FromHex(s[2..])) else None
  }

  function ToValue(read: Reading, t: AbiType, p: Param): Option<Value> {
    match (t, p)
    case (Address, Str(s)) => (match Canonical(s) case Some(a) => Some(AddressValue(a)) case None => None)
    case (Uint256, Str(s)) => (match Uint256Of(read, s) case Some(n) => Some(UintValue(n)) case None => None)
    case (Bytes, Str(s)) => (match BytesOf(s) case Some(b) => Some(BytesValue(b)) case None => None)
    case (Text, Str(s)) => Some(TextValue(s))
    case (Boolean, Bool(b)) => Some(BoolValue(b))
    case _ => None
  }

  /** All inputs or none: a parameter that is no value of its type fails the call. */
  function ToValues(read: Reading, types: seq<AbiType>, params: seq<Param>): (r: Option<seq<Value>>)
    ensures r.Some? ==> |types| == |params| && Typed(types, r.value)
  {
    if types == [] && params == [] then Some([])
    else if types == [] || params == [] then None
    else
      match (ToValue(read, types[0], params[0]), ToValues(read, types[1..], params[1..]))
      case (Some(v), Some(rest)) => Some([v] + rest)
      case _ => None
  }

  lemma {:induction false} ToValuesAt(read: Reading, types: seq<AbiType>, params: seq<Param>)
    ensures ToValues(read, types, params).Some? ==>
      var values := ToValues(read, types, params).value;
      forall i :: 0 <= i < |types| ==> ToValue(read, types[i], params[i]) == Some(values[i])
  {
    if types == [] || params == [] || ToValues(read, types, params).None? {
    } else {
      ToValuesAt(read, types[1..], params[1..]);
      var values := ToValues(read, types, params).value;
      forall i | 0 <= i < |types| ensures ToValue(read, types[i], params[i]) == Some(values[i]) {
        if i > 0 {
          assert types[1..][i - 1] == types[i] && params[1..][i - 1] == params[i];
        }
      }
    }
  }

  /** A method with the values of its inputs. */
  datatype Call = Call(m: AbiMethod, values: seq<Value>)

  datatype Sent = Sent(signer: string, call: Call) | NotSent

  /** Compiling a request and handing it to the blockchain connector. Refused requests, requests no
      method serves, and parameters that are no values of their types never reach the chain, and
      nobody signs for the zero address. */
  function Submit(read: Reading, abi: seq<AbiMethod>, isFungible: bool, dto: Dto): Sent {
    match Choose(abi, isFungible, dto)
    case Chosen(m, params) =>
      if m.inputs.None? || Canonical(dto.signer) in {None, Some(ZERO_ADDRESS)} then NotSent
      else (
        match ToValues(read, Kinds(m.inputs.value), params)
        case Some(values) => Sent(Canonical(dto.signer).value, Call(m, values))
        case None => NotSent)
    case _ => NotSent
  }

  function Addr(s: string): string {
    Canonical(s).GetOr("")
  }

  function Amount(read: Reading, o: Option<string>): nat {
    if o.Some? then Uint256Of(read, o.value).GetOr(0) else 0
  }

  predicate HasAmount(read: Reading, o: Option<string>) {
    o.Some? && Uint256Of(read, o.value).Some?
  }

  /** Of all the texts a quantity may be sent as, exactly the canonical ones come back in events. */
  lemma TextReturnsIff(read: Reading, o: Option<string>)
    requires Honest(read) && HasAmount(read, o)
    ensures ToDec(Amount(read, o)) == o.value <==> CanonicalDec(o.value)
  {
    NoLeadingZero(Amount(read, o));
    if CanonicalDec(o.value) {
      CanonicalIff(o.value);
    }
  }

  /** Reading as `BigInt` does, refusing what is negative. */
  function BigIntReading(s: string): Option<nat> {
    match ParseBigInt(s)
    case Some(n) => if n >= 0 then Some(n) else None
    case None => None
  }

  lemma BigIntIsHonest()
    ensures Honest(BigIntReading)
  {
    forall n: nat ensures BigIntReading(ToDec(n)) == Some(n) {
      BigIntRoundTrip(n);
    }
  }

  lemma AddressArg(read: Reading, s: string, v: Value)
    requires ToValue(read, Address, Str(s)) == Some(v)
    ensures Canonical(s) == Some(v.address) && v.address == Addr(s)
  {
  }

  lemma UintArg(read: Reading, o: Option<string>, v: Value)
    requires ToValue(read, Uint256, Opt(o)) == Some(v)
    ensures HasAmount(read, o) && v.n == Amount(read, o)
  {
  }

  /** The values are those the entry's parameters denote. */
  ghost predicate Encodes(read: Reading, m: MethodSignature, dto: Dto, values: seq<Value>) {
    var r := Apply(m.map', dto);
    && r.Params? && |r.params| == |m.inputs| == |values|
    && forall i :: 0 <= i < |r.params| ==> ToValue(read, m.inputs[i], r.params[i]) == Some(values[i])
  }

  /** The table entry behind a sent call. */
  ghost predicate Entry(read: Reading, isFungible: bool, dto: Dto, p: nat, s: Sent) {
    && s.Sent? && Canonical(dto.signer) == Some(s.signer) && s.signer != ZERO_ADDRESS
    && var sigs := DynamicMethods(isFungible, OperationOf(dto));
       && p < |sigs| && s.call.m.name == Some(sigs[p].name) && s.call.m.inputs.Some?
       && Kinds(s.call.m.inputs.value) == sigs[p].inputs
       && Encodes(read, sigs[p], dto, s.call.values)
  }

  lemma EntryTyped(read: Reading, isFungible: bool, dto: Dto, p: nat, s: Sent)
    requires Entry(read, isFungible, dto, p, s)
    ensures Typed(Kinds(s.call.m.inputs.value), s.call.values)
  {
  }

  /** Every call that was sent comes from a table entry. */
  lemma SentEntry(read: Reading, abi: seq<AbiMethod>, isFungible: bool, dto: Dto) returns (p: nat)
    requires Submit(read, abi, isFungible, dto).Sent?
    ensures Entry(read, isFungible, dto, p, Submit(read, abi, isFungible, dto))
  {
    p := ChosenEntry(abi, isFungible, dto);
    var r := Choose(abi, isFungible, dto);
    ToValuesAt(read, Kinds(r.m.inputs.value), r.params);
  }

  // ---------------------------------------------------------------- spelling

  /** An address in canonical spelling; any other text as it is. */
  function Spelled(s: string): string {
    Canonical(s).GetOr(s)
  }

  /** The same request, its addresses in canonical spelling. */
  function Respelled(dto: Dto): Dto {
    match dto
    case ApprovalDto(signer, operator, approved, data, allowance, tokenIndex) =>
      ApprovalDto(Spelled(signer), Spelled(operator), approved, data, allowance, tokenIndex)
    case BurnDto(signer, from, amount, tokenIndex, data) =>
      BurnDto(Spelled(signer), Spelled(from), amount, tokenIndex, data)
    case MintDto(signer, to, amount, tokenIndex, uri, data) =>
      MintDto(Spelled(signer), Spelled(to), amount, tokenIndex, uri, data)
    case TransferDto(signer, from, to, amount, tokenIndex, data) =>
      TransferDto(Spelled(signer), Spelled(from), Spelled(to), amount, tokenIndex, data)
  }

  lemma SpelledDenotes(s: string)
    ensures Canonical(Spelled(s)) == Canonical(s) && Addr(Spelled(s)) == Addr(s)
  {
    CanonicalIs(s);
    if Canonical(s).Some? {
      CanonicalIs(Spelled(s));
    }
  }

  /** Signer and holder are compared as text. */
  predicate SpelledApart(dto: Dto) {
    (dto.BurnDto? || dto.TransferDto?) && dto.from != dto.signer && Spelled(dto.from) == Spelled(dto.signer)
  }

  /** Which table entries serve a request depends on its spelling exactly when signer and holder are
      one address in two spellings: the entries for the holder alone then refuse. */
  lemma SpellingServesIff(m: Mapper, dto: Dto)
    ensures (Apply(m, dto).NotApplicable? <==> Apply(m, Respelled(dto)).NotApplicable?)
      <==> !(SpelledApart(dto) && m == (if dto.BurnDto? then SignerAmount else SignerToAmount))
  {
  }

  // ---------------------------------------------------------------- the data argument

  /** What an event carries as `inputArgs.data`: the first input of that name, as text. */
  function InputData(inputs: seq<AbiInput>, values: seq<Value>): Option<string>
    requires |inputs| == |values|
  {
    if inputs == [] then None
    else if inputs[0].name == "data" then Some(Rendered(values[0]))
    else InputData(inputs[1..], values[1..])
  }

  function Rendered(v: Value): string {
    match v
    case AddressValue(a) => a
    case UintValue(n) => ToDec(n)
    case BoolValue(b) => if b then "true" else "false"
    case BytesValue(bytes) => "0x" + ToHex(bytes)
    case TextValue(t) => t
  }

  /** The inputs named `data` are the bytes inputs. */
  predicate DataNamed(inputs: seq<AbiInput>) {
    forall i :: 0 <= i < |inputs| ==> (inputs[i].name == "data" <==> inputs[i].kind == Bytes)
  }

  lemma {:induction false} InputDataIs(inputs: seq<AbiInput>, values: seq<Value>, data: seq<Byte>)
    requires |inputs| == |values| && DataNamed(inputs)
    requires forall i :: 0 <= i < |inputs| && inputs[i].kind == Bytes ==> values[i] == BytesValue(data)
    ensures InputData(inputs, values) ==
      if exists i :: 0 <= i < |inputs| && inputs[i].kind == Bytes then Some("0x" + ToHex(data)) else None
  {
    if inputs == [] {
    } else {
      InputDataIs(inputs[1..], values[1..], data);
      if inputs[0].name != "data" {
        forall i | 0 <= i < |inputs| && inputs[i].kind == Bytes
          ensures inputs[1..][i - 1].kind == Bytes
        {
        }
      }
    }
  }

  /** The encoded bytes argument comes back as the text it was given. */
  lemma BytesTravel(data: string)
    ensures BytesOf(EncodeHex(data)).Some? && "0x" + ToHex(BytesOf(EncodeHex(data)).value) == EncodeHex(data)
  {
    var e := EncodeHex(data);
    var digits := ToHex(Encode(data));
    if digits == "" {
      NullByte();
      assert e == "0x" + "00";
      assert e[..2] == "0x" && e[2..] == "00";
    } else {
      HexRoundTrip(Encode(data));
      assert e[..2] == "0x" && e[2..] == digits;
    }
  }

  lemma NullByte()
    ensures FromHex("00") == [0] && ToHex([0]) == "00"
  {
    assert "00"[2..] == "" && [0][1..] == [];
    assert ByteToHex(0) == "00";
  }

  predicate HasBytes(inputs: seq<AbiInput>) {
    exists i :: 0 <= i < |inputs| && inputs[i].kind == Bytes
  }

  /** The data of a request as it reads after the chain: the single null character reads as none. */
  function ReadBack(data: Option<string>): string {
    if data == Some("\0") then "" else data.GetOr("")
  }

  lemma EntryBytes(read: Reading, isFungible: bool, dto: Dto, p: nat, s: Sent, i: nat)
    requires Entry(read, isFungible, dto, p, s) && i < |s.call.m.inputs.value| && s.call.m.inputs.value[i].kind == Bytes
    ensures BytesOf(EncodeHex(dto.data.GetOr(""))).Some?
    ensures |s.call.values| == |s.call.m.inputs.value|
    ensures s.call.values[i] == BytesValue(BytesOf(EncodeHex(dto.data.GetOr(""))).value)
  {
    TablesWellTyped(isFungible, dto, p);
    BytesTravel(dto.data.GetOr(""));
    assert Kinds(s.call.m.inputs.value)[i] == Bytes;
  }

  /** Where the bytes input is called `data`, the event's data is the request's. */
  lemma DataComesBack(read: Reading, isFungible: bool, dto: Dto, p: nat, s: Sent)
    requires Entry(read, isFungible, dto, p, s) && DataNamed(s.call.m.inputs.value)
    ensures |s.call.m.inputs.value| == |s.call.values|
    ensures DecodeHex(InputData(s.call.m.inputs.value, s.call.values).GetOr("")) ==
      if HasBytes(s.call.m.inputs.value) then ReadBack(dto.data) else ""
  {
    var data, inputs := dto.data.GetOr(""), s.call.m.inputs.value;
    BytesTravel(data);
    var bytes := BytesOf(EncodeHex(data)).value;
    forall i: nat | i < |inputs| && inputs[i].kind == Bytes ensures s.call.values[i] == BytesValue(bytes) {
      EntryBytes(read, isFungible, dto, p, s, i);
    }
    EntryTyped(read, isFungible, dto, p, s);
    InputDataIs(inputs, s.call.values, bytes);
    DataRoundTrip(data);
    assert DecodeHex("") == "";
  }
}
