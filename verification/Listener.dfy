/** `TokenListener`: from a blockchain event to the message FireFly receives. */
module Listener {
  import opened Js
  import opened Text
  import opened Hex
  import opened Numerals
  import opened Names
  import opened EventIds
  import opened MethodTables

  const CREATE_SIGNATURE := "TokenPoolCreation" + "(address,string,string,bool,bytes)"
  const TRANSFER_SIGNATURE := "Transfer" + "(address,address,uint256)"
  const APPROVAL_SIGNATURE := "Approval" + "(address,address,uint256)"
  const APPROVAL_FOR_ALL_SIGNATURE := "ApprovalForAll" + "(address,address,bool)"

  /** The named outputs of the token events; those an event does not have are undefined. */
  datatype EventData = EventData(from: Param, to: Param, value: Param, tokenId: Param,
                                 owner: Param, spender: Param, operator: Param, approved: Param)

  const NO_DATA := EventData(Undefined, Undefined, Undefined, Undefined, Undefined, Undefined, Undefined, Undefined)

  datatype Event = Event(signature: string, address: string, blockNumber: Option<string>, transactionIndex: string,
                         transactionHash: string, logIndex: Option<string>, timestamp: string,
                         data: EventData, inputData: Option<string>, inputSigner: Option<string>)

  /** The `blockchain` block of a message: where it comes from. */
  datatype Origin = Origin(id: string, name: string, location: string, signature: string, timestamp: string,
                           output: EventData, info: OriginInfo)

  datatype OriginInfo = OriginInfo(address: string, blockNumber: Option<string>, transactionIndex: string,
                                   transactionHash: string, logIndex: Option<string>, signature: string)

  datatype Common = Common(id: string, poolData: Option<string>, poolLocator: string, amount: Param,
                           tokenIndex: Param, uri: Option<string>, signer: Option<string>, data: string,
                           blockchain: Origin)

  /** An approval's `info` is the `output` of its `blockchain` block. */
  datatype Message =
    | TokenMint(common: Common, to: Param)
    | TokenBurn(common: Common, from: Param)
    | TokenTransfer(common: Common, from: Param, to: Param)
    | TokenApproval(id: string, poolData: Option<string>, poolLocator: string, subject: Param, operator: Param,
                    approved: Param, holder: Param, data: string, blockchain: Origin)

  /** What the chain answers when a contract is asked for the URI of a token; the query may fail. */
  type TokenUris = (string, Param) -> Option<string>

  /** A message, `undefined`, a rejected promise, or the pool creation branch. */
  datatype Handled = Emitted(message: Message) | Nothing | Rejected | PoolCreated

  function TrimSignature(signature: string): string {
    var firstColon := IndexOf(signature, ':');
    if 0 < firstColon < |signature| then signature[firstColon + 1..] else signature
  }

  /** A nonempty prefix up to the first colon is all that is trimmed. */
  lemma TrimPrefixed(prefix: string, signature: string)
    requires prefix != "" && ':' !in prefix
    ensures TrimSignature(prefix + [':'] + signature) == signature
  {
    IndexOfAppended(prefix, signature, ':');
  }

  /** A colon in front, and a signature without one, stay. */
  lemma NothingTrimmed(signature: string)
    requires ':' !in signature || signature[0] == ':'
    ensures TrimSignature(signature) == signature
  {
    if signature != "" && signature[0] == ':' {
      assert IndexOf(signature, ':') == 0;
    }
  }

  /** The signature's name, or nothing if it has no parameters. */
  function StripParams(signature: string): string {
    var open := IndexOf(signature, '(');
    if open < |signature| then signature[..open] else ""
  }

  /** The transaction index may be any numeral; other text throws. */
  function EventId(event: Event): Option<string> {
    match ParseBigInt(event.transactionIndex)
    case Some(n) => Some(FormatEventId(event.blockNumber, IntText(n), event.logIndex))
    case None => None
  }

  function OriginOf(id: string, name: string, event: Event): Origin {
    var signature := TrimSignature(event.signature);
    Origin(id, name, "address=" + event.address, signature, event.timestamp, event.data,
           OriginInfo(event.address, event.blockNumber, event.transactionIndex, event.transactionHash,
                      event.logIndex, signature))
  }

  /** Where a message about `event` comes from. */
  function TrimmedOrigin(id: string, event: Event): Origin {
    OriginOf(id, StripParams(TrimSignature(event.signature)), event)
  }

  function InputText(event: Event): string {
    DecodeHex(event.inputData.GetOr(""))
  }

  /** `${p}` */
  function TextOf(p: Param): string {
    match p
    case Str(s) => s
    case Bool(b) => if b then "true" else "false"
    case Undefined => "undefined"
  }

  function OfType(locator: string, tokenType: string): bool {
    UnpackPoolLocator(locator).tokenType == Some(tokenType)
  }

  // ---------------------------------------------------------------- transfers

  function CommonOf(uris: TokenUris, name: SubscriptionName, event: Event): Common
    requires name.poolLocator.Some? && EventId(event).Some?
  {
    var id, locator, index := EventId(event).value, name.poolLocator.value, event.data.tokenId;
    var named := OfType(locator, NONFUNGIBLE) && index != Undefined;
    Common(id, name.poolData, locator,
           if OfType(locator, FUNGIBLE) then event.data.value else Str("1"),
           if named then index else Undefined,
           if named && UnpackPoolLocator(locator).Valid() then Some(TokenUri(uris, locator, index)) else None,
           event.inputSigner, InputText(event), TrimmedOrigin(id, event))
  }

  /** A failed query reads as no URI. */
  function TokenUri(uris: TokenUris, locator: string, index: Param): string {
    uris(UnpackPoolLocator(locator).address.GetOr(""), index).GetOr("")
  }

  /** The zero address at one end makes a transfer a mint or a burn; at both ends, nothing. */
  function Transferred(uris: TokenUris, subName: string, event: Event): Handled {
    match UnpackSubscriptionName(subName)
    case UriError => Rejected
    case Parsed(name) =>
      var from, to := event.data.from, event.data.to;
      if (from == Str(ZERO_ADDRESS) && to == Str(ZERO_ADDRESS)) || name.poolLocator.None? then Nothing
      else if EventId(event).None? then Rejected
      else if from == Str(ZERO_ADDRESS) then Emitted(TokenMint(CommonOf(uris, name, event), to))
      else if to == Str(ZERO_ADDRESS) then Emitted(TokenBurn(CommonOf(uris, name, event), from))
      else Emitted(TokenTransfer(CommonOf(uris, name, event), from, to))
  }

  method GetTokenUri(uris: TokenUris, tokenIdx: Param, contractAddress: string) returns (uri: string)
    ensures uri == uris(contractAddress, tokenIdx).GetOr("")
  {
    match uris(contractAddress, tokenIdx)
    case Some(output) => uri := output;
    case None => uri := "";
  }

  method TransformTransferEvent(uris: TokenUris, subName: string, event: Event) returns (r: Handled)
    ensures r == Transferred(uris, subName, event)
  {
    var output := event.data;
    var unpackedSub := UnpackSubscriptionName(subName);
    if unpackedSub.UriError? {
      return Rejected;
    }
    var decodedData := InputText(event);
    if output.from == Str(ZERO_ADDRESS) && output.to == Str(ZERO_ADDRESS) {
      return Nothing;
    }
    if unpackedSub.name.poolLocator.None? {
      return Nothing;
    }
    var eventId := EventId(event);
    if eventId.None? {
      return Rejected;
    }
    var packed := unpackedSub.name.poolLocator.value;
    var poolLocator := UnpackPoolLocator(packed);
    var commonData := Common(eventId.value, unpackedSub.name.poolData, packed,
      if poolLocator.tokenType == Some(FUNGIBLE) then output.value else Str("1"),
      Undefined, None, event.inputSigner, decodedData, TrimmedOrigin(eventId.value, event));
    if poolLocator.tokenType == Some(NONFUNGIBLE) && output.tokenId != Undefined {
      commonData := commonData.(tokenIndex := output.tokenId);
      if poolLocator.Valid() {
        var uri := GetTokenUri(uris, output.tokenId, poolLocator.address.GetOr(""));
        commonData := commonData.(uri := Some(uri));
      }
    }
    if output.from == Str(ZERO_ADDRESS) {
      r := Emitted(TokenMint(commonData, output.to));
    } else if output.to == Str(ZERO_ADDRESS) {
      r := Emitted(TokenBurn(commonData, output.from));
    } else {
      r := Emitted(TokenTransfer(commonData, output.from, output.to));
    }
  }

  // ---------------------------------------------------------------- approvals

  /** `BigInt(p ?? 0)`; text that is no numeral throws. */
  function BigIntOf(p: Param): Option<int> {
    match p
    case Undefined => Some(0)
    case Bool(b) => Some(if b then 1 else 0)
    case Str(s) => ParseBigInt(s)
  }

  /** A fungible approval is about an owner and a spender, any other about one token. */
  function ApprovedEvent(subName: string, event: Event): Handled {
    match UnpackSubscriptionName(subName)
    case UriError => Rejected
    case Parsed(name) =>
      if name.poolLocator.None? then Nothing
      else
        var locator, output, id := name.poolLocator.value, event.data, EventId(event);
        if id.None? then Rejected
        else if OfType(locator, FUNGIBLE) then (
          match BigIntOf(output.value)
          case None => Rejected
          case Some(n) =>
            Emitted(TokenApproval(id.value, name.poolData, locator,
                                  Str(TextOf(output.owner) + ":" + TextOf(output.spender)), output.spender,
                                  Bool(n > 0), output.owner, InputText(event), TrimmedOrigin(id.value, event))))
        else
          Emitted(TokenApproval(id.value, name.poolData, locator, output.tokenId, output.approved,
                                Bool(output.approved != Str(ZERO_ADDRESS)), output.owner, InputText(event),
                                TrimmedOrigin(id.value, event)))
  }

  method TransformApprovalEvent(subName: string, event: Event) returns (r: Handled)
    ensures r == ApprovedEvent(subName, event)
  {
    var output := event.data;
    var unpackedSub := UnpackSubscriptionName(subName);
    if unpackedSub.UriError? {
      return Rejected;
    }
    var decodedData := InputText(event);
    if unpackedSub.name.poolLocator.None? {
      return Nothing;
    }
    var packed := unpackedSub.name.poolLocator.value;
    var poolLocator := UnpackPoolLocator(packed);
    var operator: Param;
    var subject: Param;
    var approved := true;
    if poolLocator.tokenType == Some(FUNGIBLE) {
      operator := output.spender;
      subject := Str(TextOf(output.owner) + ":" + TextOf(operator));
      var value := BigIntOf(output.value);
      if value.None? {
        return Rejected;
      }
      approved := value.value > 0;
    } else {
      operator := output.approved;
      subject := output.tokenId;
      approved := operator != Str(ZERO_ADDRESS);
    }
    var eventId := EventId(event);
    if eventId.None? {
      return Rejected;
    }
    r := Emitted(TokenApproval(eventId.value, unpackedSub.name.poolData, packed, subject, operator, Bool(approved),
                               output.owner, decodedData, TrimmedOrigin(eventId.value, event)));
  }

  /** The name of this event's block comes from the signature as it arrived. */
  function ApprovedForAll(subName: string, event: Event): Handled {
    match UnpackSubscriptionName(subName)
    case UriError => Rejected
    case Parsed(name) =>
      var output, id := event.data, EventId(event);
      if name.poolLocator.None? then Nothing
      else if id.None? then Rejected
      else Emitted(TokenApproval(id.value, name.poolData, name.poolLocator.value,
                                 Str(TextOf(output.owner) + ":" + TextOf(output.operator)), output.operator,
                                 output.approved, output.owner, InputText(event),
                                 OriginOf(id.value, StripParams(event.signature), event)))
  }

  // ---------------------------------------------------------------- dispatch

  function OnEvent(uris: TokenUris, subName: string, event: Event): Handled {
    var signature := TrimSignature(event.signature);
    if signature == CREATE_SIGNATURE then PoolCreated
    else if signature == TRANSFER_SIGNATURE then Transferred(uris, subName, event)
    else if signature == APPROVAL_SIGNATURE then ApprovedEvent(subName, event)
    else if signature == APPROVAL_FOR_ALL_SIGNATURE then ApprovedForAll(subName, event)
    else Nothing
  }

  /** An event delivered under a subscription's name, and how the chain answers at the time. */
  datatype Delivery = Delivery(subName: string, event: Event, uris: TokenUris)

  function HandledAs(d: Delivery): Handled {
    OnEvent(d.uris, d.subName, d.event)
  }

  lemma SignaturesDiffer()
    ensures CREATE_SIGNATURE != TRANSFER_SIGNATURE && CREATE_SIGNATURE != APPROVAL_SIGNATURE
    ensures CREATE_SIGNATURE != APPROVAL_FOR_ALL_SIGNATURE && TRANSFER_SIGNATURE != APPROVAL_SIGNATURE
    ensures TRANSFER_SIGNATURE != APPROVAL_FOR_ALL_SIGNATURE && APPROVAL_SIGNATURE != APPROVAL_FOR_ALL_SIGNATURE
  {
    assert CREATE_SIGNATURE[1] == 'o' && TRANSFER_SIGNATURE[1] == 'r' && APPROVAL_SIGNATURE[1] == 'p';
    assert APPROVAL_SIGNATURE[8] == '(' && APPROVAL_FOR_ALL_SIGNATURE[8] == 'F';
    assert APPROVAL_FOR_ALL_SIGNATURE[1] == 'p';
  }

  /** Each token event reaches its own transform. */
  lemma Dispatched(uris: TokenUris, subName: string, event: Event)
    ensures TrimSignature(event.signature) == TRANSFER_SIGNATURE ==>
      OnEvent(uris, subName, event) == Transferred(uris, subName, event)
    ensures TrimSignature(event.signature) == APPROVAL_SIGNATURE ==>
      OnEvent(uris, subName, event) == ApprovedEvent(subName, event)
    ensures TrimSignature(event.signature) == APPROVAL_FOR_ALL_SIGNATURE ==>
      OnEvent(uris, subName, event) == ApprovedForAll(subName, event)
  {
    SignaturesDiffer();
  }

  lemma StripsTo(name: string, signature: string)
    requires '(' !in name && name != ""
    ensures StripParams(signature) == name <==> name + ['('] <= signature
  {
    var open := IndexOf(signature, '(');
    if name + ['('] <= signature {
      var rest := signature[|name| + 1..];
      assert signature == name + ['('] + rest;
      IndexOfAppended(name, rest, '(');
    } else if open < |signature| {
      assert signature[..open + 1] == signature[..open] + ['('];
    }
  }

  function OriginOfMessage(message: Message): Origin {
    if message.TokenApproval? then message.blockchain else message.common.blockchain
  }

  lemma TransferOrigin(uris: TokenUris, subName: string, event: Event)
    ensures var r := Transferred(uris, subName, event); r.Emitted? ==>
      EventId(event).Some? && OriginOfMessage(r.message) == TrimmedOrigin(EventId(event).value, event)
  {
  }

  lemma ApprovalOrigin(subName: string, event: Event)
    ensures var r := ApprovedEvent(subName, event); r.Emitted? ==>
      EventId(event).Some? && OriginOfMessage(r.message) == TrimmedOrigin(EventId(event).value, event)
  {
  }

  lemma ForAllOrigin(subName: string, event: Event)
    ensures var r := ApprovedForAll(subName, event); r.Emitted? ==>
      EventId(event).Some? && OriginOfMessage(r.message).name == StripParams(event.signature)
  {
  }

  /** Transfers and approvals of one token are named after the event. A message about all tokens is
      named after its signature as it arrived: with a prefix to the signature it has another name. */
  lemma OriginNames(uris: TokenUris, subName: string, event: Event, name: string)
    requires '(' !in name && name != "" && OnEvent(uris, subName, event).Emitted?
    ensures var signature := TrimSignature(event.signature);
      OriginOfMessage(OnEvent(uris, subName, event).message).name == name <==>
        name + ['('] <= (if signature == APPROVAL_FOR_ALL_SIGNATURE then event.signature else signature)
  {
    Dispatched(uris, subName, event);
    TransferOrigin(uris, subName, event);
    ApprovalOrigin(subName, event);
    ForAllOrigin(subName, event);
    SignaturesDiffer();
    StripsTo(name, event.signature);
    StripsTo(name, TrimSignature(event.signature));
  }

  lemma LocatorType(address: string, schema: string, tokenType: string)
    ensures OfType(PackPoolLocator(address, schema, tokenType), FUNGIBLE) <==> tokenType == FUNGIBLE
    ensures OfType(PackPoolLocator(address, schema, tokenType), NONFUNGIBLE) <==> tokenType == NONFUNGIBLE
    ensures FUNGIBLE != NONFUNGIBLE && ':' !in PackPoolLocator(address, schema, tokenType)
  {
    assert |FUNGIBLE| == 8 && |NONFUNGIBLE| == 11;
    LocatorParsesBack(address, schema, tokenType);
  }

  lemma TransferDecodes(uris: TokenUris, subName: string, name: SubscriptionName, event: Event,
                        from: string, to: string)
    requires UnpackSubscriptionName(subName) == Parsed(name) && name.poolLocator.Some?
    requires TrimSignature(event.signature) == TRANSFER_SIGNATURE
    requires event.data.from == Str(from) && event.data.to == Str(to)
    requires (from != ZERO_ADDRESS || to != ZERO_ADDRESS) && EventId(event).Some?
    ensures OnEvent(uris, subName, event) == Emitted(
      if from == ZERO_ADDRESS then TokenMint(CommonOf(uris, name, event), Str(to))
      else if to == ZERO_ADDRESS then TokenBurn(CommonOf(uris, name, event), Str(from))
      else TokenTransfer(CommonOf(uris, name, event), Str(from), Str(to)))
  {
    Dispatched(uris, subName, event);
  }

  /** A transfer from nobody to nobody leaves no message. */
  lemma NobodyDropped(uris: TokenUris, subName: string, name: SubscriptionName, event: Event)
    requires UnpackSubscriptionName(subName) == Parsed(name)
    requires TrimSignature(event.signature) == TRANSFER_SIGNATURE
    requires event.data.from == Str(ZERO_ADDRESS) == event.data.to
    ensures OnEvent(uris, subName, event) == Nothing
  {
    Dispatched(uris, subName, event);
  }
}
