/** ERC721 requests read back from the chain: compile, execute, decode. */
module RoundTrip721 {
  import opened Js
  import opened Decimal
  import opened Numerals
  import opened MethodTables
  import opened AbiMapper
  import opened Calls
  import opened Erc721
  import opened Erc721Meaning
  import opened Names
  import opened Listener

  function SignatureOf(log: Log): string {
    match log
    case TransferLog(_, _, _) => TRANSFER_SIGNATURE
    case ApprovalLog(_, _, _) => APPROVAL_SIGNATURE
    case ApprovalForAllLog(_, _, _) => APPROVAL_FOR_ALL_SIGNATURE
  }

  /** The named outputs of a log entry. */
  function OutputsOf(log: Log): EventData {
    match log
    case TransferLog(from, to, id) => NO_DATA.(from := Str(from), to := Str(to), tokenId := Str(ToDec(id)))
    case ApprovalLog(owner, approved, id) =>
      NO_DATA.(owner := Str(owner), approved := Str(approved), tokenId := Str(ToDec(id)))
    case ApprovalForAllLog(owner, operator, approval) =>
      NO_DATA.(owner := Str(owner), operator := Str(operator), approved := Bool(approval))
  }

  /** `event` is the delivery of `log`, emitted by the transaction `s`. */
  predicate Reports(event: Event, log: Log, s: Sent) {
    && s.Sent? && s.call.m.inputs.Some? && |s.call.m.inputs.value| == |s.call.values|
    && EventId(event).Some? && TrimSignature(event.signature) == SignatureOf(log)
    && event.data == OutputsOf(log)
    && event.inputSigner == Some(s.signer)
    && event.inputData == InputData(s.call.m.inputs.value, s.call.values)
  }

  /** The request as a message about one token: the one it names, or the one just minted, with the URI
      the contract at `address` has for it. Who a burnt or approved token belonged to is the ledger's
      answer. */
  function Expected(read: Reading, uris: TokenUris, c: Contract, dto: Dto, event: Event, poolData: Option<string>,
                    locator: string, address: string): Message
    requires EventId(event).Some?
  {
    var id, data, token := EventId(event).value, InputText(event), TokenOf(read, c, dto);
    var index, origin := Str(ToDec(token)), TrimmedOrigin(id, event);
    var common := Common(id, poolData, locator, Str("1"), index, Some(uris(address, index).GetOr("")),
                         Some(Addr(dto.signer)), data, origin);
    match dto
    case MintDto(_, to, _, _, _, _) => TokenMint(common, Str(Addr(to)))
    case BurnDto(_, _, _, _, _) => TokenBurn(common, Str(c.ledger.OwnerOf(token)))
    case TransferDto(_, from, to, _, _, _) => TokenTransfer(common, Str(Addr(from)), Str(Addr(to)))
    case ApprovalDto(signer, operator, approved, _, _, tokenIndex) =>
      if tokenIndex.Some? then
        Message.TokenApproval(id, poolData, locator, index, Str(Grantee(dto)), Bool(Grantee(dto) != ZERO_ADDRESS),
                              Str(c.ledger.OwnerOf(token)), data, origin)
      else
        Message.TokenApproval(id, poolData, locator, Str(Addr(signer) + ":" + Addr(operator)), Str(Addr(operator)),
                              Bool(approved), Str(Addr(signer)), data,
                              OriginOf(id, StripParams(event.signature), event))
  }

  lemma ApprovalReadsBack(read: Reading, uris: TokenUris, c: Contract, c': Contract, dto: Dto, log: Log,
                          subName: string, name: SubscriptionName, event: Event, address: string)
    requires dto.ApprovalDto? && Meant(read, dto, c, c', log)
    requires UnpackSubscriptionName(subName) == Parsed(name) && name.poolLocator.Some?
    requires !OfType(name.poolLocator.value, FUNGIBLE) && EventId(event).Some?
    requires TrimSignature(event.signature) == SignatureOf(log) && event.data == OutputsOf(log)
    ensures OnEvent(uris, subName, event) ==
      Emitted(Expected(read, uris, c, dto, event, name.poolData, name.poolLocator.value, address))
  {
    Dispatched(uris, subName, event);
  }

  lemma TransferReadsBack(read: Reading, uris: TokenUris, c: Contract, c': Contract, dto: Dto, log: Log,
                          subName: string, name: SubscriptionName, event: Event, address: string)
    requires !dto.ApprovalDto? && Meant(read, dto, c, c', log)
    requires UnpackSubscriptionName(subName) == Parsed(name) && name.poolLocator.Some?
    requires !OfType(name.poolLocator.value, FUNGIBLE) && OfType(name.poolLocator.value, NONFUNGIBLE)
    requires UnpackPoolLocator(name.poolLocator.value).Valid()
    requires UnpackPoolLocator(name.poolLocator.value).address == Some(address)
    requires TrimSignature(event.signature) == SignatureOf(log) && event.data == OutputsOf(log)
    requires event.inputSigner == Some(Addr(dto.signer)) && EventId(event).Some?
    ensures OnEvent(uris, subName, event) ==
      Emitted(Expected(read, uris, c, dto, event, name.poolData, name.poolLocator.value, address))
  {
    TransferDecodes(uris, subName, name, event, log.from, log.to);
  }

  /** A request that succeeded, read back from the event it caused: the message FireFly gets is the
      request. Its data comes back if the method carries it in an input of that name. */
  lemma RequestReadsBack(read: Reading, uris: TokenUris, c: Contract, abi: seq<AbiMethod>, dto: Dto,
                         event: Event, log: Log, address: string, schema: string, name: string, poolData: Option<string>)
    requires ':' !in name && Reports(event, log, Submit(read, abi, false, dto))
    requires Execute(read, c, abi, dto).Done? && Execute(read, c, abi, dto).log == log
    ensures var locator := PackPoolLocator(address, schema, NONFUNGIBLE);
      OnEvent(uris, PackSubscriptionName(locator, name, poolData), event) ==
        Emitted(Expected(read, uris, c, dto, event, poolData, locator, address))
    ensures var inputs := Submit(read, abi, false, dto).call.m.inputs.value;
      DataNamed(inputs) ==> InputText(event) == if HasBytes(inputs) then ReadBack(dto.data) else ""
  {
    var locator := PackPoolLocator(address, schema, NONFUNGIBLE);
    var subName := PackSubscriptionName(locator, name, poolData);
    var unpacked := SubscriptionName(Some(locator), Some(name), poolData);
    LocatorType(address, schema, NONFUNGIBLE);
    LocatorParsesBack(address, schema, NONFUNGIBLE);
    NameParsesBack(locator, name, poolData);
    ExecutedMeans(read, c, abi, dto);
    var s := Submit(read, abi, false, dto);
    var p := SentEntry(read, abi, false, dto);
    if DataNamed(s.call.m.inputs.value) {
      DataComesBack(read, false, dto, p, s);
    }
    var after := Execute(read, c, abi, dto).contract;
    if dto.ApprovalDto? {
      ApprovalReadsBack(read, uris, c, after, dto, log, subName, unpacked, event, address);
    } else {
      TransferReadsBack(read, uris, c, after, dto, log, subName, unpacked, event, address);
    }
  }

  /** What a contract stores for a token it mints: the URI of the request, or one it makes. */
  lemma MintStores(read: Reading, c: Contract, abi: seq<AbiMethod>, dto: Dto)
    requires dto.MintDto? && Execute(read, c, abi, dto).Done?
    ensures Execute(read, c, abi, dto).contract.uris ==
      c.uris[TokenOf(read, c, dto) := if NoUri(dto) then c.baseUri + ToDec(TokenOf(read, c, dto)) else dto.uri.value]
  {
    ExecutedMeans(read, c, abi, dto);
  }

  /** A contract that answers with what it stored: the message about a minted token names that URI. */
  lemma UriReadsBack(read: Reading, uris: TokenUris, c: Contract, abi: seq<AbiMethod>, dto: Dto,
                     event: Event, log: Log, address: string, schema: string, name: string, poolData: Option<string>)
    requires ':' !in name && Reports(event, log, Submit(read, abi, false, dto)) && dto.MintDto?
    requires Execute(read, c, abi, dto).Done? && Execute(read, c, abi, dto).log == log
    requires var token, stored := TokenOf(read, c, dto), Execute(read, c, abi, dto).contract.uris;
      token in stored && uris(address, Str(ToDec(token))) == Some(stored[token])
    ensures var locator := PackPoolLocator(address, schema, NONFUNGIBLE);
      var r := OnEvent(uris, PackSubscriptionName(locator, name, poolData), event);
      && r.Emitted? && r.message.TokenMint?
      && r.message.common.uri == Some(if NoUri(dto) then c.baseUri + ToDec(TokenOf(read, c, dto)) else dto.uri.value)
  {
    RequestReadsBack(read, uris, c, abi, dto, event, log, address, schema, name, poolData);
    MintStores(read, c, abi, dto);
  }

  /** When the message is the request to the letter. A named index comes back as the text it was sent as
      exactly if that is how the number is written; the amount is one; a burn names the holder it was
      asked for exactly when that is who held the token; an approval of one token reads back as approved
      exactly unless it was given to the zero address. */
  lemma ReadsBackIff(read: Reading, c: Contract, abi: seq<AbiMethod>, dto: Dto)
    requires Honest(read) && Execute(read, c, abi, dto).Done?
    ensures dto.tokenIndex.Some? ==>
      (ToDec(TokenOf(read, c, dto)) == dto.tokenIndex.value <==> CanonicalDec(dto.tokenIndex.value))
    ensures !dto.ApprovalDto? ==> AmountOk(dto)
    ensures dto.BurnDto? ==>
      (Execute(read, c, abi, dto).log == TransferLog(Addr(dto.from), ZERO_ADDRESS, TokenOf(read, c, dto)) <==>
        c.ledger.OwnerOf(TokenOf(read, c, dto)) == Addr(dto.from))
    ensures dto.ApprovalDto? && dto.tokenIndex.Some? ==>
      ((Grantee(dto) != ZERO_ADDRESS) == dto.approved <==> !(dto.approved && Addr(dto.operator) == ZERO_ADDRESS))
  {
    ExecutedMeans(read, c, abi, dto);
    NothingLost(abi, dto);
    if dto.tokenIndex.Some? {
      TextReturnsIff(read, dto.tokenIndex);
    }
  }
}
