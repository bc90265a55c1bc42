/** ERC20 requests read back from the chain: compile, execute, decode. */
module RoundTrip20 {
  import opened Js
  import opened Decimal
  import opened Numerals
  import opened MethodTables
  import opened AbiMapper
  import opened Calls
  import opened Erc20
  import opened Erc20Meaning
  import opened Names
  import opened Listener

  function SignatureOf(log: Log): string {
    if log.TransferLog? then TRANSFER_SIGNATURE else APPROVAL_SIGNATURE
  }

  /** The named outputs of a log entry. */
  function OutputsOf(log: Log): EventData {
    match log
    case TransferLog(from, to, value) => NO_DATA.(from := Str(from), to := Str(to), value := Str(ToDec(value)))
    case ApprovalLog(owner, spender, value) =>
      NO_DATA.(owner := Str(owner), spender := Str(spender), value := Str(ToDec(value)))
  }

  /** `event` is the delivery of `log`, emitted by the transaction `s`. */
  predicate Reports(event: Event, log: Log, s: Sent) {
    && s.Sent? && s.call.m.inputs.Some? && |s.call.m.inputs.value| == |s.call.values|
    && EventId(event).Some? && TrimSignature(event.signature) == SignatureOf(log)
    && event.data == OutputsOf(log)
    && event.inputSigner == Some(s.signer)
    && event.inputData == InputData(s.call.m.inputs.value, s.call.values)
  }

  /** The request as a message: who, to whom, how much, in the canonical spelling of addresses and
      numbers, with the event's own id, data and origin. */
  function Expected(read: Reading, dto: Dto, event: Event, poolData: Option<string>, locator: string): Message
    requires EventId(event).Some?
  {
    var id, data := EventId(event).value, InputText(event);
    var origin := TrimmedOrigin(id, event);
    if dto.ApprovalDto? then
      var owner, spender := Addr(dto.signer), Addr(dto.operator);
      Message.TokenApproval(id, poolData, locator, Str(owner + ":" + spender), Str(spender),
                            Bool(Amount(read, Some(Allowance(dto))) > 0), Str(owner), data, origin)
    else
      var common := Common(id, poolData, locator, Str(ToDec(Amount(read, dto.amount))), Undefined, None,
                           Some(Addr(dto.signer)), data, origin);
      match dto
      case MintDto(_, to, _, _, _, _) => TokenMint(common, Str(Addr(to)))
      case BurnDto(_, from, _, _, _) => TokenBurn(common, Str(Addr(from)))
      case TransferDto(_, from, to, _, _, _) => TokenTransfer(common, Str(Addr(from)), Str(Addr(to)))
  }

  lemma ApprovalDecodes(uris: TokenUris, subName: string, name: SubscriptionName, event: Event,
                        owner: string, spender: string, n: nat)
    requires UnpackSubscriptionName(subName) == Parsed(name) && name.poolLocator.Some?
    requires TrimSignature(event.signature) == APPROVAL_SIGNATURE && EventId(event).Some?
    requires OfType(name.poolLocator.value, FUNGIBLE)
    requires event.data.owner == Str(owner) && event.data.spender == Str(spender) && event.data.value == Str(ToDec(n))
    ensures OnEvent(uris, subName, event) == Emitted(Message.TokenApproval(
      EventId(event).value, name.poolData, name.poolLocator.value, Str(owner + ":" + spender), Str(spender), Bool(n > 0),
      Str(owner), InputText(event), TrimmedOrigin(EventId(event).value, event)))
  {
    Dispatched(uris, subName, event);
    BigIntRoundTrip(n);
    assert BigIntOf(event.data.value) == Some(n);
  }

  lemma ApprovalReadsBack(read: Reading, uris: TokenUris, l: Ledger, l': Ledger, dto: Dto, log: Log,
                          subName: string, name: SubscriptionName, event: Event)
    requires dto.ApprovalDto? && Meant(read, dto, l, l', log)
    requires UnpackSubscriptionName(subName) == Parsed(name) && name.poolLocator.Some?
    requires OfType(name.poolLocator.value, FUNGIBLE) && EventId(event).Some?
    requires TrimSignature(event.signature) == SignatureOf(log) && event.data == OutputsOf(log)
    ensures OnEvent(uris, subName, event) ==
      Emitted(Expected(read, dto, event, name.poolData, name.poolLocator.value))
  {
    ApprovalDecodes(uris, subName, name, event, log.owner, log.spender, log.value);
  }

  lemma TransferReadsBack(read: Reading, uris: TokenUris, l: Ledger, l': Ledger, dto: Dto, log: Log,
                          subName: string, name: SubscriptionName, event: Event)
    requires !dto.ApprovalDto? && Meant(read, dto, l, l', log)
    requires UnpackSubscriptionName(subName) == Parsed(name) && name.poolLocator.Some?
    requires OfType(name.poolLocator.value, FUNGIBLE) && !OfType(name.poolLocator.value, NONFUNGIBLE)
    requires TrimSignature(event.signature) == SignatureOf(log) && event.data == OutputsOf(log)
    requires event.inputSigner == Some(Addr(dto.signer)) && EventId(event).Some?
    ensures OnEvent(uris, subName, event) ==
      Emitted(Expected(read, dto, event, name.poolData, name.poolLocator.value))
  {
    TransferDecodes(uris, subName, name, event, log.from, log.to);
  }

  /** A request that succeeded, read back from the event it caused: the message FireFly gets is the
      request. Its data comes back if the method carries it in an input of that name. */
  lemma RequestReadsBack(read: Reading, uris: TokenUris, l: Ledger, abi: seq<AbiMethod>, dto: Dto, event: Event, log: Log,
                         address: string, schema: string, name: string, poolData: Option<string>)
    requires ':' !in name && Reports(event, log, Submit(read, abi, true, dto))
    requires Execute(read, l, abi, dto).Done? && Execute(read, l, abi, dto).log == log
    ensures var locator := PackPoolLocator(address, schema, FUNGIBLE);
      OnEvent(uris, PackSubscriptionName(locator, name, poolData), event) ==
        Emitted(Expected(read, dto, event, poolData, locator))
    ensures var inputs := Submit(read, abi, true, dto).call.m.inputs.value;
      DataNamed(inputs) ==> InputText(event) == if HasBytes(inputs) then ReadBack(dto.data) else ""
  {
    var locator := PackPoolLocator(address, schema, FUNGIBLE);
    var subName := PackSubscriptionName(locator, name, poolData);
    var unpacked := SubscriptionName(Some(locator), Some(name), poolData);
    LocatorType(address, schema, FUNGIBLE);
    NameParsesBack(locator, name, poolData);
    ExecutedMeans(read, l, abi, dto);
    var s := Submit(read, abi, true, dto);
    var p := SentEntry(read, abi, true, dto);
    if DataNamed(s.call.m.inputs.value) {
      DataComesBack(read, true, dto, p, s);
    }
    var after := Execute(read, l, abi, dto).ledger;
    if dto.ApprovalDto? {
      ApprovalReadsBack(read, uris, l, after, dto, log, subName, unpacked, event);
    } else {
      TransferReadsBack(read, uris, l, after, dto, log, subName, unpacked, event);
    }
  }

  /** The amount comes back as the text it was sent as exactly if that is how the number is written. */
  lemma AmountReadsBackIff(read: Reading, l: Ledger, abi: seq<AbiMethod>, dto: Dto)
    requires !dto.ApprovalDto? && Honest(read) && Execute(read, l, abi, dto).Done?
    ensures dto.amount.Some?
    ensures ToDec(Amount(read, dto.amount)) == dto.amount.value <==> CanonicalDec(dto.amount.value)
  {
    ExecutedMeans(read, l, abi, dto);
    TextReturnsIff(read, dto.amount);
  }

  /** The one thing an approval can lose: granting an allowance of zero reads back as not approved. */
  lemma ApprovedReadsBackIff(read: Reading, dto: Dto)
    requires dto.ApprovalDto? && Honest(read) && HasAmount(read, Some(Allowance(dto)))
    ensures (Amount(read, Some(Allowance(dto))) > 0) == dto.approved
      <==> !(dto.approved && dto.allowance.Some? && read(dto.allowance.value) == Some(0))
  {
    assert ToDec(0) == "0";
    assert read(ToDec(0)) == Some(0);
    assert read(ToDec(UINT256_MAX)) == Some(UINT256_MAX);
  }

  /** Zero has more than one spelling, and each of them loses the flag with a connector that reads
      quantities as `BigInt` does. */
  lemma ZeroAllowances(dto: Dto)
    requires dto.ApprovalDto? && dto.approved && dto.allowance in {Some("0"), Some("00"), Some("0x0")}
    ensures Honest(BigIntReading)
    ensures HasAmount(BigIntReading, Some(Allowance(dto))) && Amount(BigIntReading, Some(Allowance(dto))) == 0
  {
    BigIntIsHonest();
    ZeroSpellings();
  }
}
