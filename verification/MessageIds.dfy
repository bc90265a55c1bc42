/** What identifies a message: the position of its event on the chain, and the event's own fields. */
module MessageIds {
  import opened Js
  import opened Text
  import opened Decimal
  import opened Numerals
  import opened Names
  import opened EventIds
  import opened MethodTables
  import opened Listener

  function IdOfMessage(message: Message): string {
    if message.TokenApproval? then message.id else message.common.id
  }

  /** The event says where it is: block and log in decimal, nothing standing for zero, and the
      transaction in any numeral. */
  predicate At(event: Event, block: nat, tx: nat, log: nat) {
    && (event.blockNumber == Some(ToDec(block)) || (event.blockNumber == None && block == 0))
    && ParseBigInt(event.transactionIndex) == Some(tx)
    && (event.logIndex == Some(ToDec(log)) || (event.logIndex == None && log == 0))
  }

  lemma TransferIds(uris: TokenUris, subName: string, event: Event)
    ensures var r := Transferred(uris, subName, event); r.Emitted? ==>
      EventId(event) == Some(IdOfMessage(r.message)) && IdOfMessage(r.message) == OriginOfMessage(r.message).id
  {
  }

  lemma ApprovalIds(subName: string, event: Event)
    ensures var r := ApprovedEvent(subName, event); r.Emitted? ==>
      EventId(event) == Some(IdOfMessage(r.message)) && IdOfMessage(r.message) == OriginOfMessage(r.message).id
    ensures var r := ApprovedForAll(subName, event); r.Emitted? ==>
      EventId(event) == Some(IdOfMessage(r.message)) && IdOfMessage(r.message) == OriginOfMessage(r.message).id
  {
  }

  /** Every message, whatever it reports, is identified by block, transaction and log of its event. */
  lemma MessageId(uris: TokenUris, subName: string, event: Event, block: nat, tx: nat, log: nat)
    requires At(event, block, tx, log) && OnEvent(uris, subName, event).Emitted?
    ensures IdOfMessage(OnEvent(uris, subName, event).message) == IdOf(block, tx, log)
    ensures OriginOfMessage(OnEvent(uris, subName, event).message).id == IdOf(block, tx, log)
  {
    TransferIds(uris, subName, event);
    ApprovalIds(subName, event);
    assert ToDec(0) == "0";
  }

  /** Sorting messages by id is sorting them by the position of their events on the chain. */
  lemma MessagesSortLikeChain(d: Delivery, b: nat, t: nat, l: nat, e: Delivery, b': nat, t': nat, l': nat)
    requires At(d.event, b, t, l) && HandledAs(d).Emitted? && EventIds.Fits(b, t, l)
    requires At(e.event, b', t', l') && HandledAs(e).Emitted? && EventIds.Fits(b', t', l')
    ensures var id, id' := IdOfMessage(HandledAs(d).message), IdOfMessage(HandledAs(e).message);
      && (TextLess(id, id') <==> ChainBefore(b, t, l, b', t', l'))
      && (id == id' <==> b == b' && t == t' && l == l')
  {
    MessageId(d.uris, d.subName, d.event, b, t, l);
    MessageId(e.uris, e.subName, e.event, b', t', l');
    IdsSortLikeChain(b, t, l, b', t', l');
    IdsDistinct(b, t, l, b', t', l');
  }

  // ---------------------------------------------------------------- the other fields

  /** The block says of an event what the event says itself. */
  predicate Tells(origin: Origin, event: Event) {
    && origin.location == "address=" + event.address && origin.info.address == event.address
    && origin.signature == TrimSignature(event.signature) == origin.info.signature
    && origin.timestamp == event.timestamp && origin.output == event.data
    && origin.info.blockNumber == event.blockNumber && origin.info.logIndex == event.logIndex
    && origin.info.transactionIndex == event.transactionIndex
    && origin.info.transactionHash == event.transactionHash
  }

  lemma TransferTells(uris: TokenUris, subName: string, event: Event)
    ensures var r := Transferred(uris, subName, event); r.Emitted? ==> Tells(OriginOfMessage(r.message), event)
  {
  }

  lemma ApprovalTells(subName: string, event: Event)
    ensures var r := ApprovedEvent(subName, event); r.Emitted? ==> Tells(OriginOfMessage(r.message), event)
    ensures var r := ApprovedForAll(subName, event); r.Emitted? ==> Tells(OriginOfMessage(r.message), event)
  {
  }

  /** The `blockchain` block of every message repeats its event. */
  lemma MessageTells(uris: TokenUris, subName: string, event: Event)
    requires OnEvent(uris, subName, event).Emitted?
    ensures Tells(OriginOfMessage(OnEvent(uris, subName, event).message), event)
  {
    TransferTells(uris, subName, event);
    ApprovalTells(subName, event);
  }

  // ---------------------------------------------------------------- which events are reported

  /** The event belongs to a pool of that token type. */
  predicate OfPool(subName: string, isFungible: bool) {
    var u := UnpackSubscriptionName(subName);
    u.Parsed? && u.name.poolLocator.Some? && (OfType(u.name.poolLocator.value, FUNGIBLE) <==> isFungible)
  }

  lemma TransferEmittedIff(uris: TokenUris, subName: string, event: Event)
    requires TrimSignature(event.signature) == TRANSFER_SIGNATURE
    ensures OnEvent(uris, subName, event).Emitted? <==>
      && (OfPool(subName, true) || OfPool(subName, false)) && ParseBigInt(event.transactionIndex).Some?
      && !(event.data.from == Str(ZERO_ADDRESS) && event.data.to == Str(ZERO_ADDRESS))
  {
    Dispatched(uris, subName, event);
  }

  lemma ApprovalEmittedIff(uris: TokenUris, subName: string, event: Event)
    requires TrimSignature(event.signature) == APPROVAL_SIGNATURE
    ensures OnEvent(uris, subName, event).Emitted? <==>
      && ParseBigInt(event.transactionIndex).Some?
      && (OfPool(subName, false) || (OfPool(subName, true) && BigIntOf(event.data.value).Some?))
  {
    Dispatched(uris, subName, event);
  }

  lemma ApprovalForAllEmittedIff(uris: TokenUris, subName: string, event: Event)
    requires TrimSignature(event.signature) == APPROVAL_FOR_ALL_SIGNATURE
    ensures OnEvent(uris, subName, event).Emitted? <==>
      (OfPool(subName, true) || OfPool(subName, false)) && ParseBigInt(event.transactionIndex).Some?
  {
    Dispatched(uris, subName, event);
  }

  /** Exactly the token events of a pool are reported: with a transaction index that is a numeral, a
      fungible approval with a value that is one, and no transfer from nobody to nobody. */
  lemma EmittedIff(uris: TokenUris, subName: string, event: Event)
    ensures var signature, data := TrimSignature(event.signature), event.data;
      OnEvent(uris, subName, event).Emitted? <==>
        && signature in {TRANSFER_SIGNATURE, APPROVAL_SIGNATURE, APPROVAL_FOR_ALL_SIGNATURE}
        && (OfPool(subName, true) || OfPool(subName, false)) && ParseBigInt(event.transactionIndex).Some?
        && (signature == TRANSFER_SIGNATURE ==> !(data.from == Str(ZERO_ADDRESS) && data.to == Str(ZERO_ADDRESS)))
        && (signature == APPROVAL_SIGNATURE && OfPool(subName, true) ==> BigIntOf(data.value).Some?)
  {
    var signature := TrimSignature(event.signature);
    SignaturesDiffer();
    if signature == TRANSFER_SIGNATURE {
      TransferEmittedIff(uris, subName, event);
    } else if signature == APPROVAL_SIGNATURE {
      ApprovalEmittedIff(uris, subName, event);
    } else if signature == APPROVAL_FOR_ALL_SIGNATURE {
      ApprovalForAllEmittedIff(uris, subName, event);
    }
  }

  /** A fungible approval is approved if its value is a positive number; without a value it is not. */
  lemma ApprovedFlag(uris: TokenUris, subName: string, event: Event, n: int)
    requires TrimSignature(event.signature) == APPROVAL_SIGNATURE && OfPool(subName, true)
    requires ParseBigInt(event.transactionIndex).Some?
    requires event.data.value == Undefined || (event.data.value.Str? && ParseBigInt(event.data.value.s) == Some(n))
    ensures var r := OnEvent(uris, subName, event);
      r.Emitted? && r.message.TokenApproval? && r.message.approved == Bool(event.data.value != Undefined && n > 0)
  {
    Dispatched(uris, subName, event);
  }
}
