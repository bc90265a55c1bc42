/** Exactly when a nonfungible request succeeds, whatever the contract's ABI offers. */
module Succeeds721 {
  import opened Js
  import opened Hex
  import opened MethodTables
  import opened AbiMapper
  import opened MethodChoice
  import opened Calls
  import Arguments
  import opened Erc721
  import opened Erc721Meaning

  /** Running the method the request was compiled to. */
  lemma ExecutesAs(read: Reading, c: Contract, abi: seq<AbiMethod>, dto: Dto, name: MethodName, kinds: seq<AbiType>,
                   params: seq<Param>)
    requires Named(abi, name, kinds).Some? && Choose(abi, false, dto) == Chosen(Named(abi, name, kinds).value, params)
    ensures Execute(read, c, abi, dto) ==
      if Arguments.Signs(dto) && ToValues(read, kinds, params).Some?
      then Run(c, Addr(dto.signer), name, kinds, ToValues(read, kinds, params).value)
      else Reverted
  {
  }

  lemma NotServed(read: Reading, c: Contract, abi: seq<AbiMethod>, dto: Dto)
    requires !Choose(abi, false, dto).Chosen?
    ensures Execute(read, c, abi, dto) == Reverted
  {
  }

  // ---------------------------------------------------------------- transfers

  lemma TransferDone(c: Contract, sender: string, from: string, to: string, id: nat)
    ensures TransferToken(c, sender, from, to, id).Done? <==> MayMove(c, sender, from, to, id)
  {
  }

  lemma DataTransferRuns(c: Contract, sender: string, name: MethodName, from: string, to: string, id: nat, data: Value)
    requires name in {TransferWithData, SafeTransferFrom} && data.BytesValue?
    ensures Run(c, sender, name, [Address, Address, Uint256, Bytes],
                [AddressValue(from), AddressValue(to), UintValue(id), data]) == TransferToken(c, sender, from, to, id)
  {
  }

  predicate TransferSendable(read: Reading, dto: Dto)
    requires dto.TransferDto?
  {
    && Arguments.Signs(dto) && Canonical(dto.from).Some? && Canonical(dto.to).Some?
    && HasAmount(read, dto.tokenIndex) && One(dto.amount)
  }

  lemma ByDataTransfer(read: Reading, c: Contract, abi: seq<AbiMethod>, dto: Dto, name: MethodName)
    requires dto.TransferDto? && name in {TransferWithData, SafeTransferFrom} && One(dto.amount)
    requires Named(abi, name, [Address, Address, Uint256, Bytes]).Some?
    requires Choose(abi, false, dto) == Chosen(Named(abi, name, [Address, Address, Uint256, Bytes]).value,
      [Str(dto.from), Str(dto.to), Opt(dto.tokenIndex), DataParam(dto)])
    ensures Execute(read, c, abi, dto) ==
      if TransferSendable(read, dto)
      then TransferToken(c, Addr(dto.signer), Addr(dto.from), Addr(dto.to), Amount(read, dto.tokenIndex)) else Reverted
  {
    var from, to, index, data := Str(dto.from), Str(dto.to), Opt(dto.tokenIndex), DataParam(dto);
    ExecutesAs(read, c, abi, dto, name, [Address, Address, Uint256, Bytes], [from, to, index, data]);
    Arguments.AddressArgIs(read, dto.from);
    Arguments.AddressArgIs(read, dto.to);
    Arguments.UintArgIs(read, dto.tokenIndex);
    Arguments.DataArgIs(read, dto);
    Arguments.Four(read, Address, Address, Uint256, Bytes, from, to, index, data);
    DataTransferRuns(c, Addr(dto.signer), name, Addr(dto.from), Addr(dto.to), Amount(read, dto.tokenIndex),
                     ToValue(read, Bytes, data).value);
  }

  lemma BySafeTransfer(read: Reading, c: Contract, abi: seq<AbiMethod>, dto: Dto)
    requires dto.TransferDto? && One(dto.amount)
    requires Named(abi, SafeTransferFrom, [Address, Address, Uint256]).Some?
    requires Choose(abi, false, dto) == Chosen(Named(abi, SafeTransferFrom, [Address, Address, Uint256]).value,
      [Str(dto.from), Str(dto.to), Opt(dto.tokenIndex)])
    ensures Execute(read, c, abi, dto) ==
      if TransferSendable(read, dto)
      then TransferToken(c, Addr(dto.signer), Addr(dto.from), Addr(dto.to), Amount(read, dto.tokenIndex)) else Reverted
  {
    var from, to, index := Str(dto.from), Str(dto.to), Opt(dto.tokenIndex);
    ExecutesAs(read, c, abi, dto, SafeTransferFrom, [Address, Address, Uint256], [from, to, index]);
    Arguments.AddressArgIs(read, dto.from);
    Arguments.AddressArgIs(read, dto.to);
    Arguments.UintArgIs(read, dto.tokenIndex);
    Arguments.Three(read, Address, Address, Uint256, from, to, index);
  }

  predicate OffersTransfer(abi: seq<AbiMethod>) {
    || Named(abi, TransferWithData, [Address, Address, Uint256, Bytes]).Some?
    || Named(abi, SafeTransferFrom, [Address, Address, Uint256, Bytes]).Some?
    || Named(abi, SafeTransferFrom, [Address, Address, Uint256]).Some?
  }

  /** A transfer succeeds if and only if it is signed, names a token that `from` holds and the signer may
      move, moves no other amount than one, and the ABI has a method for it. */
  lemma TransferSucceedsIff(read: Reading, c: Contract, abi: seq<AbiMethod>, dto: Dto)
    requires dto.TransferDto?
    ensures Execute(read, c, abi, dto).Done? <==>
      && TransferSendable(read, dto) && OffersTransfer(abi)
      && MayMove(c, Addr(dto.signer), Addr(dto.from), Addr(dto.to), Amount(read, dto.tokenIndex))
  {
    NonfungibleTransfer(abi, dto);
    TransferDone(c, Addr(dto.signer), Addr(dto.from), Addr(dto.to), Amount(read, dto.tokenIndex));
    if !Choose(abi, false, dto).Chosen? {
      NotServed(read, c, abi, dto);
    } else if Named(abi, TransferWithData, [Address, Address, Uint256, Bytes]).Some? {
      ByDataTransfer(read, c, abi, dto, TransferWithData);
    } else if Named(abi, SafeTransferFrom, [Address, Address, Uint256, Bytes]).Some? {
      ByDataTransfer(read, c, abi, dto, SafeTransferFrom);
    } else {
      BySafeTransfer(read, c, abi, dto);
    }
  }

  // ---------------------------------------------------------------- burns

  lemma BurnDone(c: Contract, id: nat, auth: string)
    ensures BurnToken(c, id, auth).Done? <==>
      var holder := c.ledger.OwnerOf(id);
      holder != ZERO_ADDRESS && (auth == ZERO_ADDRESS || Authorized(c.ledger, holder, auth, id))
  {
  }

  predicate BurnSendable(read: Reading, dto: Dto)
    requires dto.BurnDto?
  {
    Arguments.Signs(dto) && HasAmount(read, dto.tokenIndex) && One(dto.amount)
  }

  lemma ByBurnWithData(read: Reading, c: Contract, abi: seq<AbiMethod>, dto: Dto)
    requires dto.BurnDto? && One(dto.amount) && Named(abi, BurnWithData, [Address, Uint256, Bytes]).Some?
    ensures Execute(read, c, abi, dto) ==
      if BurnSendable(read, dto) && Canonical(dto.from) == Some(Addr(dto.signer))
      then BurnToken(c, Amount(read, dto.tokenIndex), ZERO_ADDRESS) else Reverted
  {
    var from, index, data := Str(dto.from), Opt(dto.tokenIndex), DataParam(dto);
    NonfungibleBurn(abi, dto);
    ExecutesAs(read, c, abi, dto, BurnWithData, [Address, Uint256, Bytes], [from, index, data]);
    Arguments.AddressArgIs(read, dto.from);
    Arguments.UintArgIs(read, dto.tokenIndex);
    Arguments.DataArgIs(read, dto);
    Arguments.Three(read, Address, Uint256, Bytes, from, index, data);
  }

  lemma ByBurn(read: Reading, c: Contract, abi: seq<AbiMethod>, dto: Dto)
    requires dto.BurnDto? && One(dto.amount) && Named(abi, BurnWithData, [Address, Uint256, Bytes]).None?
    requires Named(abi, Burn, [Uint256]).Some?
    ensures Execute(read, c, abi, dto) ==
      if BurnSendable(read, dto) then BurnToken(c, Amount(read, dto.tokenIndex), Addr(dto.signer)) else Reverted
  {
    var index := Opt(dto.tokenIndex);
    NonfungibleBurn(abi, dto);
    ExecutesAs(read, c, abi, dto, Burn, [Uint256], [index]);
    Arguments.UintArgIs(read, dto.tokenIndex);
    Arguments.One(read, Uint256, index);
  }

  lemma ByBurnOfHolder(read: Reading, c: Contract, abi: seq<AbiMethod>, dto: Dto)
    requires dto.BurnDto? && One(dto.amount) && Named(abi, BurnWithData, [Address, Uint256, Bytes]).None?
    requires Named(abi, Burn, [Uint256]).None? && Named(abi, Burn, [Address, Uint256]).Some?
    ensures Execute(read, c, abi, dto) ==
      if BurnSendable(read, dto) && Canonical(dto.from) == Some(Addr(dto.signer))
      then BurnToken(c, Amount(read, dto.tokenIndex), ZERO_ADDRESS) else Reverted
  {
    var from, index := Str(dto.from), Opt(dto.tokenIndex);
    NonfungibleBurn(abi, dto);
    ExecutesAs(read, c, abi, dto, Burn, [Address, Uint256], [from, index]);
    Arguments.AddressArgIs(read, dto.from);
    Arguments.UintArgIs(read, dto.tokenIndex);
    Arguments.Two(read, Address, Uint256, from, index);
  }

  /** The method that serves the request lets the signer burn the token: one with a holder asks that the
      signer names itself, one without asks for the right to the token. */
  predicate BurnAllowed(c: Contract, abi: seq<AbiMethod>, dto: Dto, id: nat)
    requires dto.BurnDto?
  {
    if Named(abi, BurnWithData, [Address, Uint256, Bytes]).None? && Named(abi, Burn, [Uint256]).Some?
    then Authorized(c.ledger, c.ledger.OwnerOf(id), Addr(dto.signer), id)
    else
      && Canonical(dto.from) == Some(Addr(dto.signer))
      && (Named(abi, BurnWithData, [Address, Uint256, Bytes]).Some? || Named(abi, Burn, [Address, Uint256]).Some?)
  }

  /** A burn succeeds if and only if it is signed, names an existing token and no other amount than one,
      and the ABI has a method for it that lets the signer do it. */
  lemma BurnSucceedsIff(read: Reading, c: Contract, abi: seq<AbiMethod>, dto: Dto)
    requires dto.BurnDto?
    ensures Execute(read, c, abi, dto).Done? <==>
      && BurnSendable(read, dto) && c.ledger.OwnerOf(Amount(read, dto.tokenIndex)) != ZERO_ADDRESS
      && BurnAllowed(c, abi, dto, Amount(read, dto.tokenIndex))
  {
    var id := Amount(read, dto.tokenIndex);
    NonfungibleBurn(abi, dto);
    if !Choose(abi, false, dto).Chosen? {
      NotServed(read, c, abi, dto);
    } else if Named(abi, BurnWithData, [Address, Uint256, Bytes]).Some? {
      ByBurnWithData(read, c, abi, dto);
      BurnDone(c, id, ZERO_ADDRESS);
    } else if Named(abi, Burn, [Uint256]).Some? {
      ByBurn(read, c, abi, dto);
      BurnDone(c, id, Addr(dto.signer));
    } else {
      ByBurnOfHolder(read, c, abi, dto);
      BurnDone(c, id, ZERO_ADDRESS);
    }
  }

  // ---------------------------------------------------------------- approvals

  predicate OffersTokenApproval(abi: seq<AbiMethod>) {
    Named(abi, ApproveWithData, [Address, Uint256, Bytes]).Some? || Named(abi, Approve, [Address, Uint256]).Some?
  }

  predicate OffersOperatorApproval(abi: seq<AbiMethod>) {
    || Named(abi, SetApprovalForAllWithData, [Address, Boolean, Bytes]).Some?
    || Named(abi, SetApprovalForAll, [Address, Boolean]).Some?
  }

  lemma ByTokenApproval(read: Reading, c: Contract, abi: seq<AbiMethod>, dto: Dto)
    requires dto.ApprovalDto? && dto.tokenIndex.Some? && OffersTokenApproval(abi)
    ensures Execute(read, c, abi, dto) ==
      if Arguments.Signs(dto) && (dto.approved ==> Canonical(dto.operator).Some?) && HasAmount(read, dto.tokenIndex)
      then ApproveToken(c, Addr(dto.signer), Grantee(dto), Amount(read, dto.tokenIndex)) else Reverted
  {
    var text := if dto.approved then dto.operator else ZERO_ADDRESS;
    var index, data := Opt(dto.tokenIndex), DataParam(dto);
    TokenApproval(abi, dto);
    ZeroIsCanonical();
    Arguments.AddressArgIs(read, text);
    Arguments.UintArgIs(read, dto.tokenIndex);
    Arguments.DataArgIs(read, dto);
    if Named(abi, ApproveWithData, [Address, Uint256, Bytes]).Some? {
      ExecutesAs(read, c, abi, dto, ApproveWithData, [Address, Uint256, Bytes], [Str(text), index, data]);
      Arguments.Three(read, Address, Uint256, Bytes, Str(text), index, data);
    } else {
      ExecutesAs(read, c, abi, dto, Approve, [Address, Uint256], [Str(text), index]);
      Arguments.Two(read, Address, Uint256, Str(text), index);
    }
  }

  lemma ByOperatorApproval(read: Reading, c: Contract, abi: seq<AbiMethod>, dto: Dto)
    requires dto.ApprovalDto? && dto.tokenIndex.None? && OffersOperatorApproval(abi)
    ensures Execute(read, c, abi, dto) ==
      if Arguments.Signs(dto) && Canonical(dto.operator).Some?
      then ApproveAll(c, Addr(dto.signer), Addr(dto.operator), dto.approved) else Reverted
  {
    var operator, approved, data := Str(dto.operator), Bool(dto.approved), DataParam(dto);
    OperatorApproval(abi, dto);
    Arguments.AddressArgIs(read, dto.operator);
    Arguments.DataArgIs(read, dto);
    if Named(abi, SetApprovalForAllWithData, [Address, Boolean, Bytes]).Some? {
      ExecutesAs(read, c, abi, dto, SetApprovalForAllWithData, [Address, Boolean, Bytes], [operator, approved, data]);
      Arguments.Three(read, Address, Boolean, Bytes, operator, approved, data);
    } else {
      ExecutesAs(read, c, abi, dto, SetApprovalForAll, [Address, Boolean], [operator, approved]);
      Arguments.Two(read, Address, Boolean, operator, approved);
    }
  }

  /** An approval succeeds if and only if it is signed, and the ABI has a method for it: one of a token by
      the token's holder or its operator, one of all tokens for anybody but the zero address. */
  lemma ApprovalSucceedsIff(read: Reading, c: Contract, abi: seq<AbiMethod>, dto: Dto)
    requires dto.ApprovalDto?
    ensures Execute(read, c, abi, dto).Done? <==>
      && Arguments.Signs(dto)
      && if dto.tokenIndex.Some? then
           && (dto.approved ==> Canonical(dto.operator).Some?) && HasAmount(read, dto.tokenIndex)
           && MayApprove(c, Addr(dto.signer), Amount(read, dto.tokenIndex)) && OffersTokenApproval(abi)
         else Canonical(dto.operator).Some? && Addr(dto.operator) != ZERO_ADDRESS && OffersOperatorApproval(abi)
  {
    if dto.tokenIndex.Some? {
      TokenApproval(abi, dto);
      if OffersTokenApproval(abi) {
        ByTokenApproval(read, c, abi, dto);
      } else {
        NotServed(read, c, abi, dto);
      }
    } else {
      OperatorApproval(abi, dto);
      if OffersOperatorApproval(abi) {
        ByOperatorApproval(read, c, abi, dto);
      } else {
        NotServed(read, c, abi, dto);
      }
    }
  }

  // ---------------------------------------------------------------- mints

  /** A mint's parameters: the receiver where an address is, and one is; otherwise as its inputs say. */
  predicate MintShaped(m: MethodSignature, dto: Dto)
    requires dto.MintDto?
  {
    Apply(m.map', dto).Params? ==>
      && |Apply(m.map', dto).params| == |m.inputs| > 0 && m.inputs[0] == Address
      && forall i :: 0 <= i < |m.inputs| ==>
           Apply(m.map', dto).params[i] ==
             match m.inputs[i]
             case Address => Str(dto.to)
             case Uint256 => Opt(dto.tokenIndex)
             case Bytes => DataParam(dto)
             case _ => Str(dto.uri.GetOr(""))
  }

  predicate MintTyped(m: MethodSignature) {
    forall t :: t in m.inputs ==> t in {Address, Uint256, Bytes, Text}
  }

  lemma ExtensionMintsShaped(dto: Dto, p: nat)
    requires dto.MintDto? && p < 4
    ensures MintShaped(DynamicMethods721(OpMint)[p], dto) && MintTyped(DynamicMethods721(OpMint)[p])
  {
  }

  lemma PlainMintsShaped(dto: Dto, p: nat)
    requires dto.MintDto? && 4 <= p < |DynamicMethods721(OpMint)|
    ensures MintShaped(DynamicMethods721(OpMint)[p], dto) && MintTyped(DynamicMethods721(OpMint)[p])
  {
  }

  lemma MintArguments(read: Reading, m: MethodSignature, dto: Dto)
    requires dto.MintDto? && MintShaped(m, dto) && MintTyped(m) && Apply(m.map', dto).Params?
    ensures ToValues(read, m.inputs, Apply(m.map', dto).params).Some? <==>
      Canonical(dto.to).Some? && (Uint256 in m.inputs ==> HasAmount(read, dto.tokenIndex))
  {
    var params := Apply(m.map', dto).params;
    Arguments.ToValuesIff(read, m.inputs, params);
    Arguments.AddressArgIs(read, dto.to);
    Arguments.UintArgIs(read, dto.tokenIndex);
    Arguments.DataArgIs(read, dto);
    assert ToValue(read, m.inputs[0], params[0]).Some? <==> Canonical(dto.to).Some?;
    forall i | 0 <= i < |m.inputs|
      ensures ToValue(read, m.inputs[i], params[i]).Some? <==>
        match m.inputs[i]
        case Address => Canonical(dto.to).Some?
        case Uint256 => HasAmount(read, dto.tokenIndex)
        case _ => true
    {
      assert m.inputs[i] in m.inputs;
    }
  }

  lemma MintSentIff(read: Reading, abi: seq<AbiMethod>, dto: Dto)
    requires dto.MintDto?
    ensures Submit(read, abi, false, dto).Sent? <==>
      && Arguments.Signs(dto) && Canonical(dto.to).Some? && Choose(abi, false, dto).Chosen?
      && var inputs := Choose(abi, false, dto).m.inputs;
         inputs.Some? && (Uint256 in Kinds(inputs.value) ==> HasAmount(read, dto.tokenIndex))
  {
    if Choose(abi, false, dto).Chosen? {
      var p := ChosenEntry(abi, false, dto);
      if p < 4 {
        ExtensionMintsShaped(dto, p);
      } else {
        PlainMintsShaped(dto, p);
      }
      MintArguments(read, DynamicMethods721(OpMint)[p], dto);
    }
  }

  /** A mint succeeds if and only if the contract's owner signs it, for somebody, and the method that
      serves it (`MethodChoice.NonfungibleMint`) gets an index that is free: the request's own, or the
      contract's next one if the method takes none. */
  lemma MintSucceedsIff(read: Reading, c: Contract, abi: seq<AbiMethod>, dto: Dto)
    requires dto.MintDto?
    ensures Execute(read, c, abi, dto).Done? <==>
      && Arguments.Signs(dto) && Canonical(dto.to).Some?
      && Choose(abi, false, dto).Chosen? && Choose(abi, false, dto).m.inputs.Some?
      && if dto.tokenIndex.Some?
         then HasAmount(read, dto.tokenIndex)
              && MayMint(c, Addr(dto.signer), Addr(dto.to), Amount(read, dto.tokenIndex))
         else Uint256 !in Kinds(Choose(abi, false, dto).m.inputs.value)
              && MayMintNext(c, Addr(dto.signer), Addr(dto.to))
  {
    MintSentIff(read, abi, dto);
    if Choose(abi, false, dto).Chosen? {
      NothingLost(abi, dto);
    }
    if Submit(read, abi, false, dto).Sent? {
      var p := SentEntry(read, abi, false, dto);
      MintRuns(read, c, dto, p, Submit(read, abi, false, dto));
    }
  }
}
