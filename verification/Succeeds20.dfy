/** Exactly when a fungible request succeeds, whatever the contract's ABI offers. */
module Succeeds20 {
  import opened Js
  import opened Hex
  import opened Decimal
  import opened MethodTables
  import opened AbiMapper
  import opened MethodChoice
  import opened Calls
  import opened Arguments
  import opened Erc20
  import opened Erc20Meaning

  /** Running the method the request was compiled to. */
  lemma ExecutesAs(read: Reading, l: Ledger, abi: seq<AbiMethod>, dto: Dto, name: MethodName, kinds: seq<AbiType>,
                   params: seq<Param>)
    requires Named(abi, name, kinds).Some? && Choose(abi, true, dto) == Chosen(Named(abi, name, kinds).value, params)
    ensures Execute(read, l, abi, dto) ==
      if Signs(dto) && ToValues(read, kinds, params).Some?
      then Run(l, Addr(dto.signer), name, kinds, ToValues(read, kinds, params).value)
      else Reverted
  {
  }

  lemma NotServed(read: Reading, l: Ledger, abi: seq<AbiMethod>, dto: Dto)
    requires !Choose(abi, true, dto).Chosen?
    ensures Execute(read, l, abi, dto) == Reverted
  {
  }

  // ---------------------------------------------------------------- transfers

  lemma TransfersDone(l: Ledger, sender: string, from: string, to: string, value: nat)
    ensures TransferFunds(l, from, to, value).Done? <==> MayMove(l, from, to, value)
    ensures TransferFromFunds(l, sender, from, to, value).Done? <==>
      MayMove(l, from, to, value) && MaySpend(l, from, sender, value)
  {
  }

  /** The holder's own `transferWithData` needs no allowance and uses none; anyone else's needs one. */
  lemma TransferWithDataDone(l: Ledger, sender: string, from: string, to: string, value: nat, data: Value)
    requires data.BytesValue?
    ensures var r := Run(l, sender, TransferWithData, [Address, Address, Uint256, Bytes],
                         [AddressValue(from), AddressValue(to), UintValue(value), data]);
      && (r.Done? <==> MayMove(l, from, to, value) && (from == sender || MaySpend(l, from, sender, value)))
      && (r.Done? && from == sender ==> r.ledger.allowances == l.allowances)
  {
    TransfersDone(l, sender, from, to, value);
  }

  /** Signed, with two addresses and an amount. */
  predicate TransferSendable(read: Reading, dto: Dto)
    requires dto.TransferDto?
  {
    Signs(dto) && Canonical(dto.from).Some? && Canonical(dto.to).Some? && HasAmount(read, dto.amount)
  }

  lemma ByTransferWithData(read: Reading, l: Ledger, abi: seq<AbiMethod>, dto: Dto)
    requires dto.TransferDto? && Named(abi, TransferWithData, [Address, Address, Uint256, Bytes]).Some?
    ensures Execute(read, l, abi, dto).Done? <==> (
      TransferSendable(read, dto) &&
      var from, signer, value := Addr(dto.from), Addr(dto.signer), Amount(read, dto.amount);
      MayMove(l, from, Addr(dto.to), value) && (from == signer || MaySpend(l, from, signer, value)))
  {
    var from, to, amount, data := Str(dto.from), Str(dto.to), Opt(dto.amount), DataParam(dto);
    FungibleTransfer(abi, dto);
    ExecutesAs(read, l, abi, dto, TransferWithData, [Address, Address, Uint256, Bytes], [from, to, amount, data]);
    AddressArgIs(read, dto.from);
    AddressArgIs(read, dto.to);
    UintArgIs(read, dto.amount);
    DataArgIs(read, dto);
    Four(read, Address, Address, Uint256, Bytes, from, to, amount, data);
    if TransferSendable(read, dto) {
      TransferWithDataDone(l, Addr(dto.signer), Addr(dto.from), Addr(dto.to), Amount(read, dto.amount),
                           ToValue(read, Bytes, data).value);
    }
  }

  lemma ByTransfer(read: Reading, l: Ledger, abi: seq<AbiMethod>, dto: Dto)
    requires dto.TransferDto? && Named(abi, TransferWithData, [Address, Address, Uint256, Bytes]).None?
    requires dto.from == dto.signer && Named(abi, Transfer, [Address, Uint256]).Some?
    ensures Execute(read, l, abi, dto).Done? <==> (
      TransferSendable(read, dto) &&
      MayMove(l, Addr(dto.from), Addr(dto.to), Amount(read, dto.amount)))
  {
    var to, amount := Str(dto.to), Opt(dto.amount);
    FungibleTransfer(abi, dto);
    ExecutesAs(read, l, abi, dto, Transfer, [Address, Uint256], [to, amount]);
    AddressArgIs(read, dto.to);
    UintArgIs(read, dto.amount);
    Two(read, Address, Uint256, to, amount);
    TransfersDone(l, Addr(dto.signer), Addr(dto.from), Addr(dto.to), Amount(read, dto.amount));
  }

  lemma ByTransferFrom(read: Reading, l: Ledger, abi: seq<AbiMethod>, dto: Dto)
    requires dto.TransferDto? && Named(abi, TransferWithData, [Address, Address, Uint256, Bytes]).None?
    requires dto.from != dto.signer || Named(abi, Transfer, [Address, Uint256]).None?
    requires Named(abi, TransferFrom, [Address, Address, Uint256]).Some?
    ensures Execute(read, l, abi, dto).Done? <==> (
      TransferSendable(read, dto) &&
      var from, signer, value := Addr(dto.from), Addr(dto.signer), Amount(read, dto.amount);
      MayMove(l, from, Addr(dto.to), value) && MaySpend(l, from, signer, value))
  {
    var from, to, amount := Str(dto.from), Str(dto.to), Opt(dto.amount);
    FungibleTransfer(abi, dto);
    ExecutesAs(read, l, abi, dto, TransferFrom, [Address, Address, Uint256], [from, to, amount]);
    AddressArgIs(read, dto.from);
    AddressArgIs(read, dto.to);
    UintArgIs(read, dto.amount);
    Three(read, Address, Address, Uint256, from, to, amount);
    TransfersDone(l, Addr(dto.signer), Addr(dto.from), Addr(dto.to), Amount(read, dto.amount));
  }

  /** The method that serves the request lets the signer move the value. */
  predicate TransferAllowed(l: Ledger, abi: seq<AbiMethod>, dto: Dto, value: nat)
    requires dto.TransferDto?
  {
    var from, signer := Addr(dto.from), Addr(dto.signer);
    if Named(abi, TransferWithData, [Address, Address, Uint256, Bytes]).Some?
    then from == signer || MaySpend(l, from, signer, value)
    else if dto.from == dto.signer && Named(abi, Transfer, [Address, Uint256]).Some? then true
    else Named(abi, TransferFrom, [Address, Address, Uint256]).Some? && MaySpend(l, from, signer, value)
  }

  /** A transfer succeeds if and only if it is signed, well formed and covered by the holder's balance,
      and the ABI has a method for it that lets the signer do it. */
  lemma TransferSucceedsIff(read: Reading, l: Ledger, abi: seq<AbiMethod>, dto: Dto)
    requires dto.TransferDto?
    ensures Execute(read, l, abi, dto).Done? <==>
      && TransferSendable(read, dto)
      && MayMove(l, Addr(dto.from), Addr(dto.to), Amount(read, dto.amount))
      && TransferAllowed(l, abi, dto, Amount(read, dto.amount))
  {
    if Named(abi, TransferWithData, [Address, Address, Uint256, Bytes]).Some? {
      ByTransferWithData(read, l, abi, dto);
    } else if dto.from == dto.signer && Named(abi, Transfer, [Address, Uint256]).Some? {
      ByTransfer(read, l, abi, dto);
    } else if Named(abi, TransferFrom, [Address, Address, Uint256]).Some? {
      ByTransferFrom(read, l, abi, dto);
    } else {
      FungibleTransfer(abi, dto);
      NotServed(read, l, abi, dto);
    }
  }

  // ---------------------------------------------------------------- burns

  lemma BurnsDone(l: Ledger, sender: string, from: string, value: nat)
    ensures BurnFunds(l, from, value).Done? <==> MayBurn(l, from, value)
    ensures BurnFromFunds(l, sender, from, value).Done? <==> MayBurn(l, from, value) && MaySpend(l, from, sender, value)
  {
  }

  lemma BurnWithDataDone(l: Ledger, sender: string, from: string, value: nat, data: Value)
    requires data.BytesValue?
    ensures Run(l, sender, BurnWithData, [Address, Uint256, Bytes], [AddressValue(from), UintValue(value), data]).Done? <==>
      from == sender && MayBurn(l, from, value)
  {
    BurnsDone(l, sender, from, value);
  }

  /** Signed, with a holder and an amount. */
  predicate BurnSendable(read: Reading, dto: Dto)
    requires dto.BurnDto?
  {
    Signs(dto) && Canonical(dto.from).Some? && HasAmount(read, dto.amount)
  }

  lemma ByBurnWithData(read: Reading, l: Ledger, abi: seq<AbiMethod>, dto: Dto)
    requires dto.BurnDto? && Named(abi, BurnWithData, [Address, Uint256, Bytes]).Some?
    ensures Execute(read, l, abi, dto).Done? <==>
      BurnSendable(read, dto) && Addr(dto.from) == Addr(dto.signer) && MayBurn(l, Addr(dto.from), Amount(read, dto.amount))
  {
    var from, amount, data := Str(dto.from), Opt(dto.amount), DataParam(dto);
    FungibleBurn(abi, dto);
    ExecutesAs(read, l, abi, dto, BurnWithData, [Address, Uint256, Bytes], [from, amount, data]);
    AddressArgIs(read, dto.from);
    UintArgIs(read, dto.amount);
    DataArgIs(read, dto);
    Three(read, Address, Uint256, Bytes, from, amount, data);
    BurnWithDataDone(l, Addr(dto.signer), Addr(dto.from), Amount(read, dto.amount), ToValue(read, Bytes, data).value);
  }

  lemma ByBurn(read: Reading, l: Ledger, abi: seq<AbiMethod>, dto: Dto)
    requires dto.BurnDto? && Named(abi, BurnWithData, [Address, Uint256, Bytes]).None?
    requires dto.from == dto.signer && Named(abi, Burn, [Uint256]).Some?
    ensures Execute(read, l, abi, dto).Done? <==>
      BurnSendable(read, dto) && MayBurn(l, Addr(dto.from), Amount(read, dto.amount))
  {
    FungibleBurn(abi, dto);
    ExecutesAs(read, l, abi, dto, Burn, [Uint256], [Opt(dto.amount)]);
    UintArgIs(read, dto.amount);
    Arguments.One(read, Uint256, Opt(dto.amount));
    BurnsDone(l, Addr(dto.signer), Addr(dto.from), Amount(read, dto.amount));
  }

  lemma ByBurnOfHolder(read: Reading, l: Ledger, abi: seq<AbiMethod>, dto: Dto)
    requires dto.BurnDto? && Named(abi, BurnWithData, [Address, Uint256, Bytes]).None?
    requires dto.from != dto.signer || Named(abi, Burn, [Uint256]).None?
    requires Named(abi, BurnFrom, [Address, Uint256]).Some? || Named(abi, Burn, [Address, Uint256]).Some?
    ensures Execute(read, l, abi, dto).Done? <==>
      && BurnSendable(read, dto) && MayBurn(l, Addr(dto.from), Amount(read, dto.amount))
      && if Named(abi, BurnFrom, [Address, Uint256]).Some?
         then MaySpend(l, Addr(dto.from), Addr(dto.signer), Amount(read, dto.amount))
         else Addr(dto.from) == Addr(dto.signer)
  {
    var from, amount := Str(dto.from), Opt(dto.amount);
    var name := if Named(abi, BurnFrom, [Address, Uint256]).Some? then BurnFrom else Burn;
    FungibleBurn(abi, dto);
    ExecutesAs(read, l, abi, dto, name, [Address, Uint256], [from, amount]);
    AddressArgIs(read, dto.from);
    UintArgIs(read, dto.amount);
    Two(read, Address, Uint256, from, amount);
    BurnsDone(l, Addr(dto.signer), Addr(dto.from), Amount(read, dto.amount));
  }

  /** The method that serves the request lets the signer burn the value. */
  predicate BurnAllowed(l: Ledger, abi: seq<AbiMethod>, dto: Dto, value: nat)
    requires dto.BurnDto?
  {
    var from, signer := Addr(dto.from), Addr(dto.signer);
    if Named(abi, BurnWithData, [Address, Uint256, Bytes]).Some? then from == signer
    else if dto.from == dto.signer && Named(abi, Burn, [Uint256]).Some? then true
    else if Named(abi, BurnFrom, [Address, Uint256]).Some? then MaySpend(l, from, signer, value)
    else Named(abi, Burn, [Address, Uint256]).Some? && from == signer
  }

  /** A burn succeeds if and only if it is signed, well formed and covered by the holder's balance, and
      the ABI has a method for it that lets the signer do it. */
  lemma BurnSucceedsIff(read: Reading, l: Ledger, abi: seq<AbiMethod>, dto: Dto)
    requires dto.BurnDto?
    ensures Execute(read, l, abi, dto).Done? <==>
      && BurnSendable(read, dto) && MayBurn(l, Addr(dto.from), Amount(read, dto.amount))
      && BurnAllowed(l, abi, dto, Amount(read, dto.amount))
  {
    if Named(abi, BurnWithData, [Address, Uint256, Bytes]).Some? {
      ByBurnWithData(read, l, abi, dto);
    } else if dto.from == dto.signer && Named(abi, Burn, [Uint256]).Some? {
      ByBurn(read, l, abi, dto);
    } else if Named(abi, BurnFrom, [Address, Uint256]).Some? || Named(abi, Burn, [Address, Uint256]).Some? {
      ByBurnOfHolder(read, l, abi, dto);
    } else {
      FungibleBurn(abi, dto);
      NotServed(read, l, abi, dto);
    }
  }

  // ---------------------------------------------------------------- mints

  lemma ByMintWithData(read: Reading, l: Ledger, abi: seq<AbiMethod>, dto: Dto)
    requires dto.MintDto? && Named(abi, MintWithData, [Address, Uint256, Bytes]).Some?
    ensures Execute(read, l, abi, dto) ==
      if Signs(dto) && Canonical(dto.to).Some? && HasAmount(read, dto.amount)
      then MintFunds(l, Addr(dto.signer), Addr(dto.to), Amount(read, dto.amount)) else Reverted
  {
    var to, amount, data := Str(dto.to), Opt(dto.amount), DataParam(dto);
    FungibleMint(abi, dto);
    ExecutesAs(read, l, abi, dto, MintWithData, [Address, Uint256, Bytes], [to, amount, data]);
    AddressArgIs(read, dto.to);
    UintArgIs(read, dto.amount);
    DataArgIs(read, dto);
    Three(read, Address, Uint256, Bytes, to, amount, data);
  }

  lemma ByMint(read: Reading, l: Ledger, abi: seq<AbiMethod>, dto: Dto)
    requires dto.MintDto? && Named(abi, MintWithData, [Address, Uint256, Bytes]).None?
    requires Named(abi, Mint, [Address, Uint256]).Some?
    ensures Execute(read, l, abi, dto) ==
      if Signs(dto) && Canonical(dto.to).Some? && HasAmount(read, dto.amount)
      then MintFunds(l, Addr(dto.signer), Addr(dto.to), Amount(read, dto.amount)) else Reverted
  {
    var to, amount := Str(dto.to), Opt(dto.amount);
    FungibleMint(abi, dto);
    ExecutesAs(read, l, abi, dto, Mint, [Address, Uint256], [to, amount]);
    AddressArgIs(read, dto.to);
    UintArgIs(read, dto.amount);
    Two(read, Address, Uint256, to, amount);
  }

  /** A mint succeeds if and only if the contract's owner signs it, for somebody and an amount that the
      supply can still take, and the ABI has a method for it. */
  lemma MintSucceedsIff(read: Reading, l: Ledger, abi: seq<AbiMethod>, dto: Dto)
    requires dto.MintDto?
    ensures Execute(read, l, abi, dto).Done? <==>
      && Signs(dto) && Canonical(dto.to).Some? && HasAmount(read, dto.amount)
      && MayMint(l, Addr(dto.signer), Addr(dto.to), Amount(read, dto.amount))
      && (Named(abi, MintWithData, [Address, Uint256, Bytes]).Some? || Named(abi, Mint, [Address, Uint256]).Some?)
  {
    if Named(abi, MintWithData, [Address, Uint256, Bytes]).Some? {
      ByMintWithData(read, l, abi, dto);
    } else if Named(abi, Mint, [Address, Uint256]).Some? {
      ByMint(read, l, abi, dto);
    } else {
      FungibleMint(abi, dto);
      NotServed(read, l, abi, dto);
    }
  }

  // ---------------------------------------------------------------- approvals

  lemma ByApprove(read: Reading, l: Ledger, abi: seq<AbiMethod>, dto: Dto)
    requires dto.ApprovalDto?
    requires Named(abi, ApproveWithData, [Address, Uint256, Bytes]).Some? || Named(abi, Approve, [Address, Uint256]).Some?
    ensures Execute(read, l, abi, dto) ==
      if Signs(dto) && Canonical(dto.operator).Some? && HasAmount(read, Some(Allowance(dto)))
      then ApproveFunds(l, Addr(dto.signer), Addr(dto.operator), Amount(read, Some(Allowance(dto)))) else Reverted
  {
    var operator, amount, data := Str(dto.operator), Str(Allowance(dto)), DataParam(dto);
    FungibleApproval(abi, dto);
    AddressArgIs(read, dto.operator);
    UintArgIs(read, Some(Allowance(dto)));
    if Named(abi, ApproveWithData, [Address, Uint256, Bytes]).Some? {
      ExecutesAs(read, l, abi, dto, ApproveWithData, [Address, Uint256, Bytes], [operator, amount, data]);
      DataArgIs(read, dto);
      Three(read, Address, Uint256, Bytes, operator, amount, data);
    } else {
      ExecutesAs(read, l, abi, dto, Approve, [Address, Uint256], [operator, amount]);
      Two(read, Address, Uint256, operator, amount);
    }
  }

  lemma AllowanceReads(read: Reading, dto: Dto)
    requires dto.ApprovalDto? && Honest(read)
    ensures HasAmount(read, Some(Allowance(dto))) <==>
      (dto.approved && dto.allowance.Some? ==> HasAmount(read, dto.allowance))
  {
    assert read(ToDec(0)) == Some(0) && ToDec(0) == "0";
    assert read(ToDec(UINT256_MAX)) == Some(UINT256_MAX);
  }

  /** An approval succeeds if and only if it is signed, names somebody and a readable allowance (if it
      names one and does not revoke), and the ABI has a method for it. */
  lemma ApprovalSucceedsIff(read: Reading, l: Ledger, abi: seq<AbiMethod>, dto: Dto)
    requires dto.ApprovalDto? && Honest(read)
    ensures Execute(read, l, abi, dto).Done? <==>
      && Signs(dto) && Canonical(dto.operator).Some? && Addr(dto.operator) != ZERO_ADDRESS
      && (dto.approved && dto.allowance.Some? ==> HasAmount(read, dto.allowance))
      && (Named(abi, ApproveWithData, [Address, Uint256, Bytes]).Some? || Named(abi, Approve, [Address, Uint256]).Some?)
  {
    AllowanceReads(read, dto);
    if Named(abi, ApproveWithData, [Address, Uint256, Bytes]).Some? || Named(abi, Approve, [Address, Uint256]).Some? {
      ByApprove(read, l, abi, dto);
    } else {
      FungibleApproval(abi, dto);
      NotServed(read, l, abi, dto);
    }
  }
}
