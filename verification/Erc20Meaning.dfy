/** What a compiled ERC20 request does does not depend on which method was found for it. */
module Erc20Meaning {
  import opened Js
  import opened MethodTables
  import opened AbiMapper
  import opened Calls
  import opened Erc20

  function RunCall(l: Ledger, sender: string, call: Call): Outcome {
    if call.m.name.Some? && call.m.inputs.Some? && Typed(Kinds(call.m.inputs.value), call.values)
    then Run(l, sender, call.m.name.value, Kinds(call.m.inputs.value), call.values)
    else Reverted
  }

  /** Compile, send, execute. */
  function Execute(read: Reading, l: Ledger, abi: seq<AbiMethod>, dto: Dto): Outcome {
    match Submit(read, abi, true, dto)
    case Sent(signer, call) => RunCall(l, signer, call)
    case NotSent => Reverted
  }

  // ---------------------------------------------------------------- meanings

  function Delta(a: string, from: string, to: string, value: nat): int {
    (if a == to != ZERO_ADDRESS then value else 0) - (if a == from != ZERO_ADDRESS then value else 0)
  }

  /** Value went from `from` to `to`, for every holder and for the supply. */
  ghost predicate Moved(l: Ledger, l': Ledger, from: string, to: string, value: nat) {
    && (forall a: string {:trigger l'.Balance(a)} :: l'.Balance(a) == l.Balance(a) + Delta(a, from, to, value))
    && l'.supply == l.supply + (if from == ZERO_ADDRESS then value else 0) - (if to == ZERO_ADDRESS then value else 0)
    && l'.owner == l.owner
  }

  /** Allowances differ at most where a third party spends one. */
  ghost predicate AllowancesKept(l: Ledger, l': Ledger, holder: string, spender: string) {
    forall h: string, s: string {:trigger l'.Allowed(h, s)} ::
      (h, s) != (holder, spender) ==> l'.Allowed(h, s) == l.Allowed(h, s)
  }

  /** An allowance covers a value, and what is then left of it; the unlimited one is not used up. */
  predicate Covers(allowed: nat, value: nat) {
    allowed == UINT256_MAX || allowed >= value
  }

  function Left(allowed: nat, value: nat): int {
    if allowed == UINT256_MAX then allowed else allowed - value
  }

  /** Anyone but the holder needs an allowance that covers the value, and uses it; the holder may go
      through its own allowance, or not. */
  ghost predicate AllowanceUsed(l: Ledger, l': Ledger, holder: string, spender: string, value: nat) {
    var before, after := l.Allowed(holder, spender), l'.Allowed(holder, spender);
    && AllowancesKept(l, l', holder, spender)
    && (after == before || (Covers(before, value) && after == Left(before, value)))
    && (holder != spender ==> Covers(before, value) && after == Left(before, value))
  }

  /** What the request asks for, and the one event that reports it. */
  ghost predicate Meant(read: Reading, dto: Dto, l: Ledger, l': Ledger, log: Log) {
    Canonical(dto.signer).Some? &&
    match dto
    case ApprovalDto(signer, operator, approved, _, allowance, _) =>
      var n := Amount(read, Some(Allowance(dto)));
      && Canonical(operator).Some? && HasAmount(read, Some(Allowance(dto)))
      && l' == l.(allowances := l.allowances[(Addr(signer), Addr(operator)) := n])
      && log == ApprovalLog(Addr(signer), Addr(operator), n)
    case BurnDto(signer, from, amount, _, _) =>
      && Canonical(from).Some? && HasAmount(read, amount) && Addr(from) != ZERO_ADDRESS
      && Moved(l, l', Addr(from), ZERO_ADDRESS, Amount(read, amount))
      && AllowanceUsed(l, l', Addr(from), Addr(signer), Amount(read, amount))
      && log == TransferLog(Addr(from), ZERO_ADDRESS, Amount(read, amount))
    case MintDto(signer, to, amount, _, _, _) =>
      && Canonical(to).Some? && HasAmount(read, amount) && Addr(to) != ZERO_ADDRESS && Addr(signer) == l.owner
      && Moved(l, l', ZERO_ADDRESS, Addr(to), Amount(read, amount))
      && l'.allowances == l.allowances
      && log == TransferLog(ZERO_ADDRESS, Addr(to), Amount(read, amount))
    case TransferDto(signer, from, to, amount, _, _) =>
      && Canonical(from).Some? && Canonical(to).Some? && HasAmount(read, amount)
      && Addr(from) != ZERO_ADDRESS && Addr(to) != ZERO_ADDRESS
      && Moved(l, l', Addr(from), Addr(to), Amount(read, amount))
      && AllowanceUsed(l, l', Addr(from), Addr(signer), Amount(read, amount))
      && log == TransferLog(Addr(from), Addr(to), Amount(read, amount))
  }

  // ---------------------------------------------------------------- the ledger's moves

  lemma MoveMoves(l: Ledger, from: string, to: string, value: nat)
    ensures var r := Move(l, from, to, value); r.Done? ==>
      Moved(l, r.ledger, from, to, value) && r.ledger.allowances == l.allowances && r.log == TransferLog(from, to, value)
  {
  }

  lemma SpentKeeps(l: Ledger, holder: string, spender: string, value: nat)
    ensures var r := Spent(l, holder, spender, value); r.Some? ==>
      r.value.balances == l.balances && r.value.supply == l.supply && r.value.owner == l.owner
      && AllowanceUsed(l, r.value, holder, spender, value)
  {
  }

  /** A move, directly by the holder or through an allowance. */
  ghost predicate MovedBy(l: Ledger, r: Outcome, holder: string, spender: string, from: string, to: string, value: nat) {
    r.Done? ==>
      && Moved(l, r.ledger, from, to, value)
      && AllowanceUsed(l, r.ledger, holder, spender, value)
      && r.log == TransferLog(from, to, value)
  }

  lemma DirectMoves(l: Ledger, holder: string, from: string, to: string, value: nat)
    ensures MovedBy(l, Move(l, from, to, value), holder, holder, from, to, value)
  {
    MoveMoves(l, from, to, value);
  }

  lemma SpentMoves(l: Ledger, spent: Ledger, holder: string, spender: string, from: string, to: string, value: nat)
    requires Spent(l, holder, spender, value) == Some(spent)
    ensures MovedBy(l, Move(spent, from, to, value), holder, spender, from, to, value)
  {
    SpentKeeps(l, holder, spender, value);
    var r := Move(spent, from, to, value);
    if r.Done? {
      MoveMoves(spent, from, to, value);
      SameMoves(l, spent, r, from, to, value);
      SameAllowances(l, spent, r.ledger, holder, spender, value);
    }
  }

  lemma SameMoves(l: Ledger, m: Ledger, r: Outcome, from: string, to: string, value: nat)
    requires r.Done? && Moved(m, r.ledger, from, to, value)
    requires m.balances == l.balances && m.supply == l.supply && m.owner == l.owner
    ensures Moved(l, r.ledger, from, to, value)
  {
    forall a: string ensures r.ledger.Balance(a) == l.Balance(a) + Delta(a, from, to, value) {
      assert m.Balance(a) == l.Balance(a);
    }
  }

  lemma SameAllowances(l: Ledger, m: Ledger, l': Ledger, holder: string, spender: string, value: nat)
    requires AllowanceUsed(l, m, holder, spender, value) && l'.allowances == m.allowances
    ensures AllowanceUsed(l, l', holder, spender, value)
  {
    forall h: string, s: string ensures l'.Allowed(h, s) == m.Allowed(h, s) {
    }
  }

  lemma TransfersMove(l: Ledger, sender: string, from: string, to: string, value: nat)
    ensures MovedBy(l, TransferFunds(l, sender, to, value), sender, sender, sender, to, value)
    ensures MovedBy(l, TransferFromFunds(l, sender, from, to, value), from, sender, from, to, value)
    ensures TransferFunds(l, from, to, value).Done? ==> from != ZERO_ADDRESS && to != ZERO_ADDRESS
    ensures TransferFromFunds(l, sender, from, to, value).Done? ==> from != ZERO_ADDRESS && to != ZERO_ADDRESS
  {
    DirectMoves(l, sender, sender, to, value);
    var spent := Spent(l, from, sender, value);
    if spent.Some? {
      SpentMoves(l, spent.value, from, sender, from, to, value);
    }
  }

  lemma BurnsMove(l: Ledger, sender: string, from: string, value: nat)
    ensures MovedBy(l, BurnFunds(l, sender, value), sender, sender, sender, ZERO_ADDRESS, value)
    ensures MovedBy(l, BurnFromFunds(l, sender, from, value), from, sender, from, ZERO_ADDRESS, value)
    ensures BurnFunds(l, from, value).Done? ==> from != ZERO_ADDRESS
    ensures BurnFromFunds(l, sender, from, value).Done? ==> from != ZERO_ADDRESS
  {
    DirectMoves(l, sender, sender, ZERO_ADDRESS, value);
    var spent := Spent(l, from, sender, value);
    if spent.Some? {
      SpentMoves(l, spent.value, from, sender, from, ZERO_ADDRESS, value);
    }
  }

  // ---------------------------------------------------------------- operation by operation

  lemma ApprovalMeans(read: Reading, l: Ledger, dto: Dto, p: nat, s: Sent)
    requires dto.ApprovalDto? && Entry(read, true, dto, p, s)
    ensures var r := RunCall(l, s.signer, s.call); r.Done? ==> Meant(read, dto, l, r.ledger, r.log)
  {
    EntryTyped(read, true, dto, p, s);
    AddressArg(read, dto.operator, s.call.values[0]);
    UintArg(read, Some(Allowance(dto)), s.call.values[1]);
  }

  lemma MintDispatch(l: Ledger, sender: string, p: nat, v: seq<Value>)
    requires p < |DynamicMethods20(OpMint)| && Typed(DynamicMethods20(OpMint)[p].inputs, v)
    ensures |v| > 1 && v[0].AddressValue? && v[1].UintValue?
    ensures var m := DynamicMethods20(OpMint)[p];
      Run(l, sender, m.name, m.inputs, v) == MintFunds(l, sender, v[0].address, v[1].n)
  {
  }

  lemma MintArgs(read: Reading, dto: Dto, p: nat, v: seq<Value>)
    requires dto.MintDto? && p < |DynamicMethods20(OpMint)|
    requires Encodes(read, DynamicMethods20(OpMint)[p], dto, v)
    ensures |v| > 1
    ensures ToValue(read, Address, Str(dto.to)) == Some(v[0])
    ensures ToValue(read, Uint256, Opt(dto.amount)) == Some(v[1])
  {
  }

  lemma MintMeans(read: Reading, l: Ledger, dto: Dto, p: nat, s: Sent)
    requires dto.MintDto? && Entry(read, true, dto, p, s)
    ensures var r := RunCall(l, s.signer, s.call); r.Done? ==> Meant(read, dto, l, r.ledger, r.log)
  {
    EntryTyped(read, true, dto, p, s);
    MintDispatch(l, s.signer, p, s.call.values);
    MintArgs(read, dto, p, s.call.values);
    AddressArg(read, dto.to, s.call.values[0]);
    UintArg(read, dto.amount, s.call.values[1]);
    MoveMoves(l, ZERO_ADDRESS, Addr(dto.to), Amount(read, dto.amount));
  }

  lemma BurnDispatch(l: Ledger, sender: string, p: nat, v: seq<Value>)
    requires p < |DynamicMethods20(OpBurn)| && Typed(DynamicMethods20(OpBurn)[p].inputs, v)
    ensures if p == 1 then |v| > 0 && v[0].UintValue? else |v| > 1 && v[0].AddressValue? && v[1].UintValue?
    ensures var m := DynamicMethods20(OpBurn)[p]; var r := Run(l, sender, m.name, m.inputs, v);
      && (p == 1 ==> r == BurnFunds(l, sender, v[0].n))
      && (p != 1 ==>
            || r in {Reverted, BurnFromFunds(l, sender, v[0].address, v[1].n)}
            || (v[0].address == sender && r == BurnFunds(l, sender, v[1].n)))
  {
  }

  lemma BurnArgs(read: Reading, dto: Dto, p: nat, v: seq<Value>)
    requires dto.BurnDto? && p < |DynamicMethods20(OpBurn)|
    requires Encodes(read, DynamicMethods20(OpBurn)[p], dto, v)
    ensures if p == 1
      then dto.from == dto.signer && |v| > 0 && ToValue(read, Uint256, Opt(dto.amount)) == Some(v[0])
      else |v| > 1 && ToValue(read, Address, Str(dto.from)) == Some(v[0])
           && ToValue(read, Uint256, Opt(dto.amount)) == Some(v[1])
  {
  }

  lemma BurnMeans(read: Reading, l: Ledger, dto: Dto, p: nat, s: Sent)
    requires dto.BurnDto? && Entry(read, true, dto, p, s)
    ensures var r := RunCall(l, s.signer, s.call); r.Done? ==> Meant(read, dto, l, r.ledger, r.log)
  {
    EntryTyped(read, true, dto, p, s);
    BurnDispatch(l, s.signer, p, s.call.values);
    BurnArgs(read, dto, p, s.call.values);
    UintArg(read, dto.amount, s.call.values[if p == 1 then 0 else 1]);
    if p != 1 {
      AddressArg(read, dto.from, s.call.values[0]);
    }
    BurnsMove(l, s.signer, Addr(dto.from), Amount(read, dto.amount));
  }

  lemma TransferDispatch(l: Ledger, sender: string, p: nat, v: seq<Value>)
    requires p < |DynamicMethods20(OpTransfer)| && Typed(DynamicMethods20(OpTransfer)[p].inputs, v)
    ensures if p == 1 then |v| > 1 && v[0].AddressValue? && v[1].UintValue?
      else |v| > 2 && v[0].AddressValue? && v[1].AddressValue? && v[2].UintValue?
    ensures var m := DynamicMethods20(OpTransfer)[p]; var r := Run(l, sender, m.name, m.inputs, v);
      && (p == 1 ==> r == TransferFunds(l, sender, v[0].address, v[1].n))
      && (p != 1 ==>
            || r == TransferFromFunds(l, sender, v[0].address, v[1].address, v[2].n)
            || (v[0].address == sender && r == TransferFunds(l, sender, v[1].address, v[2].n)))
  {
  }

  lemma TransferArgs(read: Reading, dto: Dto, p: nat, v: seq<Value>)
    requires dto.TransferDto? && p < |DynamicMethods20(OpTransfer)|
    requires Encodes(read, DynamicMethods20(OpTransfer)[p], dto, v)
    ensures if p == 1
      then dto.from == dto.signer && |v| > 1 && ToValue(read, Address, Str(dto.to)) == Some(v[0])
           && ToValue(read, Uint256, Opt(dto.amount)) == Some(v[1])
      else |v| > 2 && ToValue(read, Address, Str(dto.from)) == Some(v[0])
           && ToValue(read, Address, Str(dto.to)) == Some(v[1])
           && ToValue(read, Uint256, Opt(dto.amount)) == Some(v[2])
  {
  }

  lemma TransferMeans(read: Reading, l: Ledger, dto: Dto, p: nat, s: Sent)
    requires dto.TransferDto? && Entry(read, true, dto, p, s)
    ensures var r := RunCall(l, s.signer, s.call); r.Done? ==> Meant(read, dto, l, r.ledger, r.log)
  {
    EntryTyped(read, true, dto, p, s);
    TransferDispatch(l, s.signer, p, s.call.values);
    TransferArgs(read, dto, p, s.call.values);
    AddressArg(read, dto.to, s.call.values[if p == 1 then 0 else 1]);
    UintArg(read, dto.amount, s.call.values[if p == 1 then 1 else 2]);
    if p != 1 {
      AddressArg(read, dto.from, s.call.values[0]);
    }
    TransfersMove(l, s.signer, Addr(dto.from), Addr(dto.to), Amount(read, dto.amount));
  }

  /** Whatever method the contract's ABI offers, a request that succeeds has done what it asked, and
      the signer had the right to it. */
  lemma ExecutedMeans(read: Reading, l: Ledger, abi: seq<AbiMethod>, dto: Dto)
    ensures var r := Execute(read, l, abi, dto); r.Done? ==> Meant(read, dto, l, r.ledger, r.log)
  {
    var s := Submit(read, abi, true, dto);
    if s.Sent? {
      var p := SentEntry(read, abi, true, dto);
      match dto
      case ApprovalDto(_, _, _, _, _, _) => ApprovalMeans(read, l, dto, p, s);
      case BurnDto(_, _, _, _, _) => BurnMeans(read, l, dto, p, s);
      case MintDto(_, _, _, _, _, _) => MintMeans(read, l, dto, p, s);
      case TransferDto(_, _, _, _, _, _) => TransferMeans(read, l, dto, p, s);
    }
  }

  /** Two contracts that differ only in the methods they offer, hit by the same request: if both
      calls succeed they emit the same event, and balances, supply and allowances end up equal, but
      for an allowance the signer has given itself, which one method may use and another not. */
  lemma MethodIndependent(read: Reading, l: Ledger, abi1: seq<AbiMethod>, abi2: seq<AbiMethod>, dto: Dto,
                          a: string, h: string)
    requires Execute(read, l, abi1, dto).Done? && Execute(read, l, abi2, dto).Done?
    ensures var r1, r2 := Execute(read, l, abi1, dto), Execute(read, l, abi2, dto);
      && r1.log == r2.log
      && r1.ledger.Balance(a) == r2.ledger.Balance(a)
      && r1.ledger.supply == r2.ledger.supply && r1.ledger.owner == r2.ledger.owner
      && ((h, a) != (Addr(dto.signer), Addr(dto.signer)) || dto.ApprovalDto? || dto.MintDto? ==>
            r1.ledger.Allowed(h, a) == r2.ledger.Allowed(h, a))
  {
    ExecutedMeans(read, l, abi1, dto);
    ExecutedMeans(read, l, abi2, dto);
  }

  lemma RespelledMeans(read: Reading, dto: Dto, l: Ledger, l': Ledger, log: Log)
    ensures Meant(read, dto, l, l', log) <==> Meant(read, Respelled(dto), l, l', log)
  {
    SpelledDenotes(dto.signer);
    match dto
    case ApprovalDto(_, operator, _, _, _, _) => SpelledDenotes(operator);
    case BurnDto(_, from, _, _, _) => SpelledDenotes(from);
    case MintDto(_, to, _, _, _, _) => SpelledDenotes(to);
    case TransferDto(_, from, to, _, _, _) =>
      SpelledDenotes(from);
      SpelledDenotes(to);
  }

  /** How the addresses of a request are spelled may decide which method serves it, not what it does. */
  lemma SpellingIndependent(read: Reading, l: Ledger, abi: seq<AbiMethod>, dto: Dto, a: string, h: string)
    requires Execute(read, l, abi, dto).Done? && Execute(read, l, abi, Respelled(dto)).Done?
    ensures var r1, r2 := Execute(read, l, abi, dto), Execute(read, l, abi, Respelled(dto));
      && r1.log == r2.log
      && r1.ledger.Balance(a) == r2.ledger.Balance(a)
      && r1.ledger.supply == r2.ledger.supply && r1.ledger.owner == r2.ledger.owner
      && ((h, a) != (Addr(dto.signer), Addr(dto.signer)) || dto.ApprovalDto? || dto.MintDto? ==>
            r1.ledger.Allowed(h, a) == r2.ledger.Allowed(h, a))
  {
    ExecutedMeans(read, l, abi, dto);
    ExecutedMeans(read, l, abi, Respelled(dto));
    var r := Execute(read, l, abi, Respelled(dto));
    RespelledMeans(read, dto, l, r.ledger, r.log);
  }

  /** Why `transfer` and one-argument `burn` are offered to nobody but the holder: called for
      someone else's tokens they succeed, and report the holder named in the request exactly when
      that is the signer. */
  lemma HolderOnly(l: Ledger, sender: string, from: string, to: string, n: nat)
    ensures var r := Run(l, sender, Transfer, [Address, Uint256], [AddressValue(to), UintValue(n)]);
      r.Done? ==> (r.log == TransferLog(from, to, n) <==> from == sender)
    ensures var r := Run(l, sender, Burn, [Uint256], [UintValue(n)]);
      r.Done? ==> (r.log == TransferLog(from, ZERO_ADDRESS, n) <==> from == sender)
  {
  }
}
