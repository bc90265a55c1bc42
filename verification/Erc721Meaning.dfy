/** What a compiled ERC721 request does does not depend on which method was found for it. */
module Erc721Meaning {
  import opened Js
  import opened MethodTables
  import opened AbiMapper
  import opened Calls
  import opened Erc721

  function RunCall(c: Contract, sender: string, call: Call): Outcome {
    if call.m.name.Some? && call.m.inputs.Some? && Typed(Kinds(call.m.inputs.value), call.values)
    then Run(c, sender, call.m.name.value, Kinds(call.m.inputs.value), call.values)
    else Reverted
  }

  /** Compile, send, execute. */
  function Execute(read: Reading, c: Contract, abi: seq<AbiMethod>, dto: Dto): Outcome {
    match Submit(read, abi, false, dto)
    case Sent(signer, call) => RunCall(c, signer, call)
    case NotSent => Reverted
  }

  function Grantee(dto: Dto): string
    requires dto.ApprovalDto?
  {
    if dto.approved then Addr(dto.operator) else ZERO_ADDRESS
  }

  /** The token a request is about: the one it names, or the next one to be minted. */
  function TokenOf(read: Reading, c: Contract, dto: Dto): nat {
    if dto.tokenIndex.None? then c.nextTokenId else Amount(read, dto.tokenIndex)
  }

  /** What the request asks for, and the one event that reports it. */
  ghost predicate Meant(read: Reading, dto: Dto, c: Contract, c': Contract, log: Log) {
    var l, l', id := c.ledger, c'.ledger, TokenOf(read, c, dto);
    && Canonical(dto.signer).Some? && c'.owner == c.owner && c'.baseUri == c.baseUri
    && c'.uris == (if dto.MintDto? then c.uris[id := UriFor(c, id, dto.uri.GetOr(""))] else c.uris)
    && (dto.tokenIndex.Some? ==> HasAmount(read, dto.tokenIndex))
    && c'.nextTokenId == c.nextTokenId + (if dto.MintDto? && dto.tokenIndex.None? then 1 else 0)
    && match dto
       case MintDto(_, to, _, _, _, _) =>
         && Canonical(to).Some? && Addr(to) != ZERO_ADDRESS && l.OwnerOf(id) == ZERO_ADDRESS
         && Addr(dto.signer) == c.owner
         && l' == l.(owners := l.owners[id := Addr(to)])
         && log == TransferLog(ZERO_ADDRESS, Addr(to), id)
       case TransferDto(_, from, to, _, tokenIndex, _) =>
         && tokenIndex.Some? && Canonical(from).Some? && Canonical(to).Some?
         && Addr(from) != ZERO_ADDRESS && Addr(to) != ZERO_ADDRESS && l.OwnerOf(id) == Addr(from)
         && Authorized(l, Addr(from), Addr(dto.signer), id)
         && l' == l.(owners := l.owners[id := Addr(to)], approvals := l.approvals - {id})
         && log == TransferLog(Addr(from), Addr(to), id)
       case BurnDto(_, from, _, tokenIndex, _) =>
         && tokenIndex.Some? && l.OwnerOf(id) != ZERO_ADDRESS
         && (Authorized(l, l.OwnerOf(id), Addr(dto.signer), id) || Canonical(from) == Canonical(dto.signer))
         && l' == l.(owners := l.owners - {id}, approvals := l.approvals - {id})
         && log == TransferLog(l.OwnerOf(id), ZERO_ADDRESS, id)
       case ApprovalDto(signer, operator, approved, _, _, tokenIndex) =>
         if tokenIndex.Some? then
           && (approved ==> Canonical(operator).Some?) && l.OwnerOf(id) != ZERO_ADDRESS
           && (l.OwnerOf(id) == Addr(signer) || (l.OwnerOf(id), Addr(signer)) in l.operators)
           && l' == l.(approvals := l.approvals[id := Grantee(dto)])
           && log == ApprovalLog(l.OwnerOf(id), Grantee(dto), id)
         else
           var pair := (Addr(signer), Addr(operator));
           && Canonical(operator).Some? && Addr(operator) != ZERO_ADDRESS
           && l' == l.(operators := if approved then l.operators + {pair} else l.operators - {pair})
           && log == ApprovalForAllLog(Addr(signer), Addr(operator), approved)
  }

  // ---------------------------------------------------------------- operation by operation

  /** Running the method of a table entry. */
  function RunEntry(c: Contract, sender: string, m: MethodSignature, v: seq<Value>): Outcome
    requires Typed(m.inputs, v)
  {
    Run(c, sender, m.name, m.inputs, v)
  }

  const AUTO_MINTS: set<nat> := {0, 2, 4, 6}

  lemma MintDispatch(c: Contract, sender: string, p: nat, v: seq<Value>)
    requires p < |DynamicMethods721(OpMint)| && Typed(DynamicMethods721(OpMint)[p].inputs, v)
    ensures |v| > 0 && v[0].AddressValue? && (p !in AUTO_MINTS ==> |v| > 1 && v[1].UintValue?)
    ensures RunEntry(c, sender, DynamicMethods721(OpMint)[p], v) ==
      if p in AUTO_MINTS then MintNext(c, sender, v[0].address, UriArg(v))
      else MintAt(c, sender, v[0].address, v[1].n, UriArg(v))
  {
  }

  lemma ExtensionMintUri(read: Reading, dto: Dto, p: nat, v: seq<Value>)
    requires dto.MintDto? && p < 4 && Encodes(read, DynamicMethods721(OpMint)[p], dto, v)
    ensures |v| > 0 && UriArg(v) == dto.uri.GetOr("")
  {
  }

  lemma PlainMintUri(read: Reading, dto: Dto, p: nat, v: seq<Value>)
    requires dto.MintDto? && 4 <= p < |DynamicMethods721(OpMint)| && Encodes(read, DynamicMethods721(OpMint)[p], dto, v)
    ensures |v| > 0 && UriArg(v) == dto.uri.GetOr("")
  {
  }

  /** Entries without a URI input refuse requests with one. */
  lemma MintUri(read: Reading, dto: Dto, p: nat, v: seq<Value>)
    requires dto.MintDto? && p < |DynamicMethods721(OpMint)|
    requires Encodes(read, DynamicMethods721(OpMint)[p], dto, v)
    ensures UriArg(v) == dto.uri.GetOr("")
  {
    if p < 4 {
      ExtensionMintUri(read, dto, p, v);
    } else {
      PlainMintUri(read, dto, p, v);
    }
  }

  lemma AutoMintArgs(read: Reading, dto: Dto, p: nat, v: seq<Value>)
    requires dto.MintDto? && p < |DynamicMethods721(OpMint)| && p in AUTO_MINTS
    requires Encodes(read, DynamicMethods721(OpMint)[p], dto, v)
    ensures |v| > 0 && ToValue(read, Address, Str(dto.to)) == Some(v[0])
    ensures dto.tokenIndex.None?
  {
  }

  lemma ManualMintArgs(read: Reading, dto: Dto, p: nat, v: seq<Value>)
    requires dto.MintDto? && p < |DynamicMethods721(OpMint)| && p !in AUTO_MINTS
    requires Encodes(read, DynamicMethods721(OpMint)[p], dto, v)
    ensures |v| > 1 && ToValue(read, Address, Str(dto.to)) == Some(v[0])
    ensures ToValue(read, Uint256, Opt(dto.tokenIndex)) == Some(v[1])
  {
  }

  lemma MintRuns(read: Reading, c: Contract, dto: Dto, p: nat, s: Sent)
    requires dto.MintDto? && Entry(read, false, dto, p, s)
    ensures Canonical(dto.to).Some? && (dto.tokenIndex.Some? ==> HasAmount(read, dto.tokenIndex))
    ensures RunCall(c, s.signer, s.call) ==
      if dto.tokenIndex.None? then MintNext(c, s.signer, Addr(dto.to), dto.uri.GetOr(""))
      else MintAt(c, s.signer, Addr(dto.to), Amount(read, dto.tokenIndex), dto.uri.GetOr(""))
  {
    EntryTyped(read, false, dto, p, s);
    MintDispatch(c, s.signer, p, s.call.values);
    MintUri(read, dto, p, s.call.values);
    if p in AUTO_MINTS {
      AutoMintArgs(read, dto, p, s.call.values);
    } else {
      ManualMintArgs(read, dto, p, s.call.values);
      UintArg(read, dto.tokenIndex, s.call.values[1]);
    }
    AddressArg(read, dto.to, s.call.values[0]);
  }

  lemma MintMeans(read: Reading, c: Contract, dto: Dto, p: nat, s: Sent)
    requires dto.MintDto? && Entry(read, false, dto, p, s)
    ensures var r := RunCall(c, s.signer, s.call); r.Done? ==> Meant(read, dto, c, r.contract, r.log)
  {
    MintRuns(read, c, dto, p, s);
  }

  lemma BurnDispatch(c: Contract, sender: string, p: nat, v: seq<Value>)
    requires p < |DynamicMethods721(OpBurn)| && Typed(DynamicMethods721(OpBurn)[p].inputs, v)
    ensures var i := if p == 1 then 0 else 1;
      && |v| > i && v[i].UintValue?
      && (p != 1 ==> v[0].AddressValue?)
      && RunEntry(c, sender, DynamicMethods721(OpBurn)[p], v) ==
           if p == 1 then BurnToken(c, v[0].n, sender)
           else if v[0].address == sender then BurnToken(c, v[1].n, ZERO_ADDRESS) else Reverted
  {
  }

  lemma BurnArgs(read: Reading, dto: Dto, p: nat, v: seq<Value>)
    requires dto.BurnDto? && p < |DynamicMethods721(OpBurn)|
    requires Encodes(read, DynamicMethods721(OpBurn)[p], dto, v)
    ensures (p == 1 ==> |v| > 0 && ToValue(read, Uint256, Opt(dto.tokenIndex)) == Some(v[0]))
    ensures (p != 1 ==> |v| > 1 && ToValue(read, Uint256, Opt(dto.tokenIndex)) == Some(v[1]))
    ensures (p != 1 ==> ToValue(read, Address, Str(dto.from)) == Some(v[0]))
  {
  }

  lemma BurnMeans(read: Reading, c: Contract, dto: Dto, p: nat, s: Sent)
    requires dto.BurnDto? && Entry(read, false, dto, p, s)
    ensures var r := RunCall(c, s.signer, s.call); r.Done? ==> Meant(read, dto, c, r.contract, r.log)
  {
    EntryTyped(read, false, dto, p, s);
    BurnDispatch(c, s.signer, p, s.call.values);
    BurnArgs(read, dto, p, s.call.values);
    UintArg(read, dto.tokenIndex, s.call.values[if p == 1 then 0 else 1]);
    if p != 1 {
      AddressArg(read, dto.from, s.call.values[0]);
    }
  }

  lemma TransferDispatch(c: Contract, sender: string, p: nat, v: seq<Value>)
    requires p < |DynamicMethods721(OpTransfer)| && Typed(DynamicMethods721(OpTransfer)[p].inputs, v)
    ensures |v| > 2 && v[0].AddressValue? && v[1].AddressValue? && v[2].UintValue?
    ensures RunEntry(c, sender, DynamicMethods721(OpTransfer)[p], v) ==
      TransferToken(c, sender, v[0].address, v[1].address, v[2].n)
  {
  }

  lemma TransferArgs(read: Reading, dto: Dto, p: nat, v: seq<Value>)
    requires dto.TransferDto? && p < |DynamicMethods721(OpTransfer)|
    requires Encodes(read, DynamicMethods721(OpTransfer)[p], dto, v)
    ensures |v| > 2
    ensures ToValue(read, Address, Str(dto.from)) == Some(v[0])
    ensures ToValue(read, Address, Str(dto.to)) == Some(v[1])
    ensures ToValue(read, Uint256, Opt(dto.tokenIndex)) == Some(v[2])
  {
  }

  lemma TransferMeans(read: Reading, c: Contract, dto: Dto, p: nat, s: Sent)
    requires dto.TransferDto? && Entry(read, false, dto, p, s)
    ensures var r := RunCall(c, s.signer, s.call); r.Done? ==> Meant(read, dto, c, r.contract, r.log)
  {
    EntryTyped(read, false, dto, p, s);
    TransferDispatch(c, s.signer, p, s.call.values);
    TransferArgs(read, dto, p, s.call.values);
    AddressArg(read, dto.from, s.call.values[0]);
    AddressArg(read, dto.to, s.call.values[1]);
    UintArg(read, dto.tokenIndex, s.call.values[2]);
  }

  const TOKEN_APPROVALS: set<nat> := {0, 2}

  lemma ApprovalDispatch(c: Contract, sender: string, p: nat, v: seq<Value>)
    requires p < |DynamicMethods721(OpApproval)| && Typed(DynamicMethods721(OpApproval)[p].inputs, v)
    ensures |v| > 1 && v[0].AddressValue? && (if p in TOKEN_APPROVALS then v[1].UintValue? else v[1].BoolValue?)
    ensures RunEntry(c, sender, DynamicMethods721(OpApproval)[p], v) ==
      if p in TOKEN_APPROVALS then ApproveToken(c, sender, v[0].address, v[1].n)
      else ApproveAll(c, sender, v[0].address, v[1].b)
  {
  }

  lemma ApprovalArgs(read: Reading, dto: Dto, p: nat, v: seq<Value>)
    requires dto.ApprovalDto? && p < |DynamicMethods721(OpApproval)|
    requires Encodes(read, DynamicMethods721(OpApproval)[p], dto, v)
    ensures |v| > 1
    ensures if p in TOKEN_APPROVALS
      then ToValue(read, Address, MethodTables.Approved(dto)) == Some(v[0])
           && dto.tokenIndex.Some? && ToValue(read, Uint256, Opt(dto.tokenIndex)) == Some(v[1])
      else ToValue(read, Address, Str(dto.operator)) == Some(v[0])
           && dto.tokenIndex.None? && ToValue(read, Boolean, Bool(dto.approved)) == Some(v[1])
  {
  }

  lemma ApprovalMeans(read: Reading, c: Contract, dto: Dto, p: nat, s: Sent)
    requires dto.ApprovalDto? && Entry(read, false, dto, p, s)
    ensures var r := RunCall(c, s.signer, s.call); r.Done? ==> Meant(read, dto, c, r.contract, r.log)
  {
    EntryTyped(read, false, dto, p, s);
    ApprovalDispatch(c, s.signer, p, s.call.values);
    ApprovalArgs(read, dto, p, s.call.values);
    if p in TOKEN_APPROVALS {
      AddressArg(read, MethodTables.Approved(dto).s, s.call.values[0]);
      UintArg(read, dto.tokenIndex, s.call.values[1]);
      ZeroIsCanonical();
    } else {
      AddressArg(read, dto.operator, s.call.values[0]);
    }
  }

  /** Whatever method the contract's ABI offers, a request that succeeds has done what it asked;
      a burn has destroyed the token whoever held it. Except for a burn by an account that names itself,
      the signer had the right to it. */
  lemma ExecutedMeans(read: Reading, c: Contract, abi: seq<AbiMethod>, dto: Dto)
    ensures var r := Execute(read, c, abi, dto); r.Done? ==> Meant(read, dto, c, r.contract, r.log)
  {
    var s := Submit(read, abi, false, dto);
    if s.Sent? {
      var p := SentEntry(read, abi, false, dto);
      match dto
      case ApprovalDto(_, _, _, _, _, _) => ApprovalMeans(read, c, dto, p, s);
      case BurnDto(_, _, _, _, _) => BurnMeans(read, c, dto, p, s);
      case MintDto(_, _, _, _, _, _) => MintMeans(read, c, dto, p, s);
      case TransferDto(_, _, _, _, _, _) => TransferMeans(read, c, dto, p, s);
    }
  }

  /** Two contracts that differ only in the methods they offer, hit by the same request: if both
      calls succeed, they end in the same state and emit the same event. */
  lemma MethodIndependent(read: Reading, c: Contract, abi1: seq<AbiMethod>, abi2: seq<AbiMethod>, dto: Dto)
    requires Execute(read, c, abi1, dto).Done? && Execute(read, c, abi2, dto).Done?
    ensures Execute(read, c, abi1, dto) == Execute(read, c, abi2, dto)
  {
    ExecutedMeans(read, c, abi1, dto);
    ExecutedMeans(read, c, abi2, dto);
  }

  lemma RespelledMeans(read: Reading, dto: Dto, c: Contract, c': Contract, log: Log)
    ensures Meant(read, dto, c, c', log) <==> Meant(read, Respelled(dto), c, c', log)
  {
    SpelledDenotes(dto.signer);
    match dto
    case ApprovalDto(_, operator, _, _, _, _) => SpelledDenotes(operator);
    case BurnDto(_, from, _, _, _) => SpelledDenotes(from);
    case MintDto(_, to, _, _, _, _) => SpelledDenotes(to);
    case TransferDto(_, from, to, _, _, _) =>
      SpelledDenotes(from);
      SpelledDenotes(to);
  }

  /** How the addresses of a request are spelled does not matter to what it does. */
  lemma SpellingIndependent(read: Reading, c: Contract, abi: seq<AbiMethod>, dto: Dto)
    requires Execute(read, c, abi, dto).Done? && Execute(read, c, abi, Respelled(dto)).Done?
    ensures Execute(read, c, abi, dto) == Execute(read, c, abi, Respelled(dto))
  {
    ExecutedMeans(read, c, abi, dto);
    ExecutedMeans(read, c, abi, Respelled(dto));
    var r := Execute(read, c, abi, Respelled(dto));
    RespelledMeans(read, dto, c, r.contract, r.log);
  }
}
