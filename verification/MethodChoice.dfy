/** Which method of a contract serves a request, with which parameters, and when a request is refused
    or not served at all: read off the contract's own ABI, operation by operation. */
module MethodChoice {
  import opened Js
  import opened Hex
  import opened Decimal
  import opened MethodTables
  import opened AbiMapper

  /** The first method of the ABI with this name and these inputs. */
  function Named(abi: seq<AbiMethod>, name: MethodName, kinds: seq<AbiType>): (r: Option<AbiMethod>)
    ensures r.Some? ==> r.value in abi && r.value.name == Some(name)
    ensures r.Some? ==> r.value.inputs.Some? && Kinds(r.value.inputs.value) == kinds
  {
    if abi == [] then None
    else if abi[0].name == Some(name) && abi[0].inputs.Some? && Kinds(abi[0].inputs.value) == kinds then Some(abi[0])
    else Named(abi[1..], name, kinds)
  }

  /** The method serves the request if the ABI has it; otherwise the rest decides. */
  function Use(m: Option<AbiMethod>, params: seq<Param>, rest: Choice): Choice {
    if m.Some? then Chosen(m.value, params) else rest
  }

  /** So does it here, but it refuses requests that are not acceptable to it. */
  function UseIf(m: Option<AbiMethod>, acceptable: bool, params: seq<Param>, rest: Choice): Choice {
    if m.Some? && !acceptable then Failed else Use(m, params, rest)
  }

  // ---------------------------------------------------------------- from the search to the names

  lemma {:induction false} NamedIsFirst(abi: seq<AbiMethod>, s: MethodSignature)
    ensures FirstOf(abi, s) == Named(abi, s.name, s.inputs)
  {
    if abi == [] {
    } else {
      NamedIsFirst(abi[1..], s);
      var m := abi[0];
      if m.inputs.Some? {
        assert Kinds(m.inputs.value) == s.inputs <==>
          |m.inputs.value| == |s.inputs| && forall i :: 0 <= i < |s.inputs| ==> m.inputs.value[i].kind == s.inputs[i];
      }
    }
  }

  /** Signature `i` does not apply. */
  lemma Skips(abi: seq<AbiMethod>, signatures: seq<MethodSignature>, dto: Dto, i: nat, m: Mapper)
    requires i < |signatures| && signatures[i].map' == m && Apply(m, dto) == NotApplicable
    ensures ByPriority(abi, signatures, dto, i) == ByPriority(abi, signatures, dto, i + 1)
  {
  }

  /** Signature `i` applies to all requests it finds acceptable. */
  lemma Serves(abi: seq<AbiMethod>, signatures: seq<MethodSignature>, dto: Dto, i: nat,
               s: MethodSignature, acceptable: bool, params: seq<Param>)
    requires i < |signatures| && signatures[i] == s && Apply(s.map', dto) == Guarded(acceptable, params)
    ensures ByPriority(abi, signatures, dto, i) ==
      UseIf(Named(abi, s.name, s.inputs), acceptable, params, ByPriority(abi, signatures, dto, i + 1))
  {
    NamedIsFirst(abi, s);
  }

  lemma ChoiceByPriority(abi: seq<AbiMethod>, isFungible: bool, dto: Dto)
    ensures Choose(abi, isFungible, dto) == ByPriority(abi, DynamicMethods(isFungible, OperationOf(dto)), dto, 0)
  {
    SearchByPriority(abi, DynamicMethods(isFungible, OperationOf(dto)), dto, 0, 0);
    assert abi[0..] == abi;
  }

  // ---------------------------------------------------------------- fungible tokens

  /** An approval of zero revokes; one without an allowance is unlimited. Never refused. */
  lemma FungibleApproval(abi: seq<AbiMethod>, dto: Dto)
    requires dto.ApprovalDto?
    ensures var allowance :=
        if !dto.approved then "0" else if dto.allowance.Some? then dto.allowance.value else ToDec(UINT256_MAX);
      var data := EncodeHex(if dto.data.Some? then dto.data.value else "");
      Choose(abi, true, dto) ==
        Use(Named(abi, ApproveWithData, [Address, Uint256, Bytes]), [Str(dto.operator), Str(allowance), Str(data)],
        Use(Named(abi, Approve, [Address, Uint256]), [Str(dto.operator), Str(allowance)],
        NoMethod))
  {
    var table, data := DynamicMethods20(OpApproval), DataParam(dto);
    ChoiceByPriority(abi, true, dto);
    Serves(abi, table, dto, 0, table[0], true, [Str(dto.operator), Str(Allowance(dto)), data]);
    Serves(abi, table, dto, 1, table[1], true, [Str(dto.operator), Str(Allowance(dto))]);
  }

  /** The burn without a holder serves requests whose signer is the holder. Never refused. */
  lemma FungibleBurn(abi: seq<AbiMethod>, dto: Dto)
    requires dto.BurnDto?
    ensures var amount, data := Opt(dto.amount), EncodeHex(if dto.data.Some? then dto.data.value else "");
      Choose(abi, true, dto) ==
        Use(Named(abi, BurnWithData, [Address, Uint256, Bytes]), [Str(dto.from), amount, Str(data)],
        Use(if dto.from == dto.signer then Named(abi, Burn, [Uint256]) else None, [amount],
        Use(Named(abi, BurnFrom, [Address, Uint256]), [Str(dto.from), amount],
        Use(Named(abi, Burn, [Address, Uint256]), [Str(dto.from), amount],
        NoMethod))))
  {
    var table, from, amount, data := DynamicMethods20(OpBurn), Str(dto.from), Opt(dto.amount), DataParam(dto);
    ChoiceByPriority(abi, true, dto);
    Serves(abi, table, dto, 0, table[0], true, [from, amount, data]);
    if dto.from == dto.signer {
      Serves(abi, table, dto, 1, table[1], true, [amount]);
    } else {
      Skips(abi, table, dto, 1, SignerAmount);
    }
    Serves(abi, table, dto, 2, table[2], true, [from, amount]);
    Serves(abi, table, dto, 3, table[3], true, [from, amount]);
  }

  /** Never refused. */
  lemma FungibleMint(abi: seq<AbiMethod>, dto: Dto)
    requires dto.MintDto?
    ensures var amount, data := Opt(dto.amount), EncodeHex(if dto.data.Some? then dto.data.value else "");
      Choose(abi, true, dto) ==
        Use(Named(abi, MintWithData, [Address, Uint256, Bytes]), [Str(dto.to), amount, Str(data)],
        Use(Named(abi, Mint, [Address, Uint256]), [Str(dto.to), amount],
        NoMethod))
  {
    var table, data := DynamicMethods20(OpMint), DataParam(dto);
    ChoiceByPriority(abi, true, dto);
    Serves(abi, table, dto, 0, table[0], true, [Str(dto.to), Opt(dto.amount), data]);
    Serves(abi, table, dto, 1, table[1], true, [Str(dto.to), Opt(dto.amount)]);
  }

  /** The transfer without a sender serves requests whose signer is the holder. Never refused. */
  lemma FungibleTransfer(abi: seq<AbiMethod>, dto: Dto)
    requires dto.TransferDto?
    ensures var from, to, amount := Str(dto.from), Str(dto.to), Opt(dto.amount);
      var data := EncodeHex(if dto.data.Some? then dto.data.value else "");
      Choose(abi, true, dto) ==
        Use(Named(abi, TransferWithData, [Address, Address, Uint256, Bytes]), [from, to, amount, Str(data)],
        Use(if dto.from == dto.signer then Named(abi, Transfer, [Address, Uint256]) else None, [to, amount],
        Use(Named(abi, TransferFrom, [Address, Address, Uint256]), [from, to, amount],
        NoMethod)))
  {
    var table, data := DynamicMethods20(OpTransfer), DataParam(dto);
    var from, to, amount := Str(dto.from), Str(dto.to), Opt(dto.amount);
    ChoiceByPriority(abi, true, dto);
    Serves(abi, table, dto, 0, table[0], true, [from, to, amount, data]);
    if dto.from == dto.signer {
      Serves(abi, table, dto, 1, table[1], true, [to, amount]);
    } else {
      Skips(abi, table, dto, 1, SignerToAmount);
    }
    Serves(abi, table, dto, 2, table[2], true, [from, to, amount]);
  }

  // ---------------------------------------------------------------- nonfungible tokens

  /** One token at a time. */
  predicate One(amount: Option<string>) {
    amount.None? || amount.value == "1"
  }

  /** An approval of one token; revoking names nobody. Never refused. */
  lemma TokenApproval(abi: seq<AbiMethod>, dto: Dto)
    requires dto.ApprovalDto? && dto.tokenIndex.Some?
    ensures var grantee, index := Str(if dto.approved then dto.operator else ZERO_ADDRESS), Str(dto.tokenIndex.value);
      var data := EncodeHex(if dto.data.Some? then dto.data.value else "");
      Choose(abi, false, dto) ==
        Use(Named(abi, ApproveWithData, [Address, Uint256, Bytes]), [grantee, index, Str(data)],
        Use(Named(abi, Approve, [Address, Uint256]), [grantee, index],
        NoMethod))
  {
    var table, data := DynamicMethods721(OpApproval), DataParam(dto);
    var grantee, index := Approved(dto), Str(dto.tokenIndex.value);
    ChoiceByPriority(abi, false, dto);
    Serves(abi, table, dto, 0, table[0], true, [grantee, index, data]);
    Skips(abi, table, dto, 1, AllApprovalData);
    Serves(abi, table, dto, 2, table[2], true, [grantee, index]);
    Skips(abi, table, dto, 3, AllApproval);
  }

  /** An approval for all tokens. Never refused. */
  lemma OperatorApproval(abi: seq<AbiMethod>, dto: Dto)
    requires dto.ApprovalDto? && dto.tokenIndex.None?
    ensures var operator, approved := Str(dto.operator), Bool(dto.approved);
      var data := EncodeHex(if dto.data.Some? then dto.data.value else "");
      Choose(abi, false, dto) ==
        Use(Named(abi, SetApprovalForAllWithData, [Address, Boolean, Bytes]), [operator, approved, Str(data)],
        Use(Named(abi, SetApprovalForAll, [Address, Boolean]), [operator, approved],
        NoMethod))
  {
    var table, data := DynamicMethods721(OpApproval), DataParam(dto);
    var operator, approved := Str(dto.operator), Bool(dto.approved);
    ChoiceByPriority(abi, false, dto);
    Skips(abi, table, dto, 0, IndexApprovalData);
    Serves(abi, table, dto, 1, table[1], true, [operator, approved, data]);
    Skips(abi, table, dto, 2, IndexApproval);
    Serves(abi, table, dto, 3, table[3], true, [operator, approved]);
  }

  /** Refused exactly if the ABI has a burn and the amount is not one. */
  lemma NonfungibleBurn(abi: seq<AbiMethod>, dto: Dto)
    requires dto.BurnDto?
    ensures var one, index := One(dto.amount), Opt(dto.tokenIndex);
      var data := EncodeHex(if dto.data.Some? then dto.data.value else "");
      Choose(abi, false, dto) ==
        UseIf(Named(abi, BurnWithData, [Address, Uint256, Bytes]), one, [Str(dto.from), index, Str(data)],
        UseIf(Named(abi, Burn, [Uint256]), one, [index],
        UseIf(Named(abi, Burn, [Address, Uint256]), one, [Str(dto.from), index],
        NoMethod)))
  {
    var table, one, index, data := DynamicMethods721(OpBurn), One(dto.amount), Opt(dto.tokenIndex), DataParam(dto);
    ChoiceByPriority(abi, false, dto);
    Serves(abi, table, dto, 0, table[0], one, [Str(dto.from), index, data]);
    Serves(abi, table, dto, 1, table[1], one, [index]);
    Serves(abi, table, dto, 2, table[2], one, [Str(dto.from), index]);
  }

  lemma SafeTransfers(abi: seq<AbiMethod>, dto: Dto, table: seq<MethodSignature>)
    requires dto.TransferDto? && |table| == 3
    requires table[1] == MethodSignature(SafeTransferFrom, [Address, Address, Uint256, Bytes], FromToIndexData)
    requires table[2] == MethodSignature(SafeTransferFrom, [Address, Address, Uint256], FromToIndex)
    ensures var one, from, to, index := One(dto.amount), Str(dto.from), Str(dto.to), Opt(dto.tokenIndex);
      ByPriority(abi, table, dto, 1) ==
        UseIf(Named(abi, SafeTransferFrom, [Address, Address, Uint256, Bytes]), one, [from, to, index, DataParam(dto)],
        UseIf(Named(abi, SafeTransferFrom, [Address, Address, Uint256]), one, [from, to, index],
        NoMethod))
  {
    var one, from, to, index := One(dto.amount), Str(dto.from), Str(dto.to), Opt(dto.tokenIndex);
    Serves(abi, table, dto, 1, table[1], one, [from, to, index, DataParam(dto)]);
    Serves(abi, table, dto, 2, table[2], one, [from, to, index]);
  }

  /** Refused exactly if the ABI has a transfer and the amount is not one. */
  lemma NonfungibleTransfer(abi: seq<AbiMethod>, dto: Dto)
    requires dto.TransferDto?
    ensures var one, from, to, index := One(dto.amount), Str(dto.from), Str(dto.to), Opt(dto.tokenIndex);
      var data := Str(EncodeHex(if dto.data.Some? then dto.data.value else ""));
      Choose(abi, false, dto) ==
        UseIf(Named(abi, TransferWithData, [Address, Address, Uint256, Bytes]), one, [from, to, index, data],
        UseIf(Named(abi, SafeTransferFrom, [Address, Address, Uint256, Bytes]), one, [from, to, index, data],
        UseIf(Named(abi, SafeTransferFrom, [Address, Address, Uint256]), one, [from, to, index],
        NoMethod)))
  {
    var table, one, data := DynamicMethods721(OpTransfer), One(dto.amount), DataParam(dto);
    var from, to, index := Str(dto.from), Str(dto.to), Opt(dto.tokenIndex);
    ChoiceByPriority(abi, false, dto);
    Serves(abi, table, dto, 0, table[0], one, [from, to, index, data]);
    SafeTransfers(abi, dto, table);
  }

  /** Mints with a URI input, with data or without it, take any URI; the others take none. */
  function UriMint(abi: seq<AbiMethod>, dto: Dto, rest: Choice): Choice
    requires dto.MintDto?
  {
    var one, to, index := One(dto.amount), Str(dto.to), Opt(dto.tokenIndex);
    var uri, data := Str(if dto.uri.Some? then dto.uri.value else ""), Str(EncodeHex(dto.data.GetOr("")));
    UseIf(Named(abi, MintWithURI, [Address, Bytes, Text]), one && dto.tokenIndex.None?, [to, data, uri],
    UseIf(Named(abi, MintWithURI, [Address, Uint256, Bytes, Text]), one, [to, index, data, uri],
    rest))
  }

  function DataMint(abi: seq<AbiMethod>, dto: Dto, rest: Choice): Choice
    requires dto.MintDto?
  {
    var bare, to, index := One(dto.amount) && dto.uri in {None, Some("")}, Str(dto.to), Opt(dto.tokenIndex);
    var data := Str(EncodeHex(dto.data.GetOr("")));
    UseIf(Named(abi, MintWithData, [Address, Bytes]), bare && dto.tokenIndex.None?, [to, data],
    UseIf(Named(abi, MintWithData, [Address, Uint256, Bytes]), bare, [to, index, data],
    rest))
  }

  function SafeUriMint(abi: seq<AbiMethod>, dto: Dto, rest: Choice): Choice
    requires dto.MintDto?
  {
    var one, to, index := One(dto.amount), Str(dto.to), Opt(dto.tokenIndex);
    var uri := Str(if dto.uri.Some? then dto.uri.value else "");
    UseIf(Named(abi, SafeMint, [Address, Text]), one && dto.tokenIndex.None?, [to, uri],
    UseIf(Named(abi, SafeMint, [Address, Uint256, Text]), one, [to, index, uri],
    rest))
  }

  function BareMint(abi: seq<AbiMethod>, dto: Dto): Choice
    requires dto.MintDto?
  {
    var bare, to, index := One(dto.amount) && dto.uri in {None, Some("")}, Str(dto.to), Opt(dto.tokenIndex);
    UseIf(Named(abi, SafeMint, [Address]), bare && dto.tokenIndex.None?, [to],
    UseIf(Named(abi, SafeMint, [Address, Uint256]), bare, [to, index],
    UseIf(Named(abi, Mint, [Address, Uint256]), bare, [to, index],
    NoMethod)))
  }

  lemma UriMints(abi: seq<AbiMethod>, dto: Dto, table: seq<MethodSignature>)
    requires dto.MintDto? && |table| > 1
    requires table[0] == MethodSignature(MintWithURI, [Address, Bytes, Text], AutoDataUri)
    requires table[1] == MethodSignature(MintWithURI, [Address, Uint256, Bytes, Text], IndexDataUri)
    ensures ByPriority(abi, table, dto, 0) == UriMint(abi, dto, ByPriority(abi, table, dto, 2))
  {
    var one, to, index := One(dto.amount), Str(dto.to), Opt(dto.tokenIndex);
    var uri, data := Str(dto.uri.GetOr("")), DataParam(dto);
    Serves(abi, table, dto, 0, table[0], one && dto.tokenIndex.None?, [to, data, uri]);
    Serves(abi, table, dto, 1, table[1], one, [to, index, data, uri]);
  }

  lemma DataMints(abi: seq<AbiMethod>, dto: Dto, table: seq<MethodSignature>)
    requires dto.MintDto? && |table| > 3
    requires table[2] == MethodSignature(MintWithData, [Address, Bytes], AutoData)
    requires table[3] == MethodSignature(MintWithData, [Address, Uint256, Bytes], IndexData)
    ensures ByPriority(abi, table, dto, 2) == DataMint(abi, dto, ByPriority(abi, table, dto, 4))
  {
    var bare, to, index, data := One(dto.amount) && NoUri(dto), Str(dto.to), Opt(dto.tokenIndex), DataParam(dto);
    Serves(abi, table, dto, 2, table[2], bare && dto.tokenIndex.None?, [to, data]);
    Serves(abi, table, dto, 3, table[3], bare, [to, index, data]);
  }

  lemma SafeUriMints(abi: seq<AbiMethod>, dto: Dto, table: seq<MethodSignature>)
    requires dto.MintDto? && table == DynamicMethods721(OpMint)
    ensures ByPriority(abi, table, dto, 4) == SafeUriMint(abi, dto, ByPriority(abi, table, dto, 6))
  {
    var one, to, index, uri := One(dto.amount), Str(dto.to), Opt(dto.tokenIndex), Str(dto.uri.GetOr(""));
    Serves(abi, table, dto, 4, table[4], one && dto.tokenIndex.None?, [to, uri]);
    Serves(abi, table, dto, 5, table[5], one, [to, index, uri]);
  }

  lemma BareMints(abi: seq<AbiMethod>, dto: Dto, table: seq<MethodSignature>)
    requires dto.MintDto? && table == DynamicMethods721(OpMint)
    ensures ByPriority(abi, table, dto, 6) == BareMint(abi, dto)
  {
    var bare, to, index := One(dto.amount) && NoUri(dto), Str(dto.to), Opt(dto.tokenIndex);
    Serves(abi, table, dto, 6, table[6], bare && dto.tokenIndex.None?, [to]);
    Serves(abi, table, dto, 7, table[7], bare, [to, index]);
    Serves(abi, table, dto, 8, table[8], bare, [to, index]);
  }

  /** The first of the mints the ABI has decides: it refuses every amount but one, an index it does not
      take and a URI it does not take, even where a later one would accept the request. */
  lemma NonfungibleMint(abi: seq<AbiMethod>, dto: Dto)
    requires dto.MintDto?
    ensures Choose(abi, false, dto) ==
      UriMint(abi, dto, DataMint(abi, dto, SafeUriMint(abi, dto, BareMint(abi, dto))))
  {
    var table := DynamicMethods721(OpMint);
    ChoiceByPriority(abi, false, dto);
    UriMints(abi, dto, table);
    DataMints(abi, dto, table);
    SafeUriMints(abi, dto, table);
    BareMints(abi, dto, table);
  }

  /** A mint with a URI is served by the method for that if the ABI has it and the contract chooses the
      index; a request with an index is then refused, whatever else the ABI has. */
  lemma UriMintDecides(abi: seq<AbiMethod>, dto: Dto)
    requires dto.MintDto? && Named(abi, MintWithURI, [Address, Bytes, Text]).Some?
    ensures Choose(abi, false, dto) ==
      if One(dto.amount) && dto.tokenIndex.None?
      then Chosen(Named(abi, MintWithURI, [Address, Bytes, Text]).value,
                  [Str(dto.to), Str(EncodeHex(dto.data.GetOr(""))), Str(dto.uri.GetOr(""))])
      else Failed
  {
    NonfungibleMint(abi, dto);
  }
}
