/** The prioritized method tables of `erc20.ts` and `erc721.ts`: which contract methods can serve
    a token operation, and how a request becomes their parameters. */
module MethodTables {
  import opened Js
  import opened Hex
  import opened Decimal

  const UINT256_MAX: nat := 0xFFFF_FFFF_FFFF_FFFF_FFFF_FFFF_FFFF_FFFF_FFFF_FFFF_FFFF_FFFF_FFFF_FFFF_FFFF_FFFF
  function Repeat(n: nat, c: char): (s: string)
    ensures |s| == n && forall i :: 0 <= i < n ==> s[i] == c
  {
    seq(n, _ => c)
  }

  const ZERO_ADDRESS := "0x" + Repeat(40, '0')

  /** ABI types by name; those no table uses are `OtherType`. */
  datatype AbiType = Address | Uint256 | Bytes | Boolean | Text | OtherType(name: string)

  /** Method names by what the tables use; any other name is `OtherName`. */
  datatype MethodName =
    | Approve | ApproveWithData | SetApprovalForAll | SetApprovalForAllWithData
    | Burn | BurnFrom | BurnWithData
    | Mint | MintWithData | MintWithURI | SafeMint
    | Transfer | TransferFrom | TransferWithData | SafeTransferFrom
    | OtherName(name: string)

  /** A JavaScript value as a call parameter. */
  datatype Param = Str(s: string) | Bool(b: bool) | Undefined

  datatype TokenOperation = OpApproval | OpBurn | OpMint | OpTransfer

  /** The request bodies; `allowance` and the approval's `tokenIndex` sit in its `config`. */
  datatype Dto =
    | ApprovalDto(signer: string, operator: string, approved: bool, data: Option<string>,
                  allowance: Option<string>, tokenIndex: Option<string>)
    | BurnDto(signer: string, from: string, amount: Option<string>, tokenIndex: Option<string>, data: Option<string>)
    | MintDto(signer: string, to: string, amount: Option<string>, tokenIndex: Option<string>,
              uri: Option<string>, data: Option<string>)
    | TransferDto(signer: string, from: string, to: string, amount: Option<string>,
                  tokenIndex: Option<string>, data: Option<string>)

  function OperationOf(dto: Dto): TokenOperation {
    match dto
    case ApprovalDto(_, _, _, _, _, _) => OpApproval
    case BurnDto(_, _, _, _, _) => OpBurn
    case MintDto(_, _, _, _, _, _) => OpMint
    case TransferDto(_, _, _, _, _, _) => OpTransfer
  }

  /** The `map` closures of the tables, named after the parameters they build. */
  datatype Mapper =
    // ERC20
    | OperatorAllowanceData | OperatorAllowance
    | FromAmountData | SignerAmount | FromAmount
    | ToAmountData | ToAmount
    | FromToAmountData | SignerToAmount | FromToAmount
    // ERC721
    | IndexApprovalData | AllApprovalData | IndexApproval | AllApproval
    | FromIndexData | OnlyIndex | FromIndex
    | AutoDataUri | IndexDataUri | AutoData | IndexData | AutoUri | IndexUri | Auto | ToIndex
    | FromToIndexData | FromToIndex

  datatype MethodSignature = MethodSignature(name: MethodName, inputs: seq<AbiType>, map': Mapper)

  /** What a `map` closure does: parameters, `undefined`, or a BadRequestException. */
  datatype MapResult = Params(params: seq<Param>) | NotApplicable | BadRequest

  function DynamicMethods20(op: TokenOperation): seq<MethodSignature> {
    match op
    case OpApproval => [
      MethodSignature(ApproveWithData, [Address, Uint256, Bytes], OperatorAllowanceData),
      MethodSignature(Approve, [Address, Uint256], OperatorAllowance)]
    case OpBurn => [
      MethodSignature(BurnWithData, [Address, Uint256, Bytes], FromAmountData),
      MethodSignature(Burn, [Uint256], SignerAmount),
      MethodSignature(BurnFrom, [Address, Uint256], FromAmount),
      MethodSignature(Burn, [Address, Uint256], FromAmount)]
    case OpMint => [
      MethodSignature(MintWithData, [Address, Uint256, Bytes], ToAmountData),
      MethodSignature(Mint, [Address, Uint256], ToAmount)]
    case OpTransfer => [
      MethodSignature(TransferWithData, [Address, Address, Uint256, Bytes], FromToAmountData),
      MethodSignature(Transfer, [Address, Uint256], SignerToAmount),
      MethodSignature(TransferFrom, [Address, Address, Uint256], FromToAmount)]
  }

  function DynamicMethods721(op: TokenOperation): seq<MethodSignature> {
    match op
    case OpApproval => [
      MethodSignature(ApproveWithData, [Address, Uint256, Bytes], IndexApprovalData),
      MethodSignature(SetApprovalForAllWithData, [Address, Boolean, Bytes], AllApprovalData),
      MethodSignature(Approve, [Address, Uint256], IndexApproval),
      MethodSignature(SetApprovalForAll, [Address, Boolean], AllApproval)]
    case OpBurn => [
      MethodSignature(BurnWithData, [Address, Uint256, Bytes], FromIndexData),
      MethodSignature(Burn, [Uint256], OnlyIndex),
      MethodSignature(Burn, [Address, Uint256], FromIndex)]
    case OpMint => [
      MethodSignature(MintWithURI, [Address, Bytes, Text], AutoDataUri),
      MethodSignature(MintWithURI, [Address, Uint256, Bytes, Text], IndexDataUri),
      MethodSignature(MintWithData, [Address, Bytes], AutoData),
      MethodSignature(MintWithData, [Address, Uint256, Bytes], IndexData),
      MethodSignature(SafeMint, [Address, Text], AutoUri),
      MethodSignature(SafeMint, [Address, Uint256, Text], IndexUri),
      MethodSignature(SafeMint, [Address], Auto),
      MethodSignature(SafeMint, [Address, Uint256], ToIndex),
      MethodSignature(Mint, [Address, Uint256], ToIndex)]
    case OpTransfer => [
      MethodSignature(TransferWithData, [Address, Address, Uint256, Bytes], FromToIndexData),
      MethodSignature(SafeTransferFrom, [Address, Address, Uint256, Bytes], FromToIndexData),
      MethodSignature(SafeTransferFrom, [Address, Address, Uint256], FromToIndex)]
  }

  function DynamicMethods(isFungible: bool, op: TokenOperation): seq<MethodSignature> {
    if isFungible then DynamicMethods20(op) else DynamicMethods721(op)
  }

  function Opt(o: Option<string>): Param {
    match o
    case Some(s) => Str(s)
    case None => Undefined
  }

  function DataParam(dto: Dto): Param {
    Str(EncodeHex(dto.data.GetOr("")))
  }

  /** Revoking sets the allowance to zero; granting without naming one sets the greatest there is. */
  function Allowance(dto: Dto): string
    requires dto.ApprovalDto?
  {
    if !dto.approved then "0" else dto.allowance.GetOr(ToDec(UINT256_MAX))
  }

  function Approved(dto: Dto): Param
    requires dto.ApprovalDto?
  {
    Str(if dto.approved then dto.operator else ZERO_ADDRESS)
  }

  predicate AmountOk(dto: Dto)
    requires !dto.ApprovalDto?
  {
    dto.amount == None || dto.amount == Some("1")
  }

  predicate NoUri(dto: Dto)
    requires dto.MintDto?
  {
    dto.uri == None || dto.uri == Some("")
  }

  function Guarded(ok: bool, params: seq<Param>): MapResult {
    if ok then Params(params) else BadRequest
  }

  function Apply(m: Mapper, dto: Dto): MapResult {
    match dto
    case ApprovalDto(_, operator, approved, _, _, tokenIndex) => (
      match m
      case OperatorAllowanceData => Params([Str(operator), Str(Allowance(dto)), DataParam(dto)])
      case OperatorAllowance => Params([Str(operator), Str(Allowance(dto))])
      case IndexApprovalData =>
        if tokenIndex.Some? then Params([Approved(dto), Str(tokenIndex.value), DataParam(dto)]) else NotApplicable
      case AllApprovalData =>
        if tokenIndex.None? then Params([Str(operator), Bool(approved), DataParam(dto)]) else NotApplicable
      case IndexApproval =>
        if tokenIndex.Some? then Params([Approved(dto), Str(tokenIndex.value)]) else NotApplicable
      case AllApproval =>
        if tokenIndex.None? then Params([Str(operator), Bool(approved)]) else NotApplicable
      case _ => NotApplicable)
    case BurnDto(signer, from, amount, tokenIndex, _) => (
      match m
      case FromAmountData => Params([Str(from), Opt(amount), DataParam(dto)])
      case SignerAmount => if from == signer then Params([Opt(amount)]) else NotApplicable
      case FromAmount => Params([Str(from), Opt(amount)])
      case FromIndexData => Guarded(AmountOk(dto), [Str(from), Opt(tokenIndex), DataParam(dto)])
      case OnlyIndex => Guarded(AmountOk(dto), [Opt(tokenIndex)])
      case FromIndex => Guarded(AmountOk(dto), [Str(from), Opt(tokenIndex)])
      case _ => NotApplicable)
    case MintDto(_, to, amount, tokenIndex, uri, _) => (
      match m
      case ToAmountData => Params([Str(to), Opt(amount), DataParam(dto)])
      case ToAmount => Params([Str(to), Opt(amount)])
      case AutoDataUri => Guarded(AmountOk(dto) && tokenIndex.None?, [Str(to), DataParam(dto), Str(uri.GetOr(""))])
      case IndexDataUri => Guarded(AmountOk(dto), [Str(to), Opt(tokenIndex), DataParam(dto), Str(uri.GetOr(""))])
      case AutoData => Guarded(AmountOk(dto) && NoUri(dto) && tokenIndex.None?, [Str(to), DataParam(dto)])
      case IndexData => Guarded(AmountOk(dto) && NoUri(dto), [Str(to), Opt(tokenIndex), DataParam(dto)])
      case AutoUri => Guarded(AmountOk(dto) && tokenIndex.None?, [Str(to), Str(uri.GetOr(""))])
      case IndexUri => Guarded(AmountOk(dto), [Str(to), Opt(tokenIndex), Str(uri.GetOr(""))])
      case Auto => Guarded(AmountOk(dto) && NoUri(dto) && tokenIndex.None?, [Str(to)])
      case ToIndex => Guarded(AmountOk(dto) && NoUri(dto), [Str(to), Opt(tokenIndex)])
      case _ => NotApplicable)
    case TransferDto(signer, from, to, amount, tokenIndex, _) => (
      match m
      case FromToAmountData => Params([Str(from), Str(to), Opt(amount), DataParam(dto)])
      case SignerToAmount => if from == signer then Params([Str(to), Opt(amount)]) else NotApplicable
      case FromToAmount => Params([Str(from), Str(to), Opt(amount)])
      case FromToIndexData => Guarded(AmountOk(dto), [Str(from), Str(to), Opt(tokenIndex), DataParam(dto)])
      case FromToIndex => Guarded(AmountOk(dto), [Str(from), Str(to), Opt(tokenIndex)])
      case _ => NotApplicable)
  }

  // ---------------------------------------------------------------- typing

  /** The quantity a request carries for the uint256 slot of its method. */
  function Quantity(isFungible: bool, dto: Dto): Option<string> {
    if !isFungible then dto.tokenIndex
    else if dto.ApprovalDto? then Some(Allowance(dto))
    else dto.amount
  }

  /** A parameter fits its input: a flag where a bool is expected, the request's quantity (or nothing,
      when the request has none) where a uint256 is, its data where bytes are and its URI where text
      is. */
  predicate Fits(p: Param, t: AbiType, isFungible: bool, dto: Dto) {
    match t
    case Address => p.Str?
    case Boolean => p.Bool?
    case Uint256 => p == Opt(Quantity(isFungible, dto))
    case Bytes => p == DataParam(dto)
    case Text => dto.MintDto? && p == Str(dto.uri.GetOr(""))
    case OtherType(_) => false
  }

  predicate FitsAll(params: seq<Param>, inputs: seq<AbiType>, isFungible: bool, dto: Dto) {
    |params| == |inputs| && forall i :: 0 <= i < |params| ==> Fits(params[i], inputs[i], isFungible, dto)
  }

  ghost predicate WellTyped(s: MethodSignature, isFungible: bool, dto: Dto) {
    Apply(s.map', dto).Params? ==> FitsAll(Apply(s.map', dto).params, s.inputs, isFungible, dto)
  }

  lemma Approvals20(dto: Dto, i: nat)
    requires dto.ApprovalDto? && i < |DynamicMethods20(OpApproval)|
    ensures WellTyped(DynamicMethods20(OpApproval)[i], true, dto)
  {
  }

  lemma Burns20(dto: Dto, i: nat)
    requires dto.BurnDto? && i < |DynamicMethods20(OpBurn)|
    ensures WellTyped(DynamicMethods20(OpBurn)[i], true, dto)
  {
  }

  lemma Mints20(dto: Dto, i: nat)
    requires dto.MintDto? && i < |DynamicMethods20(OpMint)|
    ensures WellTyped(DynamicMethods20(OpMint)[i], true, dto)
  {
  }

  lemma Transfers20(dto: Dto, i: nat)
    requires dto.TransferDto? && i < |DynamicMethods20(OpTransfer)|
    ensures WellTyped(DynamicMethods20(OpTransfer)[i], true, dto)
  {
  }

  lemma Approvals721(dto: Dto, i: nat)
    requires dto.ApprovalDto? && i < |DynamicMethods721(OpApproval)|
    ensures WellTyped(DynamicMethods721(OpApproval)[i], false, dto)
  {
  }

  lemma Burns721(dto: Dto, i: nat)
    requires dto.BurnDto? && i < |DynamicMethods721(OpBurn)|
    ensures WellTyped(DynamicMethods721(OpBurn)[i], false, dto)
  {
  }

  lemma ExtensionMints721(dto: Dto, i: nat)
    requires dto.MintDto? && i < 4
    ensures WellTyped(DynamicMethods721(OpMint)[i], false, dto)
  {
  }

  lemma PlainMints721(dto: Dto, i: nat)
    requires dto.MintDto? && 4 <= i < |DynamicMethods721(OpMint)|
    ensures WellTyped(DynamicMethods721(OpMint)[i], false, dto)
  {
  }

  lemma Transfers721(dto: Dto, i: nat)
    requires dto.TransferDto? && i < |DynamicMethods721(OpTransfer)|
    ensures WellTyped(DynamicMethods721(OpTransfer)[i], false, dto)
  {
  }

  /** Every table entry builds parameters of its own signature. */
  lemma TablesWellTyped(isFungible: bool, dto: Dto, i: nat)
    requires i < |DynamicMethods(isFungible, OperationOf(dto))|
    ensures WellTyped(DynamicMethods(isFungible, OperationOf(dto))[i], isFungible, dto)
  {
    match (isFungible, OperationOf(dto))
    case (true, OpApproval) => Approvals20(dto, i);
    case (true, OpBurn) => Burns20(dto, i);
    case (true, OpMint) => Mints20(dto, i);
    case (true, OpTransfer) => Transfers20(dto, i);
    case (false, OpApproval) => Approvals721(dto, i);
    case (false, OpBurn) => Burns721(dto, i);
    case (false, OpMint) =>
      if i < 4 {
        ExtensionMints721(dto, i);
      } else {
        PlainMints721(dto, i);
      }
    case (false, OpTransfer) => Transfers721(dto, i);
  }

  /** What a mint entry accepts it can express: a URI needs a text input, an index a number. */
  ghost predicate Expresses(s: MethodSignature, dto: Dto) {
    Apply(s.map', dto).Params? && dto.MintDto? ==>
      (NoUri(dto) || Text in s.inputs) && (dto.tokenIndex.Some? ==> Uint256 in s.inputs)
  }

  lemma ExtensionMintsExpress(dto: Dto, i: nat)
    requires dto.MintDto? && i < 4
    ensures Expresses(DynamicMethods721(OpMint)[i], dto)
  {
  }

  lemma PlainMintsExpress(dto: Dto, i: nat)
    requires dto.MintDto? && 4 <= i < |DynamicMethods721(OpMint)|
    ensures Expresses(DynamicMethods721(OpMint)[i], dto)
  {
  }

  /** Nonfungible tokens move one at a time: an entry never accepts another amount. */
  lemma AmountChecked(dto: Dto, i: nat)
    requires !dto.ApprovalDto? && i < |DynamicMethods721(OperationOf(dto))|
    ensures Apply(DynamicMethods721(OperationOf(dto))[i].map', dto).Params? ==> AmountOk(dto)
  {
  }

  predicate Applies(isFungible: bool, dto: Dto, i: nat)
    requires i < |DynamicMethods(isFungible, OperationOf(dto))|
  {
    Apply(DynamicMethods(isFungible, OperationOf(dto))[i].map', dto) != NotApplicable
  }

  /** Among the entries that apply to a request, those that carry data come first. */
  lemma BytesFirst(isFungible: bool, dto: Dto, i: nat, j: nat)
    requires i < j < |DynamicMethods(isFungible, OperationOf(dto))|
    requires Applies(isFungible, dto, i) && Applies(isFungible, dto, j)
    requires Bytes in DynamicMethods(isFungible, OperationOf(dto))[j].inputs
    ensures Bytes in DynamicMethods(isFungible, OperationOf(dto))[i].inputs
  {
  }
}
