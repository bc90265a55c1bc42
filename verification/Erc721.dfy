/** An EIP-721 ledger, the methods the connector may call on it, and the sample contract
    `ERC721WithData` over it. */
module Erc721 {
  import opened Js
  import opened Utf8
  import opened Decimal
  import opened MethodTables
  import opened Calls

  datatype Ledger = Ledger(owners: map<nat, string>, approvals: map<nat, string>, operators: set<(string, string)>)
  {
    function OwnerOf(id: nat): string {
      if id in owners then owners[id] else ZERO_ADDRESS
    }

    function Approved(id: nat): string {
      if id in approvals then approvals[id] else ZERO_ADDRESS
    }
  }

  /** A contract: its ledger, the URIs stored for its tokens, the next index it assigns, its owner,
      and what a token's URI is made of if none is given. */
  datatype Contract = Contract(ledger: Ledger, uris: map<nat, string>, nextTokenId: nat, owner: string, baseUri: string)

  function Deployed(deployer: string, baseUri: string): Contract {
    Contract(Ledger(map[], map[], {}), map[], 1, deployer, baseUri)
  }

  datatype Log =
    | TransferLog(from: string, to: string, id: nat)
    | ApprovalLog(owner: string, approved: string, id: nat)
    | ApprovalForAllLog(owner: string, operator: string, approval: bool)

  datatype Outcome = Done(contract: Contract, log: Log) | Reverted

  // ---------------------------------------------------------------- inherited behaviour

  predicate Authorized(l: Ledger, holder: string, spender: string, id: nat) {
    && holder != ZERO_ADDRESS && spender != ZERO_ADDRESS
    && (holder == spender || (holder, spender) in l.operators || l.Approved(id) == spender)
  }

  /** Token `id` goes to `to`, whoever had it; a nonzero `auth` must be allowed to do this. */
  function Update(c: Contract, to: string, id: nat, auth: string): Outcome {
    var holder := c.ledger.OwnerOf(id);
    if auth != ZERO_ADDRESS && !Authorized(c.ledger, holder, auth, id) then Reverted
    else
      var cleared := if holder != ZERO_ADDRESS then c.ledger.(approvals := c.ledger.approvals - {id}) else c.ledger;
      var moved := cleared.(owners := if to == ZERO_ADDRESS then cleared.owners - {id} else cleared.owners[id := to]);
      Done(c.(ledger := moved), TransferLog(holder, to, id))
  }

  function CreateToken(c: Contract, to: string, id: nat): Outcome {
    if to == ZERO_ADDRESS || c.ledger.OwnerOf(id) != ZERO_ADDRESS then Reverted else Update(c, to, id, ZERO_ADDRESS)
  }

  function BurnToken(c: Contract, id: nat, auth: string): Outcome {
    if c.ledger.OwnerOf(id) == ZERO_ADDRESS then Reverted else Update(c, ZERO_ADDRESS, id, auth)
  }

  function TransferToken(c: Contract, sender: string, from: string, to: string, id: nat): Outcome {
    if to == ZERO_ADDRESS || c.ledger.OwnerOf(id) != from then Reverted else Update(c, to, id, sender)
  }

  function ApproveToken(c: Contract, sender: string, to: string, id: nat): Outcome {
    var holder := c.ledger.OwnerOf(id);
    if holder == ZERO_ADDRESS || (holder != sender && (holder, sender) !in c.ledger.operators) then Reverted
    else Done(c.(ledger := c.ledger.(approvals := c.ledger.approvals[id := to])), ApprovalLog(holder, to, id))
  }

  function ApproveAll(c: Contract, sender: string, operator: string, approved: bool): Outcome {
    if operator == ZERO_ADDRESS then Reverted
    else
      var pair := (sender, operator);
      var operators := if approved then c.ledger.operators + {pair} else c.ledger.operators - {pair};
      Done(c.(ledger := c.ledger.(operators := operators)), ApprovalForAllLog(sender, operator, approved))
  }

  // ---------------------------------------------------------------- minting, by the contract's owner

  /** No URI stands for one made of the base and the index. */
  function UriFor(c: Contract, id: nat, uri: string): string {
    if uri == "" then c.baseUri + ToDec(id) else uri
  }

  function MintToken(c: Contract, to: string, id: nat, uri: string): Outcome {
    match CreateToken(c, to, id)
    case Done(c', log) => Done(c'.(uris := c'.uris[id := UriFor(c, id, uri)]), log)
    case Reverted => Reverted
  }

  /** The index is the contract's next one. */
  function MintNext(c: Contract, sender: string, to: string, uri: string): Outcome {
    if sender != c.owner || c.nextTokenId >= UINT256_MAX then Reverted
    else MintToken(c.(nextTokenId := c.nextTokenId + 1), to, c.nextTokenId, uri)
  }

  /** The index is the caller's. */
  function MintAt(c: Contract, sender: string, to: string, id: nat, uri: string): Outcome {
    if sender != c.owner then Reverted else MintToken(c, to, id, uri)
  }

  // ---------------------------------------------------------------- when calls succeed

  predicate MayMint(c: Contract, sender: string, to: string, id: nat) {
    sender == c.owner && to != ZERO_ADDRESS && c.ledger.OwnerOf(id) == ZERO_ADDRESS
  }

  predicate MayMintNext(c: Contract, sender: string, to: string) {
    MayMint(c, sender, to, c.nextTokenId) && c.nextTokenId < UINT256_MAX
  }

  predicate MayMove(c: Contract, sender: string, from: string, to: string, id: nat) {
    && to != ZERO_ADDRESS && c.ledger.OwnerOf(id) == from
    && (sender == ZERO_ADDRESS || Authorized(c.ledger, from, sender, id))
  }

  predicate MayApprove(c: Contract, sender: string, id: nat) {
    var holder := c.ledger.OwnerOf(id);
    holder != ZERO_ADDRESS && (holder == sender || (holder, sender) in c.ledger.operators)
  }

  // ---------------------------------------------------------------- dispatch

  /** A URI is a method's last argument, if it has one. */
  function UriArg(v: seq<Value>): string {
    if v != [] && v[|v| - 1].TextValue? then v[|v| - 1].text else ""
  }

  function RunMint(c: Contract, sender: string, name: MethodName, kinds: seq<AbiType>, v: seq<Value>): Outcome
    requires Typed(kinds, v)
  {
    match name
    case MintWithURI =>
      if kinds == [Address, Bytes, Text] then MintNext(c, sender, v[0].address, UriArg(v))
      else if kinds == [Address, Uint256, Bytes, Text] then MintAt(c, sender, v[0].address, v[1].n, UriArg(v))
      else Reverted
    case MintWithData =>
      if kinds == [Address, Bytes] then MintNext(c, sender, v[0].address, "")
      else if kinds == [Address, Uint256, Bytes] then MintAt(c, sender, v[0].address, v[1].n, "")
      else Reverted
    case SafeMint =>
      if kinds == [Address, Text] || kinds == [Address] then MintNext(c, sender, v[0].address, UriArg(v))
      else if kinds == [Address, Uint256, Text] || kinds == [Address, Uint256]
      then MintAt(c, sender, v[0].address, v[1].n, UriArg(v))
      else Reverted
    case Mint =>
      if kinds == [Address, Uint256] then MintAt(c, sender, v[0].address, v[1].n, "") else Reverted
    case _ => Reverted
  }

  /** Burning with an address checks that the caller named itself, not that it holds the token;
      burning without one checks the caller's rights to the token. */
  function RunBurn(c: Contract, sender: string, name: MethodName, kinds: seq<AbiType>, v: seq<Value>): Outcome
    requires Typed(kinds, v)
  {
    if (name == BurnWithData && kinds == [Address, Uint256, Bytes]) || (name == Burn && kinds == [Address, Uint256])
    then if v[0].address == sender then BurnToken(c, v[1].n, ZERO_ADDRESS) else Reverted
    else if name == Burn && kinds == [Uint256] then BurnToken(c, v[0].n, sender)
    else Reverted
  }

  function RunTransfer(c: Contract, sender: string, name: MethodName, kinds: seq<AbiType>, v: seq<Value>): Outcome
    requires Typed(kinds, v)
  {
    if (name in {TransferWithData, SafeTransferFrom} && kinds == [Address, Address, Uint256, Bytes])
      || (name == SafeTransferFrom && kinds == [Address, Address, Uint256])
    then TransferToken(c, sender, v[0].address, v[1].address, v[2].n)
    else Reverted
  }

  function RunApproval(c: Contract, sender: string, name: MethodName, kinds: seq<AbiType>, v: seq<Value>): Outcome
    requires Typed(kinds, v)
  {
    match name
    case ApproveWithData =>
      if kinds == [Address, Uint256, Bytes] then ApproveToken(c, sender, v[0].address, v[1].n) else Reverted
    case Approve =>
      if kinds == [Address, Uint256] then ApproveToken(c, sender, v[0].address, v[1].n) else Reverted
    case SetApprovalForAllWithData =>
      if kinds == [Address, Boolean, Bytes] then ApproveAll(c, sender, v[0].address, v[1].b) else Reverted
    case SetApprovalForAll =>
      if kinds == [Address, Boolean] then ApproveAll(c, sender, v[0].address, v[1].b) else Reverted
    case _ => Reverted
  }

  function Run(c: Contract, sender: string, name: MethodName, kinds: seq<AbiType>, v: seq<Value>): Outcome
    requires Typed(kinds, v)
  {
    match name
    case MintWithURI | MintWithData | SafeMint | Mint => RunMint(c, sender, name, kinds, v)
    case BurnWithData | Burn => RunBurn(c, sender, name, kinds, v)
    case TransferWithData | SafeTransferFrom => RunTransfer(c, sender, name, kinds, v)
    case _ => RunApproval(c, sender, name, kinds, v)
  }

  function Settled(c: Contract, outcome: Outcome): (Contract, Option<Log>) {
    if outcome.Done? then (outcome.contract, Some(outcome.log)) else (c, None)
  }

  function Called(c: Contract, sender: string, name: MethodName, kinds: seq<AbiType>, v: seq<Value>):
      (Contract, Option<Log>)
    requires Typed(kinds, v)
  {
    Settled(c, Run(c, sender, name, kinds, v))
  }

  // ---------------------------------------------------------------- the sample contract

  class ERC721WithData {
    var ledger: Ledger
    var tokenURIs: map<nat, string>
    var nextTokenId: nat
    const owner: string
    const baseTokenURI: string

    function State(): Contract
      reads this
    {
      Contract(ledger, tokenURIs, nextTokenId, owner, baseTokenURI)
    }

    constructor (deployer: string, baseUri: string)
      ensures State() == Deployed(deployer, baseUri)
    {
      ledger := Ledger(map[], map[], {});
      tokenURIs := map[];
      nextTokenId := 1;
      owner := deployer;
      baseTokenURI := baseUri;
    }

    method Settle(before: Contract, outcome: Outcome) returns (log: Option<Log>)
      requires before.owner == owner && before.baseUri == baseTokenURI
      requires outcome.Done? ==> outcome.contract.owner == owner && outcome.contract.baseUri == baseTokenURI
      modifies this
      ensures (State(), log) == Settled(before, outcome)
    {
      var after := if outcome.Done? then outcome.contract else before;
      ledger := after.ledger;
      tokenURIs := after.uris;
      nextTokenId := after.nextTokenId;
      log := if outcome.Done? then Some(outcome.log) else None;
    }

    method MintWithData(sender: string, to: string, data: seq<Byte>) returns (log: Option<Log>)
      modifies this
      ensures (State(), log) == Called(old(State()), sender, MethodName.MintWithData, [Address, Bytes],
        [AddressValue(to), BytesValue(data)])
      ensures log.Some? <==> MayMintNext(old(State()), sender, to)
    {
      var before := State();
      if sender != owner || nextTokenId >= UINT256_MAX {
        return None;
      }
      var tokenId := nextTokenId;
      nextTokenId := nextTokenId + 1;
      log := Settle(before, CreateToken(State(), to, tokenId));
      if log.Some? {
        tokenURIs := tokenURIs[tokenId := baseTokenURI + ToDec(tokenId)];
      }
    }

    method MintWithURI(sender: string, to: string, data: seq<Byte>, tokenURI: string) returns (log: Option<Log>)
      modifies this
      ensures (State(), log) == Called(old(State()), sender, MethodName.MintWithURI, [Address, Bytes, Text],
        [AddressValue(to), BytesValue(data), TextValue(tokenURI)])
      ensures log.Some? <==> MayMintNext(old(State()), sender, to)
    {
      var before := State();
      if sender != owner || nextTokenId >= UINT256_MAX {
        return None;
      }
      var tokenId := nextTokenId;
      nextTokenId := nextTokenId + 1;
      log := Settle(before, CreateToken(State(), to, tokenId));
      if log.Some? {
        if |tokenURI| == 0 {
          tokenURIs := tokenURIs[tokenId := baseTokenURI + ToDec(tokenId)];
        } else {
          tokenURIs := tokenURIs[tokenId := tokenURI];
        }
      }
    }

    method TransferWithData(sender: string, from: string, to: string, tokenId: nat, data: seq<Byte>)
      returns (log: Option<Log>)
      modifies this
      ensures (State(), log) == Called(old(State()), sender, MethodName.TransferWithData,
        [Address, Address, Uint256, Bytes], [AddressValue(from), AddressValue(to), UintValue(tokenId), BytesValue(data)])
      ensures log.Some? <==> MayMove(old(State()), sender, from, to, tokenId)
    {
      log := Settle(State(), TransferToken(State(), sender, from, to, tokenId));
    }

    method BurnWithData(sender: string, from: string, tokenId: nat, data: seq<Byte>) returns (log: Option<Log>)
      modifies this
      ensures (State(), log) == Called(old(State()), sender, MethodName.BurnWithData, [Address, Uint256, Bytes],
        [AddressValue(from), UintValue(tokenId), BytesValue(data)])
      ensures log.Some? <==> from == sender && old(State()).ledger.OwnerOf(tokenId) != ZERO_ADDRESS
    {
      if from != sender {
        log := None;
      } else {
        log := Settle(State(), BurnToken(State(), tokenId, ZERO_ADDRESS));
      }
    }

    method ApproveWithData(sender: string, to: string, tokenId: nat, data: seq<Byte>) returns (log: Option<Log>)
      modifies this
      ensures (State(), log) == Called(old(State()), sender, MethodName.ApproveWithData, [Address, Uint256, Bytes],
        [AddressValue(to), UintValue(tokenId), BytesValue(data)])
      ensures log.Some? <==> MayApprove(old(State()), sender, tokenId)
    {
      log := Settle(State(), ApproveToken(State(), sender, to, tokenId));
    }

    method SetApprovalForAllWithData(sender: string, operator: string, approved: bool, data: seq<Byte>)
      returns (log: Option<Log>)
      modifies this
      ensures (State(), log) == Called(old(State()), sender, MethodName.SetApprovalForAllWithData,
        [Address, Boolean, Bytes], [AddressValue(operator), BoolValue(approved), BytesValue(data)])
      ensures log.Some? <==> operator != ZERO_ADDRESS
    {
      log := Settle(State(), ApproveAll(State(), sender, operator, approved));
    }
  }
}
