/** An EIP-20 ledger, the methods the connector may call on it, and the sample contract
    `ERC20WithData` over it. Addresses are their canonical texts. */
module Erc20 {
  import opened Js
  import opened Utf8
  import opened MethodTables
  import opened Calls

  datatype Ledger = Ledger(balances: map<string, nat>, allowances: map<(string, string), nat>, supply: nat,
                           owner: string)
  {
    function Balance(a: string): nat {
      if a in balances then balances[a] else 0
    }

    function Allowed(holder: string, spender: string): nat {
      if (holder, spender) in allowances then allowances[(holder, spender)] else 0
    }
  }

  datatype Log =
    | TransferLog(from: string, to: string, value: nat)
    | ApprovalLog(owner: string, spender: string, value: nat)

  /** A call either happens whole, with its one event, or not at all. */
  datatype Outcome = Done(ledger: Ledger, log: Log) | Reverted

  // ---------------------------------------------------------------- inherited behaviour

  /** Moving value; the zero address stands for creation and destruction. */
  function Move(l: Ledger, from: string, to: string, value: nat): Outcome {
    if from == ZERO_ADDRESS && l.supply + value > UINT256_MAX then Reverted
    else if from != ZERO_ADDRESS && l.Balance(from) < value then Reverted
    else
      var taken := if from == ZERO_ADDRESS then l.(supply := l.supply + value)
        else l.(balances := l.balances[from := l.Balance(from) - value]);
      if to == ZERO_ADDRESS && taken.supply < value then Reverted
      else
        var given := if to == ZERO_ADDRESS then taken.(supply := taken.supply - value)
          else taken.(balances := taken.balances[to := taken.Balance(to) + value]);
        Done(given, TransferLog(from, to, value))
  }

  function TransferFunds(l: Ledger, from: string, to: string, value: nat): Outcome {
    if from == ZERO_ADDRESS || to == ZERO_ADDRESS then Reverted else Move(l, from, to, value)
  }

  function MintFunds(l: Ledger, sender: string, to: string, value: nat): Outcome {
    if sender != l.owner || to == ZERO_ADDRESS then Reverted else Move(l, ZERO_ADDRESS, to, value)
  }

  function BurnFunds(l: Ledger, from: string, value: nat): Outcome {
    if from == ZERO_ADDRESS then Reverted else Move(l, from, ZERO_ADDRESS, value)
  }

  function ApproveFunds(l: Ledger, holder: string, spender: string, value: nat): Outcome {
    if holder == ZERO_ADDRESS || spender == ZERO_ADDRESS then Reverted
    else Done(l.(allowances := l.allowances[(holder, spender) := value]), ApprovalLog(holder, spender, value))
  }

  /** What is left after spending; the unlimited allowance is not used up. */
  function Spent(l: Ledger, holder: string, spender: string, value: nat): Option<Ledger> {
    var current := l.Allowed(holder, spender);
    if current == UINT256_MAX then Some(l)
    else if current < value || holder == ZERO_ADDRESS || spender == ZERO_ADDRESS then None
    else Some(l.(allowances := l.allowances[(holder, spender) := current - value]))
  }

  function TransferFromFunds(l: Ledger, sender: string, from: string, to: string, value: nat): Outcome {
    match Spent(l, from, sender, value)
    case Some(spent) => TransferFunds(spent, from, to, value)
    case None => Reverted
  }

  function BurnFromFunds(l: Ledger, sender: string, from: string, value: nat): Outcome {
    match Spent(l, from, sender, value)
    case Some(spent) => BurnFunds(spent, from, value)
    case None => Reverted
  }

  // ---------------------------------------------------------------- when calls succeed

  predicate MayMove(l: Ledger, from: string, to: string, value: nat) {
    from != ZERO_ADDRESS && to != ZERO_ADDRESS && value <= l.Balance(from)
  }

  predicate MaySpend(l: Ledger, holder: string, spender: string, value: nat) {
    || l.Allowed(holder, spender) == UINT256_MAX
    || (value <= l.Allowed(holder, spender) && holder != ZERO_ADDRESS && spender != ZERO_ADDRESS)
  }

  predicate MayMint(l: Ledger, sender: string, to: string, value: nat) {
    sender == l.owner && to != ZERO_ADDRESS && l.supply + value <= UINT256_MAX
  }

  predicate MayBurn(l: Ledger, from: string, value: nat) {
    from != ZERO_ADDRESS && value <= l.Balance(from) && value <= l.supply
  }

  // ---------------------------------------------------------------- dispatch

  /** Running one of the methods the connector knows, identified by name and input types. */
  function Run(l: Ledger, sender: string, name: MethodName, kinds: seq<AbiType>, v: seq<Value>): Outcome
    requires Typed(kinds, v)
  {
    match name
    case ApproveWithData =>
      if kinds == [Address, Uint256, Bytes] then ApproveFunds(l, sender, v[0].address, v[1].n) else Reverted
    case Approve =>
      if kinds == [Address, Uint256] then ApproveFunds(l, sender, v[0].address, v[1].n) else Reverted
    case BurnWithData =>
      if kinds == [Address, Uint256, Bytes] && v[0].address == sender then BurnFunds(l, sender, v[1].n) else Reverted
    case Burn =>
      if kinds == [Uint256] then BurnFunds(l, sender, v[0].n)
      else if kinds == [Address, Uint256] && v[0].address == sender then BurnFunds(l, sender, v[1].n)
      else Reverted
    case BurnFrom =>
      if kinds == [Address, Uint256] then BurnFromFunds(l, sender, v[0].address, v[1].n) else Reverted
    case MintWithData =>
      if kinds == [Address, Uint256, Bytes] then MintFunds(l, sender, v[0].address, v[1].n) else Reverted
    case Mint =>
      if kinds == [Address, Uint256] then MintFunds(l, sender, v[0].address, v[1].n) else Reverted
    case TransferWithData =>
      if kinds != [Address, Address, Uint256, Bytes] then Reverted
      else if v[0].address == sender then TransferFunds(l, sender, v[1].address, v[2].n)
      else TransferFromFunds(l, sender, v[0].address, v[1].address, v[2].n)
    case Transfer =>
      if kinds == [Address, Uint256] then TransferFunds(l, sender, v[0].address, v[1].n) else Reverted
    case TransferFrom =>
      if kinds == [Address, Address, Uint256]
      then TransferFromFunds(l, sender, v[0].address, v[1].address, v[2].n)
      else Reverted
    case _ => Reverted
  }

  /** Ledger and event after an attempted call. */
  function Settled(l: Ledger, outcome: Outcome): (Ledger, Option<Log>) {
    if outcome.Done? then (outcome.ledger, Some(outcome.log)) else (l, None)
  }

  function Called(l: Ledger, sender: string, name: MethodName, kinds: seq<AbiType>, v: seq<Value>): (Ledger, Option<Log>)
    requires Typed(kinds, v)
  {
    Settled(l, Run(l, sender, name, kinds, v))
  }

  // ---------------------------------------------------------------- the sample contract

  class ERC20WithData {
    var ledger: Ledger

    constructor (deployer: string)
      ensures ledger == Ledger(map[], map[], 0, deployer)
    {
      ledger := Ledger(map[], map[], 0, deployer);
    }

    /** Takes over the outcome of inherited code: a revert leaves no trace. */
    method Settle(outcome: Outcome) returns (log: Option<Log>)
      modifies this
      ensures (ledger, log) == Settled(old(ledger), outcome)
    {
      log := None;
      if outcome.Done? {
        ledger := outcome.ledger;
        log := Some(outcome.log);
      }
    }

    method MintWithData(sender: string, to: string, amount: nat, data: seq<Byte>) returns (log: Option<Log>)
      modifies this
      ensures (ledger, log) == Called(old(ledger), sender, MethodName.MintWithData, [Address, Uint256, Bytes],
        [AddressValue(to), UintValue(amount), BytesValue(data)])
      ensures log.Some? <==> MayMint(old(ledger), sender, to, amount)
    {
      log := Settle(MintFunds(ledger, sender, to, amount));
    }

    method TransferWithData(sender: string, from: string, to: string, amount: nat, data: seq<Byte>)
      returns (log: Option<Log>)
      modifies this
      ensures (ledger, log) == Called(old(ledger), sender, MethodName.TransferWithData,
        [Address, Address, Uint256, Bytes], [AddressValue(from), AddressValue(to), UintValue(amount), BytesValue(data)])
      ensures log.Some? <==>
        MayMove(old(ledger), from, to, amount) && (from == sender || MaySpend(old(ledger), from, sender, amount))
      ensures from == sender ==> ledger.allowances == old(ledger).allowances
    {
      if from == sender {
        log := Settle(TransferFunds(ledger, sender, to, amount));
      } else {
        log := Settle(TransferFromFunds(ledger, sender, from, to, amount));
      }
    }

    method BurnWithData(sender: string, from: string, amount: nat, data: seq<Byte>) returns (log: Option<Log>)
      modifies this
      ensures (ledger, log) == Called(old(ledger), sender, MethodName.BurnWithData, [Address, Uint256, Bytes],
        [AddressValue(from), UintValue(amount), BytesValue(data)])
      ensures log.Some? <==> from == sender && MayBurn(old(ledger), from, amount)
    {
      if from != sender {
        log := Settle(Reverted);
      } else {
        log := Settle(BurnFunds(ledger, from, amount));
      }
    }

    method ApproveWithData(sender: string, spender: string, amount: nat, data: seq<Byte>) returns (log: Option<Log>)
      modifies this
      ensures (ledger, log) == Called(old(ledger), sender, MethodName.ApproveWithData, [Address, Uint256, Bytes],
        [AddressValue(spender), UintValue(amount), BytesValue(data)])
      ensures log.Some? <==> sender != ZERO_ADDRESS && spender != ZERO_ADDRESS
    {
      log := Settle(ApproveFunds(ledger, sender, spender, amount));
    }
  }
}
