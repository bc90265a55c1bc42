/** Keeping balances from the connector's messages is keeping them from the chain's own logs. */
module Replay20 {
  import opened Js
  import opened Decimal
  import opened MethodTables
  import AbiMapper
  import opened Calls
  import opened Erc20
  import opened Erc20Meaning
  import opened Names
  import opened Listener
  import RoundTrip20

  type Balances = map<string, int>

  function Of(b: Balances, a: string): int {
    if a in b then b[a] else 0
  }

  function Add(b: Balances, a: string, n: int): Balances {
    b[a := Of(b, a) + n]
  }

  // ---------------------------------------------------------------- the chain's side

  function ReplayLog(b: Balances, log: Log): Balances {
    match log
    case ApprovalLog(_, _, _) => b
    case TransferLog(from, to, value) =>
      var taken := if from == ZERO_ADDRESS then b else Add(b, from, 0 - value);
      if to == ZERO_ADDRESS then taken else Add(taken, to, value)
  }

  function ReplayLogs(b: Balances, logs: seq<Log>): Balances {
    if logs == [] then b else ReplayLog(ReplayLogs(b, logs[..|logs| - 1]), logs[|logs| - 1])
  }

  // ---------------------------------------------------------------- the listener's side

  function AmountOf(common: Common): nat {
    if common.amount.Str? then ParseDec(common.amount.s).GetOr(0) else 0
  }

  /** What a client does with a message. */
  function Consume(b: Balances, h: Handled): Balances {
    match h
    case Emitted(TokenMint(common, to)) => Add(b, TextOf(to), AmountOf(common))
    case Emitted(TokenBurn(common, from)) => Add(b, TextOf(from), 0 - AmountOf(common))
    case Emitted(TokenTransfer(common, from, to)) =>
      Add(Add(b, TextOf(from), 0 - AmountOf(common)), TextOf(to), AmountOf(common))
    case _ => b
  }

  function ConsumeAll(b: Balances, deliveries: seq<Delivery>): Balances {
    if |deliveries| == 0 then b
    else Consume(ConsumeAll(b, deliveries[..|deliveries| - 1]), HandledAs(deliveries[|deliveries| - 1]))
  }

  predicate FungibleName(subName: string) {
    var u := UnpackSubscriptionName(subName);
    u.Parsed? && u.name.poolLocator.Some? && OfType(u.name.poolLocator.value, FUNGIBLE)
  }

  /** `d` delivers `log` under one of the pool's subscriptions. */
  predicate Delivers(d: Delivery, log: Log) {
    && FungibleName(d.subName) && EventId(d.event).Some?
    && TrimSignature(d.event.signature) == RoundTrip20.SignatureOf(log) && d.event.data == RoundTrip20.OutputsOf(log)
  }

  /** Every log is delivered, in order. Which subscriptions deliver them does not matter. */
  predicate DeliversAll(deliveries: seq<Delivery>, logs: seq<Log>) {
    |deliveries| == |logs| && forall i :: 0 <= i < |logs| ==> Delivers(deliveries[i], logs[i])
  }

  lemma AmountIsValue(d: Delivery, name: SubscriptionName, value: nat)
    requires name.poolLocator.Some? && OfType(name.poolLocator.value, FUNGIBLE)
    requires EventId(d.event).Some? && d.event.data.value == Str(ToDec(value))
    ensures AmountOf(CommonOf(d.uris, name, d.event)) == value
  {
    DecRoundTrip(value);
  }

  lemma ConsumesMessage(b: Balances, h: Handled, common: Common, from: string, to: string, value: nat)
    requires AmountOf(common) == value
    requires h == (
      if from == ZERO_ADDRESS && to == ZERO_ADDRESS then Nothing
      else if from == ZERO_ADDRESS then Emitted(TokenMint(common, Str(to)))
      else if to == ZERO_ADDRESS then Emitted(TokenBurn(common, Str(from)))
      else Emitted(TokenTransfer(common, Str(from), Str(to))))
    ensures Consume(b, h) == ReplayLog(b, TransferLog(from, to, value))
    ensures CreatedBy(TransferLog(from, to, value)) == MintedBy(h) - BurnedBy(h)
  {
  }

  lemma ConsumesTransfer(b: Balances, d: Delivery, from: string, to: string, value: nat)
    requires Delivers(d, TransferLog(from, to, value))
    ensures Consume(b, HandledAs(d)) == ReplayLog(b, TransferLog(from, to, value))
    ensures CreatedBy(TransferLog(from, to, value)) == MintedBy(HandledAs(d)) - BurnedBy(HandledAs(d))
  {
    var name := UnpackSubscriptionName(d.subName).name;
    AmountIsValue(d, name, value);
    var h := HandledAs(d);
    if from == ZERO_ADDRESS && to == ZERO_ADDRESS {
      NobodyDropped(d.uris, d.subName, name, d.event);
    } else {
      TransferDecodes(d.uris, d.subName, name, d.event, from, to);
    }
    ConsumesMessage(b, h, CommonOf(d.uris, name, d.event), from, to, value);
  }

  lemma ConsumesLog(b: Balances, d: Delivery, log: Log)
    requires Delivers(d, log)
    ensures Consume(b, HandledAs(d)) == ReplayLog(b, log)
  {
    var name := UnpackSubscriptionName(d.subName).name;
    match log
    case ApprovalLog(owner, spender, value) =>
      RoundTrip20.ApprovalDecodes(d.uris, d.subName, name, d.event, owner, spender, value);
    case TransferLog(from, to, value) =>
      ConsumesTransfer(b, d, from, to, value);
  }

  /** For every sequence of logs: the balances a client keeps from the messages are those the logs
      themselves give. A log from nobody to nobody is dropped, and changes nothing. */
  lemma {:induction false} MessagesRefineLogs(b: Balances, deliveries: seq<Delivery>, logs: seq<Log>)
    requires DeliversAll(deliveries, logs)
    ensures ConsumeAll(b, deliveries) == ReplayLogs(b, logs)
  {
    if logs == [] {
    } else {
      var n := |logs| - 1;
      MessagesRefineLogs(b, deliveries[..n], logs[..n]);
      ConsumesLog(ReplayLogs(b, logs[..n]), deliveries[n], logs[n]);
    }
  }

  // ---------------------------------------------------------------- supply

  function MintedBy(h: Handled): nat {
    if h.Emitted? && h.message.TokenMint? then AmountOf(h.message.common) else 0
  }

  function BurnedBy(h: Handled): nat {
    if h.Emitted? && h.message.TokenBurn? then AmountOf(h.message.common) else 0
  }

  function Minted(deliveries: seq<Delivery>): nat {
    if |deliveries| == 0 then 0
    else Minted(deliveries[..|deliveries| - 1]) + MintedBy(HandledAs(deliveries[|deliveries| - 1]))
  }

  function Burned(deliveries: seq<Delivery>): nat {
    if |deliveries| == 0 then 0
    else Burned(deliveries[..|deliveries| - 1]) + BurnedBy(HandledAs(deliveries[|deliveries| - 1]))
  }

  ghost function Total(b: Balances): int
    decreases |b|
  {
    if b == map[] then 0
    else
      var a :| a in b;
      b[a] + Total(b - {a})
  }

  lemma {:induction false} TotalWithout(b: Balances, a: string)
    requires a in b
    ensures Total(b) == b[a] + Total(b - {a})
    decreases |b|
  {
    var c :| c in b && Total(b) == b[c] + Total(b - {c});
    if c == a {
    } else {
      TotalWithout(b - {c}, a);
      TotalWithout(b - {a}, c);
      assert b - {c} - {a} == b - {a} - {c};
    }
  }

  lemma TotalAdd(b: Balances, a: string, n: int)
    ensures Total(Add(b, a, n)) == Total(b) + n
  {
    var added := Add(b, a, n);
    TotalWithout(added, a);
    assert added - {a} == b - {a};
    if a in b {
      TotalWithout(b, a);
    } else {
      assert b - {a} == b;
    }
  }

  lemma ConsumeTotal(b: Balances, h: Handled)
    ensures Total(Consume(b, h)) == Total(b) + MintedBy(h) - BurnedBy(h)
  {
    if h.Emitted? {
      match h.message
      case TokenMint(common, to) => TotalAdd(b, TextOf(to), AmountOf(common));
      case TokenBurn(common, from) => TotalAdd(b, TextOf(from), 0 - AmountOf(common));
      case TokenTransfer(common, from, to) =>
        TotalAdd(b, TextOf(from), 0 - AmountOf(common));
        TotalAdd(Add(b, TextOf(from), 0 - AmountOf(common)), TextOf(to), AmountOf(common));
      case TokenApproval(_, _, _, _, _, _, _, _, _) =>
    }
  }

  /** All balances together are what was minted less what was burned: transfers conserve. */
  lemma {:induction false} TotalIsMintedLessBurned(b: Balances, deliveries: seq<Delivery>)
    ensures Total(ConsumeAll(b, deliveries)) == Total(b) + Minted(deliveries) - Burned(deliveries)
  {
    if |deliveries| == 0 {
    } else {
      var n := |deliveries| - 1;
      TotalIsMintedLessBurned(b, deliveries[..n]);
      ConsumeTotal(ConsumeAll(b, deliveries[..n]), HandledAs(deliveries[n]));
    }
  }

  // ---------------------------------------------------------------- a whole ledger's life

  datatype Tx = Tx(sender: string, call: Call)

  /** The ledger after some transactions. */
  function Ledgers(l: Ledger, txs: seq<Tx>): Ledger {
    if txs == [] then l
    else
      var before, tx := Ledgers(l, txs[..|txs| - 1]), txs[|txs| - 1];
      var r := RunCall(before, tx.sender, tx.call);
      if r.Done? then r.ledger else before
  }

  /** The logs they leave. */
  function LogsOf(l: Ledger, txs: seq<Tx>): seq<Log> {
    if txs == [] then []
    else
      var before, tx := Ledgers(l, txs[..|txs| - 1]), txs[|txs| - 1];
      var r := RunCall(before, tx.sender, tx.call);
      LogsOf(l, txs[..|txs| - 1]) + if r.Done? then [r.log] else []
  }

  /** The log says everything that happened to the balances. */
  ghost predicate Logged(l: Ledger, r: Outcome) {
    r.Done? ==>
      if r.log.TransferLog? then Moved(l, r.ledger, r.log.from, r.log.to, r.log.value)
      else r.ledger.balances == l.balances && r.ledger.supply == l.supply
  }

  lemma MovedLogged(l: Ledger, r: Outcome, holder: string, spender: string, from: string, to: string, value: nat)
    requires MovedBy(l, r, holder, spender, from, to, value)
    ensures Logged(l, r)
  {
  }

  lemma TransfersLogged(l: Ledger, sender: string, from: string, to: string, value: nat)
    ensures Logged(l, TransferFunds(l, sender, to, value)) && Logged(l, TransferFromFunds(l, sender, from, to, value))
  {
    TransfersMove(l, sender, from, to, value);
    MovedLogged(l, TransferFunds(l, sender, to, value), sender, sender, sender, to, value);
    MovedLogged(l, TransferFromFunds(l, sender, from, to, value), from, sender, from, to, value);
  }

  lemma BurnsLogged(l: Ledger, sender: string, from: string, value: nat)
    ensures Logged(l, BurnFunds(l, sender, value)) && Logged(l, BurnFromFunds(l, sender, from, value))
  {
    BurnsMove(l, sender, from, value);
    MovedLogged(l, BurnFunds(l, sender, value), sender, sender, sender, ZERO_ADDRESS, value);
    MovedLogged(l, BurnFromFunds(l, sender, from, value), from, sender, from, ZERO_ADDRESS, value);
  }

  lemma RunLogged(l: Ledger, sender: string, name: MethodName, kinds: seq<AbiType>, v: seq<Value>)
    requires Typed(kinds, v)
    ensures Logged(l, Run(l, sender, name, kinds, v))
  {
    match name
    case BurnWithData =>
      if kinds == [Address, Uint256, Bytes] {
        BurnsLogged(l, sender, sender, v[1].n);
      }
    case Burn =>
      if kinds == [Uint256] {
        BurnsLogged(l, sender, sender, v[0].n);
      } else if kinds == [Address, Uint256] {
        BurnsLogged(l, sender, sender, v[1].n);
      }
    case BurnFrom =>
      if kinds == [Address, Uint256] {
        BurnsLogged(l, sender, v[0].address, v[1].n);
      }
    case MintWithData | Mint =>
      if kinds in {[Address, Uint256, Bytes], [Address, Uint256]} {
        MoveMoves(l, ZERO_ADDRESS, v[0].address, v[1].n);
      }
    case TransferWithData | TransferFrom =>
      if kinds in {[Address, Address, Uint256, Bytes], [Address, Address, Uint256]} {
        TransfersLogged(l, sender, v[0].address, v[1].address, v[2].n);
      }
    case Transfer =>
      if kinds == [Address, Uint256] {
        TransfersLogged(l, sender, sender, v[0].address, v[1].n);
      }
    case _ =>
  }

  ghost predicate Mirrors(l: Ledger, b: Balances) {
    forall a: string {:trigger l.Balance(a)} :: l.Balance(a) == Of(b, a)
  }

  lemma MirrorStep(l: Ledger, b: Balances, r: Outcome)
    requires Mirrors(l, b) && Logged(l, r) && r.Done?
    ensures Mirrors(r.ledger, ReplayLog(b, r.log))
  {
    forall a: string ensures r.ledger.Balance(a) == Of(ReplayLog(b, r.log), a) {
      assert l.Balance(a) == Of(b, a);
    }
  }

  lemma {:induction false} LogsMirror(l: Ledger, b: Balances, txs: seq<Tx>)
    requires Mirrors(l, b)
    ensures Mirrors(Ledgers(l, txs), ReplayLogs(b, LogsOf(l, txs)))
  {
    if txs == [] {
    } else {
      var n := |txs| - 1;
      LogsMirror(l, b, txs[..n]);
      var before, tx, logs := Ledgers(l, txs[..n]), txs[n], LogsOf(l, txs[..n]);
      var r := RunCall(before, tx.sender, tx.call);
      if r.Done? {
        RunLogged(before, tx.sender, tx.call.m.name.value, AbiMapper.Kinds(tx.call.m.inputs.value), tx.call.values);
        MirrorStep(before, ReplayLogs(b, logs), r);
        assert (logs + [r.log])[..|logs|] == logs;
      } else {
        assert LogsOf(l, txs) == logs;
      }
    }
  }

  function CreatedBy(log: Log): int {
    if log.ApprovalLog? then 0
    else (if log.from == ZERO_ADDRESS then log.value else 0) - (if log.to == ZERO_ADDRESS then log.value else 0)
  }

  /** What logs mint less what they burn. */
  function Created(logs: seq<Log>): int {
    if logs == [] then 0 else Created(logs[..|logs| - 1]) + CreatedBy(logs[|logs| - 1])
  }

  lemma CreatedSnoc(logs: seq<Log>, log: Log)
    ensures Created(logs + [log]) == Created(logs) + CreatedBy(log)
    ensures logs + [] == logs
  {
    assert (logs + [log])[..|logs|] == logs;
  }

  lemma {:induction false} SupplyIsCreated(l: Ledger, txs: seq<Tx>)
    ensures Ledgers(l, txs).supply == l.supply + Created(LogsOf(l, txs))
  {
    if txs == [] {
    } else {
      var n := |txs| - 1;
      SupplyIsCreated(l, txs[..n]);
      var before, tx, logs := Ledgers(l, txs[..n]), txs[n], LogsOf(l, txs[..n]);
      var r := RunCall(before, tx.sender, tx.call);
      CreatedSnoc(logs, if r.Done? then r.log else TransferLog("", "", 0));
      if r.Done? {
        RunLogged(before, tx.sender, tx.call.m.name.value, AbiMapper.Kinds(tx.call.m.inputs.value), tx.call.values);
      }
    }
  }

  lemma CreatedByLog(d: Delivery, log: Log)
    requires Delivers(d, log)
    ensures CreatedBy(log) == MintedBy(HandledAs(d)) - BurnedBy(HandledAs(d))
  {
    var name := UnpackSubscriptionName(d.subName).name;
    match log
    case ApprovalLog(owner, spender, value) =>
      RoundTrip20.ApprovalDecodes(d.uris, d.subName, name, d.event, owner, spender, value);
    case TransferLog(from, to, value) =>
      ConsumesTransfer(map[], d, from, to, value);
  }

  lemma {:induction false} CreatedIsMintedLessBurned(deliveries: seq<Delivery>, logs: seq<Log>)
    requires DeliversAll(deliveries, logs)
    ensures Created(logs) == Minted(deliveries) - Burned(deliveries)
  {
    if logs == [] {
    } else {
      var n := |logs| - 1;
      CreatedIsMintedLessBurned(deliveries[..n], logs[..n]);
      CreatedByLog(deliveries[n], logs[n]);
    }
  }

  /** From the contract's deployment on, whatever is called on it: a client that keeps balances from
      the connector's messages has every holder's balance on the ledger, and the supply is what the
      messages minted less what they burned. */
  lemma ClientsMirrorTheLedger(deployer: string, txs: seq<Tx>, deliveries: seq<Delivery>, a: string)
    requires DeliversAll(deliveries, LogsOf(Ledger(map[], map[], 0, deployer), txs))
    ensures var l := Ledgers(Ledger(map[], map[], 0, deployer), txs);
      && l.Balance(a) == Of(ConsumeAll(map[], deliveries), a)
      && l.supply == Minted(deliveries) - Burned(deliveries)
  {
    var start := Ledger(map[], map[], 0, deployer);
    LogsMirror(start, map[], txs);
    SupplyIsCreated(start, txs);
    MessagesRefineLogs(map[], deliveries, LogsOf(start, txs));
    CreatedIsMintedLessBurned(deliveries, LogsOf(start, txs));
  }
}
