/** Keeping token owners from the connector's messages is keeping them from the chain's own logs. */
module Replay721 {
  import opened Js
  import opened Decimal
  import opened MethodTables
  import AbiMapper
  import opened Calls
  import opened Erc721
  import opened Erc721Meaning
  import opened Names
  import opened Listener
  import RoundTrip721

  /** Who owns what; unowned tokens are absent. */
  type Owners = map<nat, string>

  function Of(o: Owners, id: nat): string {
    if id in o then o[id] else ZERO_ADDRESS
  }

  // ---------------------------------------------------------------- the chain's side

  function ReplayLog(o: Owners, log: Log): Owners {
    match log
    case TransferLog(_, to, id) => if to == ZERO_ADDRESS then o - {id} else o[id := to]
    case _ => o
  }

  function ReplayLogs(o: Owners, logs: seq<Log>): Owners {
    if logs == [] then o else ReplayLog(ReplayLogs(o, logs[..|logs| - 1]), logs[|logs| - 1])
  }

  /** Every transfer starts at the token's owner. */
  predicate Consistent(o: Owners, logs: seq<Log>) {
    logs == [] || (
      var rest, last := logs[..|logs| - 1], logs[|logs| - 1];
      Consistent(o, rest) && (last.TransferLog? ==> last.from == Of(ReplayLogs(o, rest), last.id)))
  }

  // ---------------------------------------------------------------- the listener's side

  function IndexOf(common: Common): Option<nat> {
    if common.tokenIndex.Str? then ParseDec(common.tokenIndex.s) else None
  }

  /** What a client does with a message. */
  function Consume(o: Owners, h: Handled): Owners {
    match h
    case Emitted(TokenMint(common, to)) => if IndexOf(common).Some? then o[IndexOf(common).value := TextOf(to)] else o
    case Emitted(TokenBurn(common, _)) => if IndexOf(common).Some? then o - {IndexOf(common).value} else o
    case Emitted(TokenTransfer(common, _, to)) => if IndexOf(common).Some? then o[IndexOf(common).value := TextOf(to)] else o
    case _ => o
  }

  function ConsumeAll(o: Owners, deliveries: seq<Delivery>): Owners {
    if |deliveries| == 0 then o
    else Consume(ConsumeAll(o, deliveries[..|deliveries| - 1]), HandledAs(deliveries[|deliveries| - 1]))
  }

  predicate NonfungibleName(subName: string) {
    var u := UnpackSubscriptionName(subName);
    u.Parsed? && u.name.poolLocator.Some? && OfType(u.name.poolLocator.value, NONFUNGIBLE)
  }

  /** `d` delivers `log` under one of the pool's subscriptions. */
  predicate Delivers(d: Delivery, log: Log) {
    && NonfungibleName(d.subName) && EventId(d.event).Some?
    && TrimSignature(d.event.signature) == RoundTrip721.SignatureOf(log) && d.event.data == RoundTrip721.OutputsOf(log)
  }

  /** Every log is delivered, in order. Which subscriptions deliver them does not matter. */
  predicate DeliversAll(deliveries: seq<Delivery>, logs: seq<Log>) {
    |deliveries| == |logs| && forall i :: 0 <= i < |logs| ==> Delivers(deliveries[i], logs[i])
  }

  lemma IndexIsToken(d: Delivery, name: SubscriptionName, id: nat)
    requires name.poolLocator.Some? && OfType(name.poolLocator.value, NONFUNGIBLE)
    requires EventId(d.event).Some? && d.event.data.tokenId == Str(ToDec(id))
    ensures IndexOf(CommonOf(d.uris, name, d.event)) == Some(id)
  {
    DecRoundTrip(id);
  }

  lemma ConsumesMessage(o: Owners, h: Handled, common: Common, from: string, to: string, id: nat)
    requires IndexOf(common) == Some(id)
    requires h == (
      if from == ZERO_ADDRESS && to == ZERO_ADDRESS then Nothing
      else if from == ZERO_ADDRESS then Emitted(TokenMint(common, Str(to)))
      else if to == ZERO_ADDRESS then Emitted(TokenBurn(common, Str(from)))
      else Emitted(TokenTransfer(common, Str(from), Str(to))))
    ensures Consume(o, h) == ReplayLog(o, TransferLog(from, to, id)) <==>
      !(from == ZERO_ADDRESS && to == ZERO_ADDRESS && id in o)
  {
    if from == ZERO_ADDRESS && to == ZERO_ADDRESS && id in o {
      assert id !in o - {id};
    }
  }

  lemma ApprovalKeeps(o: Owners, d: Delivery, log: Log)
    requires Delivers(d, log) && !log.TransferLog?
    ensures Consume(o, HandledAs(d)) == o
  {
    Dispatched(d.uris, d.subName, d.event);
  }

  /** One log: message and log say the same, except that a transfer from nobody to nobody is dropped
      while the log un-owns the token. */
  lemma ConsumesLogIff(o: Owners, d: Delivery, log: Log)
    requires Delivers(d, log)
    ensures Consume(o, HandledAs(d)) == ReplayLog(o, log) <==>
      !(log.TransferLog? && log.from == ZERO_ADDRESS && log.to == ZERO_ADDRESS && log.id in o)
  {
    var name := UnpackSubscriptionName(d.subName).name;
    if log.TransferLog? {
      IndexIsToken(d, name, log.id);
      if log.from == ZERO_ADDRESS && log.to == ZERO_ADDRESS {
        NobodyDropped(d.uris, d.subName, name, d.event);
      } else {
        TransferDecodes(d.uris, d.subName, name, d.event, log.from, log.to);
      }
      ConsumesMessage(o, HandledAs(d), CommonOf(d.uris, name, d.event), log.from, log.to, log.id);
    } else {
      ApprovalKeeps(o, d, log);
    }
  }

  ghost predicate NobodyAbsent(o: Owners) {
    forall id: nat :: id in o ==> o[id] != ZERO_ADDRESS
  }

  lemma StaysAbsent(o: Owners, log: Log)
    requires NobodyAbsent(o)
    ensures NobodyAbsent(ReplayLog(o, log))
  {
  }

  lemma RefinesLog(o: Owners, d: Delivery, log: Log)
    requires Delivers(d, log) && NobodyAbsent(o)
    requires log.TransferLog? ==> log.from == Of(o, log.id)
    ensures Consume(o, HandledAs(d)) == ReplayLog(o, log)
  {
    ConsumesLogIff(o, d, log);
  }

  /** For every sequence of logs in which tokens leave from where they are: the owners a client keeps
      from the messages are those the logs themselves give. */
  lemma {:induction false} MessagesRefineLogs(o: Owners, deliveries: seq<Delivery>, logs: seq<Log>)
    requires DeliversAll(deliveries, logs)
    requires NobodyAbsent(o) && Consistent(o, logs)
    ensures ConsumeAll(o, deliveries) == ReplayLogs(o, logs)
    ensures NobodyAbsent(ReplayLogs(o, logs))
  {
    if logs == [] {
    } else {
      var n := |logs| - 1;
      MessagesRefineLogs(o, deliveries[..n], logs[..n]);
      var before := ReplayLogs(o, logs[..n]);
      StaysAbsent(before, logs[n]);
      RefinesLog(before, deliveries[n], logs[n]);
    }
  }

  // ---------------------------------------------------------------- a whole contract's life

  datatype Tx = Tx(sender: string, call: Call)

  function Contracts(c: Contract, txs: seq<Tx>): Contract {
    if txs == [] then c
    else
      var before, tx := Contracts(c, txs[..|txs| - 1]), txs[|txs| - 1];
      var r := RunCall(before, tx.sender, tx.call);
      if r.Done? then r.contract else before
  }

  function LogsOf(c: Contract, txs: seq<Tx>): seq<Log> {
    if txs == [] then []
    else
      var before, tx := Contracts(c, txs[..|txs| - 1]), txs[|txs| - 1];
      var r := RunCall(before, tx.sender, tx.call);
      LogsOf(c, txs[..|txs| - 1]) + if r.Done? then [r.log] else []
  }

  /** The log says everything that happened to the owners. */
  predicate Logged(c: Contract, r: Outcome) {
    r.Done? ==>
      && r.contract.ledger.owners == ReplayLog(c.ledger.owners, r.log)
      && (r.log.TransferLog? ==> r.log.from == c.ledger.OwnerOf(r.log.id))
  }

  lemma MintLogged(c: Contract, sender: string, name: MethodName, kinds: seq<AbiType>, v: seq<Value>)
    requires Typed(kinds, v)
    ensures Logged(c, RunMint(c, sender, name, kinds, v))
  {
  }

  lemma RunLogged(c: Contract, sender: string, name: MethodName, kinds: seq<AbiType>, v: seq<Value>)
    requires Typed(kinds, v)
    ensures Logged(c, Run(c, sender, name, kinds, v))
  {
    MintLogged(c, sender, name, kinds, v);
  }

  lemma {:induction false} LogsFollow(c: Contract, txs: seq<Tx>)
    ensures ReplayLogs(c.ledger.owners, LogsOf(c, txs)) == Contracts(c, txs).ledger.owners
    ensures Consistent(c.ledger.owners, LogsOf(c, txs))
  {
    if txs == [] {
    } else {
      var n := |txs| - 1;
      LogsFollow(c, txs[..n]);
      var before, tx, logs := Contracts(c, txs[..n]), txs[n], LogsOf(c, txs[..n]);
      var r := RunCall(before, tx.sender, tx.call);
      if r.Done? {
        RunLogged(before, tx.sender, tx.call.m.name.value, AbiMapper.Kinds(tx.call.m.inputs.value), tx.call.values);
        assert (logs + [r.log])[..|logs|] == logs;
      } else {
        assert LogsOf(c, txs) == logs;
      }
    }
  }

  /** From the contract's deployment on, whatever is called on it: a client that keeps owners from
      the connector's messages has every token's owner on the ledger. */
  lemma ClientsMirrorTheLedger(deployer: string, baseUri: string, txs: seq<Tx>, deliveries: seq<Delivery>)
    requires DeliversAll(deliveries, LogsOf(Deployed(deployer, baseUri), txs))
    ensures ConsumeAll(map[], deliveries) ==
      Contracts(Deployed(deployer, baseUri), txs).ledger.owners
  {
    var start := Deployed(deployer, baseUri);
    LogsFollow(start, txs);
    MessagesRefineLogs(map[], deliveries, LogsOf(start, txs));
  }
}
