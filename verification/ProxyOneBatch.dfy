/** The setting the protocol is built for: one active namespace, starts that do not overlap, an
    empty queue when a socket opens, and an upstream that keeps one batch outstanding. There,
    deliveries and verdicts strictly alternate. */
module ProxyOneBatch {
  import opened Js
  import opened ProxyState
  import opened ProxyLog
  import opened ProxyRuns
  import opened ProxyDelivery

  /** The upstream's view: a batch is outstanding from its push to its verdict, and a new
      connection starts afresh. */
  predicate Outstanding(log: seq<Obs>) {
    log != [] &&
    var e := log[|log| - 1];
    if e.Arrived? then true
    else if e.IsVerdict() || e.Opened? then false
    else Outstanding(log[..|log| - 1])
  }

  /** Whose turn it is: the proxy's to deliver, or the holder's to be settled. */
  datatype Turn = Idle | Held(client: ClientId, msg: Message) | Broken

  function TurnNext(t: Turn, e: Obs): Turn {
    if e.Sent? then (if t == Idle then Held(e.client, e.msg) else Broken)
    else if e.IsVerdict() then (if t == Held(e.client, e.msg) then Idle else Broken)
    else t
  }

  function TurnOf(log: seq<Obs>): Turn {
    if log == [] then Idle else TurnNext(TurnOf(log[..|log| - 1]), log[|log| - 1])
  }

  lemma TurnSnoc(log: seq<Obs>, e: Obs)
    ensures TurnOf(log + [e]) == TurnNext(TurnOf(log), e)
    ensures Outstanding(log + [e]) ==
      if e.Arrived? then true else if e.IsVerdict() || e.Opened? then false else Outstanding(log)
  {
    assert (log + [e])[..|log|] == log;
  }

  /** The assumptions on the environment, step by step. */
  ghost predicate Orderly(ns: Namespace, w: World, s: Step) {
    match s
    case StartBegin(c, n) => n == ns && (ns !in w.proxy.namespaceEventStreamSocket ==> w.pending == multiset{})
    case StartEnd(c, n, outcome) => outcome.Some? ==> w.proxy.queue == []
    case BatchArrives(k, b) => !Outstanding(w.proxy.log)
    case _ => true
  }

  ghost predicate OrderlyRun(ns: Namespace, trace: seq<Step>) {
    trace == [] ||
    (var before := After(trace[..|trace| - 1]); var s := trace[|trace| - 1];
     OrderlyRun(ns, trace[..|trace| - 1]) && Enabled(before, s) && Orderly(ns, before, s))
  }

  /** All that holds after every run holds after orderly ones. */
  lemma {:induction false} OrderlyIsRun(ns: Namespace, trace: seq<Step>)
    requires OrderlyRun(ns, trace)
    ensures Run(trace)
  {
    if trace == [] {
    } else {
      OrderlyIsRun(ns, trace[..|trace| - 1]);
    }
  }

  ghost predicate OneNamespace(ns: Namespace, w: World) {
    && (forall n :: n in w.proxy.namespaceEventStreamSocket ==> n == ns)
    && (forall c, n :: (c, n) in w.pending ==> n == ns)
    && |w.pending| <= 1
    && (ns in w.proxy.namespaceEventStreamSocket ==> w.pending == multiset{})
    && (forall b :: b in w.proxy.queue ==> b.namespace == ns)
    && (forall k, n :: Opened(k, n) in w.proxy.log ==> n == ns)
  }

  ghost predicate InTurn(p: Proxy) {
    && |p.queue| <= 1
    && (p.queue != [] ==> Outstanding(p.log))
    && match TurnOf(p.log)
       case Idle => forall c :: InFlight(p.log, c) == []
       case Held(c, m) =>
         && InFlight(p.log, c) == [m] && p.queue == [] && Outstanding(p.log)
         && forall d :: d != c ==> InFlight(p.log, d) == []
       case Broken => false
  }

  /** Every accepted client ack is answered upstream at once, with the same message. */
  ghost predicate EveryAckAnswered(log: seq<Obs>) {
    forall i :: 0 <= i < |log| && log[i].ClientAcked? ==>
      i + 1 < |log| && log[i + 1].UpAck? && log[i + 1].client == log[i].client && log[i + 1].msg == log[i].msg
  }

  ghost predicate Good(ns: Namespace, w: World) {
    Delivery(w) && OneNamespace(ns, w) && InTurn(w.proxy) && EveryAckAnswered(w.proxy.log)
  }

  lemma EveryAckMore(log: seq<Obs>, ext: seq<Obs>)
    requires EveryAckAnswered(log) && forall e :: e in ext ==> !e.ClientAcked?
    ensures EveryAckAnswered(log + ext)
  {
    var all := log + ext;
    forall i | 0 <= i < |all| && all[i].ClientAcked?
      ensures i + 1 < |all| && all[i + 1].UpAck? && all[i + 1].client == all[i].client && all[i + 1].msg == all[i].msg
    {
      assert all[i] in ext || i < |log|;
      assert all[i] == log[i];
    }
  }

  // ---------------------------------------------------------------- disconnect

  lemma {:induction false} ClosingKeepsTurn(log: seq<Obs>, ext: seq<Obs>)
    requires forall e :: e in ext ==> e.Closed? || e.Gone?
    ensures TurnOf(log + ext) == TurnOf(log) && Outstanding(log + ext) == Outstanding(log)
  {
    if ext == [] {
      assert log + ext == log;
    } else {
      var front, last := ext[..|ext| - 1], ext[|ext| - 1];
      assert log + ext == (log + front) + [last];
      assert last in ext && forall e :: e in front ==> e in ext;
      ClosingKeepsTurn(log, front);
      TurnSnoc(log + front, last);
    }
  }

  /** The holder's disconnect issues exactly one nack, for the message it holds. */
  lemma HolderLeaves(ns: Namespace, w: World, c: ClientId)
    requires Good(ns, w) && c in w.connected
    ensures TurnOf(w.proxy.log).Held? && TurnOf(w.proxy.log).client == c ==>
      ns in w.proxy.namespaceEventStreamSocket &&
      Nacks(w.proxy, c) == [UpNack(c, w.proxy.namespaceEventStreamSocket[ns], TurnOf(w.proxy.log).msg)]
    ensures !(TurnOf(w.proxy.log).Held? && TurnOf(w.proxy.log).client == c) ==> Nacks(w.proxy, c) == []
  {
    var p := w.proxy;
    if TurnOf(p.log).Held? && TurnOf(p.log).client == c {
      var m := TurnOf(p.log).msg;
      assert m in InFlight(p.log, c);
      HeldHasSocket(p, c, m);
      assert m.namespace == ns && ns in p.namespaceClients.order;
      assert p.namespaceClients.order[0] in p.namespaceClients.order;
      assert p.namespaceClients.order[0] == ns;
      assert OfNamespace([m], ns) == [m];
    } else {
      assert p.awaitingAck[c] == [];
    }
  }

  lemma ClosingTail(p: Proxy, c: ClientId)
    ensures forall e :: e in Closes(p, c, |p.namespaceClients.order|) + [Gone(c)] ==> e.Closed? || e.Gone?
  {
    forall e | e in Closes(p, c, |p.namespaceClients.order|) ensures e.Closed? {
      ClosesIn(p, c, |p.namespaceClients.order|, e);
    }
  }

  /** Whose turn it is after a departure: a holder's nack ends its turn, anyone else's leaves it. */
  lemma TurnAfterLeaving(ns: Namespace, w: World, c: ClientId)
    requires Good(ns, w) && c in w.connected
    ensures var log, turn := DepartureLog(w.proxy, c), TurnOf(w.proxy.log);
      if turn.Held? && turn.client == c then TurnOf(log) == Idle && !Outstanding(log)
      else TurnOf(log) == turn && Outstanding(log) == Outstanding(w.proxy.log)
  {
    var p := w.proxy;
    var tail := Closes(p, c, |p.namespaceClients.order|) + [Gone(c)];
    HolderLeaves(ns, w, c);
    ClosingTail(p, c);
    ClosingKeepsTurn(p.log + Nacks(p, c), tail);
    assert DepartureLog(p, c) == p.log + Nacks(p, c) + tail;
    if Nacks(p, c) == [] {
      assert p.log + Nacks(p, c) == p.log;
    } else {
      TurnSnoc(p.log, Nacks(p, c)[0]);
    }
  }

  lemma LeaveTurn(ns: Namespace, w: World, c: ClientId)
    requires Good(ns, w) && c in w.connected
    requires forall d :: InFlight(Disconnected(w.proxy, c).log, d) == if d == c then [] else InFlight(w.proxy.log, d)
    ensures InTurn(Disconnected(w.proxy, c))
  {
    TurnAfterLeaving(ns, w, c);
  }

  lemma LeaveAnswered(p: Proxy, c: ClientId)
    requires c in p.awaitingAck && p.awaitingAck[c] == InFlight(p.log, c)
    requires EveryAckAnswered(p.log)
    ensures EveryAckAnswered(Disconnected(p, c).log)
  {
    var ext := LeaveLog(p, c);
    EveryAckMore(p.log, ext);
  }

  lemma LeaveOneNamespace(ns: Namespace, w: World, c: ClientId)
    requires OneNamespace(ns, w) && Registry(w.proxy)
    requires c in w.proxy.awaitingAck && w.proxy.awaitingAck[c] == InFlight(w.proxy.log, c)
    ensures OneNamespace(ns, Next(w, Disconnect(c)))
  {
    var ext := LeaveLog(w.proxy, c);
    assert forall k, n :: Opened(k, n) in Disconnected(w.proxy, c).log ==> Opened(k, n) in w.proxy.log;
  }

  // ---------------------------------------------------------------- the other steps

  lemma AckTurn(p: Proxy, c: ClientId, k: SocketId, m: Message)
    requires InTurn(p) && m in InFlight(p.log, c)
    ensures AckEntries(c, k, m, InFlight(p.log, c)) == [ClientAcked(c, m), UpAck(c, k, m)]
    ensures InTurn(p.(awaitingAck := p.awaitingAck[c := WithoutId(InFlight(p.log, c), m.id)],
                      log := p.log + AckEntries(c, k, m, InFlight(p.log, c))))
  {
    var mid := p.log + [ClientAcked(c, m)];
    assert TurnOf(p.log) == Held(c, m);
    assert WithoutId([m], m.id) == [];
    TurnSnoc(p.log, ClientAcked(c, m));
    TurnSnoc(mid, UpAck(c, k, m));
    AckInFlight(p.log, c, k, m);
    assert p.log + AckEntries(c, k, m, InFlight(p.log, c)) == mid + [UpAck(c, k, m)];
  }

  lemma AckAnsweredNow(log: seq<Obs>, c: ClientId, k: SocketId, m: Message)
    requires EveryAckAnswered(log)
    ensures EveryAckAnswered(log + [ClientAcked(c, m), UpAck(c, k, m)])
  {
    var all := log + [ClientAcked(c, m), UpAck(c, k, m)];
    assert forall i :: 0 <= i < |log| ==> all[i] == log[i];
  }

  lemma AckGood(ns: Namespace, w: World, c: ClientId, id: string)
    requires Good(ns, w) && Enabled(w, ClientAck(c, id))
    ensures InTurn(Acked(w.proxy, c, id)) && EveryAckAnswered(Acked(w.proxy, c, id).log)
    ensures OneNamespace(ns, Next(w, ClientAck(c, id)))
  {
    var p := w.proxy;
    if FindById(p.awaitingAck[c], id).Some? {
      var m := AckedIs(p, w.connected, c, id);
      var k := p.namespaceEventStreamSocket[m.namespace];
      AckTurn(p, c, k, m);
      AckAnsweredNow(p.log, c, k, m);
    }
  }

  lemma SendTurn(p: Proxy, m: Message, c: ClientId)
    requires InTurn(p) && p.queue != [] && m.namespace in p.namespaceClients.entries
    requires forall d :: InFlight(p.log + [Sent(c, m)], d) == InFlight(p.log, d) + if d == c then [m] else []
    ensures InTurn(Delivered(p.(queue := p.queue[1..]), m, c))
  {
    TurnSnoc(p.log, Sent(c, m));
  }

  lemma SendGood(ns: Namespace, w: World, task: Task)
    requires Good(ns, w) && Enabled(w, RunTask(task)) && task.Deliver?
    requires w.proxy.queue[0].namespace in w.proxy.namespaceClients.entries
    ensures var q := Next(w, RunTask(task)); InTurn(q.proxy) && EveryAckAnswered(q.proxy.log) && OneNamespace(ns, q)
  {
    var p := w.proxy;
    var m := Message(task.id, p.queue[0].namespace, p.queue[0].batchNumber);
    SentLog(p.log, task.choice, m);
    SendTurn(p, m, task.choice);
    EveryAckMore(p.log, [Sent(task.choice, m)]);
    assert forall k, n :: Opened(k, n) in p.log + [Sent(task.choice, m)] ==> Opened(k, n) in p.log;
  }

  lemma ArrivalTurn(p: Proxy, b: Batch)
    requires InTurn(p) && !Outstanding(p.log)
    requires forall d :: InFlight(p.log + [Arrived(b)], d) == InFlight(p.log, d)
    ensures InTurn(Queued(p, b))
  {
    TurnSnoc(p.log, Arrived(b));
  }

  lemma ArrivalGood(ns: Namespace, w: World, k: SocketId, b: Batch)
    requires Good(ns, w) && Enabled(w, BatchArrives(k, b)) && Orderly(ns, w, BatchArrives(k, b))
    ensures var q := Next(w, BatchArrives(k, b)); InTurn(q.proxy) && EveryAckAnswered(q.proxy.log) && OneNamespace(ns, q)
  {
    QuietLog(w.proxy.log, Arrived(b));
    ArrivalTurn(w.proxy, b);
    EveryAckMore(w.proxy.log, [Arrived(b)]);
  }

  lemma OpenTurn(p: Proxy, q: Proxy, ns: Namespace, k: SocketId)
    requires InTurn(p) && p.queue == [] && q.queue == [] && q.log == p.log + [Opened(k, ns)]
    requires forall d :: InFlight(p.log, d) == [] && InFlight(p.log + [Opened(k, ns)], d) == []
    ensures InTurn(q)
  {
    TurnSnoc(p.log, Opened(k, ns));
  }

  /** A socket opens only while the namespace has none, so nothing is in flight. */
  lemma OpensFresh(ns: Namespace, w: World, c: ClientId, n: Namespace)
    requires OneNamespace(ns, w) && MapsAgree(w.proxy) && Homed(w.proxy) && (c, n) in w.pending
    ensures n == ns && w.pending == multiset{(c, n)}
    ensures forall d :: InFlight(w.proxy.log, d) == []
  {
    assert |w.pending - multiset{(c, n)}| == |w.pending| - 1;
    assert w.pending - multiset{(c, n)} == multiset{};
    assert forall x :: x !in w.proxy.namespaceClients.entries;
    EmptyOrder(w.proxy.namespaceClients);
    forall d
      ensures InFlight(w.proxy.log, d) == []
    {
      NothingHeld(w.proxy, d);
    }
  }

  lemma EmptyOrder(m: OrderedMap<Namespace, set<ClientId>>)
    requires m.Valid()
    ensures m.entries.Keys == {} ==> m.order == []
  {
    assert m.order != [] ==> m.order[0] in m.order;
  }

  lemma OpenGood(ns: Namespace, w: World, c: ClientId, n: Namespace, k: SocketId)
    requires Good(ns, w) && Enabled(w, StartEnd(c, n, Some(k))) && Orderly(ns, w, StartEnd(c, n, Some(k)))
    ensures var q := Next(w, StartEnd(c, n, Some(k))); InTurn(q.proxy) && EveryAckAnswered(q.proxy.log) && OneNamespace(ns, q)
  {
    var p := w.proxy;
    OpensFresh(ns, w, c, n);
    QuietLog(p.log, Opened(k, n));
    OpenTurn(p, Next(w, StartEnd(c, n, Some(k))).proxy, n, k);
    EveryAckMore(p.log, [Opened(k, n)]);
  }

  lemma StartGood(ns: Namespace, w: World, s: Step)
    requires Good(ns, w) && Enabled(w, s) && Orderly(ns, w, s)
    requires Next(w, s).proxy.log == w.proxy.log
    ensures OneNamespace(ns, Next(w, s)) && InTurn(Next(w, s).proxy)
  {
    if s.RunTask? {
      assert forall b :: b in w.proxy.queue[1..] ==> b in w.proxy.queue;
    }
  }

  lemma GoodStep(ns: Namespace, w: World, s: Step)
    requires Good(ns, w) && Enabled(w, s) && Orderly(ns, w, s)
    ensures Good(ns, Next(w, s))
  {
    DeliveryStep(w, s);
    if s.Disconnect? {
      DisconnectInFlight(w.proxy, s.client);
      LeaveTurn(ns, w, s.client);
      LeaveAnswered(w.proxy, s.client);
      LeaveOneNamespace(ns, w, s.client);
    } else if s.ClientAck? {
      AckGood(ns, w, s.client, s.id);
    } else if s.RunTask? && s.task.Deliver? && w.proxy.queue[0].namespace in w.proxy.namespaceClients.entries {
      SendGood(ns, w, s.task);
    } else if s.BatchArrives? {
      ArrivalGood(ns, w, s.socket, s.batch);
    } else if s.StartEnd? && s.outcome.Some? {
      OpenGood(ns, w, s.client, s.namespace, s.outcome.value);
    } else {
      StartGood(ns, w, s);
    }
  }

  /** Deliveries and verdicts strictly alternate, each verdict on the message delivered last, and
      every accepted client ack is answered at once. With `HolderLeaves`: every disconnect of the
      holder yields exactly one nack. */
  lemma {:induction false} ExactlyOneVerdict(ns: Namespace, trace: seq<Step>)
    requires OrderlyRun(ns, trace)
    ensures Good(ns, After(trace))
    ensures TurnOf(After(trace).proxy.log) != Broken
    ensures EveryAckAnswered(After(trace).proxy.log)
  {
    if trace == [] {
    } else {
      ExactlyOneVerdict(ns, trace[..|trace| - 1]);
      GoodStep(ns, After(trace[..|trace| - 1]), trace[|trace| - 1]);
    }
  }

  /** Between the delivery of a message and any later one there is exactly one verdict, on the earlier
      message: no message of an orderly run waits for a verdict while another is delivered. */
  lemma SettledBeforeNext(ns: Namespace, trace: seq<Step>, i: nat, j: nat) returns (v: nat)
    requires OrderlyRun(ns, trace) && i < j < |After(trace).proxy.log|
    requires After(trace).proxy.log[i].Sent? && After(trace).proxy.log[j].Sent?
    ensures i < v < j && After(trace).proxy.log[v].IsVerdict()
    ensures After(trace).proxy.log[v].msg == After(trace).proxy.log[i].msg
    ensures forall k :: 0 <= k < |After(trace).proxy.log| && k != v && After(trace).proxy.log[k].IsVerdict() ==>
      After(trace).proxy.log[k].msg.id != After(trace).proxy.log[i].msg.id
  {
    var log := After(trace).proxy.log;
    ExactlyOneVerdict(ns, trace);
    OrderlyIsRun(ns, trace);
    DeliveryAlways(trace);
    v := VerdictBetween(log, i, j);
    OneVerdict(log);
  }

  lemma {:induction false} TurnPrefix(log: seq<Obs>, i: nat)
    requires i <= |log| && TurnOf(log) != Broken
    ensures TurnOf(log[..i]) != Broken
  {
    if i == |log| {
      assert log[..i] == log;
    } else {
      TurnPrefix(log[..|log| - 1], i);
      assert log[..|log| - 1][..i] == log[..i];
    }
  }

  lemma {:induction false} HeldOn(log: seq<Obs>, i: nat, j: nat) returns (v: nat)
    requires i < j <= |log| && log[i].Sent? && TurnOf(log[..j]) != Broken
    ensures TurnOf(log[..j]) == Held(log[i].client, log[i].msg)
      || (i < v < j && log[v].IsVerdict() && log[v].msg == log[i].msg)
    decreases j
  {
    v := 0;
    assert log[..j][..j - 1] == log[..j - 1] && log[..j][j - 1] == log[j - 1];
    if j <= i + 1 {
    } else {
      TurnPrefix(log[..j], j - 1);
      v := HeldOn(log, i, j - 1);
      if TurnOf(log[..j - 1]) == Held(log[i].client, log[i].msg) && log[j - 1].IsVerdict() {
        v := j - 1;
      }
    }
  }

  lemma VerdictBetween(log: seq<Obs>, i: nat, j: nat) returns (v: nat)
    requires i < j < |log| && log[i].Sent? && log[j].Sent? && TurnOf(log) != Broken
    ensures i < v < j && log[v].IsVerdict() && log[v].msg == log[i].msg
  {
    TurnPrefix(log, j + 1);
    assert log[..j + 1][..j] == log[..j];
    TurnPrefix(log[..j + 1], j);
    v := HeldOn(log, i, j);
  }
}
