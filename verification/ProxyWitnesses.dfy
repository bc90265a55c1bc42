/** Runs in which the delivery guarantees end: one for each condition under which a message is
    never settled, and one for the assumption on clients. */
module ProxyWitnesses {
  import opened Js
  import opened ProxyState
  import opened ProxyLog
  import opened ProxyRuns
  import opened ProxySockets
  import opened ProxySafety
  import opened ProxyLateJoins

  lemma Extend(trace: seq<Step>, w: World, s: Step, next: World)
    requires Run(trace) && After(trace) == w
    requires Enabled(w, s) && Next(w, s) == next
    ensures Run(trace + [s]) && After(trace + [s]) == next
  {
    assert (trace + [s])[..|trace|] == trace;
  }

  /** Two clients, each served in its own namespace, the first namespace registered first. */
  function Served(a: ClientId, b: ClientId, x: Namespace, y: Namespace): World {
    World(Proxy(OrderedMap([x, y], map[x := {a}, y := {b}]), map[x := 0, y := 1], map[a := [], b := []], [],
                [Opened(0, x), Opened(1, y)]),
          {a, b}, {a, b}, multiset{})
  }

  lemma FirstServed(a: ClientId, b: ClientId, x: Namespace) returns (trace: seq<Step>, w: World)
    requires a != b
    ensures Run(trace) && After(trace) == w
    ensures w == World(Proxy(OrderedMap([x], map[x := {a}]), map[x := 0], map[a := [], b := []], [], [Opened(0, x)]),
                       {a, b}, {a, b}, multiset{})
  {
    var w2 := World(INITIAL.(awaitingAck := map[a := [], b := []]), {a, b}, {a, b}, multiset{});
    var t2 := BothConnected(a, b);
    trace, w := ServeNext(t2, w2, a, x, 0);
  }

  /** A client starts a namespace that has no socket yet, and its connection succeeds. */
  lemma ServeNext(trace: seq<Step>, w: World, c: ClientId, ns: Namespace, k: SocketId)
      returns (t: seq<Step>, next: World)
    requires Run(trace) && After(trace) == w && w.pending == multiset{} && c in w.connected
    requires ns !in w.proxy.namespaceEventStreamSocket && ns !in w.proxy.namespaceClients.entries
    requires FreshSocket(w.proxy.log, k)
    ensures Run(t) && After(t) == next
    ensures next == w.(proxy := Proxy(
      OrderedMap(w.proxy.namespaceClients.order + [ns], w.proxy.namespaceClients.entries[ns := {c}]),
      w.proxy.namespaceEventStreamSocket[ns := k], w.proxy.awaitingAck, w.proxy.queue,
      w.proxy.log + [Opened(k, ns)]))
  {
    var w1 := w.(pending := multiset{(c, ns)});
    Extend(trace, w, StartBegin(c, ns), w1);
    var p := StartResumed(w.proxy, c, ns, Some(k));
    ResumedIs(w.proxy, c, ns, k, p);
    next := w.(proxy := p);
    Extend(trace + [StartBegin(c, ns)], w1, StartEnd(c, ns, Some(k)), next);
    t := trace + [StartBegin(c, ns)] + [StartEnd(c, ns, Some(k))];
  }

  lemma ServedReached(a: ClientId, b: ClientId, x: Namespace, y: Namespace) returns (trace: seq<Step>)
    requires a != b && x != y
    ensures Run(trace) && After(trace) == Served(a, b, x, y)
  {
    var t, w := FirstServed(a, b, x);
    var next;
    trace, next := ServeNext(t, w, b, y, 1);
    assert next == Served(a, b, x, y);
  }

  lemma ResumedIs(p: Proxy, c: ClientId, ns: Namespace, k: SocketId, q: Proxy)
    requires ns !in p.namespaceClients.entries && q == StartResumed(p, c, ns, Some(k))
    ensures q == Proxy(OrderedMap(p.namespaceClients.order + [ns], p.namespaceClients.entries[ns := {c}]),
                       p.namespaceEventStreamSocket[ns := k], p.awaitingAck, p.queue, p.log + [Opened(k, ns)])
  {
    assert {} + {c} == {c};
  }

  /** One batch of `ns` pushed and delivered to `c`. */
  lemma Deliver1(trace: seq<Step>, w: World, k: SocketId, c: ClientId, m: Message) returns (t: seq<Step>)
    requires Run(trace) && After(trace) == w && w.proxy.queue == []
    requires Live(w.proxy.log, k, m.namespace) && FreshId(w.proxy.log, m.id) && c in w.proxy.awaitingAck
    requires m.namespace in w.proxy.namespaceClients.entries && c in w.proxy.namespaceClients.entries[m.namespace]
    ensures Run(t)
    ensures After(t) == w.(proxy := w.proxy.(
      awaitingAck := w.proxy.awaitingAck[c := w.proxy.awaitingAck[c] + [m]],
      log := w.proxy.log + [Arrived(Batch(m.namespace, m.batchNumber))] + [Sent(c, m)]))
  {
    var b := Batch(m.namespace, m.batchNumber);
    var w1 := w.(proxy := w.proxy.(queue := [b], log := w.proxy.log + [Arrived(b)]));
    assert [] + [b] == [b];
    Extend(trace, w, BatchArrives(k, b), w1);
    var w2 := w1.(proxy := w1.proxy.(
      queue := [],
      awaitingAck := w.proxy.awaitingAck[c := w.proxy.awaitingAck[c] + [m]],
      log := w1.proxy.log + [Sent(c, m)]));
    assert [b][1..] == [] && w.proxy.(queue := []) == w.proxy;
    Extend(trace + [BatchArrives(k, b)], w1, RunTask(Deliver(m.id, c)), w2);
    t := trace + [BatchArrives(k, b)] + [RunTask(Deliver(m.id, c))];
  }

  /** The second client has been sent one message of its namespace. */
  lemma SecondServed(a: ClientId, b: ClientId, x: Namespace, y: Namespace, m: Message) returns (trace: seq<Step>)
    requires a != b && x != y && m == Message("m", y, Some(7))
    ensures Run(trace)
    ensures After(trace) == Served(a, b, x, y).(proxy := Served(a, b, x, y).proxy.(
      awaitingAck := map[a := [], b := [m]],
      log := [Opened(0, x), Opened(1, y)] + [Arrived(Batch(y, Some(7)))] + [Sent(b, m)]))
  {
    var served := ServedReached(a, b, x, y);
    var w := Served(a, b, x, y);
    assert w.proxy.log[1] == Opened(1, y);
    trace := Deliver1(served, w, 1, b, m);
    assert [] + [m] == [m];
    assert map[a := [], b := []][b := [m]] == map[a := [], b := [m]];
  }

  /** The client of the second namespace disconnects holding a message: no verdict is issued. */
  lemma SecondNamespaceNotNacked(a: ClientId, b: ClientId, x: Namespace, y: Namespace)
      returns (trace: seq<Step>, m: Message)
    requires a != b && x != y
    ensures Run(trace)
    ensures Sent(b, m) in After(trace).proxy.log && Gone(b) in After(trace).proxy.log
    ensures ClientAcked(b, m) !in After(trace).proxy.log
    ensures forall e :: e in After(trace).proxy.log ==> !e.IsVerdict()
  {
    m := Message("m", y, Some(7));
    var t := SecondServed(a, b, x, y, m);
    var w := After(t);
    assert w.proxy.log[3] == Sent(b, m);
    NotNacked(w.proxy, b, m, x);
    Extend(t, w, Disconnect(b), Next(w, Disconnect(b)));
    trace := t + [Disconnect(b)];
  }

  lemma NotNacked(p: Proxy, c: ClientId, m: Message, x: Namespace)
    requires p.namespaceClients.order != [] && p.namespaceClients.order[0] == x && m.namespace != x
    requires c in p.awaitingAck && p.awaitingAck[c] == [m]
    requires forall e :: e in p.log ==> !e.IsVerdict() && !e.ClientAcked?
    ensures forall e :: e in Disconnected(p, c).log ==> !e.IsVerdict() && !e.ClientAcked?
    ensures Gone(c) in Disconnected(p, c).log && forall e :: e in p.log ==> e in Disconnected(p, c).log
  {
    assert OfNamespace([m], x) == [];
    assert Nacks(p, c) == [];
    var n := |p.namespaceClients.order|;
    forall e | e in Closes(p, c, n)
      ensures e.Closed?
    {
      ClosesIn(p, c, n, e);
    }
  }

  lemma AckOfTwo(p: Proxy, c: ClientId, m: Message, n: Message)
    requires c in p.awaitingAck && p.awaitingAck[c] == [m, n] && m.id != n.id
    ensures Acked(p, c, m.id).log == p.log + [ClientAcked(c, m)]
  {
    assert [m, n][1..] == [n] && [n][1..] == [];
    assert FindById([m, n], m.id) == Some(m);
    assert WithoutId([n], m.id) == [n];
    assert WithoutId([m, n], m.id) == [n];
  }

  lemma TwoDelivered(a: ClientId, b: ClientId, x: Namespace, y: Namespace, m: Message, n: Message)
      returns (trace: seq<Step>)
    requires a != b && x != y && m.namespace == n.namespace == x && m.id != n.id
    ensures Run(trace) && a in After(trace).connected
    ensures a in After(trace).proxy.awaitingAck && After(trace).proxy.awaitingAck[a] == [m, n]
    ensures forall e :: e in After(trace).proxy.log ==> !e.IsVerdict()
  {
    var served := ServedReached(a, b, x, y);
    var t := Deliver1(served, Served(a, b, x, y), 0, a, m);
    var w := After(t);
    var log := [Opened(0, x), Opened(1, y)] + [Arrived(Batch(x, m.batchNumber))] + [Sent(a, m)];
    assert w.proxy.log == log;
    StillServing(log, x, y, a, m, n);
    assert w.proxy.awaitingAck[a] == [m];
    trace := Deliver1(t, w, 0, a, n);
    assert [m] + [n] == [m, n];
  }

  lemma StillServing(log: seq<Obs>, x: Namespace, y: Namespace, a: ClientId, m: Message, n: Message)
    requires log == [Opened(0, x), Opened(1, y)] + [Arrived(Batch(x, m.batchNumber))] + [Sent(a, m)]
    requires m.id != n.id
    ensures Live(log, 0, x) && FreshId(log, n.id) && forall e :: e in log ==> !e.IsVerdict()
  {
    assert log[0] == Opened(0, x);
  }

  /** A client holding two messages acks the first of them: nothing is sent upstream. */
  lemma FirstAckNotAnswered(a: ClientId, b: ClientId, x: Namespace, y: Namespace)
      returns (trace: seq<Step>, m: Message)
    requires a != b && x != y
    ensures Run(trace)
    ensures ClientAcked(a, m) in After(trace).proxy.log
    ensures forall e :: e in After(trace).proxy.log ==> !e.IsVerdict()
  {
    m := Message("m", x, Some(1));
    var n := Message("nn", x, Some(2));
    assert |m.id| != |n.id|;
    var t := TwoDelivered(a, b, x, y, m, n);
    var w := After(t);
    AckOfTwo(w.proxy, a, m, n);
    Extend(t, w, ClientAck(a, m.id), Next(w, ClientAck(a, m.id)));
    trace := t + [ClientAck(a, m.id)];
  }

  /** A client that leaves during its own suspended start is registered all the same: a batch
      goes to it and stays in the list of a client that can neither ack nor leave any more. */
  lemma ImpatientClientSwallows(a: ClientId, x: Namespace) returns (trace: seq<Step>, m: Message)
    ensures Run(trace)
    ensures a in After(trace).seen && a !in After(trace).connected
    ensures a in After(trace).proxy.awaitingAck && After(trace).proxy.awaitingAck[a] == [m]
    ensures EverLateJoined(trace) && SentLate(After(trace).proxy.log, a, m)
  {
    trace, m := Swallowed(a, x);
    ListsDisjoint(trace, a, m);
    if !EverLateJoined(trace) {
      InTimeAlways(trace);
    }
  }

  lemma Swallowed(a: ClientId, x: Namespace) returns (trace: seq<Step>, m: Message)
    ensures Run(trace)
    ensures a in After(trace).seen && a !in After(trace).connected
    ensures a in After(trace).proxy.awaitingAck && After(trace).proxy.awaitingAck[a] == [m]
  {
    m := Message("m", x, None);
    var t, w := GoneButServed(a, x);
    LiveAfterGone(a, x);
    var b := Batch(x, None);
    var w5 := w.(proxy := w.proxy.(queue := [b], log := w.proxy.log + [Arrived(b)]));
    assert [] + [b] == [b];
    Extend(t, w, BatchArrives(0, b), w5);
    Swallow(w5, a, m);
    Extend(t + [BatchArrives(0, b)], w5, RunTask(Deliver("m", a)), Next(w5, RunTask(Deliver("m", a))));
    trace := t + [BatchArrives(0, b)] + [RunTask(Deliver("m", a))];
  }

  lemma LiveAfterGone(a: ClientId, x: Namespace)
    ensures Live([Gone(a), Opened(0, x)], 0, x)
    ensures FreshId([Gone(a), Opened(0, x)] + [Arrived(Batch(x, None))], "m")
  {
    assert [Gone(a), Opened(0, x)][1] == Opened(0, x);
  }

  lemma Swallow(w: World, a: ClientId, m: Message)
    requires w.proxy.queue == [Batch(m.namespace, m.batchNumber)] && FreshId(w.proxy.log, m.id)
    requires a in w.proxy.awaitingAck && w.proxy.awaitingAck[a] == []
    requires m.namespace in w.proxy.namespaceClients.entries && a in w.proxy.namespaceClients.entries[m.namespace]
    ensures Enabled(w, RunTask(Deliver(m.id, a)))
    ensures var next := Next(w, RunTask(Deliver(m.id, a)));
      next.seen == w.seen && next.connected == w.connected
      && a in next.proxy.awaitingAck && next.proxy.awaitingAck[a] == [m]
  {
    assert [] + [m] == [m];
  }

  /** Connected and starting, with nothing else going on. */
  lemma Suspended(a: ClientId, x: Namespace) returns (trace: seq<Step>, w: World)
    ensures Run(trace) && After(trace) == w
    ensures w == World(INITIAL.(awaitingAck := map[a := []]), {a}, {a}, multiset{(a, x)})
  {
    var w1 := World(INITIAL.(awaitingAck := map[a := []]), {a}, {a}, multiset{});
    Extend([], START, Connect(a), w1);
    w := w1.(pending := multiset{(a, x)});
    Extend([Connect(a)], w1, StartBegin(a, x), w);
    trace := [Connect(a)] + [StartBegin(a, x)];
  }

  lemma LeftAlone(p: Proxy, a: ClientId)
    requires p == INITIAL.(awaitingAck := map[a := []])
    ensures Disconnected(p, a) == p.(log := [Gone(a)])
  {
    assert [] + [] + [] + [Gone(a)] == [Gone(a)];
  }

  lemma GoneButServed(a: ClientId, x: Namespace) returns (trace: seq<Step>, w: World)
    ensures Run(trace) && After(trace) == w
    ensures w == World(Proxy(OrderedMap([x], map[x := {a}]), map[x := 0], map[a := []], [], [Gone(a), Opened(0, x)]),
                       {}, {a}, multiset{})
  {
    var t2, w2 := Suspended(a, x);
    LeftAlone(w2.proxy, a);
    var w3 := w2.(proxy := w2.proxy.(log := [Gone(a)]), connected := {});
    Extend(t2, w2, Disconnect(a), w3);
    var t3 := t2 + [Disconnect(a)];
    w := w3.(proxy := StartResumed(w3.proxy, a, x, Some(0)), pending := multiset{});
    ResumedIs(w3.proxy, a, x, 0, w.proxy);
    assert [Gone(a)] + [Opened(0, x)] == [Gone(a), Opened(0, x)];
    Extend(t3, w3, StartEnd(a, x, Some(0)), w);
    trace := t3 + [StartEnd(a, x, Some(0))];
  }

  /** Two starts of one namespace suspended at once: both connect, the second connection is the one
      registered, and the first stays open for good. */
  lemma OverlappingStartsLeak(a: ClientId, b: ClientId, x: Namespace) returns (trace: seq<Step>)
    requires a != b
    ensures Run(trace) && EverReplaced(trace)
    ensures After(trace).proxy.namespaceEventStreamSocket == map[x := 1]
    ensures Live(After(trace).proxy.log, 0, x) && Live(After(trace).proxy.log, 1, x)
  {
    var t := OneResumed(a, b, x);
    var w, last := After(t), StartEnd(b, x, Some(1));
    trace := t + [last];
    assert trace[..|t|] == t;
    assert After(trace).proxy.log == w.proxy.log + [Opened(1, x)];
    assert After(trace).proxy.log[0] == Opened(0, x) && After(trace).proxy.log[1] == Opened(1, x);
  }

  lemma OneResumed(a: ClientId, b: ClientId, x: Namespace) returns (trace: seq<Step>)
    requires a != b
    ensures Run(trace) && (b, x) in After(trace).pending && After(trace).proxy.log == [Opened(0, x)]
    ensures After(trace).proxy.namespaceEventStreamSocket == map[x := 0]
  {
    var t, w := BothPending(a, b, x);
    var s := StartEnd(a, x, Some(0));
    Extend(t, w, s, Next(w, s));
    trace := t + [s];
  }

  lemma BothPending(a: ClientId, b: ClientId, x: Namespace) returns (trace: seq<Step>, w: World)
    requires a != b
    ensures Run(trace) && After(trace) == w
    ensures w.pending == multiset{(a, x), (b, x)} && w.proxy == INITIAL.(awaitingAck := map[a := [], b := []])
  {
    var t := BothConnected(a, b);
    var w2 := After(t);
    var w3 := w2.(pending := multiset{(a, x)});
    Extend(t, w2, StartBegin(a, x), w3);
    w := w3.(pending := multiset{(a, x), (b, x)});
    Extend(t + [StartBegin(a, x)], w3, StartBegin(b, x), w);
    trace := t + [StartBegin(a, x)] + [StartBegin(b, x)];
  }

  lemma BothConnected(a: ClientId, b: ClientId) returns (trace: seq<Step>)
    requires a != b
    ensures Run(trace)
    ensures After(trace) == World(INITIAL.(awaitingAck := map[a := [], b := []]), {a, b}, {a, b}, multiset{})
  {
    var w1 := World(INITIAL.(awaitingAck := map[a := []]), {a}, {a}, multiset{});
    Extend([], START, Connect(a), w1);
    var w2 := w1.(proxy := INITIAL.(awaitingAck := map[a := [], b := []]), connected := {a, b}, seen := {a, b});
    Extend([Connect(a)], w1, Connect(b), w2);
    trace := [Connect(a)] + [Connect(b)];
  }
}
