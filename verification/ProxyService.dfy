/** `EventStreamProxyBase` in its own form: fields that the handlers update in place. Each
    handler is proved to have exactly the effect `ProxyState` states. An `async` method that
    suspends is one method per synchronous stretch. */
module ProxyService {
  import opened Js
  import opened ProxyState

  class EventStreamProxy {
    var url: Option<string>
    var topic: Option<string>
    var namespaceClients: OrderedMap<Namespace, set<ClientId>>
    var namespaceEventStreamSocket: map<Namespace, SocketId>
    var awaitingAck: map<ClientId, seq<Message>>
    var queue: seq<Batch>
    var log: seq<Obs>

    ghost function State(): Proxy
      reads this
    {
      Proxy(namespaceClients, namespaceEventStreamSocket, awaitingAck, queue, log)
    }

    constructor ()
      ensures State() == INITIAL && url == topic == None
    {
      url, topic := None, None;
      namespaceClients := OrderedMap([], map[]);
      namespaceEventStreamSocket := map[];
      awaitingAck := map[];
      queue := [];
      log := [];
    }

    method Configure(url: Option<string>, topic: Option<string>)
      modifies this`url, this`topic
      ensures this.url == url && this.topic == topic
    {
      this.url := url;
      this.topic := topic;
    }

    method HandleConnection(client: ClientId)
      modifies this`awaitingAck
      ensures awaitingAck == if client in old(awaitingAck) then old(awaitingAck) else old(awaitingAck)[client := []]
      ensures State() == Connected(old(State()), client)
    {
      if client !in awaitingAck {
        awaitingAck := awaitingAck[client := []];
      }
    }

    method JoinNamespace(client: ClientId, namespace: Namespace)
      modifies this`namespaceClients
      ensures var before := old(namespaceClients.entries);
        namespaceClients.entries ==
          before[namespace := if namespace in before then before[namespace] + {client} else {client}]
      ensures State() == Joined(old(State()), client, namespace)
    {
      var clientSet := namespaceClients.Get(namespace).GetOr({});
      assert {} + {client} == {client};
      clientSet := clientSet + {client};
      namespaceClients := namespaceClients.Set(namespace, clientSet);
    }

    /** Up to the `await`: without a socket for the namespace the start suspends. Otherwise the client
        is replied to that it has started; an unconfigured proxy does neither. */
    method StartListening(client: ClientId, namespace: Namespace) returns (suspended: bool, started: bool)
      modifies this`namespaceClients
      ensures suspended <==> url.Some? && topic.Some? && namespace !in namespaceEventStreamSocket
      ensures started <==> url.Some? && topic.Some? && namespace in namespaceEventStreamSocket
      ensures State() == if started then Joined(old(State()), client, namespace) else old(State())
    {
      if url == None || topic == None {
        return false, false;
      }
      suspended, started := namespace !in namespaceEventStreamSocket, false;
      if !suspended {
        JoinNamespace(client, namespace);
        started := true;
      }
    }

    /** After the `await`: the check is not repeated, so a socket already there is replaced. The client
        is replied to unless the connection failed. */
    method ResumeStart(client: ClientId, namespace: Namespace, outcome: Option<SocketId>) returns (started: bool)
      modifies this`namespaceClients, this`namespaceEventStreamSocket, this`log
      ensures started <==> outcome.Some?
      ensures namespaceEventStreamSocket ==
        if started then old(namespaceEventStreamSocket)[namespace := outcome.value] else old(namespaceEventStreamSocket)
      ensures State() == StartResumed(old(State()), client, namespace, outcome)
    {
      started := false;
      if outcome.Some? {
        namespaceEventStreamSocket := namespaceEventStreamSocket[namespace := outcome.value];
        log := log + [Opened(outcome.value, namespace)];
        JoinNamespace(client, namespace);
        started := true;
      }
    }

    method QueueTask(batch: Batch)
      modifies this`queue, this`log
      ensures queue == old(queue) + [batch]
      ensures State() == Queued(old(State()), batch)
    {
      queue := queue + [batch];
      log := log + [Arrived(batch)];
    }

    method Send(payload: Message, choice: ClientId)
      requires payload.namespace in namespaceClients.entries ==>
        choice in namespaceClients.entries[payload.namespace]
      modifies this`awaitingAck, this`log
      ensures payload.namespace in namespaceClients.entries ==>
        log == old(log) + [Sent(choice, payload)]
        && (choice in old(awaitingAck) ==>
              awaitingAck == old(awaitingAck)[choice := old(awaitingAck)[choice] + [payload]])
      ensures State() == Delivered(old(State()), payload, choice)
    {
      var clients := namespaceClients.Get(payload.namespace);
      if clients.Some? {
        if choice in awaitingAck {
          awaitingAck := awaitingAck[choice := awaitingAck[choice] + [payload]];
        }
        log := log + [Sent(choice, payload)];
      }
    }

    method HandleAck(client: ClientId, id: string)
      modifies this`awaitingAck, this`log
      ensures State() == Acked(old(State()), client, id)
    {
      if client in awaitingAck {
        var awaiting := awaitingAck[client];
        var found := FindById(awaiting, id);
        if found.Some? {
          var inflight := found.value;
          awaiting := WithoutId(awaiting, id);
          awaitingAck := awaitingAck[client := awaiting];
          log := log + [ClientAcked(client, inflight)];
          if BatchComplete(inflight, awaiting) && inflight.namespace in namespaceEventStreamSocket {
            log := log + [UpAck(client, namespaceEventStreamSocket[inflight.namespace], inflight)];
          }
        }
      }
    }

    method NackInflight(client: ClientId, namespace: Namespace)
      modifies this`log
      ensures log == old(log) + NacksIn(old(State()), client, namespace)
    {
      if client in awaitingAck && namespace in namespaceEventStreamSocket {
        var inflight := OfNamespace(awaitingAck[client], namespace);
        var socket := namespaceEventStreamSocket[namespace];
        NackAll(client, socket, inflight);
      }
    }

    method NackAll(client: ClientId, socket: SocketId, inflight: seq<Message>)
      modifies this`log
      ensures log == old(log) + NacksFor(client, socket, inflight)
    {
      ghost var nacks := NacksFor(client, socket, inflight);
      var i := 0;
      while i < |inflight|
        invariant 0 <= i <= |inflight|
        invariant log == old(log) + nacks[..i]
      {
        log := log + [UpNack(client, socket, inflight[i])];
        i := i + 1;
      }
      assert nacks[..i] == nacks;
    }

    /** The callback of the `forEach` in `handleDisconnect`. */
    method LeaveNamespace(client: ClientId, namespace: Namespace)
      requires namespace in namespaceClients.entries
      modifies this`namespaceClients, this`namespaceEventStreamSocket, this`awaitingAck, this`log
      ensures State() == Left(old(State()), client, namespace)
    {
      var clientSet := namespaceClients.entries[namespace] - {client};
      namespaceClients := namespaceClients.(entries := namespaceClients.entries[namespace := clientSet]);
      NackInflight(client, namespace);
      awaitingAck := awaitingAck - {client};
      if clientSet == {} {
        if namespace in namespaceEventStreamSocket {
          log := log + [Closed(namespaceEventStreamSocket[namespace], namespace)];
        }
        namespaceEventStreamSocket := namespaceEventStreamSocket - {namespace};
        namespaceClients := OrderedMap(Remove(namespaceClients.order, namespace),
                                       namespaceClients.entries - {namespace});
      }
    }

    /** `Map.forEach` visits every key present at the start once: the callback deletes only the
        key it is visiting. */
    method LeaveAll(client: ClientId)
      requires namespaceClients.Valid()
      modifies this`namespaceClients, this`namespaceEventStreamSocket, this`awaitingAck, this`log
      ensures State() == Iterated(old(State()), client, |old(namespaceClients.order)|)
    {
      ghost var p := State();
      var keys := namespaceClients.order;
      var i := 0;
      while i < |keys|
        invariant 0 <= i <= |keys|
        invariant State() == Iterated(p, client, i)
      {
        NextPresent(p, client, i);
        LeaveNamespace(client, keys[i]);
        i := i + 1;
      }
    }

    method HandleDisconnect(client: ClientId)
      requires namespaceClients.Valid()
      modifies this`namespaceClients, this`namespaceEventStreamSocket, this`awaitingAck, this`log
      ensures State() == Disconnected(old(State()), client)
    {
      ghost var p := State();
      LeaveAll(client);
      ghost var q := State();
      log := log + [Gone(client)];
      assert State() == q.(log := q.log + [Gone(client)]);
      IteratedEnd(p, client);
    }
  }

  /** The disconnect loop after `i` iterations. */
  ghost function Iterated(p: Proxy, c: ClientId, i: nat): Proxy
    requires i <= |p.namespaceClients.order|
  {
    if i == 0 then p else Left(Iterated(p, c, i - 1), c, p.namespaceClients.order[i - 1])
  }

  lemma {:induction false} IteratedIs(p: Proxy, c: ClientId, i: nat)
    requires p.namespaceClients.Valid() && i <= |p.namespaceClients.order|
    ensures Iterated(p, c, i) == Partial(p, c, i)
  {
    if i == 0 {
    } else {
      IteratedIs(p, c, i - 1);
      PartialStep(p, c, i - 1);
    }
  }

  lemma NextPresent(p: Proxy, c: ClientId, i: nat)
    requires p.namespaceClients.Valid() && i < |p.namespaceClients.order|
    ensures p.namespaceClients.order[i] in Iterated(p, c, i).namespaceClients.entries
  {
    IteratedIs(p, c, i);
    PartialStep(p, c, i);
  }

  lemma IteratedEnd(p: Proxy, c: ClientId)
    requires p.namespaceClients.Valid()
    ensures var q := Iterated(p, c, |p.namespaceClients.order|);
      q.(log := q.log + [Gone(c)]) == Disconnected(p, c)
  {
    IteratedIs(p, c, |p.namespaceClients.order|);
    PartialEnd(p, c);
  }

  /** One iteration of the disconnect loop. */
  ghost function Left(p: Proxy, c: ClientId, ns: Namespace): Proxy {
    var clientSet := p.namespaceClients.Get(ns).GetOr({}) - {c};
    var nacked := p.(log := p.log + NacksIn(p, c, ns), awaitingAck := p.awaitingAck - {c});
    if clientSet == {} then
      nacked.(
        namespaceClients := OrderedMap(Remove(p.namespaceClients.order, ns),
                                       p.namespaceClients.entries[ns := clientSet] - {ns}),
        namespaceEventStreamSocket := p.namespaceEventStreamSocket - {ns},
        log := nacked.log +
          if ns in p.namespaceEventStreamSocket then [Closed(p.namespaceEventStreamSocket[ns], ns)] else [])
    else
      nacked.(namespaceClients := p.namespaceClients.(entries := p.namespaceClients.entries[ns := clientSet]))
  }

  ghost function Visited(p: Proxy, i: nat): (r: set<Namespace>)
    requires i <= |p.namespaceClients.order|
  {
    if i == 0 then {} else Visited(p, i - 1) + {p.namespaceClients.order[i - 1]}
  }

  lemma {:induction false} VisitedIn(p: Proxy, i: nat, j: nat)
    requires p.namespaceClients.Valid() && i <= |p.namespaceClients.order| && j < |p.namespaceClients.order|
    ensures p.namespaceClients.order[j] in Visited(p, i) <==> j < i
  {
    if i == 0 {
    } else {
      VisitedIn(p, i - 1, j);
      if i - 1 < j {
        DistinctAt(p.namespaceClients.order, i - 1, j);
      } else if j < i - 1 {
        DistinctAt(p.namespaceClients.order, j, i - 1);
      }
    }
  }

  lemma VisitedAll(p: Proxy)
    requires p.namespaceClients.Valid()
    ensures Visited(p, |p.namespaceClients.order|) >= p.namespaceClients.entries.Keys
  {
    forall ns | ns in p.namespaceClients.entries
      ensures ns in Visited(p, |p.namespaceClients.order|)
    {
      var j :| 0 <= j < |p.namespaceClients.order| && p.namespaceClients.order[j] == ns;
      VisitedIn(p, |p.namespaceClients.order|, j);
    }
  }

  lemma {:induction false} VisitedOnly(p: Proxy, i: nat)
    requires p.namespaceClients.Valid() && i <= |p.namespaceClients.order|
    ensures Visited(p, i) <= p.namespaceClients.entries.Keys
  {
    if i == 0 {
    } else {
      VisitedOnly(p, i - 1);
      assert p.namespaceClients.order[i - 1] in p.namespaceClients.order;
    }
  }

  ghost function PartialEntries(p: Proxy, c: ClientId, visited: set<Namespace>): map<Namespace, set<ClientId>> {
    map ns | ns in p.namespaceClients.entries && (ns in visited ==> StillServed(p, c, ns))
      :: if ns in visited then p.namespaceClients.entries[ns] - {c} else p.namespaceClients.entries[ns]
  }

  ghost function PartialSockets(p: Proxy, c: ClientId, visited: set<Namespace>): map<Namespace, SocketId> {
    map ns | ns in p.namespaceEventStreamSocket && (ns in visited ==> StillServed(p, c, ns))
      :: p.namespaceEventStreamSocket[ns]
  }

  ghost function PartialOrder(p: Proxy, c: ClientId, i: nat): seq<Namespace>
    requires i <= |p.namespaceClients.order|
  {
    if i == 0 then p.namespaceClients.order else Kept(p, c, i) + p.namespaceClients.order[i..]
  }

  /** The proxy after the first `i` iterations of the disconnect loop. */
  ghost function Partial(p: Proxy, c: ClientId, i: nat): Proxy
    requires i <= |p.namespaceClients.order|
  {
    if i == 0 then p
    else
      Proxy(OrderedMap(PartialOrder(p, c, i), PartialEntries(p, c, Visited(p, i))),
            PartialSockets(p, c, Visited(p, i)),
            p.awaitingAck - {c},
            p.queue,
            p.log + Nacks(p, c) + Closes(p, c, i))
  }

  lemma {:induction false} KeptIn(p: Proxy, c: ClientId, i: nat)
    requires i <= |p.namespaceClients.order|
    ensures forall ns :: ns in Kept(p, c, i) ==> ns in Visited(p, i)
  {
    if i == 0 {
    } else {
      KeptIn(p, c, i - 1);
    }
  }

  lemma PartialOrderStep(p: Proxy, c: ClientId, i: nat)
    requires i < |p.namespaceClients.order| && p.namespaceClients.order[i] !in Visited(p, i)
    ensures var ns := p.namespaceClients.order[i];
      PartialOrder(p, c, i + 1) ==
        if StillServed(p, c, ns) then PartialOrder(p, c, i) else Remove(PartialOrder(p, c, i), ns)
  {
    var order := p.namespaceClients.order;
    if StillServed(p, c, order[i]) {
      assert [order[i]] + order[i + 1..] == order[i..];
    } else {
      KeptIn(p, c, i);
      DropFirst(Kept(p, c, i), order[i..], order[i]);
    }
    assert i == 0 ==> Kept(p, c, 0) + order[0..] == order;
  }

  lemma PartialMapsStep(p: Proxy, c: ClientId, visited: set<Namespace>, ns: Namespace)
    requires ns in p.namespaceClients.entries && ns !in visited
    ensures var m := PartialEntries(p, c, visited); var rest := p.namespaceClients.entries[ns] - {c};
      ns in m && m[ns] - {c} == rest &&
      PartialEntries(p, c, visited + {ns}) == if rest == {} then m[ns := rest] - {ns} else m[ns := rest]
    ensures PartialSockets(p, c, visited + {ns}) ==
      if StillServed(p, c, ns) then PartialSockets(p, c, visited) else PartialSockets(p, c, visited) - {ns}
  {
  }

  lemma PartialMapsStart(p: Proxy, c: ClientId)
    ensures PartialEntries(p, c, {}) == p.namespaceClients.entries
    ensures PartialSockets(p, c, {}) == p.namespaceEventStreamSocket
  {
  }

  lemma PartialLogStep(p: Proxy, c: ClientId, i: nat)
    requires i < |p.namespaceClients.order|
    ensures var ns := p.namespaceClients.order[i]; var q := Partial(p, c, i);
      Partial(p, c, i + 1).log == q.log + NacksIn(q, c, ns) +
        if !StillServed(p, c, ns) && ns in p.namespaceEventStreamSocket
        then [Closed(p.namespaceEventStreamSocket[ns], ns)] else []
  {
    var ns := p.namespaceClients.order[i];
    var closed := if !StillServed(p, c, ns) && ns in p.namespaceEventStreamSocket
      then [Closed(p.namespaceEventStreamSocket[ns], ns)] else [];
    assert Closes(p, c, i + 1) == Closes(p, c, i) + closed;
    if i == 0 {
      assert p.log + Nacks(p, c) + closed == p.log + Nacks(p, c) + ([] + closed);
    } else {
      assert NacksIn(Partial(p, c, i), c, ns) == [];
      assert p.log + Nacks(p, c) + Closes(p, c, i) + [] + closed == p.log + Nacks(p, c) + (Closes(p, c, i) + closed);
    }
  }

  lemma PartialStep(p: Proxy, c: ClientId, i: nat)
    requires p.namespaceClients.Valid() && i < |p.namespaceClients.order|
    ensures p.namespaceClients.order[i] in Partial(p, c, i).namespaceClients.entries
    ensures Left(Partial(p, c, i), c, p.namespaceClients.order[i]) == Partial(p, c, i + 1)
  {
    VisitFresh(p, i);
    FreshStep(p, c, i);
  }

  lemma FreshStep(p: Proxy, c: ClientId, i: nat)
    requires i < |p.namespaceClients.order|
    requires p.namespaceClients.order[i] in p.namespaceClients.entries && p.namespaceClients.order[i] !in Visited(p, i)
    ensures p.namespaceClients.order[i] in Partial(p, c, i).namespaceClients.entries
    ensures Left(Partial(p, c, i), c, p.namespaceClients.order[i]) == Partial(p, c, i + 1)
  {
    var ns := p.namespaceClients.order[i];
    PartialOrderStep(p, c, i);
    PartialMapsStart(p, c);
    PartialMapsStep(p, c, Visited(p, i), ns);
    PartialLogStep(p, c, i);
    var q := Partial(p, c, i);
    assert q.namespaceClients.entries[ns] - {c} == p.namespaceClients.entries[ns] - {c};
    assert ns in q.namespaceEventStreamSocket <==> ns in p.namespaceEventStreamSocket;
  }

  lemma PartialEnd(p: Proxy, c: ClientId)
    requires p.namespaceClients.Valid()
    ensures var q := Partial(p, c, |p.namespaceClients.order|);
      q.(log := q.log + [Gone(c)]) == Disconnected(p, c)
  {
    var n := |p.namespaceClients.order|;
    VisitedAll(p);
    VisitedOnly(p, n);
    assert Visited(p, n) == p.namespaceClients.entries.Keys;
    PartialMapsEnd(p, c);
    if n == 0 {
      PartialMapsStart(p, c);
    }
  }

  lemma PartialMapsEnd(p: Proxy, c: ClientId)
    ensures PartialEntries(p, c, p.namespaceClients.entries.Keys) == Disconnected(p, c).namespaceClients.entries
    ensures PartialSockets(p, c, p.namespaceClients.entries.Keys) == Disconnected(p, c).namespaceEventStreamSocket
  {
  }

  lemma VisitFresh(p: Proxy, i: nat)
    requires p.namespaceClients.Valid() && i < |p.namespaceClients.order|
    ensures p.namespaceClients.order[i] in p.namespaceClients.entries
    ensures p.namespaceClients.order[i] !in Visited(p, i)
  {
    assert p.namespaceClients.order[i] in p.namespaceClients.order;
    VisitedIn(p, i, i);
  }

  /** `Map.delete` on the key order. */
  function Remove(order: seq<Namespace>, ns: Namespace): seq<Namespace> {
    if order == [] then []
    else if order[0] == ns then order[1..]
    else [order[0]] + Remove(order[1..], ns)
  }

  lemma {:induction false} DropFirst(kept: seq<Namespace>, rest: seq<Namespace>, ns: Namespace)
    requires ns !in kept && rest != [] && rest[0] == ns
    ensures Remove(kept + rest, ns) == kept + rest[1..]
  {
    if kept == [] {
      assert kept + rest == rest;
    } else {
      assert (kept + rest)[1..] == kept[1..] + rest;
      DropFirst(kept[1..], rest, ns);
    }
  }
}
