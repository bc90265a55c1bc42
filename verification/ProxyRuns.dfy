/** The delivery protocol as a labelled transition system: one step per synchronous stretch of
    the code or move of the environment, and what holds after every run. */
module ProxyRuns {
  import opened Js
  import opened ProxyState
  import opened ProxyLog

  /** The proxy together with what the environment knows: who is connected, who ever was, and
      which starts are suspended in the `await` of `startListening`. */
  datatype World = World(
    proxy: Proxy,
    connected: set<ClientId>,
    seen: set<ClientId>,
    pending: multiset<(ClientId, Namespace)>)

  const START := World(INITIAL, {}, {}, multiset{})

  /** How the head of the promise chain ends: without a send, or with one. */
  datatype Task = Unsent | Deliver(id: string, choice: ClientId)

  datatype Step =
    | Connect(client: ClientId)
    | StartBegin(client: ClientId, namespace: Namespace)
    | StartEnd(client: ClientId, namespace: Namespace, outcome: Option<SocketId>)
    | BatchArrives(socket: SocketId, batch: Batch)
    | RunTask(task: Task)
    | ClientAck(client: ClientId, id: string)
    | Disconnect(client: ClientId)

  /** Fresh ids stand for `nanoid`, `uuidv4` and the identity of a new socket; any socket not
      yet closed may push a batch, also one the proxy has lost track of. */
  ghost predicate Enabled(w: World, s: Step) {
    match s
    case Connect(c) => c !in w.seen
    case StartBegin(c, ns) => c in w.connected
    case StartEnd(c, ns, outcome) =>
      (c, ns) in w.pending && (outcome.Some? ==> FreshSocket(w.proxy.log, outcome.value))
    case BatchArrives(k, b) => Live(w.proxy.log, k, b.namespace)
    case RunTask(task) =>
      && w.proxy.queue != []
      && (task.Deliver? ==>
        && FreshId(w.proxy.log, task.id)
        && (w.proxy.queue[0].namespace in w.proxy.namespaceClients.entries ==>
              task.choice in w.proxy.namespaceClients.entries[w.proxy.queue[0].namespace]))
    case ClientAck(c, id) => c in w.connected
    case Disconnect(c) => c in w.connected
  }

  function Next(w: World, s: Step): World {
    match s
    case Connect(c) =>
      w.(proxy := Connected(w.proxy, c), connected := w.connected + {c}, seen := w.seen + {c})
    case StartBegin(c, ns) =>
      if ns in w.proxy.namespaceEventStreamSocket then w.(proxy := Joined(w.proxy, c, ns))
      else w.(pending := w.pending + multiset{(c, ns)})
    case StartEnd(c, ns, outcome) =>
      w.(proxy := StartResumed(w.proxy, c, ns, outcome), pending := w.pending - multiset{(c, ns)})
    case BatchArrives(k, b) => w.(proxy := Queued(w.proxy, b))
    case RunTask(task) =>
      if w.proxy.queue == [] then w
      else
        var b := w.proxy.queue[0];
        var p := w.proxy.(queue := w.proxy.queue[1..]);
        w.(proxy := if task.Unsent? then p
                    else Delivered(p, Message(task.id, b.namespace, b.batchNumber), task.choice))
    case ClientAck(c, id) => w.(proxy := Acked(w.proxy, c, id))
    case Disconnect(c) => w.(proxy := Disconnected(w.proxy, c), connected := w.connected - {c})
  }

  function After(trace: seq<Step>): World {
    if trace == [] then START else Next(After(trace[..|trace| - 1]), trace[|trace| - 1])
  }

  ghost predicate Run(trace: seq<Step>) {
    trace == [] ||
    (Run(trace[..|trace| - 1]) && Enabled(After(trace[..|trace| - 1]), trace[|trace| - 1]))
  }

  /** A start succeeds for a client that has left while the start was suspended. */
  predicate LateJoin(w: World, s: Step) {
    s.StartEnd? && s.outcome.Some? && s.client !in w.connected
  }

  ghost predicate EverLateJoined(trace: seq<Step>) {
    trace != [] &&
    (EverLateJoined(trace[..|trace| - 1]) || LateJoin(After(trace[..|trace| - 1]), trace[|trace| - 1]))
  }

  // ---------------------------------------------------------------- registry

  ghost predicate MapsAgree(p: Proxy) {
    && p.namespaceClients.Valid()
    && p.namespaceClients.entries.Keys == p.namespaceEventStreamSocket.Keys
    && (forall ns :: ns in p.namespaceClients.entries ==> p.namespaceClients.entries[ns] != {})
  }

  ghost predicate SocketsLive(sockets: map<Namespace, SocketId>, log: seq<Obs>) {
    && (forall ns :: ns in sockets ==> Live(log, sockets[ns], ns))
    && (forall k, ns :: Closed(k, ns) in log ==> Opened(k, ns) in log)
  }

  /** The two maps agree, no client set is empty, and the registered sockets are live. */
  ghost predicate Registry(p: Proxy) {
    MapsAgree(p) && SocketsLive(p.namespaceEventStreamSocket, p.log)
  }

  lemma {:induction false} KeptIn(p: Proxy, c: ClientId, i: nat)
    requires i <= |p.namespaceClients.order|
    ensures forall ns :: ns in Kept(p, c, i) <==> ns in p.namespaceClients.order[..i] && StillServed(p, c, ns)
  {
    if i == 0 {
    } else {
      KeptIn(p, c, i - 1);
      var order := p.namespaceClients.order;
      assert order[..i] == order[..i - 1] + [order[i - 1]];
    }
  }

  lemma NotEarlier(s: seq<Namespace>, i: nat)
    requires Distinct(s) && i < |s|
    ensures s[i] !in s[..i]
  {
    if s[i] in s[..i] {
      var j :| 0 <= j < i && s[j] == s[i];
      DistinctAt(s, j, i);
    }
  }

  lemma KeptStep(p: Proxy, c: ClientId, i: nat)
    requires i < |p.namespaceClients.order|
    ensures var kept, ns := Kept(p, c, i), p.namespaceClients.order[i];
      Kept(p, c, i + 1) == kept + [ns] || Kept(p, c, i + 1) == kept
  {
    assert Kept(p, c, i) + [] == Kept(p, c, i);
  }

  lemma DistinctWith(kept: seq<Namespace>, ns: Namespace, next: seq<Namespace>)
    requires Distinct(kept) && ns !in kept && (next == kept + [ns] || next == kept)
    ensures Distinct(next)
  {
    DistinctSnoc(kept, ns);
  }

  lemma {:induction false} KeptDistinct(p: Proxy, c: ClientId, i: nat)
    requires Distinct(p.namespaceClients.order) && i <= |p.namespaceClients.order|
    ensures Distinct(Kept(p, c, i))
  {
    if i == 0 {
    } else {
      KeptDistinct(p, c, i - 1);
      KeptIn(p, c, i - 1);
      KeptStep(p, c, i - 1);
      NotEarlier(p.namespaceClients.order, i - 1);
      DistinctWith(Kept(p, c, i - 1), p.namespaceClients.order[i - 1], Kept(p, c, i));
    }
  }

  lemma {:induction false} ClosesIn(p: Proxy, c: ClientId, i: nat, e: Obs)
    requires i <= |p.namespaceClients.order|
    requires e in Closes(p, c, i)
    ensures e.Closed? && e.namespace in p.namespaceEventStreamSocket
      && e.socket == p.namespaceEventStreamSocket[e.namespace] && !StillServed(p, c, e.namespace)
      && exists j :: 0 <= j < i && p.namespaceClients.order[j] == e.namespace
  {
    var ns := p.namespaceClients.order[i - 1];
    if e in Closes(p, c, i - 1) {
      ClosesIn(p, c, i - 1, e);
    } else {
      assert e.Closed? && e.namespace == ns;
    }
  }

  lemma DisconnectedKeys(p: Proxy, c: ClientId)
    requires Registry(p)
    ensures MapsAgree(Disconnected(p, c))
  {
    var order := p.namespaceClients.order;
    KeptIn(p, c, |order|);
    KeptDistinct(p, c, |order|);
    assert order[..|order|] == order;
  }

  lemma DisconnectedSockets(p: Proxy, c: ClientId)
    requires Registry(p)
    ensures SocketsLive(Disconnected(p, c).namespaceEventStreamSocket, Disconnected(p, c).log)
  {
    var n := |p.namespaceClients.order|;
    var q := Disconnected(p, c);
    forall k, ns | Closed(k, ns) in q.log
      ensures || Closed(k, ns) in p.log
              || (!StillServed(p, c, ns) && ns in p.namespaceEventStreamSocket && k == p.namespaceEventStreamSocket[ns])
    {
      assert Closed(k, ns) !in Nacks(p, c);
      if Closed(k, ns) in Closes(p, c, n) {
        ClosesIn(p, c, n, Closed(k, ns));
      }
    }
    assert forall e :: e in p.log ==> e in q.log;
  }

  lemma LiveKept(sockets: map<Namespace, SocketId>, log: seq<Obs>, ext: seq<Obs>)
    requires SocketsLive(sockets, log)
    requires forall e :: e in ext ==> !e.Closed?
    ensures SocketsLive(sockets, log + ext)
  {
  }

  lemma JoinedAgree(p: Proxy, c: ClientId, ns: Namespace)
    requires MapsAgree(p.(namespaceEventStreamSocket := p.namespaceEventStreamSocket - {ns}))
      || (MapsAgree(p) && ns in p.namespaceEventStreamSocket)
    requires ns in p.namespaceEventStreamSocket
    ensures MapsAgree(Joined(p, c, ns))
  {
  }

  lemma OpenedLive(sockets: map<Namespace, SocketId>, log: seq<Obs>, ns: Namespace, k: SocketId)
    requires SocketsLive(sockets, log) && FreshSocket(log, k)
    ensures SocketsLive(sockets[ns := k], log + [Opened(k, ns)])
  {
    LiveKept(sockets, log, [Opened(k, ns)]);
    assert Closed(k, ns) !in log;
    assert Opened(k, ns) in log + [Opened(k, ns)];
  }

  lemma StartEndRegistry(p: Proxy, c: ClientId, ns: Namespace, k: SocketId)
    requires Registry(p) && FreshSocket(p.log, k)
    ensures Registry(StartResumed(p, c, ns, Some(k)))
  {
    OpenedLive(p.namespaceEventStreamSocket, p.log, ns, k);
    var withSocket := p.(namespaceEventStreamSocket := p.namespaceEventStreamSocket[ns := k],
                         log := p.log + [Opened(k, ns)]);
    if ns !in p.namespaceEventStreamSocket {
      assert withSocket.namespaceEventStreamSocket - {ns} == p.namespaceEventStreamSocket;
    }
    JoinedAgree(withSocket, c, ns);
  }

  lemma RegistryStep(w: World, s: Step)
    requires Registry(w.proxy) && Enabled(w, s)
    ensures Registry(Next(w, s).proxy)
  {
    var p, q := w.proxy, Next(w, s).proxy;
    if s.Disconnect? {
      DisconnectedKeys(p, s.client);
      DisconnectedSockets(p, s.client);
    } else if s.StartEnd? && s.outcome.Some? {
      StartEndRegistry(p, s.client, s.namespace, s.outcome.value);
    } else if s.StartBegin? && s.namespace in p.namespaceEventStreamSocket {
      JoinedAgree(p, s.client, s.namespace);
    } else {
      var ext := q.log[|p.log|..];
      assert q.log == p.log + ext;
      LiveKept(p.namespaceEventStreamSocket, p.log, ext);
    }
  }

  /** In every interleaving the client map and the socket map have the same namespaces, and no
      client set is empty. */
  lemma {:induction false} RegistryAlways(trace: seq<Step>)
    requires Run(trace)
    ensures Registry(After(trace).proxy)
  {
    if trace == [] {
    } else {
      RegistryAlways(trace[..|trace| - 1]);
      RegistryStep(After(trace[..|trace| - 1]), trace[|trace| - 1]);
    }
  }
}
