/** The client-to-upstream registry across the `await` in `startListening`: which upstream
    connections are open, and when one is lost. */
module ProxySockets {
  import opened Js
  import opened ProxyState
  import opened ProxyLog
  import opened ProxyRuns

  /** The upstream connections still open are exactly those registered. */
  ghost predicate SocketsExact(p: Proxy) {
    forall k, ns :: Live(p.log, k, ns) <==> ns in p.namespaceEventStreamSocket && p.namespaceEventStreamSocket[ns] == k
  }

  /** A start resumes after another one has already registered a socket for the namespace. */
  predicate Replaces(w: World, s: Step) {
    s.StartEnd? && s.outcome.Some? && s.namespace in w.proxy.namespaceEventStreamSocket
  }

  ghost predicate EverReplaced(trace: seq<Step>) {
    trace != [] &&
    (EverReplaced(trace[..|trace| - 1]) || Replaces(After(trace[..|trace| - 1]), trace[|trace| - 1]))
  }

  lemma {:induction false} ClosesHas(p: Proxy, c: ClientId, i: nat, j: nat)
    requires j < i <= |p.namespaceClients.order|
    requires !StillServed(p, c, p.namespaceClients.order[j])
    requires p.namespaceClients.order[j] in p.namespaceEventStreamSocket
    ensures var ns := p.namespaceClients.order[j]; Closed(p.namespaceEventStreamSocket[ns], ns) in Closes(p, c, i)
  {
    if j >= i - 1 {
    } else {
      ClosesHas(p, c, i - 1, j);
    }
  }

  /** A disconnect closes exactly the sockets of the namespaces it leaves without clients. */
  lemma DisconnectLive(p: Proxy, c: ClientId, k: SocketId, ns: Namespace)
    requires Registry(p)
    ensures Live(Disconnected(p, c).log, k, ns) <==>
      Live(p.log, k, ns) &&
      !(ns in p.namespaceEventStreamSocket && p.namespaceEventStreamSocket[ns] == k && !StillServed(p, c, ns))
  {
    var n := |p.namespaceClients.order|;
    var e := Closed(k, ns);
    assert e !in Nacks(p, c) && Opened(k, ns) !in Nacks(p, c);
    if Opened(k, ns) in Closes(p, c, n) {
      ClosesIn(p, c, n, Opened(k, ns));
    }
    if e in Closes(p, c, n) {
      ClosesIn(p, c, n, e);
    }
    if ns in p.namespaceEventStreamSocket && p.namespaceEventStreamSocket[ns] == k && !StillServed(p, c, ns) {
      assert ns in p.namespaceClients.order;
      var j :| 0 <= j < n && p.namespaceClients.order[j] == ns;
      ClosesHas(p, c, n, j);
    }
  }

  lemma DisconnectExact(p: Proxy, c: ClientId)
    requires Registry(p)
    ensures SocketsExact(Disconnected(p, c)) <==> SocketsExact(p)
  {
    var q := Disconnected(p, c);
    forall k, ns
      ensures (Live(q.log, k, ns) <==> ns in q.namespaceEventStreamSocket && q.namespaceEventStreamSocket[ns] == k)
        <==> (Live(p.log, k, ns) <==> ns in p.namespaceEventStreamSocket && p.namespaceEventStreamSocket[ns] == k)
    {
      DisconnectLive(p, c, k, ns);
    }
  }

  lemma OpenLive(log: seq<Obs>, ns: Namespace, k: SocketId)
    requires FreshSocket(log, k) && forall j, n :: Closed(j, n) in log ==> Opened(j, n) in log
    ensures forall j, n :: Live(log + [Opened(k, ns)], j, n) <==> Live(log, j, n) || (j == k && n == ns)
    ensures forall n :: !Live(log, k, n)
  {
    assert Closed(k, ns) !in log;
  }

  lemma OpenExact(p: Proxy, q: Proxy, ns: Namespace, k: SocketId)
    requires SocketsLive(p.namespaceEventStreamSocket, p.log)
    requires q.namespaceEventStreamSocket == p.namespaceEventStreamSocket[ns := k]
    requires forall j, n :: Live(q.log, j, n) <==> Live(p.log, j, n) || (j == k && n == ns)
    requires forall n :: !Live(p.log, k, n)
    ensures SocketsExact(q) <==> SocketsExact(p) && ns !in p.namespaceEventStreamSocket
  {
    if ns in p.namespaceEventStreamSocket {
      assert Live(q.log, p.namespaceEventStreamSocket[ns], ns);
    }
  }

  lemma SameSockets(p: Proxy, q: Proxy, ext: seq<Obs>)
    requires q.log == p.log + ext && forall e :: e in ext ==> !e.Opened? && !e.Closed?
    requires q.namespaceEventStreamSocket == p.namespaceEventStreamSocket
    ensures SocketsExact(q) <==> SocketsExact(p)
  {
    assert forall k, ns :: Live(q.log, k, ns) <==> Live(p.log, k, ns);
  }

  /** Steps other than opening and disconnecting add no socket entries. */
  lemma AddedEntries(w: World, s: Step) returns (ext: seq<Obs>)
    requires Enabled(w, s) && !s.Disconnect? && !(s.StartEnd? && s.outcome.Some?)
    ensures Next(w, s).proxy.log == w.proxy.log + ext && forall e :: e in ext ==> !e.Opened? && !e.Closed?
  {
    ext := Next(w, s).proxy.log[|w.proxy.log|..];
  }

  lemma ExactStep(w: World, s: Step)
    requires Registry(w.proxy) && Enabled(w, s)
    ensures SocketsExact(Next(w, s).proxy) <==> SocketsExact(w.proxy) && !Replaces(w, s)
  {
    var p := w.proxy;
    if s.Disconnect? {
      DisconnectExact(p, s.client);
    } else if s.StartEnd? && s.outcome.Some? {
      OpenLive(p.log, s.namespace, s.outcome.value);
      OpenExact(p, Next(w, s).proxy, s.namespace, s.outcome.value);
    } else {
      var ext := AddedEntries(w, s);
      SameSockets(p, Next(w, s).proxy, ext);
    }
  }

  /** In every run, connections and registry agree exactly when no start ever replaced a socket:
      a replaced connection stays open and unregistered for good. */
  lemma {:induction false} SocketsExactIff(trace: seq<Step>)
    requires Run(trace)
    ensures SocketsExact(After(trace).proxy) <==> !EverReplaced(trace)
  {
    if trace == [] {
    } else {
      var before := trace[..|trace| - 1];
      SocketsExactIff(before);
      RegistryAlways(before);
      ExactStep(After(before), trace[|trace| - 1]);
    }
  }

  /** A start begins while another one for the same namespace is suspended. */
  ghost predicate Overlaps(w: World, s: Step) {
    s.StartBegin? && s.namespace !in w.proxy.namespaceEventStreamSocket
    && exists c :: (c, s.namespace) in w.pending
  }

  ghost predicate NeverOverlaps(trace: seq<Step>) {
    trace == [] ||
    (NeverOverlaps(trace[..|trace| - 1]) && !Overlaps(After(trace[..|trace| - 1]), trace[|trace| - 1]))
  }

  ghost predicate OnePending(w: World) {
    && (forall c, d, ns :: (c, ns) in w.pending && (d, ns) in w.pending ==> c == d)
    && (forall c, ns :: w.pending[(c, ns)] <= 1)
    && (forall c, ns :: (c, ns) in w.pending ==> ns !in w.proxy.namespaceEventStreamSocket)
  }

  lemma OnePendingStep(w: World, s: Step)
    requires OnePending(w) && Enabled(w, s) && !Overlaps(w, s)
    ensures OnePending(Next(w, s)) && !Replaces(w, s)
  {
    if s.Disconnect? {
      assert Next(w, s).proxy.namespaceEventStreamSocket.Keys <= w.proxy.namespaceEventStreamSocket.Keys;
    }
  }

  lemma {:induction false} NoOverlapNoReplace(trace: seq<Step>)
    requires Run(trace) && NeverOverlaps(trace)
    ensures OnePending(After(trace)) && !EverReplaced(trace)
  {
    if trace == [] {
    } else {
      NoOverlapNoReplace(trace[..|trace| - 1]);
      OnePendingStep(After(trace[..|trace| - 1]), trace[|trace| - 1]);
    }
  }

  /** If starts of one namespace never overlap, open connections are exactly the registered ones. */
  lemma SocketsExactWithoutOverlap(trace: seq<Step>)
    requires Run(trace) && NeverOverlaps(trace)
    ensures SocketsExact(After(trace).proxy)
  {
    NoOverlapNoReplace(trace);
    SocketsExactIff(trace);
  }
}
