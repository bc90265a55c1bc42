/** Which upstream connection the proxy talks to when starts overlap: always the one opened last. */
module ProxyLatest {
  import opened Js
  import opened ProxyState
  import opened ProxyLog
  import opened ProxyRuns

  /** The socket opened last for a namespace. */
  function LatestOpened(log: seq<Obs>, ns: Namespace): Option<SocketId> {
    if log == [] then None
    else
      var last := log[|log| - 1];
      if last.Opened? && last.namespace == ns then Some(last.socket) else LatestOpened(log[..|log| - 1], ns)
  }

  ghost predicate RegistersLatest(p: Proxy) {
    forall ns :: ns in p.namespaceEventStreamSocket ==>
      LatestOpened(p.log, ns) == Some(p.namespaceEventStreamSocket[ns])
  }

  /** What the proxy sends upstream, and for which namespace. */
  predicate ToUpstream(e: Obs) {
    e.UpAck? || e.UpNack? || e.Closed?
  }

  function NamespaceOf(e: Obs): Namespace
    requires ToUpstream(e)
  {
    if e.Closed? then e.namespace else e.msg.namespace
  }

  ghost predicate TalksToLatest(log: seq<Obs>) {
    forall i {:trigger log[i]} :: 0 <= i < |log| && ToUpstream(log[i]) ==>
      LatestOpened(log[..i], NamespaceOf(log[i])) == Some(log[i].socket)
  }

  /** An entry that opens nothing and goes to a registered socket if it goes upstream. */
  predicate ToRegistered(p: Proxy, e: Obs) {
    && !e.Opened?
    && (ToUpstream(e) ==>
          NamespaceOf(e) in p.namespaceEventStreamSocket && p.namespaceEventStreamSocket[NamespaceOf(e)] == e.socket)
  }

  lemma {:induction false} SameLatest(log: seq<Obs>, ext: seq<Obs>, ns: Namespace)
    requires forall e :: e in ext ==> !e.Opened?
    ensures LatestOpened(log + ext, ns) == LatestOpened(log, ns)
  {
    if ext == [] {
      assert log + ext == log;
    } else {
      var front := ext[..|ext| - 1];
      SameLatest(log, front, ns);
      assert (log + ext)[..|log + ext| - 1] == log + front;
    }
  }

  lemma ExtendLatest(p: Proxy, q: Proxy, ext: seq<Obs>)
    requires RegistersLatest(p) && TalksToLatest(p.log)
    requires q.log == p.log + ext && forall e :: e in ext ==> ToRegistered(p, e)
    requires forall ns :: ns in q.namespaceEventStreamSocket ==>
      ns in p.namespaceEventStreamSocket && q.namespaceEventStreamSocket[ns] == p.namespaceEventStreamSocket[ns]
    ensures RegistersLatest(q) && TalksToLatest(q.log)
  {
    forall ns | ns in q.namespaceEventStreamSocket
      ensures LatestOpened(q.log, ns) == Some(q.namespaceEventStreamSocket[ns])
    {
      SameLatest(p.log, ext, ns);
    }
    forall i | 0 <= i < |q.log| && ToUpstream(q.log[i])
      ensures LatestOpened(q.log[..i], NamespaceOf(q.log[i])) == Some(q.log[i].socket)
    {
      if i < |p.log| {
        assert q.log[..i] == p.log[..i] && q.log[i] == p.log[i];
      } else {
        var j := i - |p.log|;
        var front := ext[..j];
        assert q.log[..i] == p.log + front && q.log[i] == ext[j];
        assert ext[j] in ext && forall e :: e in front ==> e in ext;
        SameLatest(p.log, front, NamespaceOf(q.log[i]));
      }
    }
  }

  lemma OpenLatest(w: World, s: Step)
    requires RegistersLatest(w.proxy) && TalksToLatest(w.proxy.log)
    requires s.StartEnd? && s.outcome.Some?
    ensures RegistersLatest(Next(w, s).proxy) && TalksToLatest(Next(w, s).proxy.log)
  {
    var p, q := w.proxy, Next(w, s).proxy;
    var e := Opened(s.outcome.value, s.namespace);
    assert q.log == p.log + [e] && q.log[..|p.log|] == p.log;
    forall i | 0 <= i < |q.log| && ToUpstream(q.log[i])
      ensures LatestOpened(q.log[..i], NamespaceOf(q.log[i])) == Some(q.log[i].socket)
    {
      assert q.log[..i] == p.log[..i] && q.log[i] == p.log[i];
    }
  }

  lemma DepartureRegistered(p: Proxy, c: ClientId) returns (ext: seq<Obs>)
    ensures Disconnected(p, c).log == p.log + ext && forall e :: e in ext ==> ToRegistered(p, e)
  {
    var n := |p.namespaceClients.order|;
    ext := Nacks(p, c) + Closes(p, c, n) + [Gone(c)];
    forall e | e in Closes(p, c, n) ensures ToRegistered(p, e) {
      ClosesIn(p, c, n, e);
    }
    if p.namespaceClients.order != [] {
      NacksRegistered(p, c, p.namespaceClients.order[0]);
    }
  }

  lemma {:induction false} OfNamespaceOnly(msgs: seq<Message>, ns: Namespace)
    ensures forall m :: m in OfNamespace(msgs, ns) ==> m.namespace == ns
  {
    if msgs == [] {
    } else {
      OfNamespaceOnly(msgs[1..], ns);
    }
  }

  lemma NacksRegistered(p: Proxy, c: ClientId, ns: Namespace)
    ensures forall e :: e in NacksIn(p, c, ns) ==> ToRegistered(p, e)
  {
    if c in p.awaitingAck && ns in p.namespaceEventStreamSocket {
      var msgs := OfNamespace(p.awaitingAck[c], ns);
      OfNamespaceOnly(p.awaitingAck[c], ns);
      forall e | e in NacksIn(p, c, ns) ensures ToRegistered(p, e) {
        var i :| 0 <= i < |msgs| && e == NacksFor(c, p.namespaceEventStreamSocket[ns], msgs)[i];
        assert msgs[i] in msgs;
      }
    }
  }

  /** No other step opens or drops a socket. */
  lemma OtherRegistered(w: World, s: Step) returns (ext: seq<Obs>)
    requires Enabled(w, s) && !s.Disconnect? && !(s.StartEnd? && s.outcome.Some?)
    ensures Next(w, s).proxy.log == w.proxy.log + ext && forall e :: e in ext ==> ToRegistered(w.proxy, e)
    ensures Next(w, s).proxy.namespaceEventStreamSocket == w.proxy.namespaceEventStreamSocket
  {
    ext := Next(w, s).proxy.log[|w.proxy.log|..];
  }

  lemma LatestStep(w: World, s: Step)
    requires RegistersLatest(w.proxy) && TalksToLatest(w.proxy.log) && Enabled(w, s)
    ensures RegistersLatest(Next(w, s).proxy) && TalksToLatest(Next(w, s).proxy.log)
  {
    var p, q := w.proxy, Next(w, s).proxy;
    if s.StartEnd? && s.outcome.Some? {
      OpenLatest(w, s);
    } else if s.Disconnect? {
      var ext := DepartureRegistered(p, s.client);
      ExtendLatest(p, q, ext);
    } else {
      var ext := OtherRegistered(w, s);
      ExtendLatest(p, q, ext);
    }
  }

  /** In every run, however starts overlap: the socket registered for a namespace is the one opened
      last for it, and every ack, nack and close goes to the socket opened last for its namespace. */
  lemma {:induction false} LatestAlways(trace: seq<Step>)
    requires Run(trace)
    ensures RegistersLatest(After(trace).proxy)
    ensures TalksToLatest(After(trace).proxy.log)
  {
    if trace == [] {
    } else {
      LatestAlways(trace[..|trace| - 1]);
      LatestStep(After(trace[..|trace| - 1]), trace[|trace| - 1]);
    }
  }
}
