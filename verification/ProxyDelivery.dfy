/** What every run delivers and settles: the lists the proxy keeps are exactly those the log
    implies, the log stays legal, and every verdict reaches a live socket. */
module ProxyDelivery {
  import opened Js
  import opened ProxyState
  import opened ProxyLog
  import opened ProxyRuns

  /** Every list of `awaitingAck` is what the log says is in flight, and every connected client has
      one. */
  ghost predicate Tracked(p: Proxy, connected: set<ClientId>) {
    && (forall c :: c in connected ==> c in p.awaitingAck && Gone(c) !in p.log)
    && (forall c :: c in p.awaitingAck ==> p.awaitingAck[c] == InFlight(p.log, c))
  }

  /** Whoever holds a message is still registered for its namespace. */
  ghost predicate Homed(p: Proxy) {
    forall c, m {:trigger m in InFlight(p.log, c)} :: m in InFlight(p.log, c) ==>
      m.namespace in p.namespaceClients.entries && c in p.namespaceClients.entries[m.namespace]
  }

  /** A verdict is on a delivered message that its client has acked or left behind. */
  ghost predicate Settled(log: seq<Obs>) {
    forall e :: e in log && e.IsVerdict() ==>
      Sent(e.client, e.msg) in log && (ClientAcked(e.client, e.msg) in log || LeftBehind(log, e.client, e.msg))
  }

  ghost predicate LogOk(log: seq<Obs>) {
    Legal(log) && AcksAnswered(log) && NacksLeaving(log) && Settled(log)
  }

  ghost predicate Known(w: World) {
    && w.connected <= w.seen
    && (forall c :: c in w.proxy.awaitingAck ==> c in w.seen)
    && (forall c :: Gone(c) in w.proxy.log ==> c in w.seen)
    && (forall c, ns :: (c, ns) in w.pending ==> c in w.seen)
    && (forall ns, c :: ns in w.proxy.namespaceClients.entries && c in w.proxy.namespaceClients.entries[ns] ==> c in w.seen)
    && (forall c :: c in w.seen && c !in w.connected ==> Gone(c) in w.proxy.log)
  }

  ghost predicate Delivery(w: World) {
    && Registry(w.proxy)
    && Tracked(w.proxy, w.connected)
    && Homed(w.proxy)
    && LogOk(w.proxy.log)
    && Known(w)
  }

  lemma InFlightUnsettled(log: seq<Obs>, c: ClientId, m: Message)
    requires Legal(log) && Settled(log) && m in InFlight(log, c)
    ensures Unsettled(log, m)
  {
    Conservation(log);
    forall e | e in log && e.IsVerdict()
      ensures e.msg.id != m.id
    {
      if e.msg.id == m.id {
        SameDelivery(log, c, m, e.client, e.msg);
      }
    }
  }

  /** Entries that move no message. */
  ghost predicate Still(ext: seq<Obs>) {
    forall e :: e in ext ==> !e.Sent? && !e.ClientAcked? && !e.Gone?
  }

  lemma {:induction false} StillInFlight(log: seq<Obs>, ext: seq<Obs>, c: ClientId)
    requires Still(ext)
    ensures InFlight(log + ext, c) == InFlight(log, c)
  {
    if ext == [] {
      assert log + ext == log;
    } else {
      var front, last := ext[..|ext| - 1], ext[|ext| - 1];
      assert log + ext == (log + front) + [last];
      assert last in ext && forall e :: e in front ==> e in ext;
      StillInFlight(log, front, c);
      InFlightSnoc(log + front, last, c);
    }
  }

  lemma AcksAnsweredMore(log: seq<Obs>, ext: seq<Obs>)
    requires AcksAnswered(log) && forall e :: e in ext ==> !e.ClientAcked?
    ensures AcksAnswered(log + ext)
  {
    var all := log + ext;
    forall i | 0 <= i < |all| && all[i].ClientAcked? && InFlight(all[..i + 1], all[i].client) == []
      ensures i + 1 < |all| && all[i + 1].UpAck? && all[i + 1].client == all[i].client && all[i + 1].msg == all[i].msg
    {
      assert all[i] in ext || i < |log|;
      assert all[..i + 1] == log[..i + 1];
      assert all[i] == log[i];
    }
  }

  lemma LeavingMore(log: seq<Obs>, ext: seq<Obs>, i: nat, c: ClientId)
    requires LeavingFrom(log, i, c)
    ensures LeavingFrom(log + ext, i, c)
  {
    var j :| i < j < |log| && log[j] == Gone(c) &&
      forall k :: i < k < j ==> log[k].Closed? || (log[k].UpNack? && log[k].client == c);
    assert (log + ext)[j] == log[j];
    assert forall k :: i < k < j ==> (log + ext)[k] == log[k];
  }

  lemma NacksLeavingMore(log: seq<Obs>, ext: seq<Obs>)
    requires NacksLeaving(log) && forall e :: e in ext ==> !e.UpNack?
    ensures NacksLeaving(log + ext)
  {
    var all := log + ext;
    forall i | 0 <= i < |all| && all[i].UpNack?
      ensures LeavingFrom(all, i, all[i].client)
    {
      assert all[i] in ext || i < |log|;
      assert all[i] == log[i];
      LeavingMore(log, ext, i, log[i].client);
    }
  }

  lemma SettledMore(log: seq<Obs>, ext: seq<Obs>)
    requires Settled(log) && forall e :: e in ext ==> !e.IsVerdict()
    ensures Settled(log + ext)
  {
    var all := log + ext;
    forall e | e in all && e.IsVerdict()
      ensures Sent(e.client, e.msg) in all && (ClientAcked(e.client, e.msg) in all || LeftBehind(all, e.client, e.msg))
    {
      if LeftBehind(log, e.client, e.msg) {
        LeftBehindMore(log, ext, e.client, e.msg);
      }
    }
  }

  // ---------------------------------------------------------------- disconnect

  lemma {:induction false} OfNamespaceIn(msgs: seq<Message>, ns: Namespace)
    ensures forall m :: m in OfNamespace(msgs, ns) <==> m in msgs && m.namespace == ns
    ensures DistinctIds(msgs) ==> DistinctIds(OfNamespace(msgs, ns))
  {
    if msgs == [] {
    } else {
      OfNamespaceIn(msgs[1..], ns);
    }
  }

  /** `ext` continues `log` step by step. */
  ghost predicate Extends(log: seq<Obs>, ext: seq<Obs>) {
    ext == [] || (
      var n := |ext| - 1;
      Extends(log, ext[..n]) && LegalNext(log + ext[..n], ext[n]))
  }

  lemma ExtendsSnoc(log: seq<Obs>, ext: seq<Obs>, e: Obs)
    requires Extends(log, ext) && LegalNext(log + ext, e)
    ensures Extends(log, ext + [e])
  {
    assert (ext + [e])[..|ext|] == ext;
  }

  lemma LegalPush(log: seq<Obs>, e: Obs, all: seq<Obs>)
    requires Legal(log) && LegalNext(log, e) && all == log + [e]
    ensures Legal(all)
  {
    assert all[..|all| - 1] == log;
  }

  lemma {:induction false} LegalExtend(log: seq<Obs>, ext: seq<Obs>, all: seq<Obs>)
    requires Legal(log) && Extends(log, ext) && all == log + ext
    ensures Legal(all)
    decreases |ext|
  {
    if ext == [] {
      assert all == log;
    } else {
      var n := |ext| - 1;
      var front := log + ext[..n];
      LegalExtend(log, ext[..n], front);
      assert all == front + [ext[n]];
      LegalPush(front, ext[n], all);
    }
  }

  ghost predicate Nackable(log: seq<Obs>, c: ClientId, k: SocketId, m: Message) {
    m in InFlight(log, c) && Gone(c) !in log && Unsettled(log, m) && Live(log, k, m.namespace)
  }

  ghost predicate AllNackable(log: seq<Obs>, c: ClientId, k: SocketId, msgs: seq<Message>)
    decreases |msgs|
  {
    msgs == [] || (Nackable(log, c, k, msgs[0]) && AllNackable(log, c, k, msgs[1..]))
  }

  lemma {:induction false} AllNackableIf(log: seq<Obs>, c: ClientId, k: SocketId, msgs: seq<Message>)
    requires forall i :: 0 <= i < |msgs| ==> Nackable(log, c, k, msgs[i])
    ensures AllNackable(log, c, k, msgs)
    decreases |msgs|
  {
    if msgs == [] {
    } else {
      AllNackableIf(log, c, k, msgs[1..]);
    }
  }

  lemma StillNackable(log: seq<Obs>, c: ClientId, k: SocketId, first: Message, m: Message)
    requires Nackable(log, c, k, m) && m.id != first.id
    ensures Nackable(log + [UpNack(c, k, first)], c, k, m)
  {
    StillInFlight(log, [UpNack(c, k, first)], c);
  }

  lemma {:induction false} StillAllNackable(log: seq<Obs>, c: ClientId, k: SocketId, first: Message, msgs: seq<Message>)
    requires AllNackable(log, c, k, msgs) && forall i :: 0 <= i < |msgs| ==> msgs[i].id != first.id
    ensures AllNackable(log + [UpNack(c, k, first)], c, k, msgs)
    decreases |msgs|
  {
    if msgs == [] {
    } else {
      StillNackable(log, c, k, first, msgs[0]);
      StillAllNackable(log, c, k, first, msgs[1..]);
    }
  }

  lemma FirstNackLegal(log: seq<Obs>, c: ClientId, k: SocketId, m: Message)
    requires Legal(log) && Nackable(log, c, k, m)
    ensures Legal(log + [UpNack(c, k, m)])
  {
    LegalSnoc(log, UpNack(c, k, m));
  }

  lemma FirstNack(log: seq<Obs>, c: ClientId, k: SocketId, msgs: seq<Message>, more: seq<Obs>)
    requires msgs != [] && more == log + [UpNack(c, k, msgs[0])]
    ensures log + NacksFor(c, k, msgs) == more + NacksFor(c, k, msgs[1..])
  {
  }

  lemma {:induction false} NacksLegal(log: seq<Obs>, c: ClientId, k: SocketId, msgs: seq<Message>, all: seq<Obs>)
    requires Legal(log) && DistinctIds(msgs) && AllNackable(log, c, k, msgs) && all == log + NacksFor(c, k, msgs)
    ensures Legal(all)
    decreases |msgs|
  {
    if msgs == [] {
      assert all == log;
    } else {
      var first, rest := msgs[0], msgs[1..];
      var more := log + [UpNack(c, k, first)];
      FirstNack(log, c, k, msgs, more);
      FirstNackLegal(log, c, k, first);
      StillAllNackable(log, c, k, first, rest);
      NacksLegal(more, c, k, rest, all);
    }
  }

  lemma ClosesStep(p: Proxy, c: ClientId, i: nat) returns (e: Option<Obs>)
    requires i < |p.namespaceClients.order|
    ensures e.Some? ==> e.value.Closed? && e.value.namespace == p.namespaceClients.order[i]
    ensures e.Some? ==> e.value.namespace in p.namespaceEventStreamSocket
    ensures e.Some? ==> e.value.socket == p.namespaceEventStreamSocket[e.value.namespace]
    ensures Closes(p, c, i + 1) == if e.Some? then Closes(p, c, i) + [e.value] else Closes(p, c, i)
  {
    var ns := p.namespaceClients.order[i];
    if !StillServed(p, c, ns) && ns in p.namespaceEventStreamSocket {
      e := Some(Closed(p.namespaceEventStreamSocket[ns], ns));
    } else {
      e := None;
      assert Closes(p, c, i) + [] == Closes(p, c, i);
    }
  }

  lemma ClosesOnce(p: Proxy, c: ClientId, i: nat, k: SocketId)
    requires Distinct(p.namespaceClients.order) && i < |p.namespaceClients.order|
    ensures Closed(k, p.namespaceClients.order[i]) !in Closes(p, c, i)
  {
    var e := Closed(k, p.namespaceClients.order[i]);
    if e in Closes(p, c, i) {
      ClosesIn(p, c, i, e);
      var j :| 0 <= j < i && p.namespaceClients.order[j] == e.namespace;
      DistinctAt(p.namespaceClients.order, j, i);
    }
  }

  lemma CloseNext(log: seq<Obs>, ext: seq<Obs>, e: Obs)
    requires e.Closed? && Live(log, e.socket, e.namespace) && e !in ext
    ensures LegalNext(log + ext, e)
  {
  }

  lemma ClosesExtendStep(p: Proxy, c: ClientId, log: seq<Obs>, i: nat)
    requires Distinct(p.namespaceClients.order) && i < |p.namespaceClients.order|
    requires forall ns :: ns in p.namespaceEventStreamSocket ==> Live(log, p.namespaceEventStreamSocket[ns], ns)
    requires Extends(log, Closes(p, c, i))
    ensures Extends(log, Closes(p, c, i + 1))
  {
    var e := ClosesStep(p, c, i);
    if e.Some? {
      ClosesOnce(p, c, i, e.value.socket);
      CloseNext(log, Closes(p, c, i), e.value);
      ExtendsSnoc(log, Closes(p, c, i), e.value);
    }
  }

  lemma {:induction false} ClosesExtend(p: Proxy, c: ClientId, log: seq<Obs>, i: nat)
    requires Distinct(p.namespaceClients.order) && i <= |p.namespaceClients.order|
    requires forall ns :: ns in p.namespaceEventStreamSocket ==> Live(log, p.namespaceEventStreamSocket[ns], ns)
    ensures Extends(log, Closes(p, c, i))
  {
    if i == 0 {
    } else {
      ClosesExtend(p, c, log, i - 1);
      ClosesExtendStep(p, c, log, i - 1);
    }
  }

  lemma ClosesLegal(p: Proxy, c: ClientId, log: seq<Obs>)
    requires Distinct(p.namespaceClients.order) && Legal(log)
    requires forall ns :: ns in p.namespaceEventStreamSocket ==> Live(log, p.namespaceEventStreamSocket[ns], ns)
    ensures Legal(log + Closes(p, c, |p.namespaceClients.order|))
  {
    ClosesExtend(p, c, log, |p.namespaceClients.order|);
    LegalExtend(log, Closes(p, c, |p.namespaceClients.order|), log + Closes(p, c, |p.namespaceClients.order|));
  }

  /** The nacks a disconnect adds are on messages the client holds, towards their own socket. */
  lemma NacksOf(p: Proxy, c: ClientId)
    requires Registry(p) && c in p.awaitingAck && p.awaitingAck[c] == InFlight(p.log, c)
    requires Legal(p.log) && Settled(p.log) && Gone(c) !in p.log
    ensures Legal(p.log + Nacks(p, c))
  {
    if p.namespaceClients.order == [] || p.namespaceClients.order[0] !in p.namespaceEventStreamSocket {
      assert p.log + Nacks(p, c) == p.log;
    } else {
      var ns := p.namespaceClients.order[0];
      var msgs := OfNamespace(p.awaitingAck[c], ns);
      OfNamespaceIn(p.awaitingAck[c], ns);
      HeldDistinct(p.log, c);
      forall i | 0 <= i < |msgs| ensures Nackable(p.log, c, p.namespaceEventStreamSocket[ns], msgs[i]) {
        assert msgs[i] in msgs;
        InFlightUnsettled(p.log, c, msgs[i]);
      }
      AllNackableIf(p.log, c, p.namespaceEventStreamSocket[ns], msgs);
      NacksLegal(p.log, c, p.namespaceEventStreamSocket[ns], msgs, p.log + Nacks(p, c));
    }
  }

  /** The client's list when it goes, and the entries its disconnect adds before `Gone`. */
  lemma LeavingShape(p: Proxy, c: ClientId)
    requires c in p.awaitingAck && p.awaitingAck[c] == InFlight(p.log, c)
    ensures forall e :: e in Nacks(p, c) ==> e.UpNack? && e.client == c && e.msg in InFlight(p.log, c)
    ensures forall e :: e in Closes(p, c, |p.namespaceClients.order|) ==> e.Closed?
  {
    var n := |p.namespaceClients.order|;
    if p.namespaceClients.order != [] {
      OfNamespaceIn(p.awaitingAck[c], p.namespaceClients.order[0]);
    }
    forall e | e in Closes(p, c, n)
      ensures e.Closed?
    {
      ClosesIn(p, c, n, e);
    }
  }

  lemma TailLeaving(log: seq<Obs>, quiet: seq<Obs>, c: ClientId)
    requires NacksLeaving(log)
    requires forall e :: e in quiet ==> e.Closed? || (e.UpNack? && e.client == c)
    ensures NacksLeaving(log + quiet + [Gone(c)])
  {
    var ext := quiet + [Gone(c)];
    var all := log + ext;
    assert log + quiet + [Gone(c)] == all;
    forall i | 0 <= i < |all| && all[i].UpNack?
      ensures LeavingFrom(all, i, all[i].client)
    {
      if i < |log| {
        LeavingMore(log, ext, i, log[i].client);
      } else {
        assert all[i] == quiet[i - |log|] && quiet[i - |log|] in quiet;
        assert all[|all| - 1] == Gone(c);
        forall k | i < k < |all| - 1
          ensures all[k].Closed? || (all[k].UpNack? && all[k].client == c)
        {
          assert all[k] == quiet[k - |log|] && quiet[k - |log|] in quiet;
        }
      }
    }
  }

  lemma TailSettled(log: seq<Obs>, quiet: seq<Obs>, c: ClientId)
    requires Legal(log) && Settled(log)
    requires forall e :: e in quiet ==> e.Closed? || (e.UpNack? && e.client == c && e.msg in InFlight(log, c))
    ensures Settled(log + quiet + [Gone(c)])
    ensures forall d :: Gone(d) in log + quiet + [Gone(c)] <==> Gone(d) in log || d == c
  {
    var mid := log + quiet;
    var all := mid + [Gone(c)];
    Conservation(log);
    forall e | e in all && e.IsVerdict()
      ensures Sent(e.client, e.msg) in all && (ClientAcked(e.client, e.msg) in all || LeftBehind(all, e.client, e.msg))
    {
      if e in quiet {
        LeftBehindSnoc(mid, Gone(c), all, e.client, e.msg);
      } else if LeftBehind(log, e.client, e.msg) {
        assert log + (quiet + [Gone(c)]) == all;
        LeftBehindMore(log, quiet + [Gone(c)], e.client, e.msg);
      }
    }
  }

  lemma StillLive(log: seq<Obs>, nacks: seq<Obs>, k: SocketId, ns: Namespace)
    requires Live(log, k, ns) && forall e :: e in nacks ==> e.UpNack?
    ensures Live(log + nacks, k, ns)
  {
  }

  lemma GoneNotAdded(log: seq<Obs>, ext: seq<Obs>, c: ClientId)
    requires Gone(c) !in log && forall e :: e in ext ==> !e.Gone?
    ensures Gone(c) !in log + ext
  {
  }

  lemma DisconnectLegal(p: Proxy, c: ClientId)
    requires Registry(p) && c in p.awaitingAck && p.awaitingAck[c] == InFlight(p.log, c)
    requires Legal(p.log) && Settled(p.log) && Gone(c) !in p.log
    ensures Legal(DepartureLog(p, c))
  {
    var nacks, closes := Nacks(p, c), Closes(p, c, |p.namespaceClients.order|);
    LeavingShape(p, c);
    NacksOf(p, c);
    forall ns | ns in p.namespaceEventStreamSocket ensures Live(p.log + nacks, p.namespaceEventStreamSocket[ns], ns) {
      StillLive(p.log, nacks, p.namespaceEventStreamSocket[ns], ns);
    }
    ClosesLegal(p, c, p.log + nacks);
    GoneNotAdded(p.log, nacks, c);
    GoneNotAdded(p.log + nacks, closes, c);
    LegalSnoc(p.log + nacks + closes, Gone(c));
  }

  /** What a departing client adds to the log keeps the log in order. */
  lemma LeavingLogOk(log: seq<Obs>, quiet: seq<Obs>, c: ClientId)
    requires LogOk(log) && Legal(log + quiet + [Gone(c)])
    requires forall e :: e in quiet ==> e.Closed? || (e.UpNack? && e.client == c && e.msg in InFlight(log, c))
    ensures LogOk(log + quiet + [Gone(c)])
    ensures forall d :: Gone(d) in log + quiet + [Gone(c)] <==> Gone(d) in log || d == c
  {
    TailLeaving(log, quiet, c);
    TailSettled(log, quiet, c);
    AcksAnsweredMore(log, quiet);
    AcksAnsweredMore(log + quiet, [Gone(c)]);
  }

  lemma DepartureShape(p: Proxy, c: ClientId) returns (quiet: seq<Obs>)
    requires c in p.awaitingAck && p.awaitingAck[c] == InFlight(p.log, c)
    ensures DepartureLog(p, c) == p.log + quiet + [Gone(c)]
    ensures forall e :: e in quiet ==> e.Closed? || (e.UpNack? && e.client == c && e.msg in InFlight(p.log, c))
  {
    quiet := Nacks(p, c) + Closes(p, c, |p.namespaceClients.order|);
    LeavingShape(p, c);
    assert p.log + Nacks(p, c) + Closes(p, c, |p.namespaceClients.order|) == p.log + quiet;
  }

  lemma LeaveLog(p: Proxy, c: ClientId) returns (ext: seq<Obs>)
    requires c in p.awaitingAck && p.awaitingAck[c] == InFlight(p.log, c)
    ensures DepartureLog(p, c) == p.log + ext
    ensures forall e :: e in ext ==> e.UpNack? || e.Closed? || e.Gone?
  {
    var quiet := DepartureShape(p, c);
    ext := quiet + [Gone(c)];
    assert p.log + quiet + [Gone(c)] == p.log + ext;
  }

  lemma DepartureLogOk(p: Proxy, c: ClientId)
    requires Registry(p) && c in p.awaitingAck && p.awaitingAck[c] == InFlight(p.log, c)
    requires LogOk(p.log) && Gone(c) !in p.log
    ensures LogOk(DepartureLog(p, c))
    ensures forall d :: Gone(d) in DepartureLog(p, c) <==> Gone(d) in p.log || d == c
  {
    var quiet := DepartureShape(p, c);
    DisconnectLegal(p, c);
    LeavingLogOk(p.log, quiet, c);
  }

  lemma DisconnectLog(p: Proxy, c: ClientId)
    requires Registry(p) && c in p.awaitingAck && p.awaitingAck[c] == InFlight(p.log, c)
    requires LogOk(p.log) && Gone(c) !in p.log
    ensures LogOk(Disconnected(p, c).log)
    ensures forall d :: Gone(d) in Disconnected(p, c).log <==> Gone(d) in p.log || d == c
  {
    DepartureLogOk(p, c);
  }

  lemma QuietInFlight(log: seq<Obs>, quiet: seq<Obs>, c: ClientId)
    requires forall e :: e in quiet ==> e.Closed? || e.UpNack?
    ensures forall d :: InFlight(log + quiet + [Gone(c)], d) == if d == c then [] else InFlight(log, d)
  {
    forall d ensures InFlight(log + quiet + [Gone(c)], d) == if d == c then [] else InFlight(log, d) {
      StillInFlight(log, quiet, d);
      InFlightSnoc(log + quiet, Gone(c), d);
    }
  }

  lemma DisconnectInFlight(p: Proxy, c: ClientId)
    requires c in p.awaitingAck && p.awaitingAck[c] == InFlight(p.log, c)
    ensures forall d :: InFlight(Disconnected(p, c).log, d) == if d == c then [] else InFlight(p.log, d)
  {
    var quiet := DepartureShape(p, c);
    QuietInFlight(p.log, quiet, c);
  }

  lemma NoMembers(msgs: seq<Message>)
    ensures (forall m :: m !in msgs) ==> msgs == []
  {
    assert msgs != [] ==> msgs[0] in msgs;
  }

  /** With no active namespace nothing is in flight, so the list a disconnect then leaves
      behind is empty. */
  lemma NothingHeld(p: Proxy, c: ClientId)
    requires MapsAgree(p) && Homed(p) && p.namespaceClients.order == []
    ensures InFlight(p.log, c) == []
  {
    assert forall ns :: ns !in p.namespaceClients.entries;
    forall m
      ensures m !in InFlight(p.log, c)
    {
    }
    NoMembers(InFlight(p.log, c));
  }

  lemma DisconnectTracked(p: Proxy, connected: set<ClientId>, c: ClientId)
    requires MapsAgree(p) && Tracked(p, connected) && Homed(p) && c in connected
    requires forall d :: InFlight(Disconnected(p, c).log, d) == if d == c then [] else InFlight(p.log, d)
    requires forall d :: Gone(d) in Disconnected(p, c).log <==> Gone(d) in p.log || d == c
    ensures Tracked(Disconnected(p, c), connected - {c})
  {
    if p.namespaceClients.order == [] {
      NothingHeld(p, c);
    }
    var before, after := p.awaitingAck, Disconnected(p, c).awaitingAck;
    forall d | d in after ensures d in before && after[d] == before[d] && (d == c ==> after[d] == []) {
    }
    assert forall d :: d in connected - {c} ==> d in after;
  }

  lemma DisconnectHomed(p: Proxy, c: ClientId)
    requires Homed(p)
    requires forall d :: InFlight(Disconnected(p, c).log, d) == if d == c then [] else InFlight(p.log, d)
    ensures Homed(Disconnected(p, c))
  {
    var q := Disconnected(p, c);
    var entries, entries' := p.namespaceClients.entries, q.namespaceClients.entries;
    assert forall ns :: ns in entries' ==> ns in entries && entries'[ns] == entries[ns] - {c};
    forall d, m | m in InFlight(q.log, d)
      ensures m.namespace in entries' && d in entries'[m.namespace]
    {
      assert d != c && m in InFlight(p.log, d);
      assert d in entries[m.namespace] - {c};
    }
  }

  lemma DisconnectKnown(w: World, c: ClientId)
    requires Known(w) && c in w.connected
    requires forall d :: Gone(d) in Disconnected(w.proxy, c).log <==> Gone(d) in w.proxy.log || d == c
    ensures Known(Next(w, Disconnect(c)))
  {
  }

  lemma DisconnectDelivery(w: World, c: ClientId)
    requires Delivery(w) && Enabled(w, Disconnect(c))
    ensures Delivery(Next(w, Disconnect(c)))
  {
    RegistryStep(w, Disconnect(c));
    DisconnectLog(w.proxy, c);
    DisconnectInFlight(w.proxy, c);
    DisconnectTracked(w.proxy, w.connected, c);
    DisconnectHomed(w.proxy, c);
    DisconnectKnown(w, c);
  }

  // ---------------------------------------------------------------- the other steps

  lemma QuietHeld(log: seq<Obs>, e: Obs)
    requires e.Opened? || e.Arrived?
    ensures forall c :: InFlight(log + [e], c) == InFlight(log, c)
  {
    forall c ensures InFlight(log + [e], c) == InFlight(log, c) {
      InFlightSnoc(log, e, c);
    }
  }

  lemma QuietLogOk(log: seq<Obs>, e: Obs, all: seq<Obs>)
    requires LogOk(log) && LegalNext(log, e) && (e.Opened? || e.Arrived?) && all == log + [e]
    ensures LogOk(all)
  {
    LegalPush(log, e, all);
    AcksAnsweredMore(log, [e]);
    NacksLeavingMore(log, [e]);
    SettledMore(log, [e]);
  }

  /** Opening a socket or queueing a batch neither moves nor settles a message. */
  lemma QuietLog(log: seq<Obs>, e: Obs)
    requires LogOk(log) && LegalNext(log, e) && (e.Opened? || e.Arrived?)
    ensures LogOk(log + [e])
    ensures forall c :: InFlight(log + [e], c) == InFlight(log, c)
  {
    QuietLogOk(log, e, log + [e]);
    QuietHeld(log, e);
  }

  lemma SentHeld(log: seq<Obs>, c: ClientId, m: Message)
    ensures forall d :: InFlight(log + [Sent(c, m)], d) == InFlight(log, d) + if d == c then [m] else []
  {
    forall d ensures InFlight(log + [Sent(c, m)], d) == InFlight(log, d) + if d == c then [m] else [] {
      InFlightSnoc(log, Sent(c, m), d);
    }
  }

  lemma SentLogOk(log: seq<Obs>, e: Obs, all: seq<Obs>)
    requires LogOk(log) && e.Sent? && FreshId(log, e.msg.id) && all == log + [e]
    ensures LogOk(all)
  {
    LegalPush(log, e, all);
    AcksAnsweredMore(log, [e]);
    NacksLeavingMore(log, [e]);
    SettledMore(log, [e]);
  }

  lemma SentLog(log: seq<Obs>, c: ClientId, m: Message)
    requires LogOk(log) && FreshId(log, m.id)
    ensures LogOk(log + [Sent(c, m)])
    ensures forall d :: InFlight(log + [Sent(c, m)], d) == InFlight(log, d) + if d == c then [m] else []
  {
    SentLogOk(log, Sent(c, m), log + [Sent(c, m)]);
    SentHeld(log, c, m);
  }

  lemma SendWorld(p: Proxy, connected: set<ClientId>, m: Message, c: ClientId)
    requires Tracked(p, connected) && Homed(p)
    requires m.namespace in p.namespaceClients.entries && c in p.namespaceClients.entries[m.namespace]
    requires forall d :: InFlight(p.log + [Sent(c, m)], d) == InFlight(p.log, d) + if d == c then [m] else []
    ensures Tracked(Delivered(p, m, c), connected) && Homed(Delivered(p, m, c))
  {
  }

  lemma SendKnown(w: World, p: Proxy, m: Message, c: ClientId)
    requires Known(w) && p.awaitingAck == w.proxy.awaitingAck && p.log == w.proxy.log
    requires p.namespaceClients == w.proxy.namespaceClients
    ensures Known(w.(proxy := Delivered(p, m, c)))
  {
  }

  lemma SendDelivery(w: World, task: Task)
    requires Delivery(w) && Enabled(w, RunTask(task)) && task.Deliver?
    requires w.proxy.queue[0].namespace in w.proxy.namespaceClients.entries
    ensures Delivery(Next(w, RunTask(task)))
  {
    var p := w.proxy.(queue := w.proxy.queue[1..]);
    var m := Message(task.id, w.proxy.queue[0].namespace, w.proxy.queue[0].batchNumber);
    RegistryStep(w, RunTask(task));
    SentLog(p.log, task.choice, m);
    SendWorld(p, w.connected, m, task.choice);
    SendKnown(w, p, m, task.choice);
  }

  /** The socket lookup of `handleAck` never fails: an in-flight message has a registered socket. */
  lemma HeldHasSocket(p: Proxy, c: ClientId, m: Message)
    requires Registry(p) && Homed(p) && m in InFlight(p.log, c)
    ensures m.namespace in p.namespaceEventStreamSocket
    ensures Live(p.log, p.namespaceEventStreamSocket[m.namespace], m.namespace)
  {
  }

  /** What an accepted ack adds to the log: the upstream ack exactly if the list becomes empty. */
  function AckEntries(c: ClientId, k: SocketId, m: Message, held: seq<Message>): seq<Obs> {
    [ClientAcked(c, m)] + if WithoutId(held, m.id) == [] then [UpAck(c, k, m)] else []
  }

  lemma AckedIs(p: Proxy, connected: set<ClientId>, c: ClientId, id: string) returns (m: Message)
    requires Registry(p) && Tracked(p, connected) && Homed(p)
    requires c in connected && FindById(p.awaitingAck[c], id).Some?
    ensures m.id == id && m in InFlight(p.log, c)
    ensures m.namespace in p.namespaceEventStreamSocket
    ensures Live(p.log, p.namespaceEventStreamSocket[m.namespace], m.namespace)
    ensures Acked(p, c, id) == p.(
      awaitingAck := p.awaitingAck[c := WithoutId(InFlight(p.log, c), id)],
      log := p.log + AckEntries(c, p.namespaceEventStreamSocket[m.namespace], m, InFlight(p.log, c)))
  {
    m := FindById(p.awaitingAck[c], id).value;
    HeldHasSocket(p, c, m);
  }

  lemma AckInFlight(log: seq<Obs>, c: ClientId, k: SocketId, m: Message)
    ensures forall d :: InFlight(log + AckEntries(c, k, m, InFlight(log, c)), d) ==
                        if d == c then WithoutId(InFlight(log, c), m.id) else InFlight(log, d)
  {
    var mid := log + [ClientAcked(c, m)];
    var ext := AckEntries(c, k, m, InFlight(log, c))[1..];
    forall d
      ensures InFlight(mid + ext, d) == if d == c then WithoutId(InFlight(log, c), m.id) else InFlight(log, d)
    {
      InFlightSnoc(log, ClientAcked(c, m), d);
      StillInFlight(mid, ext, d);
    }
    assert log + AckEntries(c, k, m, InFlight(log, c)) == mid + ext;
  }

  lemma AckLegal(log: seq<Obs>, c: ClientId, k: SocketId, m: Message)
    requires Legal(log) && Settled(log) && m in InFlight(log, c) && Gone(c) !in log && Live(log, k, m.namespace)
    ensures Legal(log + AckEntries(c, k, m, InFlight(log, c)))
  {
    var mid := log + [ClientAcked(c, m)];
    InFlightUnsettled(log, c, m);
    LegalSnoc(log, ClientAcked(c, m));
    if WithoutId(InFlight(log, c), m.id) == [] {
      InFlightSnoc(log, ClientAcked(c, m), c);
      assert Live(mid, k, m.namespace) && Unsettled(mid, m);
      LegalSnoc(mid, UpAck(c, k, m));
      assert log + AckEntries(c, k, m, InFlight(log, c)) == mid + [UpAck(c, k, m)];
    }
  }

  lemma AckAnswered(log: seq<Obs>, c: ClientId, k: SocketId, m: Message)
    requires AcksAnswered(log)
    ensures AcksAnswered(log + AckEntries(c, k, m, InFlight(log, c)))
  {
    var ext := AckEntries(c, k, m, InFlight(log, c));
    var all := log + ext;
    InFlightSnoc(log, ClientAcked(c, m), c);
    forall i | 0 <= i < |all| && all[i].ClientAcked? && InFlight(all[..i + 1], all[i].client) == []
      ensures i + 1 < |all| && all[i + 1].UpAck? && all[i + 1].client == all[i].client && all[i + 1].msg == all[i].msg
    {
      if i < |log| {
        assert all[..i + 1] == log[..i + 1];
        assert i + 1 < |log| && all[i + 1] == log[i + 1];
      } else {
        assert all[..i + 1] == log + [ClientAcked(c, m)];
      }
    }
  }

  lemma AckSettled(log: seq<Obs>, c: ClientId, k: SocketId, m: Message)
    requires Legal(log) && Settled(log) && m in InFlight(log, c)
    ensures Settled(log + AckEntries(c, k, m, InFlight(log, c)))
  {
    var ext := AckEntries(c, k, m, InFlight(log, c));
    var all := log + ext;
    Conservation(log);
    assert ext[0] == ClientAcked(c, m) && ClientAcked(c, m) in all;
    forall e | e in all && e.IsVerdict()
      ensures Sent(e.client, e.msg) in all && (ClientAcked(e.client, e.msg) in all || LeftBehind(all, e.client, e.msg))
    {
      if e in log && LeftBehind(log, e.client, e.msg) {
        LeftBehindMore(log, ext, e.client, e.msg);
      }
    }
  }

  lemma AckLog(log: seq<Obs>, c: ClientId, k: SocketId, m: Message)
    requires LogOk(log) && m in InFlight(log, c) && Gone(c) !in log && Live(log, k, m.namespace)
    ensures LogOk(log + AckEntries(c, k, m, InFlight(log, c)))
  {
    AckLegal(log, c, k, m);
    AckAnswered(log, c, k, m);
    AckSettled(log, c, k, m);
    NacksLeavingMore(log, AckEntries(c, k, m, InFlight(log, c)));
  }

  lemma AckKnown(w: World, c: ClientId, k: SocketId, m: Message)
    requires Known(w) && c in w.connected
    ensures Known(w.(proxy := w.proxy.(
      awaitingAck := w.proxy.awaitingAck[c := WithoutId(InFlight(w.proxy.log, c), m.id)],
      log := w.proxy.log + AckEntries(c, k, m, InFlight(w.proxy.log, c)))))
  {
  }

  lemma AckTracked(p: Proxy, connected: set<ClientId>, c: ClientId, k: SocketId, m: Message)
    requires Tracked(p, connected)
    ensures Tracked(p.(awaitingAck := p.awaitingAck[c := WithoutId(InFlight(p.log, c), m.id)],
                       log := p.log + AckEntries(c, k, m, InFlight(p.log, c))), connected)
  {
    AckInFlight(p.log, c, k, m);
  }

  lemma AckHomed(p: Proxy, c: ClientId, k: SocketId, m: Message)
    requires Homed(p)
    ensures Homed(p.(awaitingAck := p.awaitingAck[c := WithoutId(InFlight(p.log, c), m.id)],
                     log := p.log + AckEntries(c, k, m, InFlight(p.log, c))))
  {
    AckInFlight(p.log, c, k, m);
    WithoutIdIn(InFlight(p.log, c), m.id);
  }

  lemma AckDelivery(w: World, c: ClientId, id: string)
    requires Delivery(w) && Enabled(w, ClientAck(c, id))
    ensures Delivery(Next(w, ClientAck(c, id)))
  {
    var p := w.proxy;
    RegistryStep(w, ClientAck(c, id));
    if FindById(p.awaitingAck[c], id).Some? {
      var m := AckedIs(p, w.connected, c, id);
      var k := p.namespaceEventStreamSocket[m.namespace];
      AckLog(p.log, c, k, m);
      AckTracked(p, w.connected, c, k, m);
      AckHomed(p, c, k, m);
      AckKnown(w, c, k, m);
    }
  }

  lemma QuietWorld(p: Proxy, q: Proxy, connected: set<ClientId>, e: Obs)
    requires Tracked(p, connected) && q.awaitingAck == p.awaitingAck
    requires q.log == p.log + [e] && (e.Opened? || e.Arrived?)
    requires forall d :: InFlight(p.log + [e], d) == InFlight(p.log, d)
    ensures Tracked(q, connected)
  {
    assert forall d :: Gone(d) in q.log <==> Gone(d) in p.log;
  }

  lemma JoinHomed(p: Proxy, q: Proxy, c: ClientId, ns: Namespace)
    requires Homed(p)
    requires q.namespaceClients == Joined(p, c, ns).namespaceClients
    requires forall d :: InFlight(q.log, d) == InFlight(p.log, d)
    ensures Homed(q)
  {
  }

  lemma JoinKnown(w: World, p: Proxy, c: ClientId, ns: Namespace, pending: multiset<(ClientId, Namespace)>)
    requires Known(w) && c in w.seen && pending <= w.pending
    requires p.namespaceClients == Joined(w.proxy, c, ns).namespaceClients && p.awaitingAck == w.proxy.awaitingAck
    requires forall d :: Gone(d) in p.log <==> Gone(d) in w.proxy.log
    ensures Known(w.(proxy := p, pending := pending))
  {
  }

  lemma StartEndDelivery(w: World, c: ClientId, ns: Namespace, k: SocketId)
    requires Delivery(w) && Enabled(w, StartEnd(c, ns, Some(k)))
    ensures Delivery(Next(w, StartEnd(c, ns, Some(k))))
  {
    var q := Next(w, StartEnd(c, ns, Some(k))).proxy;
    RegistryStep(w, StartEnd(c, ns, Some(k)));
    QuietLog(w.proxy.log, Opened(k, ns));
    QuietWorld(w.proxy, q, w.connected, Opened(k, ns));
    JoinHomed(w.proxy, q, c, ns);
    JoinKnown(w, q, c, ns, w.pending - multiset{(c, ns)});
  }

  lemma ArrivalDelivery(w: World, k: SocketId, b: Batch)
    requires Delivery(w) && Enabled(w, BatchArrives(k, b))
    ensures Delivery(Next(w, BatchArrives(k, b)))
  {
    var q := Next(w, BatchArrives(k, b)).proxy;
    RegistryStep(w, BatchArrives(k, b));
    QuietLog(w.proxy.log, Arrived(b));
    QuietWorld(w.proxy, q, w.connected, Arrived(b));
  }

  /** Nobody has heard of a client before it connects. */
  lemma Unheard(w: World, c: ClientId)
    requires Homed(w.proxy) && Known(w) && c !in w.seen
    ensures InFlight(w.proxy.log, c) == []
  {
    forall m ensures m !in InFlight(w.proxy.log, c) {
    }
    NoMembers(InFlight(w.proxy.log, c));
  }

  lemma ConnectDelivery(w: World, c: ClientId)
    requires Delivery(w) && Enabled(w, Connect(c))
    ensures Delivery(Next(w, Connect(c)))
  {
    RegistryStep(w, Connect(c));
    Unheard(w, c);
  }

  lemma StartDelivery(w: World, c: ClientId, ns: Namespace)
    requires Delivery(w) && Enabled(w, StartBegin(c, ns))
    ensures Delivery(Next(w, StartBegin(c, ns)))
  {
    RegistryStep(w, StartBegin(c, ns));
    if ns in w.proxy.namespaceEventStreamSocket {
      var q := Next(w, StartBegin(c, ns)).proxy;
      JoinHomed(w.proxy, q, c, ns);
      JoinKnown(w, q, c, ns, w.pending);
    }
  }

  lemma IdleDelivery(w: World, s: Step)
    requires Delivery(w) && Enabled(w, s)
    requires (s.StartEnd? && s.outcome.None?) ||
      (s.RunTask? && (s.task.Unsent? || w.proxy.queue[0].namespace !in w.proxy.namespaceClients.entries))
    ensures Delivery(Next(w, s))
  {
    RegistryStep(w, s);
  }

  lemma DeliveryStep(w: World, s: Step)
    requires Delivery(w) && Enabled(w, s)
    ensures Delivery(Next(w, s))
  {
    if s.Disconnect? {
      DisconnectDelivery(w, s.client);
    } else if s.ClientAck? {
      AckDelivery(w, s.client, s.id);
    } else if s.RunTask? && s.task.Deliver? && w.proxy.queue[0].namespace in w.proxy.namespaceClients.entries {
      SendDelivery(w, s.task);
    } else if s.BatchArrives? {
      ArrivalDelivery(w, s.socket, s.batch);
    } else if s.StartEnd? && s.outcome.Some? {
      StartEndDelivery(w, s.client, s.namespace, s.outcome.value);
    } else if s.Connect? {
      ConnectDelivery(w, s.client);
    } else if s.StartBegin? {
      StartDelivery(w, s.client, s.namespace);
    } else {
      IdleDelivery(w, s);
    }
  }

  /** After every run, whatever clients and upstream do. */
  lemma {:induction false} DeliveryAlways(trace: seq<Step>)
    requires Run(trace)
    ensures Delivery(After(trace))
  {
    if trace == [] {
    } else {
      DeliveryAlways(trace[..|trace| - 1]);
      DeliveryStep(After(trace[..|trace| - 1]), trace[|trace| - 1]);
    }
  }
}
