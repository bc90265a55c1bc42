/** Starts that succeed for a client that has left: the one thing clients can do to make the proxy
    hand messages to nobody. */
module ProxyLateJoins {
  import opened Js
  import opened ProxyState
  import opened ProxyLog
  import opened ProxyRuns
  import opened ProxyDelivery
  import opened ProxySafety

  type Clients = map<Namespace, set<ClientId>>

  ghost predicate AllIn(entries: Clients, connected: set<ClientId>) {
    forall ns, c :: ns in entries && c in entries[ns] ==> c in connected
  }

  /** Every registered client is connected. */
  ghost predicate Attended(w: World) {
    AllIn(w.proxy.namespaceClients.entries, w.connected)
  }

  lemma LeavingKeepsIn(entries: Clients, entries': Clients, connected: set<ClientId>, c: ClientId)
    requires c in connected
    requires forall ns :: ns in entries' <==> ns in entries && entries[ns] - {c} != {}
    requires forall ns :: ns in entries' ==> entries'[ns] == entries[ns] - {c}
    ensures AllIn(entries', connected - {c}) <==> AllIn(entries, connected)
  {
    forall ns, d | AllIn(entries', connected - {c}) && ns in entries && d in entries[ns] ensures d in connected {
      if d != c {
        assert d in entries[ns] - {c} && ns in entries' && d in entries'[ns];
        assert d in connected - {c};
      }
    }
  }

  lemma DisconnectAttended(w: World, c: ClientId)
    requires c in w.connected
    ensures Attended(Next(w, Disconnect(c))) <==> Attended(w)
  {
    LeavingKeepsIn(w.proxy.namespaceClients.entries, Disconnected(w.proxy, c).namespaceClients.entries, w.connected, c);
  }

  lemma JoinAttended(w: World, c: ClientId, ns: Namespace, next: World)
    requires next.connected == w.connected
    requires next.proxy.namespaceClients == Joined(w.proxy, c, ns).namespaceClients
    ensures Attended(next) <==> Attended(w) && c in w.connected
  {
    var entries, entries' := w.proxy.namespaceClients.entries, next.proxy.namespaceClients.entries;
    assert ns in entries' && c in entries'[ns];
    assert forall n :: n in entries ==> n in entries' && entries[n] <= entries'[n];
  }

  lemma AttendedStep(w: World, s: Step)
    requires Delivery(w) && Enabled(w, s)
    ensures Attended(Next(w, s)) <==> Attended(w) && !LateJoin(w, s)
  {
    if s.Disconnect? {
      DisconnectAttended(w, s.client);
    } else if s.StartEnd? && s.outcome.Some? {
      JoinAttended(w, s.client, s.namespace, Next(w, s));
    } else if s.StartBegin? && s.namespace in w.proxy.namespaceEventStreamSocket {
      JoinAttended(w, s.client, s.namespace, Next(w, s));
    } else {
      assert Next(w, s).proxy.namespaceClients == w.proxy.namespaceClients;
    }
  }

  /** The delivery invariant always holds; that all registered clients are connected besides, it does if
      and only if no start ever succeeded for a client that had left. */
  lemma {:induction false} AttendedIff(trace: seq<Step>)
    requires Run(trace)
    ensures Delivery(After(trace)) && Attended(After(trace)) <==> !EverLateJoined(trace)
    ensures Attended(After(trace)) <==> !EverLateJoined(trace)
  {
    DeliveryAlways(trace);
    if trace == [] {
    } else {
      var before := trace[..|trace| - 1];
      DeliveryAlways(before);
      AttendedIff(before);
      AttendedStep(After(before), trace[|trace| - 1]);
    }
  }

  // ---------------------------------------------------------------- without late joins

  /** No message was handed to a client already gone. */
  ghost predicate InTime(log: seq<Obs>) {
    forall c, m {:trigger SentLate(log, c, m)} :: !SentLate(log, c, m)
  }

  lemma SentLateSnoc(log: seq<Obs>, e: Obs, all: seq<Obs>, c: ClientId, m: Message)
    requires all == log + [e]
    ensures SentLate(all, c, m) <==> SentLate(log, c, m) || (e == Sent(c, m) && Gone(c) in log)
  {
    if SentLate(log, c, m) {
      var i: nat :| i < |log| && log[i] == Sent(c, m) && Gone(c) in log[..i];
      assert all[i] == Sent(c, m) && all[..i] == log[..i];
    }
    if e == Sent(c, m) && Gone(c) in log {
      assert all[|log|] == Sent(c, m) && all[..|log|] == log;
    }
    if SentLate(all, c, m) {
      var i: nat :| i < |all| && all[i] == Sent(c, m) && Gone(c) in all[..i];
      if i < |log| {
        assert log[i] == Sent(c, m) && all[..i] == log[..i];
      } else {
        assert all[..i] == log;
      }
    }
  }

  lemma {:induction false} SentLateMore(log: seq<Obs>, ext: seq<Obs>, all: seq<Obs>, c: ClientId, m: Message)
    requires all == log + ext && forall e :: e in ext ==> !e.Sent?
    ensures SentLate(all, c, m) <==> SentLate(log, c, m)
    decreases |ext|
  {
    if ext == [] {
      assert all == log;
    } else {
      var n := |ext| - 1;
      var front := log + ext[..n];
      SentLateMore(log, ext[..n], front, c, m);
      assert ext[n] in ext;
      SentLateSnoc(front, ext[n], all, c, m);
    }
  }

  lemma {:induction false} InTimeAlways(trace: seq<Step>)
    requires Run(trace) && !EverLateJoined(trace)
    ensures InTime(After(trace).proxy.log)
  {
    if trace == [] {
    } else {
      var before, s := trace[..|trace| - 1], trace[|trace| - 1];
      InTimeAlways(before);
      DeliveryAlways(before);
      AttendedIff(before);
      InTimeStep(After(before), s);
    }
  }

  predicate Sends(w: World, s: Step) {
    s.RunTask? && s.task.Deliver? && w.proxy.queue != []
    && w.proxy.queue[0].namespace in w.proxy.namespaceClients.entries
  }

  lemma QuietStep(w: World, s: Step) returns (ext: seq<Obs>)
    requires Enabled(w, s) && !s.Disconnect? && !Sends(w, s)
    ensures Next(w, s).proxy.log == w.proxy.log + ext && forall e :: e in ext ==> !e.Sent?
  {
    ext := Next(w, s).proxy.log[|w.proxy.log|..];
  }

  lemma InTimeQuiet(log: seq<Obs>, ext: seq<Obs>, all: seq<Obs>)
    requires InTime(log) && all == log + ext && forall e :: e in ext ==> !e.Sent?
    ensures InTime(all)
  {
    forall c, m ensures !SentLate(all, c, m) {
      SentLateMore(log, ext, all, c, m);
    }
  }

  lemma InTimeSend(log: seq<Obs>, e: Obs, all: seq<Obs>)
    requires InTime(log) && all == log + [e] && e.Sent? && Gone(e.client) !in log
    ensures InTime(all)
  {
    forall c, m ensures !SentLate(all, c, m) {
      SentLateSnoc(log, e, all, c, m);
    }
  }

  lemma InTimeStep(w: World, s: Step)
    requires Delivery(w) && Enabled(w, s) && Attended(w) && InTime(w.proxy.log)
    ensures InTime(Next(w, s).proxy.log)
  {
    var log, all := w.proxy.log, Next(w, s).proxy.log;
    if s.Disconnect? {
      var ext := LeaveLog(w.proxy, s.client);
      InTimeQuiet(log, ext, all);
    } else if Sends(w, s) {
      var b := w.proxy.queue[0];
      InTimeSend(log, Sent(s.task.choice, Message(s.task.id, b.namespace, b.batchNumber)), all);
    } else {
      var ext := QuietStep(w, s);
      InTimeQuiet(log, ext, all);
    }
  }

  /** If no start succeeded for a client that had left, every message is in exactly one of three places:
      the list of a connected client, the acks, or what a departure discarded. */
  lemma ConservationInTime(trace: seq<Step>, c: ClientId, m: Message)
    requires Run(trace) && !EverLateJoined(trace) && Sent(c, m) in After(trace).proxy.log
    ensures var w := After(trace);
      var held := c in w.connected && c in w.proxy.awaitingAck && m in w.proxy.awaitingAck[c];
      var acked := ClientAcked(c, m) in w.proxy.log;
      var discarded := LeftBehind(w.proxy.log, c, m) && !acked;
      (held || acked || discarded) && !(held && acked) && !(held && discarded)
  {
    var w := After(trace);
    MessageConservation(trace, c, m);
    InTimeAlways(trace);
    assert !SentLate(w.proxy.log, c, m);
    if c in w.proxy.awaitingAck && m in w.proxy.awaitingAck[c] {
      ListsDisjoint(trace, c, m);
    }
  }

  // ---------------------------------------------------------------- after a late join

  /** `t` goes on from `trace` without any further start ending. */
  ghost predicate Continues(trace: seq<Step>, t: seq<Step>) {
    Run(t) && trace <= t && forall i :: |trace| <= i < |t| ==> !t[i].StartEnd?
  }

  lemma ContinueWith(trace: seq<Step>, t: seq<Step>, s: Step)
    requires Continues(trace, t) && Enabled(After(t), s) && !s.StartEnd?
    ensures Continues(trace, t + [s]) && After(t + [s]) == Next(After(t), s)
  {
    assert (t + [s])[..|t|] == t;
  }

  /** The queued tasks can all end without sending. */
  lemma {:induction false} Drain(trace: seq<Step>, t: seq<Step>) returns (u: seq<Step>)
    requires Continues(trace, t)
    ensures Continues(trace, u) && After(u) == After(t).(proxy := After(t).proxy.(queue := []))
    decreases |After(t).proxy.queue|
  {
    var w := After(t);
    if w.proxy.queue == [] {
      u := t;
    } else {
      ContinueWith(trace, t, RunTask(Unsent));
      u := Drain(trace, t + [RunTask(Unsent)]);
    }
  }

  /** Longer than every message id so far. */
  function LongId(log: seq<Obs>): (id: string)
    ensures forall e :: e in log && e.Sent? ==> |e.msg.id| < |id|
  {
    if log == [] then "x"
    else
      var e, id := log[|log| - 1], LongId(log[..|log| - 1]);
      assert log == log[..|log| - 1] + [e];
      if e.Sent? then e.msg.id + id + "x" else id
  }

  /** Once a client that has left is registered, the upstream only needs to push a batch for the
      message to be handed to nobody. */
  lemma LateJoinLoses(trace: seq<Step>) returns (t: seq<Step>, c: ClientId, m: Message)
    requires Run(trace) && EverLateJoined(trace)
    ensures Continues(trace, t) && SentLate(After(t).proxy.log, c, m)
  {
    AttendedIff(trace);
    DeliveryAlways(trace);
    var entries := After(trace).proxy.namespaceClients.entries;
    var ns, d :| ns in entries && d in entries[ns] && d !in After(trace).connected;
    c := d;
    var u := Drain(trace, trace);
    DeliveryAlways(u);
    t, m := Handed(trace, u, ns, c);
  }

  lemma Handed(trace: seq<Step>, u: seq<Step>, ns: Namespace, c: ClientId) returns (t: seq<Step>, m: Message)
    requires Continues(trace, u) && Delivery(After(u)) && After(u).proxy.queue == []
    requires ns in After(u).proxy.namespaceClients.entries && c in After(u).proxy.namespaceClients.entries[ns]
    requires c !in After(u).connected
    ensures Continues(trace, t) && SentLate(After(t).proxy.log, c, m)
  {
    var w := After(u);
    var b := Batch(ns, None);
    var arrives := BatchArrives(w.proxy.namespaceEventStreamSocket[ns], b);
    ContinueWith(trace, u, arrives);
    var v := u + [arrives];
    var log := w.proxy.log + [Arrived(b)];
    m := Message(LongId(log), ns, None);
    assert After(v).proxy.log == log && After(v).proxy.queue == [b];
    ContinueWith(trace, v, RunTask(Deliver(m.id, c)));
    t := v + [RunTask(Deliver(m.id, c))];
    assert Gone(c) in w.proxy.log;
    SentLateSnoc(log, Sent(c, m), log + [Sent(c, m)], c, m);
  }

  lemma {:induction false} NoFurtherLateJoin(trace: seq<Step>, t: seq<Step>)
    requires Continues(trace, t)
    ensures EverLateJoined(t) <==> EverLateJoined(trace)
    decreases |t|
  {
    if |t| == |trace| {
      assert t == trace;
    } else {
      NoFurtherLateJoin(trace, t[..|t| - 1]);
    }
  }

  /** The exact condition: without any further start, some continuation hands a message to a client
      that is gone if and only if a start has already succeeded for a client that had left. By
      `ProxySafety.LateIsLost` such a message is never acked, discarded or settled. */
  lemma CanLoseIff(trace: seq<Step>)
    requires Run(trace)
    ensures EverLateJoined(trace) <==> exists t :: Continues(trace, t) && !InTime(After(t).proxy.log)
  {
    if EverLateJoined(trace) {
      var t, c, m := LateJoinLoses(trace);
      assert Continues(trace, t) && SentLate(After(t).proxy.log, c, m);
    } else {
      forall t | Continues(trace, t) ensures InTime(After(t).proxy.log) {
        NoFurtherLateJoin(trace, t);
        InTimeAlways(t);
      }
    }
  }
}
