/** The delivery guarantees over every run, and exactly where they end. */
module ProxySafety {
  import opened Js
  import opened ProxyState
  import opened ProxyLog
  import opened ProxyRuns
  import opened ProxyDelivery

  /** Every upstream ack is the immediate answer to the ack that emptied a client's list; every
      nack is on a message its leaving client still holds; both go to the socket serving the
      message's namespace; and no message is settled twice. */
  lemma VerdictSafety(trace: seq<Step>)
    requires Run(trace)
    ensures var log := After(trace).proxy.log;
      forall i :: 0 <= i < |log| && log[i].UpAck? ==>
        && 0 < i && log[i - 1] == ClientAcked(log[i].client, log[i].msg)
        && Sent(log[i].client, log[i].msg) in log[..i - 1]
        && InFlight(log[..i], log[i].client) == []
        && Live(log[..i], log[i].socket, log[i].msg.namespace)
    ensures var log := After(trace).proxy.log;
      forall i :: 0 <= i < |log| && log[i].UpNack? ==>
        && log[i].msg in InFlight(log[..i], log[i].client)
        && LeavingFrom(log, i, log[i].client)
        && Live(log[..i], log[i].socket, log[i].msg.namespace)
    ensures var log := After(trace).proxy.log;
      forall i, j :: 0 <= i < j < |log| && log[i].IsVerdict() && log[j].IsVerdict() ==> log[i].msg.id != log[j].msg.id
  {
    var log := After(trace).proxy.log;
    DeliveryAlways(trace);
    OneVerdict(log);
    forall i | 0 <= i < |log| && log[i].UpAck?
      ensures 0 < i && log[i - 1] == ClientAcked(log[i].client, log[i].msg)
      ensures Sent(log[i].client, log[i].msg) in log[..i - 1]
      ensures InFlight(log[..i], log[i].client) == [] && Live(log[..i], log[i].socket, log[i].msg.namespace)
    {
      AnsweredAt(log, i);
    }
    forall i | 0 <= i < |log| && log[i].UpNack?
      ensures log[i].msg in InFlight(log[..i], log[i].client) && Live(log[..i], log[i].socket, log[i].msg.namespace)
    {
      LegalAt(log, i);
    }
  }

  lemma AnsweredAt(log: seq<Obs>, i: nat)
    requires Legal(log) && i < |log| && log[i].UpAck?
    ensures 0 < i && log[i - 1] == ClientAcked(log[i].client, log[i].msg)
    ensures log[i].msg in InFlight(log[..i - 1], log[i].client)
    ensures Sent(log[i].client, log[i].msg) in log[..i - 1]
    ensures InFlight(log[..i], log[i].client) == [] && Live(log[..i], log[i].socket, log[i].msg.namespace)
  {
    LegalAt(log, i);
    assert log[..i][i - 1] == log[i - 1];
    LegalAt(log, i - 1);
    Conservation(log[..i - 1]);
  }

  /** A client ack is answered upstream exactly when it empties that client's list. */
  lemma AckAnsweredIff(trace: seq<Step>, i: nat)
    requires Run(trace) && i < |After(trace).proxy.log| && After(trace).proxy.log[i].ClientAcked?
    ensures var log := After(trace).proxy.log;
      (exists k :: i + 1 < |log| && log[i + 1] == UpAck(log[i].client, k, log[i].msg))
      <==> InFlight(log[..i + 1], log[i].client) == []
  {
    var log := After(trace).proxy.log;
    DeliveryAlways(trace);
    if InFlight(log[..i + 1], log[i].client) == [] {
      assert log[i + 1] == UpAck(log[i].client, log[i + 1].socket, log[i].msg);
    }
    if i + 1 < |log| && log[i + 1].UpAck? && log[i + 1].client == log[i].client {
      AnsweredAt(log, i + 1);
    }
  }

  /** `m` was handed to a client that had already gone. */
  ghost predicate SentLate(log: seq<Obs>, c: ClientId, m: Message) {
    exists i: nat :: i < |log| && log[i] == Sent(c, m) && Gone(c) in log[..i]
  }

  lemma LateIsGone(log: seq<Obs>, c: ClientId, m: Message)
    requires SentLate(log, c, m)
    ensures Gone(c) in log
  {
  }

  lemma GoneBefore(log: seq<Obs>, c: ClientId, g: nat, j: nat)
    requires Legal(log) && g < j < |log| && log[j] == Gone(c)
    ensures log[g] != Gone(c)
  {
    LegalAt(log, j);
    assert log[..j][g] == log[g];
  }

  lemma SentOnce(log: seq<Obs>, c: ClientId, m: Message, i: nat, k: nat)
    requires Legal(log) && i < |log| && k < |log| && log[i] == Sent(c, m) && log[k] == Sent(c, m)
    ensures i == k
  {
    IdsUnique(log);
  }

  predicate AckedOrNacked(e: Obs, c: ClientId, m: Message) {
    e == ClientAcked(c, m) || (e.UpNack? && e.client == c && e.msg == m)
  }

  /** What is acked or nacked was sent before, and its client had not gone. */
  lemma Grounds(log: seq<Obs>, j: nat, c: ClientId, m: Message) returns (k: nat)
    requires Legal(log) && j < |log| && AckedOrNacked(log[j], c, m)
    ensures k < j && log[k] == Sent(c, m)
    ensures forall g :: 0 <= g < j ==> log[g] != Gone(c)
  {
    LegalAt(log, j);
    Conservation(log[..j]);
    var x :| 0 <= x < j && log[..j][x] == Sent(c, m);
    k := x;
    assert forall g :: 0 <= g < j ==> log[..j][g] == log[g];
  }

  lemma LateNotHeld(log: seq<Obs>, c: ClientId, m: Message, i: nat, g: nat, j: nat)
    requires Legal(log) && g < i < |log| && log[g] == Gone(c) && log[i] == Sent(c, m) && j < |log|
    ensures !AckedOrNacked(log[j], c, m)
  {
    if AckedOrNacked(log[j], c, m) {
      var k := Grounds(log, j, c, m);
      SentOnce(log, c, m, i, k);
    }
  }

  /** A verdict is an ack's answer or a nack. */
  lemma VerdictRests(log: seq<Obs>, j: nat) returns (at: nat)
    requires Legal(log) && j < |log| && log[j].IsVerdict()
    ensures at <= j && AckedOrNacked(log[at], log[j].client, log[j].msg)
  {
    at := VerdictNeedsHeld(log, j);
  }

  /** Such a message is never acked, never left behind, and never gets a verdict. */
  lemma LateIsLost(log: seq<Obs>, c: ClientId, m: Message)
    requires Legal(log) && SentLate(log, c, m)
    ensures ClientAcked(c, m) !in log && !LeftBehind(log, c, m) && Unsettled(log, m)
  {
    var i: nat :| i < |log| && log[i] == Sent(c, m) && Gone(c) in log[..i];
    var g :| 0 <= g < i && log[..i][g] == Gone(c);
    forall j | 0 <= j < |log| ensures log[j] != ClientAcked(c, m) {
      LateNotHeld(log, c, m, i, g, j);
    }
    forall j: nat | j < |log| && log[j] == Gone(c) ensures Sent(c, m) !in log[..j] {
      if g < j {
        GoneBefore(log, c, g, j);
      } else if Sent(c, m) in log[..j] {
        var k :| 0 <= k < j && log[..j][k] == Sent(c, m);
        SentOnce(log, c, m, i, k);
      }
    }
    forall j | 0 <= j < |log| && log[j].IsVerdict() ensures log[j].msg.id != m.id {
      if log[j].msg.id == m.id {
        var at := VerdictRests(log, j);
        var k := Grounds(log, at, log[j].client, log[j].msg);
        SameDelivery(log, c, m, log[j].client, log[j].msg);
        LateNotHeld(log, c, m, i, g, at);
      }
    }
  }

  /** Conservation over runs: what was handed to a client is in exactly one place, namely its list,
      the acks or what its departure discarded, except exactly what was handed to a client that was
      gone and has no list any more. */
  lemma MessageConservation(trace: seq<Step>, c: ClientId, m: Message)
    requires Run(trace) && Sent(c, m) in After(trace).proxy.log
    ensures var w := After(trace);
      var held := c in w.proxy.awaitingAck && m in w.proxy.awaitingAck[c];
      var acked := ClientAcked(c, m) in w.proxy.log;
      var discarded := LeftBehind(w.proxy.log, c, m) && !acked;
      && (held || acked || discarded <==> !(SentLate(w.proxy.log, c, m) && c !in w.proxy.awaitingAck))
      && !(held && acked) && !(held && discarded)
  {
    var w := After(trace);
    var log := w.proxy.log;
    DeliveryAlways(trace);
    Conservation(log);
    if SentLate(log, c, m) {
      LateIsLost(log, c, m);
    } else if m in InFlight(log, c) && c !in w.proxy.awaitingAck {
      HeldByGone(log, c, m);
    }
  }

  lemma SentThenGone(log: seq<Obs>, c: ClientId, m: Message, i: nat, g: nat)
    requires i < |log| && g < |log| && log[i] == Sent(c, m) && log[g] == Gone(c)
    ensures i < g ==> LeftBehind(log, c, m)
    ensures g < i ==> SentLate(log, c, m)
  {
    assert i < g ==> log[..g][i] == log[i];
    assert g < i ==> log[..i][g] == log[g];
  }

  /** In flight to a client that is gone: it was gone before. */
  lemma HeldByGone(log: seq<Obs>, c: ClientId, m: Message)
    requires Legal(log) && m in InFlight(log, c) && Gone(c) in log
    ensures SentLate(log, c, m)
  {
    ConservationOf(log, c, m);
    var g: nat :| g < |log| && log[g] == Gone(c);
    var i: nat :| i < |log| && log[i] == Sent(c, m);
    SentThenGone(log, c, m, i, g);
  }

  /** No message id is in two lists, or twice in one, and its client is connected or was gone when it
      was sent. */
  lemma ListsDisjoint(trace: seq<Step>, c: ClientId, m: Message)
    requires Run(trace)
    requires c in After(trace).proxy.awaitingAck && m in After(trace).proxy.awaitingAck[c]
    ensures Sent(c, m) in After(trace).proxy.log
    ensures c in After(trace).connected <==> !SentLate(After(trace).proxy.log, c, m)
    ensures DistinctIds(After(trace).proxy.awaitingAck[c])
    ensures forall d, n :: (d in After(trace).proxy.awaitingAck && n in After(trace).proxy.awaitingAck[d] && n.id == m.id
                            ==> d == c && n == m)
  {
    var w := After(trace);
    var log := w.proxy.log;
    DeliveryAlways(trace);
    Conservation(log);
    HeldDistinct(log, c);
    if c !in w.connected {
      HeldByGone(log, c, m);
    } else if SentLate(log, c, m) {
      LateIsGone(log, c, m);
    }
    forall d, n | d in w.proxy.awaitingAck && n in w.proxy.awaitingAck[d] && n.id == m.id
      ensures d == c && n == m
    {
      assert n in InFlight(log, d);
      SameDelivery(log, c, m, d, n);
    }
  }

  /** The nacks of a disconnect cover everything the client held exactly when all of it belongs
      to the namespace that comes first in the client map. */
  lemma DisconnectNacksAllIff(w: World, c: ClientId)
    requires Delivery(w) && c in w.connected
    ensures var order := w.proxy.namespaceClients.order; var held := InFlight(w.proxy.log, c);
      (forall m :: m in held ==> exists k :: UpNack(c, k, m) in Nacks(w.proxy, c))
      <==> (forall m :: m in held ==> order != [] && m.namespace == order[0])
  {
    var p := w.proxy;
    var order := p.namespaceClients.order;
    var held := InFlight(p.log, c);
    if order != [] {
      assert order[0] in order;
      var msgs := OfNamespace(held, order[0]);
      OfNamespaceIn(held, order[0]);
      var k := p.namespaceEventStreamSocket[order[0]];
      assert Nacks(p, c) == NacksFor(c, k, msgs);
      forall m | m in msgs
        ensures UpNack(c, k, m) in Nacks(p, c)
      {
        var i :| 0 <= i < |msgs| && msgs[i] == m;
        assert Nacks(p, c)[i] == UpNack(c, k, m);
      }
    }
  }

  /** A verdict needs its message in flight, right before it or right before the ack it answers. */
  lemma VerdictNeedsHeld(log: seq<Obs>, i: nat) returns (at: nat)
    requires Legal(log) && i < |log| && log[i].IsVerdict()
    ensures at <= i && log[i].msg in InFlight(log[..at], log[i].client)
    ensures log[i].UpAck? ==> at == i - 1 && log[at] == ClientAcked(log[i].client, log[i].msg)
    ensures log[i].UpNack? ==> at == i
  {
    at := i;
    LegalAt(log, i);
    if log[i].UpAck? {
      AnsweredAt(log, i);
      at := i - 1;
    }
  }

  /** Once out of its client's list, a message is never in any list again. */
  lemma StaysOut(log: seq<Obs>, j: nat, i: nat, c: ClientId, m: Message, d: ClientId, n: Message)
    requires j <= i <= |log| && Legal(log[..j]) && Legal(log[..i])
    requires Sent(c, m) in log[..j] && m !in InFlight(log[..j], c) && n.id == m.id
    ensures n !in InFlight(log[..i], d)
  {
    Conservation(log[..j]);
    Conservation(log[..i]);
    assert log[..i][..j] == log[..j];
    assert forall e :: e in log[..j] ==> e in log[..i];
    if Sent(d, n) in log[..i] {
      SameDelivery(log[..i], c, m, d, n);
    }
  }

  lemma {:induction false} LegalPrefix(log: seq<Obs>, i: nat)
    requires Legal(log) && i <= |log|
    ensures Legal(log[..i])
  {
    if i == |log| {
      assert log[..i] == log;
    } else {
      LegalAt(log, i);
    }
  }

  lemma OutAfter(log: seq<Obs>, j: nat, c: ClientId, m: Message)
    requires Legal(log) && j < |log|
    requires log[j] == ClientAcked(c, m) || (log[j] == Gone(c) && Sent(c, m) in log[..j])
    ensures Legal(log[..j + 1]) && m !in InFlight(log[..j + 1], c) && Sent(c, m) in log[..j + 1]
  {
    LegalAt(log, j);
    LegalPrefix(log, j + 1);
    Conservation(log[..j]);
    assert log[..j + 1] == log[..j] + [log[j]];
    InFlightSnoc(log[..j], log[j], c);
    WithoutIdIn(InFlight(log[..j], c), m.id);
  }

  /** A message its client left behind without a verdict never gets one later; nor does an acked
      message whose ack was not answered at once. */
  lemma UnsettledForever(log: seq<Obs>, j: nat, c: ClientId, m: Message, i: nat)
    requires Legal(log) && j < i < |log| && log[i].IsVerdict()
    requires log[j] == ClientAcked(c, m) || (log[j] == Gone(c) && Sent(c, m) in log[..j])
    requires !(log[j].ClientAcked? && i == j + 1 && log[i].UpAck?)
    ensures log[i].msg.id != m.id
  {
    var at := VerdictNeedsHeld(log, i);
    OutAfter(log, j, c, m);
    LegalPrefix(log, at);
    if log[i].msg.id == m.id {
      StaysOut(log, j + 1, at, c, m, log[i].client, log[i].msg);
    }
  }
}
