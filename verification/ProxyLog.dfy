/** What a well-behaved proxy may show to the outside, as a property of the log alone, and the
    consequences: where every message is, and that no message is settled twice. */
module ProxyLog {
  import opened Js
  import opened ProxyState

  /** How one entry changes what `c` holds. */
  function HoldsNext(held: seq<Message>, e: Obs, c: ClientId): seq<Message> {
    if e.Sent? && e.client == c then held + [e.msg]
    else if e.ClientAcked? && e.client == c then WithoutId(held, e.msg.id)
    else if e == Gone(c) then []
    else held
  }

  /** The messages `c` holds, in delivery order, read off the log. */
  function InFlight(log: seq<Obs>, c: ClientId): seq<Message> {
    if log == [] then []
    else HoldsNext(InFlight(log[..|log| - 1], c), log[|log| - 1], c)
  }

  ghost predicate Live(log: seq<Obs>, k: SocketId, ns: Namespace) {
    Opened(k, ns) in log && Closed(k, ns) !in log
  }

  ghost predicate FreshId(log: seq<Obs>, id: string) {
    forall e :: e in log && e.Sent? ==> e.msg.id != id
  }

  ghost predicate FreshSocket(log: seq<Obs>, k: SocketId) {
    forall e :: e in log && e.Opened? ==> e.socket != k
  }

  ghost predicate Unsettled(log: seq<Obs>, m: Message) {
    forall e :: e in log && e.IsVerdict() ==> e.msg.id != m.id
  }

  /** The rule for each entry, given everything before it. */
  ghost predicate LegalNext(log: seq<Obs>, e: Obs) {
    match e
    case Opened(k, ns) => FreshSocket(log, k)
    case Arrived(b) => exists k :: Live(log, k, b.namespace)
    case Sent(c, m) => FreshId(log, m.id)
    case ClientAcked(c, m) => m in InFlight(log, c) && Gone(c) !in log
    case UpAck(c, k, m) =>
      && log != [] && log[|log| - 1] == ClientAcked(c, m)
      && InFlight(log, c) == []
      && Unsettled(log, m) && Live(log, k, m.namespace)
    case UpNack(c, k, m) =>
      m in InFlight(log, c) && Gone(c) !in log && Unsettled(log, m) && Live(log, k, m.namespace)
    case Closed(k, ns) => Live(log, k, ns)
    case Gone(c) => Gone(c) !in log
  }

  ghost predicate Legal(log: seq<Obs>) {
    log == [] || (Legal(log[..|log| - 1]) && LegalNext(log[..|log| - 1], log[|log| - 1]))
  }

  /** An ack that empties its client's list is followed at once by the upstream ack. */
  ghost predicate AcksAnswered(log: seq<Obs>) {
    forall i :: 0 <= i < |log| && log[i].ClientAcked? && InFlight(log[..i + 1], log[i].client) == [] ==>
      i + 1 < |log| && log[i + 1].UpAck? && log[i + 1].client == log[i].client && log[i + 1].msg == log[i].msg
  }

  /** A nack belongs to the disconnect of the client holding the message. */
  ghost predicate LeavingFrom(log: seq<Obs>, i: nat, c: ClientId) {
    exists j :: i < j < |log| && log[j] == Gone(c) &&
      forall k :: i < k < j ==> log[k].Closed? || (log[k].UpNack? && log[k].client == c)
  }

  ghost predicate NacksLeaving(log: seq<Obs>) {
    forall i :: 0 <= i < |log| && log[i].UpNack? ==> LeavingFrom(log, i, log[i].client)
  }

  lemma InFlightSnoc(log: seq<Obs>, e: Obs, c: ClientId)
    ensures InFlight(log + [e], c) == HoldsNext(InFlight(log, c), e, c)
  {
    assert (log + [e])[..|log|] == log;
  }

  lemma LegalSnoc(log: seq<Obs>, e: Obs)
    ensures Legal(log + [e]) <==> Legal(log) && LegalNext(log, e)
  {
    assert (log + [e])[..|log|] == log;
  }

  lemma {:induction false} LegalAt(log: seq<Obs>, i: nat)
    requires Legal(log) && i < |log|
    ensures Legal(log[..i]) && LegalNext(log[..i], log[i])
    decreases |log|
  {
    if i >= |log| - 1 {
    } else {
      LegalAt(log[..|log| - 1], i);
      assert log[..|log| - 1][..i] == log[..i];
    }
  }

  lemma {:induction false} WithoutIdIn(msgs: seq<Message>, id: string)
    ensures forall m :: m in WithoutId(msgs, id) <==> m in msgs && m.id != id
    ensures |WithoutId(msgs, id)| <= |msgs|
  {
    if msgs == [] {
    } else {
      WithoutIdIn(msgs[1..], id);
    }
  }

  /** Message ids identify deliveries: one client, one message, for the whole history. */
  lemma {:induction false} IdsUnique(log: seq<Obs>)
    requires Legal(log)
    ensures forall i, j :: 0 <= i < j < |log| && log[i].Sent? && log[j].Sent? ==> log[i].msg.id != log[j].msg.id
  {
    if log == [] {
    } else {
      var before := log[..|log| - 1];
      IdsUnique(before);
      forall i, j | 0 <= i < j < |log| && log[i].Sent? && log[j].Sent?
        ensures log[i].msg.id != log[j].msg.id
      {
        assert log[i] == before[i];
        if j < |before| {
          assert log[j] == before[j];
        }
      }
    }
  }

  lemma SameDelivery(log: seq<Obs>, c: ClientId, m: Message, d: ClientId, n: Message)
    requires Legal(log) && Sent(c, m) in log && Sent(d, n) in log && m.id == n.id
    ensures c == d && m == n
  {
    IdsUnique(log);
    var i :| 0 <= i < |log| && log[i] == Sent(c, m);
    var j :| 0 <= j < |log| && log[j] == Sent(d, n);
  }

  /** `c` went after `m` was sent to it. */
  ghost predicate LeftBehind(log: seq<Obs>, c: ClientId, m: Message) {
    exists j: nat :: j < |log| && log[j] == Gone(c) && Sent(c, m) in log[..j]
  }

  lemma LeftBehindSnoc(log: seq<Obs>, e: Obs, all: seq<Obs>, c: ClientId, m: Message)
    requires all == log + [e]
    ensures LeftBehind(all, c, m) <==> LeftBehind(log, c, m) || (e == Gone(c) && Sent(c, m) in log)
  {
    if LeftBehind(log, c, m) {
      var j: nat :| j < |log| && log[j] == Gone(c) && Sent(c, m) in log[..j];
      assert all[j] == Gone(c) && all[..j] == log[..j];
    }
    if e == Gone(c) && Sent(c, m) in log {
      assert all[|log|] == Gone(c) && all[..|log|] == log;
    }
    if LeftBehind(all, c, m) {
      var j: nat :| j < |all| && all[j] == Gone(c) && Sent(c, m) in all[..j];
      if j < |log| {
        assert log[j] == Gone(c) && all[..j] == log[..j];
      } else {
        assert all[..j] == log;
      }
    }
  }

  lemma LeftBehindMore(log: seq<Obs>, ext: seq<Obs>, c: ClientId, m: Message)
    requires LeftBehind(log, c, m)
    ensures LeftBehind(log + ext, c, m)
  {
    var j: nat :| j < |log| && log[j] == Gone(c) && Sent(c, m) in log[..j];
    assert (log + ext)[j] == Gone(c) && (log + ext)[..j] == log[..j];
  }

  lemma {:induction false} ConservationOf(log: seq<Obs>, c: ClientId, m: Message)
    requires Legal(log)
    ensures m in InFlight(log, c) <==>
      Sent(c, m) in log && ClientAcked(c, m) !in log && !LeftBehind(log, c, m)
    ensures ClientAcked(c, m) in log ==> Sent(c, m) in log
  {
    if log == [] {
    } else {
      var before, e := log[..|log| - 1], log[|log| - 1];
      assert log == before + [e];
      ConservationOf(before, c, m);
      LeftBehindSnoc(before, e, log, c, m);
      if e.Sent? && e == Sent(c, m) {
        assert Sent(c, m) !in before && !LeftBehind(before, c, m);
      } else if e.ClientAcked? && e.client == c {
        ConservationOf(before, c, e.msg);
        WithoutIdIn(InFlight(before, c), e.msg.id);
        if m in InFlight(before, c) && m.id == e.msg.id {
          SameDelivery(before, c, m, c, e.msg);
        }
      }
    }
  }

  /** Conservation: a delivered message is with its client until that client acks it or goes,
      and only delivered messages are ever acked. */
  lemma Conservation(log: seq<Obs>)
    requires Legal(log)
    ensures forall c, m :: m in InFlight(log, c) <==>
      Sent(c, m) in log && ClientAcked(c, m) !in log && !LeftBehind(log, c, m)
    ensures forall c, m :: ClientAcked(c, m) in log ==> Sent(c, m) in log
  {
    forall c, m
      ensures m in InFlight(log, c) <==> Sent(c, m) in log && ClientAcked(c, m) !in log && !LeftBehind(log, c, m)
      ensures ClientAcked(c, m) in log ==> Sent(c, m) in log
    {
      ConservationOf(log, c, m);
    }
  }

  ghost predicate DistinctIds(msgs: seq<Message>) {
    forall i, j :: 0 <= i < j < |msgs| ==> msgs[i].id != msgs[j].id
  }

  lemma {:induction false} HeldDistinct(log: seq<Obs>, c: ClientId)
    requires Legal(log)
    ensures DistinctIds(InFlight(log, c))
  {
    if log == [] {
    } else {
      var before, e := log[..|log| - 1], log[|log| - 1];
      HeldDistinct(before, c);
      Conservation(before);
      assert InFlight(log, c) == HoldsNext(InFlight(before, c), e, c);
      if e.Sent? {
        forall m | m in InFlight(before, c)
          ensures m.id != e.msg.id
        {
          assert Sent(c, m) in before;
        }
      } else if e.ClientAcked? {
        WithoutIdDistinct(InFlight(before, c), e.msg.id);
      }
    }
  }

  lemma {:induction false} WithoutIdDistinct(msgs: seq<Message>, id: string)
    requires DistinctIds(msgs)
    ensures DistinctIds(WithoutId(msgs, id))
  {
    if msgs == [] {
    } else {
      WithoutIdDistinct(msgs[1..], id);
      WithoutIdIn(msgs[1..], id);
    }
  }

  /** No message gets two verdicts. */
  lemma {:induction false} OneVerdict(log: seq<Obs>)
    requires Legal(log)
    ensures forall i, j :: 0 <= i < j < |log| && log[i].IsVerdict() && log[j].IsVerdict() ==> log[i].msg.id != log[j].msg.id
  {
    if log == [] {
    } else {
      var before := log[..|log| - 1];
      OneVerdict(before);
      forall i, j | 0 <= i < j < |log| && log[i].IsVerdict() && log[j].IsVerdict()
        ensures log[i].msg.id != log[j].msg.id
      {
        assert log[i] == before[i];
        if j < |before| {
          assert log[j] == before[j];
        }
      }
    }
  }
}
