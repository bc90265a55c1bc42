/** Which batch is behind which message: batches are handed out in the order they arrived, none
    twice. */
module ProxyOrder {
  import opened Js
  import opened ProxyState
  import opened ProxyLog
  import opened ProxyRuns
  import opened ProxyDelivery
  import opened ProxyLateJoins

  /** The batches pushed by upstream, and those handed to clients, in order. */
  function Arrivals(log: seq<Obs>): seq<Batch> {
    if log == [] then []
    else Arrivals(log[..|log| - 1]) + if log[|log| - 1].Arrived? then [log[|log| - 1].batch] else []
  }

  function Deliveries(log: seq<Obs>): seq<Batch> {
    if log == [] then []
    else
      var e := log[|log| - 1];
      Deliveries(log[..|log| - 1]) + if e.Sent? then [Batch(e.msg.namespace, e.msg.batchNumber)] else []
  }

  lemma EntriesSnoc(log: seq<Obs>, e: Obs, all: seq<Obs>)
    requires all == log + [e]
    ensures Arrivals(all) == if e.Arrived? then Arrivals(log) + [e.batch] else Arrivals(log)
    ensures Deliveries(all) ==
      if e.Sent? then Deliveries(log) + [Batch(e.msg.namespace, e.msg.batchNumber)] else Deliveries(log)
  {
    assert all[..|log|] == log;
  }

  /** `a` is `b` with some elements left out. */
  predicate Subsequence<T(==)>(a: seq<T>, b: seq<T>) {
    if a == [] then true
    else if b == [] then false
    else
      Subsequence(a, b[..|b| - 1]) || (a[|a| - 1] == b[|b| - 1] && Subsequence(a[..|a| - 1], b[..|b| - 1]))
  }

  lemma SubsequenceSnoc<T>(a: seq<T>, b: seq<T>, x: T)
    requires Subsequence(a, b)
    ensures Subsequence(a, b + [x]) && Subsequence(a + [x], b + [x])
  {
    assert (b + [x])[..|b|] == b && (a + [x])[..|a|] == a;
  }

  lemma {:induction false} Quiet(log: seq<Obs>, ext: seq<Obs>, all: seq<Obs>)
    requires all == log + ext && forall e :: e in ext ==> !e.Sent? && !e.Arrived?
    ensures Arrivals(all) == Arrivals(log) && Deliveries(all) == Deliveries(log)
    decreases |ext|
  {
    if ext == [] {
      assert all == log;
    } else {
      var front := all[..|all| - 1];
      Quiet(log, ext[..|ext| - 1], front);
      assert all == front + [ext[|ext| - 1]] && ext[|ext| - 1] in ext;
      EntriesSnoc(front, ext[|ext| - 1], all);
    }
  }

  /** The queue is the end of the arrivals, and what was handed out lies before it. */
  ghost predicate Ordered(p: Proxy) {
    var arrived := Arrivals(p.log);
    && |p.queue| <= |arrived|
    && arrived[|arrived| - |p.queue|..] == p.queue
    && Subsequence(Deliveries(p.log), arrived[..|arrived| - |p.queue|])
  }

  lemma SplitSnoc<T>(s: seq<T>, n: nat, x: T)
    requires n <= |s|
    ensures (s + [x])[..n] == s[..n] && (s + [x])[n..] == s[n..] + [x]
  {
  }

  lemma ArrivalOrdered(p: Proxy, b: Batch)
    requires Ordered(p)
    ensures Ordered(Queued(p, b))
  {
    var arrived := Arrivals(p.log);
    EntriesSnoc(p.log, Arrived(b), p.log + [Arrived(b)]);
    SplitSnoc(arrived, |arrived| - |p.queue|, b);
  }

  lemma TaskOrdered(p: Proxy, q: Proxy, sent: seq<Obs>)
    requires Ordered(p) && p.queue != [] && q.queue == p.queue[1..] && q.log == p.log + sent
    requires sent == [] || (exists c, m :: sent == [Sent(c, m)] && Batch(m.namespace, m.batchNumber) == p.queue[0])
    ensures Ordered(q)
  {
    var arrived := Arrivals(p.log);
    var n := |arrived| - |p.queue|;
    assert arrived[n] == arrived[n..][0] == p.queue[0];
    assert arrived[..n + 1] == arrived[..n] + [p.queue[0]] && arrived[n + 1..] == arrived[n..][1..];
    SubsequenceSnoc(Deliveries(p.log), arrived[..n], p.queue[0]);
    if sent == [] {
      assert q.log == p.log;
    } else {
      EntriesSnoc(p.log, sent[0], q.log);
    }
  }

  lemma QuietOrdered(p: Proxy, q: Proxy, ext: seq<Obs>)
    requires Ordered(p) && q.queue == p.queue && q.log == p.log + ext
    requires forall e :: e in ext ==> !e.Sent? && !e.Arrived?
    ensures Ordered(q)
  {
    Quiet(p.log, ext, q.log);
  }

  lemma OtherEntries(w: World, s: Step) returns (ext: seq<Obs>)
    requires Enabled(w, s) && !s.Disconnect? && !s.RunTask? && !s.BatchArrives?
    ensures Next(w, s).proxy.log == w.proxy.log + ext && Next(w, s).proxy.queue == w.proxy.queue
    ensures forall e :: e in ext ==> !e.Sent? && !e.Arrived?
  {
    ext := Next(w, s).proxy.log[|w.proxy.log|..];
  }

  lemma OrderedStep(w: World, s: Step)
    requires Delivery(w) && Enabled(w, s) && Ordered(w.proxy)
    ensures Ordered(Next(w, s).proxy)
  {
    var p, q := w.proxy, Next(w, s).proxy;
    if s.BatchArrives? {
      ArrivalOrdered(p, s.batch);
    } else if s.RunTask? {
      var b := p.queue[0];
      var sent := if Sends(w, s) then [Sent(s.task.choice, Message(s.task.id, b.namespace, b.batchNumber))] else [];
      TaskOrdered(p, q, sent);
    } else if s.Disconnect? {
      var ext := LeaveLog(p, s.client);
      QuietOrdered(p, q, ext);
    } else {
      var ext := OtherEntries(w, s);
      QuietOrdered(p, q, ext);
    }
  }

  /** In every run the batches of the messages sent are a subsequence of the batches that arrived and
      have left the queue: none is handed out twice, and none before an earlier one. */
  lemma {:induction false} HandedOutInOrder(trace: seq<Step>)
    requires Run(trace)
    ensures Ordered(After(trace).proxy)
  {
    if trace == [] {
    } else {
      var before := trace[..|trace| - 1];
      HandedOutInOrder(before);
      DeliveryAlways(before);
      OrderedStep(After(before), trace[|trace| - 1]);
    }
  }
}
