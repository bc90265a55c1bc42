/** `processEvents`: each upstream batch becomes one message, its events enriched concurrently. */
module Enrichment {
  import opened Js

  datatype Event = Event(subId: string, body: string)

  datatype Batch = Batch(namespace: string, batchNumber: Option<nat>, events: seq<Event>)

  /** How a handler's promise settles. */
  datatype Outcome = Defined(message: string) | Undefined | Rejected

  datatype Payload = Payload(namespace: string, batchNumber: Option<nat>, events: seq<string>)

  /** One `onEvent` call. */
  datatype Handler = Handler(listener: nat, subName: string, event: Event)

  type Names = map<string, string>

  /** What the world answers: looking up the subscription of an event (by batch and position; unknown
      and failed lookups answer nothing), and each handler of a batch. */
  datatype World = World(listeners: nat, lookup: (nat, nat) -> Option<string>, handle: (nat, Handler) -> Outcome)

  // ---------------------------------------------------------------- one batch, in order

  /** The name of event `k`, remembered or looked up. */
  function NameOf(w: World, known: Names, b: nat, batch: Batch, k: nat): Option<string>
    requires k < |batch.events|
  {
    var subId := batch.events[k].subId;
    if subId in known then Some(known[subId]) else w.lookup(b, k)
  }

  /** The names of the first `k` events, or nothing if one has none; and what is known by then. */
  function Lookups(w: World, known: Names, b: nat, batch: Batch, k: nat): (r: (Names, Option<seq<string>>))
    requires k <= |batch.events|
    ensures r.1.Some? ==> |r.1.value| == k
  {
    if k == 0 then (known, Some([]))
    else
      var before := Lookups(w, known, b, batch, k - 1);
      if before.1.None? then before
      else
        match NameOf(w, before.0, b, batch, k - 1)
        case Some(name) => (before.0[batch.events[k - 1].subId := name], Some(before.1.value + [name]))
        case None => (before.0, None)
  }

  /** A name once known is never replaced, and every event of a subscription gets its one name. */
  lemma {:induction false} NamesStable(w: World, known: Names, b: nat, batch: Batch, k: nat)
    requires k <= |batch.events|
    ensures var r := Lookups(w, known, b, batch, k);
      && (forall id :: id in known ==> id in r.0 && r.0[id] == known[id])
      && (r.1.Some? ==> forall j :: 0 <= j < k ==>
            batch.events[j].subId in r.0 && r.0[batch.events[j].subId] == r.1.value[j])
  {
    if k == 0 {
    } else {
      NamesStable(w, known, b, batch, k - 1);
    }
  }

  /** The handlers started for one event. */
  function Started(n: nat, subName: string, event: Event): seq<Handler> {
    if n == 0 then [] else Started(n - 1, subName, event) + [Handler(n - 1, subName, event)]
  }

  /** Events in order, and listeners in order for each. */
  function Handlers(w: World, subNames: seq<string>, batch: Batch): seq<Handler>
    requires |subNames| <= |batch.events|
  {
    if subNames == [] then []
    else
      var k := |subNames| - 1;
      Handlers(w, subNames[..k], batch) + Started(w.listeners, subNames[k], batch.events[k])
  }

  lemma {:induction false} StartedAt(n: nat, subName: string, event: Event, l: nat)
    requires l < n
    ensures |Started(n, subName, event)| == n && Started(n, subName, event)[l] == Handler(l, subName, event)
  {
    if l < n - 1 {
      StartedAt(n - 1, subName, event, l);
    } else if n > 1 {
      StartedAt(n - 1, subName, event, 0);
    }
  }

  /** Behind all handlers of earlier events, listener `l` of event `k`. */
  lemma {:induction false} HandlersInOrder(w: World, subNames: seq<string>, batch: Batch, k: nat, l: nat)
    requires k < |subNames| <= |batch.events| && l < w.listeners
    ensures var i := |Handlers(w, subNames[..k], batch)| + l;
      i < |Handlers(w, subNames, batch)| && Handlers(w, subNames, batch)[i] == Handler(l, subNames[k], batch.events[k])
  {
    var n := |subNames| - 1;
    StartedAt(w.listeners, subNames[n], batch.events[n], l);
    if k >= n {
    } else {
      HandlersInOrder(w, subNames[..n], batch, k, l);
      assert subNames[..n][..k] == subNames[..k];
    }
  }

  /** The defined, non-failing results, in order. */
  function Collected(w: World, b: nat, handlers: seq<Handler>): seq<string> {
    if handlers == [] then []
    else
      var last := w.handle(b, handlers[|handlers| - 1]);
      Collected(w, b, handlers[..|handlers| - 1]) + if last.Defined? then [last.message] else []
  }

  lemma CollectedLast(w: World, b: nat, handlers: seq<Handler>, h: Handler)
    ensures Collected(w, b, handlers + [h]) ==
      Collected(w, b, handlers) + match w.handle(b, h) case Defined(m) => [m] case Undefined => [] case Rejected => []
  {
    assert (handlers + [h])[..|handlers|] == handlers;
  }

  /** Exactly one message for each handler that gives one, in the handlers' order; one that fails does
      not stop the others. */
  lemma {:induction false} CollectedInOrder(w: World, b: nat, handlers: seq<Handler>, i: nat)
    requires i < |handlers|
    ensures var before := Collected(w, b, handlers[..i]);
      && before <= Collected(w, b, handlers)
      && match w.handle(b, handlers[i])
         case Defined(m) => before + [m] <= Collected(w, b, handlers)
         case _ => Collected(w, b, handlers[..i + 1]) == before
    ensures Collected(w, b, []) == []
  {
    var n := |handlers| - 1;
    CollectedLast(w, b, handlers[..n], handlers[n]);
    assert handlers == handlers[..n] + [handlers[n]];
    CollectedLast(w, b, handlers[..i], handlers[i]);
    assert handlers[..i + 1] == handlers[..i] + [handlers[i]];
    if i == n {
    } else {
      CollectedInOrder(w, b, handlers[..n], i);
      assert handlers[..n][..i] == handlers[..i];
    }
  }

  /** The handlers that give a message. */
  function Givers(w: World, b: nat, handlers: seq<Handler>): set<nat> {
    set i: nat | i < |handlers| && w.handle(b, handlers[i]).Defined?
  }

  /** And no message besides. */
  lemma {:induction false} OneEach(w: World, b: nat, handlers: seq<Handler>)
    ensures |Collected(w, b, handlers)| == |Givers(w, b, handlers)|
  {
    if handlers == [] {
    } else {
      var n: nat := |handlers| - 1;
      OneEach(w, b, handlers[..n]);
      var before, after := Givers(w, b, handlers[..n]), Givers(w, b, handlers);
      assert forall i: nat :: i in after <==> i in before || (i == n && w.handle(b, handlers[n]).Defined?);
      assert after == before + if w.handle(b, handlers[n]).Defined? then {n} else {};
    }
  }

  /** Every event is handled by every listener. */
  lemma {:induction false} HandlerCount(w: World, subNames: seq<string>, batch: Batch)
    requires |subNames| <= |batch.events|
    ensures |Handlers(w, subNames, batch)| == |subNames| * w.listeners
  {
    if subNames == [] {
    } else {
      var n := |subNames| - 1;
      HandlerCount(w, subNames[..n], batch);
      if w.listeners > 0 {
        StartedAt(w.listeners, subNames[n], batch.events[n], 0);
      }
      assert (n + 1) * w.listeners == n * w.listeners + w.listeners;
    }
  }

  /** What batch `b` comes to: its message, or none if a subscription is unknown. */
  function Processed(w: World, known: Names, b: nat, batch: Batch): (Names, Option<Payload>) {
    var r := Lookups(w, known, b, batch, |batch.events|);
    (r.0, match r.1
          case Some(names) => Some(Payload(batch.namespace, batch.batchNumber, Collected(w, b, Handlers(w, names, batch))))
          case None => None)
  }

  /** The message carries its batch's namespace and number. */
  lemma ProcessedTells(w: World, known: Names, b: nat, batch: Batch)
    ensures var r := Processed(w, known, b, batch).1;
      r.Some? ==> r.value.namespace == batch.namespace && r.value.batchNumber == batch.batchNumber
  {
  }

  // ---------------------------------------------------------------- the loops

  class Enricher {
    var subscriptionNames: Names
    const world: World

    constructor (world: World)
      ensures this.world == world && subscriptionNames == map[]
    {
      this.world := world;
      subscriptionNames := map[];
    }

    method GetSubscriptionName(b: nat, batch: Batch, k: nat) returns (name: Option<string>)
      requires k < |batch.events|
      modifies this
      ensures name == NameOf(world, old(subscriptionNames), b, batch, k)
      ensures var subId := batch.events[k].subId;
        name == if subId in old(subscriptionNames) then Some(old(subscriptionNames)[subId]) else world.lookup(b, k)
      ensures subscriptionNames ==
        if name.Some? then old(subscriptionNames)[batch.events[k].subId := name.value] else old(subscriptionNames)
    {
      var subId := batch.events[k].subId;
      if subId in subscriptionNames {
        return Some(subscriptionNames[subId]);
      }
      name := world.lookup(b, k);
      if name.Some? {
        subscriptionNames := subscriptionNames[subId := name.value];
      }
    }

    method ProcessEvents(b: nat, batch: Batch) returns (sent: Option<Payload>)
      modifies this
      ensures (subscriptionNames, sent) == Processed(world, old(subscriptionNames), b, batch)
    {
      var eventHandlers: seq<Handler> := [];
      ghost var names: seq<string> := [];
      for k := 0 to |batch.events|
        invariant Lookups(world, old(subscriptionNames), b, batch, k) == (subscriptionNames, Some(names))
        invariant |names| == k && eventHandlers == Handlers(world, names, batch)
      {
        var subName := GetSubscriptionName(b, batch, k);
        if subName.None? {
          LookupsStop(world, old(subscriptionNames), b, batch, k + 1, |batch.events|);
          return None;
        }
        ghost var started := eventHandlers;
        for l := 0 to world.listeners
          invariant eventHandlers == started + Started(l, subName.value, batch.events[k])
        {
          eventHandlers := eventHandlers + [Handler(l, subName.value, batch.events[k])];
        }
        assert (names + [subName.value])[..k] == names;
        names := names + [subName.value];
      }
      var messages: seq<string> := [];
      for i := 0 to |eventHandlers|
        invariant messages == Collected(world, b, eventHandlers[..i])
      {
        assert eventHandlers[..i + 1][..i] == eventHandlers[..i];
        var msg := world.handle(b, eventHandlers[i]);
        if msg.Defined? {
          messages := messages + [msg.message];
        }
      }
      assert eventHandlers[..|eventHandlers|] == eventHandlers;
      return Some(Payload(batch.namespace, batch.batchNumber, messages));
    }
  }

  lemma {:induction false} LookupsStop(w: World, known: Names, b: nat, batch: Batch, j: nat, k: nat)
    requires j <= k <= |batch.events| && Lookups(w, known, b, batch, j).1.None?
    ensures Lookups(w, known, b, batch, k) == Lookups(w, known, b, batch, j)
    decreases k
  {
    if j >= k {
    } else {
      LookupsStop(w, known, b, batch, j, k - 1);
    }
  }

  // ---------------------------------------------------------------- all batches, in arrival order

  /** What is known and sent after the first `n` batches. */
  function SentBy(w: World, arrived: seq<Batch>, n: nat): (Names, seq<Payload>)
    requires n <= |arrived|
  {
    if n == 0 then (map[], [])
    else
      var before := SentBy(w, arrived, n - 1);
      var r := Processed(w, before.0, n - 1, arrived[n - 1]);
      (r.0, before.1 + if r.1.Some? then [r.1.value] else [])
  }

  /** Only the batches themselves matter, not those behind them. */
  lemma {:induction false} SentByAgrees(w: World, a1: seq<Batch>, a2: seq<Batch>, n: nat)
    requires n <= |a1| && n <= |a2| && forall k :: 0 <= k < n ==> a1[k] == a2[k]
    ensures SentBy(w, a1, n) == SentBy(w, a2, n)
  {
    if n == 0 {
    } else {
      SentByAgrees(w, a1, a2, n - 1);
    }
  }

  // ---------------------------------------------------------------- every schedule

  /** Where the head of the queue stands: not begun; with the first events resolved and
      their handlers started; or awaiting the handlers one by one. */
  datatype Phase =
    | Idle
    | Resolving(names: seq<string>, handlers: seq<Handler>)
    | Awaiting(names: seq<string>, handlers: seq<Handler>, i: nat, messages: seq<string>)

  datatype State = State(arrived: seq<Batch>, finished: nat, phase: Phase, settled: set<nat>, known: Names,
                         sent: seq<Payload>)

  const INITIAL := State([], 0, Idle, {}, map[], [])

  /** A batch arrives; the next task begins; a subscription is resolved; awaiting starts; a handler's
      promise settles, in any order; the awaited promise has settled; the message goes out. */
  datatype Step = Arrive(batch: Batch) | Begin | Lookup | Await | Settle(handler: nat) | Resume | Send

  predicate Enabled(s: State, step: Step) {
    match step
    case Arrive(_) => true
    case Begin => s.phase.Idle? && s.finished < |s.arrived|
    case Lookup => s.phase.Resolving? && s.finished < |s.arrived| && |s.phase.names| < |s.arrived[s.finished].events|
    case Await => s.phase.Resolving? && s.finished < |s.arrived| && |s.phase.names| == |s.arrived[s.finished].events|
    case Settle(h) => !s.phase.Idle? && h < |s.phase.handlers| && h !in s.settled
    case Resume => s.phase.Awaiting? && s.phase.i < |s.phase.handlers| && s.phase.i in s.settled
    case Send => s.phase.Awaiting? && s.phase.i == |s.phase.handlers| && s.finished < |s.arrived|
  }

  function Next(w: World, s: State, step: Step): State
    requires Enabled(s, step)
  {
    match step
    case Arrive(batch) => s.(arrived := s.arrived + [batch])
    case Begin => s.(phase := Resolving([], []), settled := {})
    case Lookup =>
      var batch, names := s.arrived[s.finished], s.phase.names;
      (match NameOf(w, s.known, s.finished, batch, |names|)
       case Some(name) =>
         var event := batch.events[|names|];
         s.(known := s.known[event.subId := name],
            phase := Resolving(names + [name], s.phase.handlers + Started(w.listeners, name, event)))
       case None => s.(phase := Idle, finished := s.finished + 1))
    case Await => s.(phase := Awaiting(s.phase.names, s.phase.handlers, 0, []))
    case Settle(h) => s.(settled := s.settled + {h})
    case Resume =>
      var p := s.phase;
      var outcome := w.handle(s.finished, p.handlers[p.i]);
      s.(phase := Awaiting(p.names, p.handlers, p.i + 1,
                           p.messages + if outcome.Defined? then [outcome.message] else []))
    case Send =>
      var batch := s.arrived[s.finished];
      s.(sent := s.sent + [Payload(batch.namespace, batch.batchNumber, s.phase.messages)],
         phase := Idle, finished := s.finished + 1)
  }

  predicate Run(w: World, steps: seq<Step>)
    decreases |steps|, 0
  {
    steps == [] || (Run(w, steps[..|steps| - 1]) && Enabled(After(w, steps[..|steps| - 1]), steps[|steps| - 1]))
  }

  function After(w: World, steps: seq<Step>): State
    requires Run(w, steps)
    decreases |steps|, 1
  {
    if steps == [] then INITIAL else Next(w, After(w, steps[..|steps| - 1]), steps[|steps| - 1])
  }

  /** Whatever has settled in whatever order, the head task has done a prefix of its sequential work. */
  ghost predicate OnTrack(w: World, s: State) {
    && s.finished <= |s.arrived|
    && var before := SentBy(w, s.arrived, s.finished);
       && s.sent == before.1
       && if s.phase.Idle? then s.known == before.0
          else
            && s.finished < |s.arrived|
            && var batch := s.arrived[s.finished];
               && |s.phase.names| <= |batch.events|
               && Lookups(w, before.0, s.finished, batch, |s.phase.names|) == (s.known, Some(s.phase.names))
               && s.phase.handlers == Handlers(w, s.phase.names, batch)
               && (s.phase.Awaiting? ==>
                     && |s.phase.names| == |batch.events| && s.phase.i <= |s.phase.handlers|
                     && s.phase.messages == Collected(w, s.finished, s.phase.handlers[..s.phase.i]))
  }

  lemma ArriveOnTrack(w: World, s: State, batch: Batch)
    requires OnTrack(w, s)
    ensures OnTrack(w, s.(arrived := s.arrived + [batch]))
  {
    SentByAgrees(w, s.arrived, s.arrived + [batch], s.finished);
  }

  lemma FoundOnTrack(w: World, s: State)
    requires OnTrack(w, s) && Enabled(s, Lookup)
    requires NameOf(w, s.known, s.finished, s.arrived[s.finished], |s.phase.names|).Some?
    ensures OnTrack(w, Next(w, s, Lookup))
  {
    var batch, names := s.arrived[s.finished], s.phase.names;
    var name := NameOf(w, s.known, s.finished, batch, |names|).value;
    assert (names + [name])[..|names|] == names;
  }

  lemma UnknownOnTrack(w: World, s: State)
    requires OnTrack(w, s) && Enabled(s, Lookup)
    requires NameOf(w, s.known, s.finished, s.arrived[s.finished], |s.phase.names|).None?
    ensures OnTrack(w, Next(w, s, Lookup))
  {
    var batch := s.arrived[s.finished];
    LookupsStop(w, SentBy(w, s.arrived, s.finished).0, s.finished, batch, |s.phase.names| + 1, |batch.events|);
  }

  lemma AwaitOnTrack(w: World, s: State, step: Step)
    requires OnTrack(w, s) && Enabled(s, step) && step in {Await, Resume, Send}
    ensures OnTrack(w, Next(w, s, step))
  {
    var p := s.phase;
    match step
    case Await =>
    case Resume => assert p.handlers[..p.i + 1][..p.i] == p.handlers[..p.i];
    case Send => assert p.handlers[..p.i] == p.handlers;
  }

  lemma {:induction false} AlwaysOnTrack(w: World, steps: seq<Step>)
    requires Run(w, steps)
    ensures OnTrack(w, After(w, steps))
  {
    if steps == [] {
    } else {
      var before, step := steps[..|steps| - 1], steps[|steps| - 1];
      AlwaysOnTrack(w, before);
      var s := After(w, before);
      match step
      case Arrive(batch) => ArriveOnTrack(w, s, batch);
      case Lookup =>
        if NameOf(w, s.known, s.finished, s.arrived[s.finished], |s.phase.names|).Some? {
          FoundOnTrack(w, s);
        } else {
          UnknownOnTrack(w, s);
        }
      case Await | Resume | Send => AwaitOnTrack(w, s, step);
      case Begin | Settle(_) =>
    }
  }

  /** For every schedule: what has been sent is, batch by batch in arrival order, what processing the
      finished batches one after the other sends. */
  lemma ScheduleIndependent(w: World, steps: seq<Step>)
    requires Run(w, steps)
    ensures var s := After(w, steps);
      s.finished <= |s.arrived| && s.sent == SentBy(w, s.arrived, s.finished).1
  {
    AlwaysOnTrack(w, steps);
  }

  /** Two schedules of the same arrivals agree on everything both have finished: one's messages start
      with the other's. */
  lemma SchedulesAgree(w: World, steps1: seq<Step>, steps2: seq<Step>)
    requires Run(w, steps1) && Run(w, steps2)
    requires After(w, steps1).arrived == After(w, steps2).arrived
    requires After(w, steps1).finished <= After(w, steps2).finished
    ensures After(w, steps1).sent <= After(w, steps2).sent
  {
    AlwaysOnTrack(w, steps1);
    AlwaysOnTrack(w, steps2);
    SentGrows(w, After(w, steps1).arrived, After(w, steps1).finished, After(w, steps2).finished);
  }

  lemma {:induction false} SentGrows(w: World, arrived: seq<Batch>, m: nat, n: nat)
    requires m <= n <= |arrived|
    ensures SentBy(w, arrived, m).1 <= SentBy(w, arrived, n).1
  {
    if m >= n {
    } else {
      SentGrows(w, arrived, m, n - 1);
    }
  }

  /** No schedule gets stuck: while a batch is unfinished some step of its task, or a handler's
      settling, can happen. So when nothing is left to happen, every batch has been processed. */
  lemma NeverStuck(w: World, steps: seq<Step>) returns (next: Step)
    requires Run(w, steps) && After(w, steps).finished < |After(w, steps).arrived|
    ensures Enabled(After(w, steps), next) && !next.Arrive?
  {
    AlwaysOnTrack(w, steps);
    var s := After(w, steps);
    next := match s.phase
      case Idle => Begin
      case Resolving(names, _) => if |names| < |s.arrived[s.finished].events| then Lookup else Await
      case Awaiting(_, handlers, i, _) =>
        if i == |handlers| then Send else if i in s.settled then Resume else Settle(i);
  }

  /** A batch leaves no message exactly when one of its events has no subscription name, neither
      remembered nor found. */
  lemma {:induction false} UnsentIff(w: World, known: Names, b: nat, batch: Batch, k: nat)
    requires k <= |batch.events|
    ensures Lookups(w, known, b, batch, k).1.None? <==>
      exists j: nat :: j < k && Lookups(w, known, b, batch, j).1.Some?
        && NameOf(w, Lookups(w, known, b, batch, j).0, b, batch, j).None?
  {
    if k == 0 {
    } else {
      UnsentIff(w, known, b, batch, k - 1);
      if Lookups(w, known, b, batch, k - 1).1.Some? && Lookups(w, known, b, batch, k).1.None? {
        assert NameOf(w, Lookups(w, known, b, batch, k - 1).0, b, batch, k - 1).None?;
      }
    }
  }
}
