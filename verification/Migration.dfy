/** `migrationCheck`: does the old-style event stream carry exactly the subscriptions its pools need? */
module Migration {
  import opened Js
  import opened Names
  import opened Subscriptions

  datatype Stream = Stream(id: string, name: string)

  /** The check's verdict (true: something is off), or the URIError a malformed name throws. */
  datatype Verdict = Verdict(warned: bool) | Thrown

  const CREATE_EVENT := "TokenPoolCreation"

  // ---------------------------------------------------------------- names

  predicate Throws(s: Sub) {
    UnpackSubscriptionName(s.name).UriError?
  }

  function PartsOf(s: Sub): SubscriptionName {
    var u := UnpackSubscriptionName(s.name);
    if u.Parsed? then u.name else SubscriptionName(None, None, None)
  }

  predicate Parses(s: Sub) {
    PartsOf(s).poolLocator.Some? && PartsOf(s).event.Some?
  }

  function LocatorOf(s: Sub): string {
    PartsOf(s).poolLocator.GetOr("")
  }

  function DataOf(s: Sub): Option<string> {
    PartsOf(s).poolData
  }

  function EventOf(s: Sub): string {
    PartsOf(s).event.GetOr("")
  }

  /** The key its pool is grouped under: the name with the event left empty. */
  function KeyOf(s: Sub): string {
    PackSubscriptionName(LocatorOf(s), "", DataOf(s))
  }

  /** Two subscriptions share a key exactly when they are of one pool: the same locator and the same
      pool data, absent and empty told apart. */
  lemma KeysSeparatePools(s: Sub, t: Sub)
    requires Parses(s) && Parses(t)
    ensures KeyOf(s) == KeyOf(t) <==> LocatorOf(s) == LocatorOf(t) && DataOf(s) == DataOf(t)
  {
    UnpackedColonFree(s.name);
    UnpackedColonFree(t.name);
    NamesDistinct(LocatorOf(s), "", DataOf(s), LocatorOf(t), "", DataOf(t));
  }

  lemma KeyParsesBack(s: Sub)
    requires Parses(s)
    ensures UnpackSubscriptionName(KeyOf(s)) == Parsed(SubscriptionName(Some(LocatorOf(s)), Some(""), DataOf(s)))
  {
    UnpackedColonFree(s.name);
    NameParsesBack(LocatorOf(s), "", DataOf(s));
  }

  // ---------------------------------------------------------------- what is expected

  function OfStream(all: seq<Sub>, stream: string): (r: seq<Sub>)
    ensures forall s :: s in r <==> s in all && s.stream == stream
  {
    if all == [] then []
    else OfStream(all[..|all| - 1], stream) + if all[|all| - 1].stream == stream then [all[|all| - 1]] else []
  }

  /** Every subscription of the stream as often as it is there, and no other. */
  lemma {:induction false} OfStreamCounts(all: seq<Sub>, stream: string, s: Sub)
    ensures multiset(OfStream(all, stream))[s] == if s.stream == stream then multiset(all)[s] else 0
  {
    if all == [] {
    } else {
      var front, last := all[..|all| - 1], all[|all| - 1];
      OfStreamCounts(front, stream, s);
      assert all == front + [last];
    }
  }

  lemma OfStreamSnoc(all: seq<Sub>, s: Sub, stream: string)
    ensures OfStream(all + [s], stream) == OfStream(all, stream) + if s.stream == stream then [s] else []
  {
    assert (all + [s])[..|all|] == all;
  }

  lemma InOrderStep(all: seq<Sub>, front: seq<Sub>, last: Sub, stream: string)
    requires OfStream(all + front, stream) == OfStream(all, stream) + OfStream(front, stream)
    ensures OfStream(all + (front + [last]), stream) == OfStream(all, stream) + OfStream(front + [last], stream)
  {
    OfStreamSnoc(all + front, last, stream);
    OfStreamSnoc(front, last, stream);
    Associative(all, front, [last]);
    Associative(OfStream(all, stream), OfStream(front, stream), if last.stream == stream then [last] else []);
  }

  lemma Associative<T>(a: seq<T>, b: seq<T>, c: seq<T>)
    ensures a + b + c == a + (b + c)
  {
  }

  /** And in the same order. */
  lemma {:induction false} OfStreamInOrder(all: seq<Sub>, more: seq<Sub>, stream: string)
    ensures OfStream(all + more, stream) == OfStream(all, stream) + OfStream(more, stream)
  {
    if more == [] {
      assert all + more == all && OfStream(all, stream) + [] == OfStream(all, stream);
    } else {
      OfStreamInOrder(all, more[..|more| - 1], stream);
      InOrderStep(all, more[..|more| - 1], more[|more| - 1], stream);
      assert more == more[..|more| - 1] + [more[|more| - 1]];
    }
  }

  /** The first stream of that name. */
  function FindStream(streams: seq<Stream>, name: string): (r: Option<Stream>)
    ensures r.None? <==> forall s :: s in streams ==> s.name != name
    ensures r.Some? ==> exists i ::
      && 0 <= i < |streams| && streams[i] == r.value && r.value.name == name
      && forall j :: 0 <= j < i ==> streams[j].name != name
  {
    if streams == [] then None
    else if streams[0].name == name then Some(streams[0])
    else FindStream(streams[1..], name)
  }

  predicate Counts(s: Sub) {
    EventOf(s) != CREATE_EVENT
  }

  /** The events subscribed to under a key. */
  function EventsUnder(subs: seq<Sub>, key: string): seq<string> {
    if subs == [] then []
    else
      var last := subs[|subs| - 1];
      EventsUnder(subs[..|subs| - 1], key) + if Counts(last) && KeyOf(last) == key then [EventOf(last)] else []
  }

  /** The events subscribed to for the pool of `s`. */
  function EventsOfPool(subs: seq<Sub>, s: Sub): seq<string> {
    if subs == [] then []
    else
      var last := subs[|subs| - 1];
      EventsOfPool(subs[..|subs| - 1], s)
        + if Counts(last) && LocatorOf(last) == LocatorOf(s) && DataOf(last) == DataOf(s) then [EventOf(last)] else []
  }

  /** The pool has a valid locator and one subscription for each of its type's events, no more. */
  predicate PoolExact(subs: seq<Sub>, s: Sub) {
    var locator := UnpackPoolLocator(LocatorOf(s));
    locator.Valid() && multiset(EventsOfPool(subs, s)) == multiset(EventNames(locator.tokenType == Some(FUNGIBLE)))
  }

  predicate AllParse(subs: seq<Sub>) {
    forall i :: 0 <= i < |subs| ==> Parses(subs[i])
  }

  predicate AllExact(subs: seq<Sub>) {
    forall i :: 0 <= i < |subs| && Counts(subs[i]) ==> PoolExact(subs, subs[i])
  }

  /** The first name that does not parse. */
  predicate FirstBad(subs: seq<Sub>, i: nat) {
    i < |subs| && !Parses(subs[i]) && AllParse(subs[..i])
  }

  /** What the check must say about the subscriptions of the stream: the first name that does not
      parse decides, and otherwise the pools. */
  ghost predicate Right(subs: seq<Sub>, v: Verdict) {
    if AllParse(subs) then v == Verdict(!AllExact(subs))
    else exists i: nat :: FirstBad(subs, i) && v == if Throws(subs[i]) then Thrown else Verdict(true)
  }

  lemma {:induction false} UnderIsOfPool(subs: seq<Sub>, s: Sub)
    requires AllParse(subs) && Parses(s)
    ensures EventsUnder(subs, KeyOf(s)) == EventsOfPool(subs, s)
  {
    if subs == [] {
    } else {
      UnderIsOfPool(subs[..|subs| - 1], s);
      KeysSeparatePools(subs[|subs| - 1], s);
    }
  }

  // ---------------------------------------------------------------- pigeonhole

  predicate AllIn(expected: seq<string>, events: seq<string>) {
    forall i :: 0 <= i < |expected| ==> expected[i] in events
  }

  lemma WithoutOne(events: seq<string>, k: nat, rest: seq<string>)
    requires k < |events| && rest == events[..k] + events[k + 1..]
    ensures multiset(events) == multiset(rest) + multiset{events[k]}
    ensures forall e :: e in events && e != events[k] ==> e in rest
  {
    assert events == events[..k] + [events[k]] + events[k + 1..];
    forall e | e in events && e != events[k] ensures e in rest {
      var j :| 0 <= j < |events| && events[j] == e;
      assert rest[if j < k then j else j - 1] == e;
    }
  }

  lemma {:induction false} NoneMissing(expected: seq<string>, events: seq<string>)
    requires Distinct(expected) && |expected| == |events| && AllIn(expected, events)
    ensures multiset(expected) == multiset(events)
  {
    if expected == [] {
    } else {
      var n := |expected| - 1;
      var e := expected[n];
      var k :| 0 <= k < |events| && events[k] == e;
      var rest := events[..k] + events[k + 1..];
      WithoutOne(events, k, rest);
      forall i | 0 <= i < n ensures expected[..n][i] in rest {
        assert expected[i] == expected[..n][i];
      }
      NoneMissing(expected[..n], rest);
      assert expected == expected[..n] + [e];
    }
  }

  /** As many events as expected, and every expected one among them: then none is missing, doubled or
      foreign. */
  lemma Pigeonhole(expected: seq<string>, events: seq<string>)
    requires Distinct(expected)
    ensures |expected| == |events| && AllIn(expected, events) <==> multiset(expected) == multiset(events)
  {
    if multiset(expected) == multiset(events) {
      assert |multiset(expected)| == |expected| && |multiset(events)| == |events|;
      forall i | 0 <= i < |expected| ensures expected[i] in events {
        assert expected[i] in multiset(expected);
      }
    } else if |expected| == |events| && AllIn(expected, events) {
      NoneMissing(expected, events);
    }
  }

  lemma EventNamesDistinct(isFungible: bool)
    ensures Distinct(EventNames(isFungible))
  {
    EventNamesDiffer();
    DistinctSnoc([], TRANSFER);
    assert [] + [TRANSFER] == [TRANSFER];
    DistinctSnoc([TRANSFER], APPROVAL);
    assert [TRANSFER] + [APPROVAL] == [TRANSFER, APPROVAL];
    DistinctSnoc([TRANSFER, APPROVAL], APPROVAL_FOR_ALL);
  }

  // ---------------------------------------------------------------- the check

  method Includes(expected: seq<string>, events: seq<string>) returns (r: bool)
    ensures r == AllIn(expected, events)
  {
    for i := 0 to |expected|
      invariant forall k :: 0 <= k < i ==> expected[k] in events
    {
      if expected[i] !in events {
        return false;
      }
    }
    return true;
  }

  type FoundEvents = OrderedMap<string, seq<string>>

  /** The map holds, for every key, the events found under it so far. */
  ghost predicate Groups(found: FoundEvents, subs: seq<Sub>) {
    forall key: string {:trigger EventsUnder(subs, key)} ::
      found.Get(key) == if EventsUnder(subs, key) == [] then None else Some(EventsUnder(subs, key))
  }

  function Grown(found: FoundEvents, key: string, event: string): FoundEvents {
    found.Set(key, (if key in found.entries then found.entries[key] else []) + [event])
  }

  lemma GroupsGrow(found: FoundEvents, subs: seq<Sub>, s: Sub, more: seq<Sub>)
    requires Groups(found, subs) && more == subs + [s]
    ensures Groups(if Counts(s) then Grown(found, KeyOf(s), EventOf(s)) else found, more)
  {
    assert more[..|subs|] == subs;
    var after := if Counts(s) then Grown(found, KeyOf(s), EventOf(s)) else found;
    forall key: string
      ensures after.Get(key) == if EventsUnder(more, key) == [] then None else Some(EventsUnder(more, key))
    {
      var before := EventsUnder(subs, key);
      assert EventsUnder(more, key) == if Counts(s) && KeyOf(s) == key then before + [EventOf(s)] else before;
    }
  }

  datatype Grouping = Grouped(found: FoundEvents) | BadName(verdict: Verdict)

  method GroupEvents(subs: seq<Sub>) returns (r: Grouping)
    ensures r.Grouped? ==> AllParse(subs) && r.found.Valid() && Groups(r.found, subs)
    ensures r.BadName? ==> !AllParse(subs) && Right(subs, r.verdict)
  {
    var foundEvents: FoundEvents := OrderedMap([], map[]);
    for i := 0 to |subs|
      invariant AllParse(subs[..i])
      invariant foundEvents.Valid() && Groups(foundEvents, subs[..i])
    {
      var parts := UnpackSubscriptionName(subs[i].name);
      if parts.UriError? {
        assert FirstBad(subs, i);
        return BadName(Thrown);
      }
      if parts.name.poolLocator.None? || parts.name.event.None? {
        assert FirstBad(subs, i);
        return BadName(Verdict(true));
      }
      GroupsGrow(foundEvents, subs[..i], subs[i], subs[..i + 1]);
      if parts.name.event.value != CREATE_EVENT {
        var key := PackSubscriptionName(parts.name.poolLocator.value, "", parts.name.poolData);
        var existing := foundEvents.Get(key);
        if existing.Some? {
          foundEvents := foundEvents.Set(key, existing.value + [parts.name.event.value]);
        } else {
          assert [] + [parts.name.event.value] == [parts.name.event.value];
          foundEvents := foundEvents.Set(key, [parts.name.event.value]);
        }
      }
    }
    assert subs[..|subs|] == subs;
    return Grouped(foundEvents);
  }

  /** The pool of a key, judged by number and inclusion of its events. */
  predicate Passes(key: string, events: seq<string>) {
    var u := UnpackSubscriptionName(key);
    u.Parsed?
    && var locator := UnpackPoolLocator(u.name.poolLocator.GetOr(""));
       var expected := EventNames(locator.tokenType == Some(FUNGIBLE));
       locator.Valid() && |expected| == |events| && AllIn(expected, events)
  }

  /** The groups from the `i`-th on pass. */
  predicate PassFrom(found: FoundEvents, i: nat)
    requires forall k :: 0 <= k < |found.order| ==> found.order[k] in found.entries
    decreases |found.order| - i
  {
    i >= |found.order| || (Passes(found.order[i], found.entries[found.order[i]]) && PassFrom(found, i + 1))
  }

  method CheckGroup(key: string, events: seq<string>) returns (ok: bool)
    requires UnpackSubscriptionName(key).Parsed?
    ensures ok == Passes(key, events)
  {
    var parts := UnpackSubscriptionName(key).name;
    var unpackedLocator := UnpackPoolLocator(parts.poolLocator.GetOr(""));
    if !unpackedLocator.Valid() {
      return false;
    }
    var allEvents := EventNames(unpackedLocator.tokenType == Some(FUNGIBLE));
    var all := Includes(allEvents, events);
    return |allEvents| == |events| && all;
  }

  method CheckGroups(found: FoundEvents) returns (warned: bool)
    requires forall k :: 0 <= k < |found.order| ==> found.order[k] in found.entries
    requires forall k :: 0 <= k < |found.order| ==> UnpackSubscriptionName(found.order[k]).Parsed?
    ensures warned == !PassFrom(found, 0)
  {
    for i := 0 to |found.order|
      invariant PassFrom(found, 0) == PassFrom(found, i)
    {
      var ok := CheckGroup(found.order[i], found.entries[found.order[i]]);
      if !ok {
        return true;
      }
    }
    return false;
  }

  lemma PassesIff(subs: seq<Sub>, s: Sub)
    requires AllParse(subs) && Parses(s)
    ensures Passes(KeyOf(s), EventsUnder(subs, KeyOf(s))) <==> PoolExact(subs, s)
  {
    var isFungible := UnpackPoolLocator(LocatorOf(s)).tokenType == Some(FUNGIBLE);
    KeyParsesBack(s);
    EventNamesDistinct(isFungible);
    UnderIsOfPool(subs, s);
    Pigeonhole(EventNames(isFungible), EventsOfPool(subs, s));
  }

  lemma {:induction false} UnderHas(subs: seq<Sub>, key: string) returns (i: nat)
    ensures EventsUnder(subs, key) != [] ==> i < |subs| && Counts(subs[i]) && KeyOf(subs[i]) == key
  {
    i := 0;
    if subs == [] {
    } else {
      var n := |subs| - 1;
      if Counts(subs[n]) && KeyOf(subs[n]) == key {
        i := n;
      } else {
        i := UnderHas(subs[..n], key);
      }
    }
  }

  lemma {:induction false} CountedUnder(subs: seq<Sub>, i: nat)
    requires i < |subs| && Counts(subs[i])
    ensures EventsUnder(subs, KeyOf(subs[i])) != []
  {
    if i >= |subs| - 1 {
    } else {
      CountedUnder(subs[..|subs| - 1], i);
    }
  }

  lemma KeysKnown(subs: seq<Sub>, found: FoundEvents, k: nat) returns (i: nat)
    requires AllParse(subs) && found.Valid() && Groups(found, subs) && k < |found.order|
    ensures i < |subs| && Counts(subs[i]) && KeyOf(subs[i]) == found.order[k] && found.order[k] in found.entries
    ensures found.entries[found.order[k]] == EventsUnder(subs, found.order[k])
    ensures UnpackSubscriptionName(found.order[k]).Parsed?
  {
    var key := found.order[k];
    assert key in found.entries;
    assert found.Get(key) == if EventsUnder(subs, key) == [] then None else Some(EventsUnder(subs, key));
    i := UnderHas(subs, key);
    KeyParsesBack(subs[i]);
  }

  lemma ExactPassesAt(subs: seq<Sub>, found: FoundEvents, k: nat)
    requires AllParse(subs) && found.Valid() && Groups(found, subs) && AllExact(subs) && k < |found.order|
    ensures found.order[k] in found.entries && Passes(found.order[k], found.entries[found.order[k]])
  {
    var i := KeysKnown(subs, found, k);
    PassesIff(subs, subs[i]);
  }

  lemma {:induction false} FailsSomewhere(found: FoundEvents, i: nat) returns (k: nat)
    requires forall j :: 0 <= j < |found.order| ==> found.order[j] in found.entries
    requires !PassFrom(found, i)
    ensures k < |found.order| && !Passes(found.order[k], found.entries[found.order[k]])
    decreases |found.order| - i
  {
    if Passes(found.order[i], found.entries[found.order[i]]) {
      k := FailsSomewhere(found, i + 1);
    } else {
      k := i;
    }
  }

  lemma {:induction false} PassedAt(found: FoundEvents, i: nat, k: nat)
    requires forall j :: 0 <= j < |found.order| ==> found.order[j] in found.entries
    requires PassFrom(found, i) && i <= k < |found.order|
    ensures Passes(found.order[k], found.entries[found.order[k]])
    decreases k - i
  {
    if i == k {
      assert PassFrom(found, k);
    } else {
      PassedAt(found, i + 1, k);
    }
  }

  lemma PassedExact(subs: seq<Sub>, found: FoundEvents, i: nat)
    requires AllParse(subs) && found.Valid() && Groups(found, subs) && i < |subs| && Counts(subs[i])
    requires forall j :: 0 <= j < |found.order| ==> found.order[j] in found.entries
    requires PassFrom(found, 0)
    ensures PoolExact(subs, subs[i])
  {
    var key := KeyOf(subs[i]);
    CountedUnder(subs, i);
    assert found.Get(key) == Some(EventsUnder(subs, key));
    assert key in found.order;
    var k :| 0 <= k < |found.order| && found.order[k] == key;
    PassedAt(found, 0, k);
    PassesIff(subs, subs[i]);
  }

  /** Judging group by group is judging pool by pool. */
  lemma GroupsJudgePools(subs: seq<Sub>, found: FoundEvents)
    requires AllParse(subs) && found.Valid() && Groups(found, subs)
    requires forall j :: 0 <= j < |found.order| ==> found.order[j] in found.entries
    ensures PassFrom(found, 0) <==> AllExact(subs)
  {
    if PassFrom(found, 0) {
      forall i: nat | i < |subs| && Counts(subs[i]) ensures PoolExact(subs, subs[i]) {
        PassedExact(subs, found, i);
      }
    } else if AllExact(subs) {
      var k := FailsSomewhere(found, 0);
      ExactPassesAt(subs, found, k);
      assert false;
    }
  }

  method CheckSubscriptions(subs: seq<Sub>) returns (v: Verdict)
    ensures Right(subs, v)
  {
    var grouping := GroupEvents(subs);
    match grouping
    case BadName(verdict) =>
      return verdict;
    case Grouped(foundEvents) =>
      forall k: nat | k < |foundEvents.order|
        ensures foundEvents.order[k] in foundEvents.entries && UnpackSubscriptionName(foundEvents.order[k]).Parsed?
      {
        var i := KeysKnown(subs, foundEvents, k);
      }
      GroupsJudgePools(subs, foundEvents);
      var warned := CheckGroups(foundEvents);
      return Verdict(warned);
  }

  // ---------------------------------------------------------------- the verdict over the whole store

  /** The name of `t` is that of an event of a pool. */
  predicate NamesEvent(t: Sub, locator: string, data: Option<string>, event: string) {
    UnpackSubscriptionName(t.name) == Parsed(SubscriptionName(Some(locator), Some(event), data))
  }

  /** A subscription of the stream for an event of a pool; those of factories do not count. */
  predicate OnStream(t: Sub, stream: string, locator: string, data: Option<string>, event: string) {
    t.stream == stream && NamesEvent(t, locator, data, event) && event != CREATE_EVENT
  }

  /** Where in the store they are. */
  ghost function Serving(all: seq<Sub>, stream: string, locator: string, data: Option<string>, event: string): set<nat> {
    set i: nat | i < |all| && OnStream(all[i], stream, locator, data, event)
  }

  /** The pool has a valid locator, and on the stream one subscription for each of its type's events and
      none for any other. */
  ghost predicate PoolHealthy(all: seq<Sub>, stream: string, locator: string, data: Option<string>) {
    var pool := UnpackPoolLocator(locator);
    pool.Valid() && forall event ::
      |Serving(all, stream, locator, data, event)| ==
        if event in EventNames(pool.tokenType == Some(FUNGIBLE)) then 1 else 0
  }

  /** Some subscription of the stream belongs to a pool that is not healthy. */
  ghost predicate SomeUnhealthy(all: seq<Sub>, stream: string) {
    exists s, locator, data, event ::
      s in all && OnStream(s, stream, locator, data, event) && !PoolHealthy(all, stream, locator, data)
  }

  /** Every name on the stream has a locator and an event. */
  predicate AllReadable(all: seq<Sub>, stream: string) {
    forall s :: s in all && s.stream == stream ==>
      var u := UnpackSubscriptionName(s.name);
      u.Parsed? && u.name.poolLocator.Some? && u.name.event.Some?
  }

  /** In the terms of the check: `t` is counted for the pool of `s`. */
  predicate Serves(t: Sub, s: Sub, event: string) {
    Counts(t) && LocatorOf(t) == LocatorOf(s) && DataOf(t) == DataOf(s) && EventOf(t) == event
  }

  lemma ServesIff(t: Sub, s: Sub, event: string)
    requires Parses(t) && Parses(s)
    ensures Serves(t, s, event) <==>
      NamesEvent(t, LocatorOf(s), DataOf(s), event) && event != CREATE_EVENT
  {
  }

  lemma OneMore(before: set<nat>, after: set<nat>, n: nat, hit: bool)
    requires n !in before && forall i: nat :: i in after <==> i in before || (i == n && hit)
    ensures |after| == |before| + if hit then 1 else 0
  {
    assert after == before + if hit then {n} else {};
  }

  lemma ServingSnoc(all: seq<Sub>, t: Sub, stream: string, locator: string, data: Option<string>, event: string)
    ensures |Serving(all + [t], stream, locator, data, event)| ==
      |Serving(all, stream, locator, data, event)| +
        if OnStream(t, stream, locator, data, event) then 1 else 0
  {
    var before, after := Serving(all, stream, locator, data, event), Serving(all + [t], stream, locator, data, event);
    var n: nat, hit := |all|, OnStream(t, stream, locator, data, event);
    forall i: nat ensures i in after <==> i in before || (i == n && hit) {
      if i < n {
        assert (all + [t])[i] == all[i];
      }
    }
    OneMore(before, after, n, hit);
  }

  lemma EventsSnoc(subs: seq<Sub>, t: Sub, s: Sub, event: string)
    ensures multiset(EventsOfPool(subs + [t], s))[event] ==
      multiset(EventsOfPool(subs, s))[event] + if Serves(t, s, event) then 1 else 0
  {
    assert (subs + [t])[..|subs|] == subs;
  }

  lemma {:induction false} ServingCounts(all: seq<Sub>, stream: string, s: Sub, event: string)
    requires Parses(s) && forall t :: t in all && t.stream == stream ==> Parses(t)
    ensures multiset(EventsOfPool(OfStream(all, stream), s))[event] ==
      |Serving(all, stream, LocatorOf(s), DataOf(s), event)|
  {
    if all == [] {
      assert Serving(all, stream, LocatorOf(s), DataOf(s), event) == {};
    } else {
      var front, last := all[..|all| - 1], all[|all| - 1];
      assert all == front + [last];
      ServingCounts(front, stream, s, event);
      ServingSnoc(front, last, stream, LocatorOf(s), DataOf(s), event);
      OfStreamSnoc(front, last, stream);
      if last.stream == stream {
        assert last in all;
        ServesIff(last, s, event);
        EventsSnoc(OfStream(front, stream), last, s, event);
      } else {
        assert OfStream(front, stream) + [] == OfStream(front, stream);
      }
    }
  }

  lemma NamesOnce(isFungible: bool, event: string)
    ensures multiset(EventNames(isFungible))[event] == if event in EventNames(isFungible) then 1 else 0
  {
    EventNamesDiffer();
  }

  lemma EachOnce(found: multiset<string>, isFungible: bool)
    ensures found == multiset(EventNames(isFungible)) <==>
      forall event :: found[event] == if event in EventNames(isFungible) then 1 else 0
  {
    forall event ensures multiset(EventNames(isFungible))[event] == if event in EventNames(isFungible) then 1 else 0 {
      NamesOnce(isFungible, event);
    }
    if forall event :: found[event] == if event in EventNames(isFungible) then 1 else 0 {
      assert forall event :: found[event] == multiset(EventNames(isFungible))[event];
    }
  }

  lemma EventsOnce(all: seq<Sub>, stream: string, s: Sub, isFungible: bool)
    requires Parses(s) && forall t :: t in all && t.stream == stream ==> Parses(t)
    ensures multiset(EventsOfPool(OfStream(all, stream), s)) == multiset(EventNames(isFungible)) <==>
      forall event ::
        |Serving(all, stream, LocatorOf(s), DataOf(s), event)| == if event in EventNames(isFungible) then 1 else 0
  {
    EachOnce(multiset(EventsOfPool(OfStream(all, stream), s)), isFungible);
    forall event
      ensures multiset(EventsOfPool(OfStream(all, stream), s))[event] ==
        |Serving(all, stream, LocatorOf(s), DataOf(s), event)|
    {
      ServingCounts(all, stream, s, event);
    }
  }

  lemma HealthyIff(all: seq<Sub>, stream: string, s: Sub)
    requires Parses(s) && forall t :: t in all && t.stream == stream ==> Parses(t)
    ensures PoolExact(OfStream(all, stream), s) <==> PoolHealthy(all, stream, LocatorOf(s), DataOf(s))
  {
    EventsOnce(all, stream, s, UnpackPoolLocator(LocatorOf(s)).tokenType == Some(FUNGIBLE));
  }

  lemma UnhealthyFound(all: seq<Sub>, stream: string)
    requires AllReadable(all, stream) && AllExact(OfStream(all, stream))
    ensures !SomeUnhealthy(all, stream)
  {
    var subs := OfStream(all, stream);
    forall s, locator, data, event |
      s in all && OnStream(s, stream, locator, data, event)
      ensures PoolHealthy(all, stream, locator, data)
    {
      assert s in subs && Counts(s) && Parses(s);
      HealthyIff(all, stream, s);
    }
  }

  /** If all names on the stream parse, the check warns exactly if some pool on it is not healthy. */
  lemma VerdictOverStore(all: seq<Sub>, stream: string, v: Verdict)
    requires AllReadable(all, stream)
    ensures Right(OfStream(all, stream), v) <==> v == Verdict(SomeUnhealthy(all, stream))
  {
    var subs := OfStream(all, stream);
    assert forall i :: 0 <= i < |subs| ==> subs[i] in subs;
    if AllExact(subs) {
      UnhealthyFound(all, stream);
    } else {
      var i :| 0 <= i < |subs| && Counts(subs[i]) && !PoolExact(subs, subs[i]);
      HealthyIff(all, stream, subs[i]);
      assert OnStream(subs[i], stream, LocatorOf(subs[i]), DataOf(subs[i]), EventOf(subs[i]));
    }
  }

  /** Only the stream of the plain topic name is looked at; no such stream, or no subscription on it,
      is no reason to warn. */
  method MigrationCheck(topic: string, streams: seq<Stream>, all: seq<Sub>) returns (v: Verdict)
    ensures match FindStream(streams, topic)
      case None => v == Verdict(false)
      case Some(stream) =>
        && Right(OfStream(all, stream.id), v)
        && (AllReadable(all, stream.id) ==> v == Verdict(SomeUnhealthy(all, stream.id)))
  {
    var existing := FindStream(streams, topic);
    if existing.None? {
      return Verdict(false);
    }
    var subs := OfStream(all, existing.value.id);
    if |subs| == 0 {
      v := Verdict(false);
    } else {
      v := CheckSubscriptions(subs);
    }
    if AllReadable(all, existing.value.id) {
      VerdictOverStore(all, existing.value.id, v);
    }
  }
}
