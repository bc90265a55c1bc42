/** Activating and deactivating a pool: a handful of list-then-change operations on the remote
    subscription store, running side by side. */
module Subscriptions {
  import opened Js
  import opened Text
  import opened Percent
  import opened Names

  datatype Sub = Sub(id: nat, name: string, stream: string)

  type Store = seq<Sub>

  predicate Is(s: Sub, stream: string, name: string) {
    s.name == name && s.stream == stream
  }

  /** `find(s => s.name === name && s.stream === streamId)` */
  function Find(store: Store, stream: string, name: string): Option<Sub> {
    if store == [] then None
    else if Is(store[0], stream, name) then Some(store[0])
    else Find(store[1..], stream, name)
  }

  function Count(store: Store, stream: string, name: string): nat {
    if store == [] then 0
    else (if Is(store[0], stream, name) then 1 else 0) + Count(store[1..], stream, name)
  }

  predicate HasId(store: Store, id: nat) {
    exists k :: 0 <= k < |store| && store[k].id == id
  }

  /** The remote store never holds an id twice. */
  predicate UniqueIds(store: Store) {
    store == [] || (!HasId(store[1..], store[0].id) && UniqueIds(store[1..]))
  }

  function Delete(store: Store, id: nat): Store {
    if store == [] then []
    else if store[0].id == id then store[1..]
    else [store[0]] + Delete(store[1..], id)
  }

  lemma {:induction false} FindIff(store: Store, stream: string, name: string)
    ensures Find(store, stream, name).Some? <==> Count(store, stream, name) > 0
    ensures Find(store, stream, name).Some? ==>
      Find(store, stream, name).value in store && Is(Find(store, stream, name).value, stream, name)
  {
    if store == [] {
    } else {
      FindIff(store[1..], stream, name);
    }
  }

  /** The subscription found is the oldest of that name on that stream. */
  lemma {:induction false} FindsFirst(store: Store, stream: string, name: string) returns (i: nat)
    requires Find(store, stream, name).Some?
    ensures i < |store| && Find(store, stream, name) == Some(store[i])
    ensures forall j :: 0 <= j < i ==> !Is(store[j], stream, name)
  {
    if Is(store[0], stream, name) {
      i := 0;
    } else {
      var k := FindsFirst(store[1..], stream, name);
      i := k + 1;
      assert forall j :: 0 < j < i ==> store[j] == store[1..][j - 1];
    }
  }

  lemma {:induction false} CountSnoc(store: Store, s: Sub, stream: string, name: string)
    ensures Count(store + [s], stream, name) == Count(store, stream, name) + if Is(s, stream, name) then 1 else 0
  {
    if store == [] {
      assert store + [s] == [s] && [s][1..] == [];
    } else {
      CountSnoc(store[1..], s, stream, name);
      assert (store + [s])[1..] == store[1..] + [s];
    }
  }

  lemma {:induction false} CountMember(store: Store, s: Sub)
    requires s in store
    ensures Count(store, s.stream, s.name) > 0 && HasId(store, s.id)
  {
    if store[0] == s {
    } else {
      CountMember(store[1..], s);
      var k :| 0 <= k < |store[1..]| && store[1..][k].id == s.id;
      assert store[k + 1].id == s.id;
    }
  }

  lemma {:induction false} DeleteCounts(store: Store, s: Sub, stream: string, name: string)
    requires s in store && UniqueIds(store)
    ensures Count(Delete(store, s.id), stream, name) == Count(store, stream, name) - if Is(s, stream, name) then 1 else 0
    ensures forall t :: t in store && t != s ==> t in Delete(store, s.id)
    ensures UniqueIds(Delete(store, s.id)) && forall id :: HasId(Delete(store, s.id), id) ==> HasId(store, id)
  {
    if store[0].id == s.id {
      if store[0] != s {
        CountMember(store[1..], s);
      }
      forall id | HasId(store[1..], id) ensures HasId(store, id) {
        TailId(store, id);
      }
    } else {
      DeleteCounts(store[1..], s, stream, name);
      var rest := Delete(store[1..], s.id);
      assert ([store[0]] + rest)[1..] == rest;
      forall id | HasId([store[0]] + rest, id) ensures HasId(store, id) {
        if id != store[0].id {
          var k :| 0 <= k < |[store[0]] + rest| && ([store[0]] + rest)[k].id == id;
          assert rest[k - 1].id == id;
          TailId(store, id);
        } else {
          assert store[0].id == id;
        }
      }
    }
  }

  lemma TailId(store: Store, id: nat)
    requires store != [] && HasId(store[1..], id)
    ensures HasId(store, id)
  {
    var k :| 0 <= k < |store[1..]| && store[1..][k].id == id;
    assert store[k + 1].id == id;
  }

  // ---------------------------------------------------------------- operations side by side

  datatype Kind = GetOrCreate | DeleteByName

  /** Not yet listed; listed, with what was found; done, having changed the store or not; or failed,
      because the listed subscription was gone. */
  datatype Progress = Waiting | Listed(found: Option<Sub>) | Finished(changed: bool) | Failed

  datatype State = State(store: Store, tasks: seq<Progress>)

  /** Task `i` takes its next step; a created subscription gets the id `id`. */
  datatype Step = Step(i: nat, id: nat)

  predicate Enabled(s: State, step: Step) {
    && step.i < |s.tasks| && (s.tasks[step.i].Waiting? || s.tasks[step.i].Listed?)
    && !HasId(s.store, step.id)
  }

  function Next(kind: Kind, stream: string, names: seq<string>, s: State, step: Step): State
    requires Enabled(s, step) && |s.tasks| == |names|
  {
    var name := names[step.i];
    match s.tasks[step.i]
    case Waiting => s.(tasks := s.tasks[step.i := Listed(Find(s.store, stream, name))])
    case Listed(found) =>
      if kind == GetOrCreate then
        if found.Some? then s.(tasks := s.tasks[step.i := Finished(false)])
        else State(s.store + [Sub(step.id, name, stream)], s.tasks[step.i := Finished(true)])
      else
        if found.None? then s.(tasks := s.tasks[step.i := Finished(false)])
        else if HasId(s.store, found.value.id)
        then State(Delete(s.store, found.value.id), s.tasks[step.i := Finished(true)])
        else s.(tasks := s.tasks[step.i := Failed])
    case _ => s
  }

  function AllWaiting(n: nat): (tasks: seq<Progress>)
    ensures |tasks| == n && forall i :: 0 <= i < n ==> tasks[i] == Waiting
  {
    seq(n, _ => Waiting)
  }

  predicate Run(kind: Kind, stream: string, names: seq<string>, store: Store, steps: seq<Step>)
    decreases |steps|, 0
  {
    steps == [] || (
      Run(kind, stream, names, store, steps[..|steps| - 1])
      && Enabled(After(kind, stream, names, store, steps[..|steps| - 1]), steps[|steps| - 1]))
  }

  function After(kind: Kind, stream: string, names: seq<string>, store: Store, steps: seq<Step>): (s: State)
    requires Run(kind, stream, names, store, steps)
    ensures |s.tasks| == |names|
    decreases |steps|, 1
  {
    if steps == [] then State(store, AllWaiting(|names|))
    else Next(kind, stream, names, After(kind, stream, names, store, steps[..|steps| - 1]), steps[|steps| - 1])
  }

  predicate AllSettled(s: State) {
    forall i :: 0 <= i < |s.tasks| ==> s.tasks[i].Finished? || s.tasks[i].Failed?
  }

  // ---------------------------------------------------------------- activation

  function Ensured(n: nat): nat {
    if n == 0 then 1 else n
  }

  /** Where task `i` of an activation stands tells how its name is doing in the store. */
  ghost predicate TaskCreates(stream: string, name: string, before: Store, s: State, i: nat)
    requires i < |s.tasks|
  {
    var had, has := Count(before, stream, name), Count(s.store, stream, name);
    match s.tasks[i]
    case Waiting => has == had
    case Listed(found) => has == had && (found.Some? <==> had > 0)
    case Finished(changed) => has == Ensured(had) && (changed <==> had == 0)
    case Failed => false
  }

  /** No name that is listed twice is missing from the stream. */
  ghost predicate RepeatsPresent(stream: string, names: seq<string>, store: Store) {
    forall i: nat, j: nat {:trigger names[i], names[j]} ::
      i < j < |names| && names[i] == names[j] ==> Count(store, stream, names[i]) > 0
  }

  lemma DistinctRepeatsNothing(stream: string, names: seq<string>, store: Store)
    requires Distinct(names)
    ensures RepeatsPresent(stream, names, store) && RepeatsAbsent(stream, names, store)
  {
    forall i: nat, j: nat | i < j < |names| ensures names[i] != names[j] {
      DistinctAt(names, i, j);
    }
  }

  ghost predicate Activating(stream: string, names: seq<string>, before: Store, s: State) {
    && |s.tasks| == |names|
    && (forall i: nat {:trigger s.tasks[i]} :: i < |names| ==> TaskCreates(stream, names[i], before, s, i))
    && before <= s.store
    && (forall k :: |before| <= k < |s.store| ==> s.store[k].stream == stream && s.store[k].name in names)
    && ((exists i :: 0 <= i < |s.tasks| && s.tasks[i] == Finished(true)) || s.store == before)
  }

  lemma ActivatingStep(stream: string, names: seq<string>, before: Store, s: State, step: Step)
    requires RepeatsPresent(stream, names, before) && Activating(stream, names, before, s) && Enabled(s, step)
    ensures Activating(stream, names, before, Next(GetOrCreate, stream, names, s, step))
  {
    var s' := Next(GetOrCreate, stream, names, s, step);
    var i := step.i;
    assert TaskCreates(stream, names[i], before, s, i);
    FindIff(s.store, stream, names[i]);
    if s.tasks[i] == Listed(None) {
      assert s'.tasks[i] == Finished(true);
    } else {
      assert s'.store == s.store;
    }
    forall j: nat | j < |names| ensures TaskCreates(stream, names[j], before, s', j) {
      assert TaskCreates(stream, names[j], before, s, j);
      if s.tasks[i] == Listed(None) {
        CountSnoc(s.store, Sub(step.id, names[i], stream), stream, names[j]);
        assert i != j ==> names[i] != names[j];
      }
    }
    if s.store == before && s'.store == s.store {
    } else if s'.store == s.store {
      var k :| 0 <= k < |s.tasks| && s.tasks[k] == Finished(true);
      assert s'.tasks[k] == Finished(true);
    }
  }

  lemma {:induction false} AlwaysActivating(stream: string, names: seq<string>, before: Store, steps: seq<Step>)
    requires RepeatsPresent(stream, names, before) && Run(GetOrCreate, stream, names, before, steps)
    ensures Activating(stream, names, before, After(GetOrCreate, stream, names, before, steps))
  {
    if steps == [] {
      var s := After(GetOrCreate, stream, names, before, steps);
      forall i: nat | i < |names| ensures TaskCreates(stream, names[i], before, s, i) {
        assert s.tasks[i] == Waiting;
      }
    } else {
      var n := |steps| - 1;
      AlwaysActivating(stream, names, before, steps[..n]);
      ActivatingStep(stream, names, before, After(GetOrCreate, stream, names, before, steps[..n]), steps[n]);
    }
  }

  /** However the operations interleave, those of overlapping activations too, as long as no repeated
      name is missing: when all are done, every name is on the stream at least once, and exactly as
      often as before if it was there; the store has only grown, by subscriptions of those names on
      that stream. */
  lemma Activated(stream: string, names: seq<string>, before: Store, steps: seq<Step>)
    requires RepeatsPresent(stream, names, before) && Run(GetOrCreate, stream, names, before, steps)
    requires AllSettled(After(GetOrCreate, stream, names, before, steps))
    ensures var s := After(GetOrCreate, stream, names, before, steps);
      && (forall i :: 0 <= i < |names| ==>
            s.tasks[i].Finished? && Count(s.store, stream, names[i]) == Ensured(Count(before, stream, names[i])))
      && before <= s.store
      && (forall k :: |before| <= k < |s.store| ==> s.store[k].stream == stream && s.store[k].name in names)
  {
    AlwaysActivating(stream, names, before, steps);
    var s := After(GetOrCreate, stream, names, before, steps);
    forall i: nat | i < |names|
      ensures s.tasks[i].Finished? && Count(s.store, stream, names[i]) == Ensured(Count(before, stream, names[i]))
    {
      assert TaskCreates(stream, names[i], before, s, i);
    }
  }

  /** Activating again changes nothing, at any moment, however many activations overlap. */
  lemma ActivatedAgain(stream: string, names: seq<string>, before: Store, steps: seq<Step>)
    requires Run(GetOrCreate, stream, names, before, steps)
    requires forall i :: 0 <= i < |names| ==> Count(before, stream, names[i]) > 0
    ensures After(GetOrCreate, stream, names, before, steps).store == before
  {
    AlwaysActivating(stream, names, before, steps);
    var s := After(GetOrCreate, stream, names, before, steps);
    forall i: nat | i < |s.tasks| ensures s.tasks[i] != Finished(true) {
      assert TaskCreates(stream, names[i], before, s, i);
    }
  }

  // ---------------------------------------------------------------- deactivation

  function OneLess(n: nat): nat {
    if n == 0 then 0 else n - 1
  }

  ghost predicate TaskDeletes(stream: string, name: string, before: Store, s: State, i: nat)
    requires i < |s.tasks|
  {
    var had, has := Count(before, stream, name), Count(s.store, stream, name);
    match s.tasks[i]
    case Waiting => has == had
    case Listed(found) =>
      has == had && (found.Some? <==> had > 0) && (found.Some? ==> found.value in s.store && Is(found.value, stream, name))
    case Finished(changed) => has == OneLess(had) && (changed <==> had > 0)
    case Failed => false
  }

  /** No name that is listed twice is on the stream. */
  ghost predicate RepeatsAbsent(stream: string, names: seq<string>, store: Store) {
    forall i: nat, j: nat {:trigger names[i], names[j]} ::
      i < j < |names| && names[i] == names[j] ==> Count(store, stream, names[i]) == 0
  }

  ghost predicate Deactivating(stream: string, names: seq<string>, before: Store, s: State) {
    && |s.tasks| == |names| && UniqueIds(s.store)
    && (forall i: nat {:trigger s.tasks[i]} :: i < |names| ==> TaskDeletes(stream, names[i], before, s, i))
    && (forall st: string, n: string :: st != stream || n !in names ==> Count(s.store, st, n) == Count(before, st, n))
  }

  lemma DeletingStep(stream: string, names: seq<string>, before: Store, s: State, step: Step)
    requires RepeatsAbsent(stream, names, before) && Deactivating(stream, names, before, s) && Enabled(s, step)
    requires s.tasks[step.i].Listed? && s.tasks[step.i].found.Some?
    ensures Deactivating(stream, names, before, Next(DeleteByName, stream, names, s, step))
  {
    var s', i := Next(DeleteByName, stream, names, s, step), step.i;
    assert TaskDeletes(stream, names[i], before, s, i);
    var sub := s.tasks[i].found.value;
    CountMember(s.store, sub);
    DeleteCounts(s.store, sub, stream, names[i]);
    forall j: nat | j < |names| ensures TaskDeletes(stream, names[j], before, s', j) {
      assert TaskDeletes(stream, names[j], before, s, j);
      DeleteCounts(s.store, sub, stream, names[j]);
      assert i != j ==> names[i] != names[j];
    }
    forall st: string, n: string | st != stream || n !in names ensures Count(s'.store, st, n) == Count(before, st, n) {
      DeleteCounts(s.store, sub, st, n);
    }
  }

  lemma DeactivatingStep(stream: string, names: seq<string>, before: Store, s: State, step: Step)
    requires RepeatsAbsent(stream, names, before) && Deactivating(stream, names, before, s) && Enabled(s, step)
    ensures Deactivating(stream, names, before, Next(DeleteByName, stream, names, s, step))
  {
    var s', i := Next(DeleteByName, stream, names, s, step), step.i;
    if s.tasks[i].Listed? && s.tasks[i].found.Some? {
      DeletingStep(stream, names, before, s, step);
    } else {
      FindIff(s.store, stream, names[i]);
      forall j: nat | j < |names| ensures TaskDeletes(stream, names[j], before, s', j) {
        assert TaskDeletes(stream, names[j], before, s, j);
      }
    }
  }

  lemma {:induction false} AlwaysDeactivating(stream: string, names: seq<string>, before: Store, steps: seq<Step>)
    requires RepeatsAbsent(stream, names, before) && UniqueIds(before)
    requires Run(DeleteByName, stream, names, before, steps)
    ensures Deactivating(stream, names, before, After(DeleteByName, stream, names, before, steps))
  {
    if steps == [] {
      var s := After(DeleteByName, stream, names, before, steps);
      forall i: nat | i < |names| ensures TaskDeletes(stream, names[i], before, s, i) {
        assert s.tasks[i] == Waiting;
      }
    } else {
      var n := |steps| - 1;
      AlwaysDeactivating(stream, names, before, steps[..n]);
      DeactivatingStep(stream, names, before, After(DeleteByName, stream, names, before, steps[..n]), steps[n]);
    }
  }

  /** `results.every(deleted => !deleted)`: the pool had no listeners. */
  predicate NotFound(s: State) {
    forall i :: 0 <= i < |s.tasks| ==> s.tasks[i] == Finished(false)
  }

  /** However the operations interleave, as long as no repeated name is there to be deleted twice: none
      fails, each name is on the stream once less if it was there, nothing else changes, and "not
      found" is reported exactly if none was there. */
  lemma Deactivated(stream: string, names: seq<string>, before: Store, steps: seq<Step>)
    requires RepeatsAbsent(stream, names, before) && UniqueIds(before) && Run(DeleteByName, stream, names, before, steps)
    requires AllSettled(After(DeleteByName, stream, names, before, steps))
    ensures var s := After(DeleteByName, stream, names, before, steps);
      && (forall i :: 0 <= i < |names| ==>
            s.tasks[i].Finished? && Count(s.store, stream, names[i]) == OneLess(Count(before, stream, names[i])))
      && (forall st: string, n: string :: st != stream || n !in names ==> Count(s.store, st, n) == Count(before, st, n))
      && (NotFound(s) <==> forall i :: 0 <= i < |names| ==> Count(before, stream, names[i]) == 0)
  {
    AlwaysDeactivating(stream, names, before, steps);
    var s := After(DeleteByName, stream, names, before, steps);
    forall i: nat | i < |names|
      ensures s.tasks[i].Finished? && Count(s.store, stream, names[i]) == OneLess(Count(before, stream, names[i]))
      ensures s.tasks[i] == Finished(false) <==> Count(before, stream, names[i]) == 0
    {
      assert TaskDeletes(stream, names[i], before, s, i);
    }
    if NotFound(s) {
      forall i: nat | i < |names| ensures Count(before, stream, names[i]) == 0 {
        assert s.tasks[i] == Finished(false);
      }
    }
  }

  // ---------------------------------------------------------------- operations on the same name

  function NextId(store: Store): (id: nat)
    ensures !HasId(store, id) && forall k :: 0 <= k < |store| ==> store[k].id < id
  {
    if store == [] then 0
    else
      var id := NextId(store[1..]);
      assert forall k :: 1 <= k < |store| ==> store[k] == store[1..][k - 1];
      if store[0].id < id then id else store[0].id + 1
  }

  predicate Open(p: Progress) {
    p.Waiting? || p.Listed?
  }

  /** What one more step of task `i` does. */
  lemma Advance(kind: Kind, stream: string, names: seq<string>, before: Store, steps: seq<Step>, i: nat)
      returns (t: seq<Step>, s: State, next: State)
    requires Run(kind, stream, names, before, steps) && i < |names|
    requires Open(After(kind, stream, names, before, steps).tasks[i])
    ensures s == After(kind, stream, names, before, steps)
    ensures steps <= t && Run(kind, stream, names, before, t) && After(kind, stream, names, before, t) == next
    ensures Enabled(s, Step(i, NextId(s.store))) && next == Next(kind, stream, names, s, Step(i, NextId(s.store)))
  {
    s := After(kind, stream, names, before, steps);
    t := steps + [Step(i, NextId(s.store))];
    assert t[..|steps|] == steps;
    next := After(kind, stream, names, before, t);
  }

  /** Every other task is where it was, and nothing created is lost. */
  lemma NextKeeps(kind: Kind, stream: string, names: seq<string>, s: State, step: Step, st: string, n: string)
    requires Enabled(s, step) && |s.tasks| == |names|
    ensures var next := Next(kind, stream, names, s, step);
      && (forall k :: 0 <= k < |names| && k != step.i ==> next.tasks[k] == s.tasks[k])
      && (s.tasks[step.i].Waiting? ==> next.tasks[step.i].Listed? && next.store == s.store)
      && (s.tasks[step.i].Listed? ==> !Open(next.tasks[step.i]))
      && (kind == GetOrCreate ==> Count(next.store, st, n) >= Count(s.store, st, n))
  {
    CountSnoc(s.store, Sub(step.id, names[step.i], stream), st, n);
  }

  /** All tasks from the `i`-th on can finish, leaving the others alone. */
  lemma {:induction false} FinishFrom(kind: Kind, stream: string, names: seq<string>, before: Store, steps: seq<Step>,
                                      i: nat, st: string, n: string) returns (t: seq<Step>)
    requires Run(kind, stream, names, before, steps) && i <= |names|
    requires forall k :: 0 <= k < i ==> !Open(After(kind, stream, names, before, steps).tasks[k])
    ensures Run(kind, stream, names, before, t) && AllSettled(After(kind, stream, names, before, t))
    ensures var s, end := After(kind, stream, names, before, steps), After(kind, stream, names, before, t);
      && (forall k :: 0 <= k < |names| && !Open(s.tasks[k]) ==> end.tasks[k] == s.tasks[k])
      && (kind == GetOrCreate ==> Count(end.store, st, n) >= Count(s.store, st, n))
    decreases |names| - i, if i < |names| then (match After(kind, stream, names, before, steps).tasks[i]
                                                case Waiting => 2 case Listed(_) => 1 case _ => 0) else 0
  {
    var s := After(kind, stream, names, before, steps);
    if i == |names| {
      t := steps;
    } else if !Open(s.tasks[i]) {
      t := FinishFrom(kind, stream, names, before, steps, i + 1, st, n);
    } else {
      var u, s0, next := Advance(kind, stream, names, before, steps, i);
      NextKeeps(kind, stream, names, s, Step(i, NextId(s.store)), st, n);
      t := FinishFrom(kind, stream, names, before, u, i, st, n);
    }
  }

  /** Two tasks of one name both list before either acts. */
  lemma BothList(kind: Kind, stream: string, names: seq<string>, before: Store, i: nat, j: nat) returns (t: seq<Step>)
    requires i < j < |names| && names[i] == names[j]
    ensures Run(kind, stream, names, before, t)
    ensures var s, found := After(kind, stream, names, before, t), Find(before, stream, names[i]);
      s.store == before && s.tasks[i] == Listed(found) && s.tasks[j] == Listed(found)
  {
    assert After(kind, stream, names, before, []).tasks[i] == Waiting;
    assert After(kind, stream, names, before, []).tasks[j] == Waiting;
    var t1, s0, s1 := Advance(kind, stream, names, before, [], i);
    var s2, s1';
    t, s1', s2 := Advance(kind, stream, names, before, t1, j);
  }

  lemma DuplicateCreated(stream: string, names: seq<string>, before: Store, i: nat, j: nat) returns (t: seq<Step>)
    requires i < j < |names| && names[i] == names[j] && Count(before, stream, names[i]) == 0
    ensures Run(GetOrCreate, stream, names, before, t) && AllSettled(After(GetOrCreate, stream, names, before, t))
    ensures Count(After(GetOrCreate, stream, names, before, t).store, stream, names[i]) >= 2
  {
    var n := names[i];
    FindIff(before, stream, n);
    var t0 := BothList(GetOrCreate, stream, names, before, i, j);
    var t1, s0, s1 := Advance(GetOrCreate, stream, names, before, t0, i);
    CountSnoc(s0.store, Sub(NextId(s0.store), n, stream), stream, n);
    var t2, s1', s2 := Advance(GetOrCreate, stream, names, before, t1, j);
    CountSnoc(s1.store, Sub(NextId(s1.store), n, stream), stream, n);
    t := FinishFrom(GetOrCreate, stream, names, before, t2, 0, stream, n);
  }

  /** Whatever the interleaving, each name ends up on the stream once if it was missing and as often as
      before otherwise. */
  ghost predicate AlwaysOnce(stream: string, names: seq<string>, before: Store) {
    forall t :: Run(GetOrCreate, stream, names, before, t) && AllSettled(After(GetOrCreate, stream, names, before, t)) ==>
      forall i :: 0 <= i < |names| ==>
        Count(After(GetOrCreate, stream, names, before, t).store, stream, names[i])
          == Ensured(Count(before, stream, names[i]))
  }

  /** Overlapping activations are safe if and only if every name they share is on the stream already. */
  lemma AlwaysOnceIff(stream: string, names: seq<string>, before: Store)
    ensures AlwaysOnce(stream, names, before) <==> RepeatsPresent(stream, names, before)
  {
    if RepeatsPresent(stream, names, before) {
      forall t | Run(GetOrCreate, stream, names, before, t) && AllSettled(After(GetOrCreate, stream, names, before, t))
        ensures forall i :: 0 <= i < |names| ==>
          Count(After(GetOrCreate, stream, names, before, t).store, stream, names[i])
            == Ensured(Count(before, stream, names[i]))
      {
        Activated(stream, names, before, t);
      }
    } else {
      var i: nat, j: nat :| i < j < |names| && names[i] == names[j] && Count(before, stream, names[i]) == 0;
      var t := DuplicateCreated(stream, names, before, i, j);
    }
  }

  lemma {:induction false} DeletedIsGone(store: Store, id: nat)
    requires UniqueIds(store) && HasId(store, id)
    ensures !HasId(Delete(store, id), id)
  {
    ConsId(store, id);
    if store[0].id == id {
    } else {
      DeletedIsGone(store[1..], id);
      ConsId([store[0]] + Delete(store[1..], id), id);
      assert ([store[0]] + Delete(store[1..], id))[1..] == Delete(store[1..], id);
    }
  }

  lemma FailureReached(stream: string, names: seq<string>, before: Store, i: nat, j: nat) returns (t: seq<Step>)
    requires i < j < |names| && names[i] == names[j] && Count(before, stream, names[i]) > 0 && UniqueIds(before)
    ensures Run(DeleteByName, stream, names, before, t) && AllSettled(After(DeleteByName, stream, names, before, t))
    ensures After(DeleteByName, stream, names, before, t).tasks[j] == Failed
  {
    FindIff(before, stream, names[i]);
    var sub := Find(before, stream, names[i]).value;
    CountMember(before, sub);
    var t0 := BothList(DeleteByName, stream, names, before, i, j);
    var t1, s0, s1 := Advance(DeleteByName, stream, names, before, t0, i);
    DeletedIsGone(before, sub.id);
    var t2, s1', s2 := Advance(DeleteByName, stream, names, before, t1, j);
    t := FinishFrom(DeleteByName, stream, names, before, t2, 0, stream, names[i]);
  }

  ghost predicate NeverFails(stream: string, names: seq<string>, before: Store) {
    forall t :: Run(DeleteByName, stream, names, before, t) && AllSettled(After(DeleteByName, stream, names, before, t)) ==>
      forall i :: 0 <= i < |names| ==> After(DeleteByName, stream, names, before, t).tasks[i] != Failed
  }

  /** Overlapping deactivations can run into each other if and only if a name they share is on the
      stream. */
  lemma NeverFailsIff(stream: string, names: seq<string>, before: Store)
    requires UniqueIds(before)
    ensures NeverFails(stream, names, before) <==> RepeatsAbsent(stream, names, before)
  {
    if RepeatsAbsent(stream, names, before) {
      forall t | Run(DeleteByName, stream, names, before, t) && AllSettled(After(DeleteByName, stream, names, before, t))
        ensures forall i :: 0 <= i < |names| ==> After(DeleteByName, stream, names, before, t).tasks[i] != Failed
      {
        Deactivated(stream, names, before, t);
      }
    } else {
      var i: nat, j: nat :| i < j < |names| && names[i] == names[j] && Count(before, stream, names[i]) > 0;
      var t := FailureReached(stream, names, before, i, j);
    }
  }

  // ---------------------------------------------------------------- there and back

  lemma {:induction false} CountExtended(before: Store, store: Store, stream: string, names: seq<string>,
                                         st: string, n: string)
    requires before <= store && (st != stream || n !in names)
    requires forall k :: |before| <= k < |store| ==> store[k].stream == stream && store[k].name in names
    ensures Count(store, st, n) == Count(before, st, n)
  {
    if |store| == |before| {
      assert store == before;
    } else {
      var k := |store| - 1;
      CountExtended(before, store[..k], stream, names, st, n);
      CountSnoc(store[..k], store[k], st, n);
      assert store == store[..k] + [store[k]];
    }
  }

  lemma ConsId(store: Store, id: nat)
    requires store != []
    ensures HasId(store, id) <==> store[0].id == id || HasId(store[1..], id)
  {
    if HasId(store, id) && store[0].id != id {
      var k :| 0 <= k < |store| && store[k].id == id;
      assert store[1..][k - 1].id == id;
    }
    if HasId(store[1..], id) {
      TailId(store, id);
    }
  }

  lemma {:induction false} SnocId(store: Store, s: Sub, id: nat)
    ensures HasId(store + [s], id) <==> HasId(store, id) || s.id == id
  {
    if store == [] {
      assert (store + [s])[0] == s;
    } else {
      SnocId(store[1..], s, id);
      ConsId(store, id);
      ConsId(store + [s], id);
      assert (store + [s])[1..] == store[1..] + [s];
    }
  }

  lemma {:induction false} UniqueSnoc(store: Store, s: Sub)
    requires UniqueIds(store) && !HasId(store, s.id)
    ensures UniqueIds(store + [s])
  {
    if store == [] {
      assert (store + [s])[1..] == [];
    } else {
      assert (store + [s])[1..] == store[1..] + [s];
      ConsId(store, s.id);
      SnocId(store[1..], s, store[0].id);
      UniqueSnoc(store[1..], s);
    }
  }

  lemma {:induction false} ActivationKeepsIds(stream: string, names: seq<string>, before: Store, steps: seq<Step>)
    requires UniqueIds(before) && Run(GetOrCreate, stream, names, before, steps)
    ensures UniqueIds(After(GetOrCreate, stream, names, before, steps).store)
  {
    if steps == [] {
    } else {
      var n := |steps| - 1;
      ActivationKeepsIds(stream, names, before, steps[..n]);
      var s, step := After(GetOrCreate, stream, names, before, steps[..n]), steps[n];
      if s.tasks[step.i] == Listed(None) {
        UniqueSnoc(s.store, Sub(step.id, names[step.i], stream));
      }
    }
  }

  /** Activating a pool and deactivating it again, each under any interleaving: its names, each there
      at most once before, are gone, the deactivation found them, and every other subscription is
      there as often as before. */
  lemma ActivatedThenDeactivated(stream: string, names: seq<string>, before: Store, on: seq<Step>, off: seq<Step>,
                                 st: string, n: string)
    requires Distinct(names) && names != [] && UniqueIds(before)
    requires forall i :: 0 <= i < |names| ==> Count(before, stream, names[i]) <= 1
    requires Run(GetOrCreate, stream, names, before, on) && AllSettled(After(GetOrCreate, stream, names, before, on))
    requires var mid := After(GetOrCreate, stream, names, before, on).store;
      Run(DeleteByName, stream, names, mid, off) && AllSettled(After(DeleteByName, stream, names, mid, off))
    ensures var mid := After(GetOrCreate, stream, names, before, on).store;
      var end := After(DeleteByName, stream, names, mid, off);
      && !NotFound(end)
      && Count(end.store, st, n) == if st == stream && n in names then 0 else Count(before, st, n)
  {
    DistinctRepeatsNothing(stream, names, before);
    Activated(stream, names, before, on);
    ActivationKeepsIds(stream, names, before, on);
    var mid := After(GetOrCreate, stream, names, before, on).store;
    DistinctRepeatsNothing(stream, names, mid);
    Deactivated(stream, names, mid, off);
    if st == stream && n in names {
      var i :| 0 <= i < |names| && names[i] == n;
      assert Count(mid, stream, names[i]) == 1;
    } else {
      CountExtended(before, mid, stream, names, st, n);
    }
    assert Count(mid, stream, names[0]) == 1;
  }

  // ---------------------------------------------------------------- pools

  const TRANSFER := "Transfer"
  const APPROVAL := "Approval"
  const APPROVAL_FOR_ALL := "ApprovalForAll"

  function EventNames(isFungible: bool): seq<string> {
    if isFungible then [TRANSFER, APPROVAL] else [TRANSFER, APPROVAL, APPROVAL_FOR_ALL]
  }

  lemma EventNamesDiffer()
    ensures TRANSFER != APPROVAL && TRANSFER != APPROVAL_FOR_ALL && APPROVAL != APPROVAL_FOR_ALL
    ensures ':' !in TRANSFER && ':' !in APPROVAL && ':' !in APPROVAL_FOR_ALL
  {
    assert TRANSFER[0] == 'T' && APPROVAL[0] == 'A' && APPROVAL_FOR_ALL[0] == 'A';
    assert |APPROVAL| == 8 && |APPROVAL_FOR_ALL| == 14;
  }

  /** The subscriptions of a pool; an invalid locator is refused. */
  function PoolNames(poolLocator: string, poolData: Option<string>): Option<seq<string>> {
    var locator := UnpackPoolLocator(poolLocator);
    if !locator.Valid() then None
    else
      var base := [PackSubscriptionName(poolLocator, TRANSFER, poolData),
                   PackSubscriptionName(poolLocator, APPROVAL, poolData)];
      Some(if locator.tokenType == Some(FUNGIBLE) then base
           else base + [PackSubscriptionName(poolLocator, APPROVAL_FOR_ALL, poolData)])
  }

  /** A valid locator has one name for each event of its type, and without a colon in it they all
      parse back. */
  lemma PoolNamesParse(poolLocator: string, poolData: Option<string>, i: nat)
    ensures var locator := UnpackPoolLocator(poolLocator);
      var events := EventNames(locator.tokenType == Some(FUNGIBLE));
      var names := PoolNames(poolLocator, poolData);
      && (names.Some? <==> locator.address.Some? && locator.schema.Some? && locator.tokenType.Some?)
      && (names.Some? ==> |names.value| == |events|)
      && (names.Some? && i < |events| && ':' !in poolLocator ==>
            UnpackSubscriptionName(names.value[i]) == Parsed(SubscriptionName(Some(poolLocator), Some(events[i]), poolData)))
  {
    EventNamesDiffer();
    if ':' !in poolLocator {
      NameParsesBack(poolLocator, TRANSFER, poolData);
      NameParsesBack(poolLocator, APPROVAL, poolData);
      NameParsesBack(poolLocator, APPROVAL_FOR_ALL, poolData);
    }
  }

  /** Whatever the locator contains, packing distinguishes events. */
  lemma EventsKept(poolLocator: string, e1: string, e2: string, poolData: Option<string>)
    requires PackSubscriptionName(poolLocator, e1, poolData) == PackSubscriptionName(poolLocator, e2, poolData)
    ensures e1 == e2
  {
    var n1, n2 := PackSubscriptionName(poolLocator, e1, poolData), PackSubscriptionName(poolLocator, e2, poolData);
    var tail := if poolData.Some? then ":" + EncodeText(Component, poolData.value) else "";
    NameShape(poolLocator, e1, poolData);
    NameShape(poolLocator, e2, poolData);
    var k := |SUBSCRIPTION_PREFIX| + 1 + |poolLocator| + 1;
    assert |e1| == |e2|;
    assert n1[k..k + |e1|] == e1 && n2[k..k + |e1|] == e2;
  }

  lemma NameShape(poolLocator: string, event: string, poolData: Option<string>)
    ensures PackSubscriptionName(poolLocator, event, poolData) ==
      SUBSCRIPTION_PREFIX + [':'] + poolLocator + [':'] + event
        + if poolData.Some? then ":" + EncodeText(Component, poolData.value) else ""
  {
    match poolData
    case None => JoinThree(SUBSCRIPTION_PREFIX, poolLocator, event);
    case Some(d) => JoinFour(SUBSCRIPTION_PREFIX, poolLocator, event, EncodeText(Component, d));
  }

  lemma JoinThree(a: string, b: string, c: string)
    ensures Join([a, b, c], ':') == a + [':'] + b + [':'] + c
  {
    assert [a, b, c][1..] == [b, c] && [b, c][1..] == [c];
    assert Join([b, c], ':') == b + [':'] + c;
  }

  lemma JoinFour(a: string, b: string, c: string, d: string)
    ensures Join([a, b, c, d], ':') == a + [':'] + b + [':'] + c + [':'] + d
  {
    assert [a, b, c, d][1..] == [b, c, d];
    JoinThree(b, c, d);
  }

  /** The names of a pool are distinct, so the results above hold for every activation and
      deactivation. */
  lemma PoolNamesDistinct(poolLocator: string, poolData: Option<string>)
    ensures PoolNames(poolLocator, poolData).Some? ==> Distinct(PoolNames(poolLocator, poolData).value)
  {
    var a := PackSubscriptionName(poolLocator, TRANSFER, poolData);
    var b := PackSubscriptionName(poolLocator, APPROVAL, poolData);
    var c := PackSubscriptionName(poolLocator, APPROVAL_FOR_ALL, poolData);
    EventNamesDiffer();
    if a == b {
      EventsKept(poolLocator, TRANSFER, APPROVAL, poolData);
    }
    if a == c {
      EventsKept(poolLocator, TRANSFER, APPROVAL_FOR_ALL, poolData);
    }
    if b == c {
      EventsKept(poolLocator, APPROVAL, APPROVAL_FOR_ALL, poolData);
    }
    DistinctSnoc([], a);
    assert [] + [a] == [a];
    DistinctSnoc([a], b);
    assert [a] + [b] == [a, b];
    DistinctSnoc([a, b], c);
  }

  /** Two activations of one pool at once, none of whose names is on the stream: any of them can end
      up there twice. */
  lemma OverlappingActivationsDuplicate(stream: string, names: seq<string>, before: Store, i: nat) returns (t: seq<Step>)
    requires i < |names| && Count(before, stream, names[i]) == 0
    ensures var both := names + names;
      && Run(GetOrCreate, stream, both, before, t) && AllSettled(After(GetOrCreate, stream, both, before, t))
      && Count(After(GetOrCreate, stream, both, before, t).store, stream, names[i]) >= 2
  {
    t := DuplicateCreated(stream, names + names, before, i, |names| + i);
  }
}
