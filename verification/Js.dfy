/** The few pieces of the JavaScript runtime the connector leans on: optional values
    and the insertion-ordered `Map`. */
module Js {

  datatype Option<+T> = None | Some(value: T) {
    function GetOr(default: T): T {
      if Some? then value else default
    }
  }

  /** No element occurs twice. */
  ghost predicate Distinct<T(!new)>(s: seq<T>) {
    s == [] || (Distinct(s[..|s| - 1]) && s[|s| - 1] !in s[..|s| - 1])
  }

  lemma {:induction false} DistinctAt<T(!new)>(s: seq<T>, i: nat, j: nat)
    requires Distinct(s) && i < j < |s|
    ensures s[i] != s[j]
  {
    if j == |s| - 1 {
      assert s[..|s| - 1][i] == s[i];
    } else {
      DistinctAt(s[..|s| - 1], i, j);
    }
  }

  lemma DistinctSnoc<T(!new)>(s: seq<T>, x: T)
    requires Distinct(s) && x !in s
    ensures Distinct(s + [x])
  {
    assert (s + [x])[..|s|] == s;
  }

  /** `Map`: iteration order is insertion order, and `set` on a present key keeps its place. */
  datatype OrderedMap<K(==,!new), V> = OrderedMap(order: seq<K>, entries: map<K, V>) {

    ghost predicate Valid() {
      && Distinct(order)
      && (forall k :: k in order <==> k in entries)
    }

    function Set(k: K, v: V): (r: OrderedMap<K, V>)
      ensures Valid() ==> r.Valid()
      ensures r.entries == entries[k := v]
    {
      assert Valid() && k !in entries ==> Distinct(order + [k]) by {
        if Valid() && k !in entries {
          DistinctSnoc(order, k);
        }
      }
      OrderedMap(if k in entries then order else order + [k], entries[k := v])
    }

    function Get(k: K): Option<V> {
      if k in entries then Some(entries[k]) else None
    }
  }
}
