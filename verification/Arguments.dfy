/** When the parameters of a compiled request are values of their inputs, and which. */
module Arguments {
  import opened Js
  import opened Hex
  import opened MethodTables
  import opened Calls

  /** Somebody signs the request, and not the zero address. */
  predicate Signs(dto: Dto) {
    Canonical(dto.signer).Some? && Addr(dto.signer) != ZERO_ADDRESS
  }

  lemma AddressArgIs(read: Reading, s: string)
    ensures ToValue(read, Address, Str(s)) == if Canonical(s).Some? then Some(AddressValue(Addr(s))) else None
  {
  }

  lemma UintArgIs(read: Reading, o: Option<string>)
    ensures ToValue(read, Uint256, Opt(o)) == if HasAmount(read, o) then Some(UintValue(Amount(read, o))) else None
  {
  }

  /** The data argument is always a value. */
  lemma DataArgIs(read: Reading, dto: Dto)
    ensures ToValue(read, Bytes, DataParam(dto)).Some? && ToValue(read, Bytes, DataParam(dto)).value.BytesValue?
  {
    BytesTravel(dto.data.GetOr(""));
  }

  // ---------------------------------------------------------------- argument lists

  /** Exactly when every parameter is a value of its input. */
  lemma {:induction false} ToValuesIff(read: Reading, types: seq<AbiType>, params: seq<Param>)
    ensures ToValues(read, types, params).Some? <==>
      |types| == |params| && forall i :: 0 <= i < |types| ==> ToValue(read, types[i], params[i]).Some?
  {
    if types == [] || params == [] {
    } else {
      ToValuesIff(read, types[1..], params[1..]);
      assert forall i :: 0 < i < |types| ==> types[i] == types[1..][i - 1];
      assert forall i :: 0 < i < |params| ==> params[i] == params[1..][i - 1];
    }
  }

  /** All values, or none. */
  function Both(v: Option<Value>, rest: Option<seq<Value>>): Option<seq<Value>> {
    if v.Some? && rest.Some? then Some([v.value] + rest.value) else None
  }

  lemma Cons(read: Reading, t: AbiType, ts: seq<AbiType>, p: Param, ps: seq<Param>, types: seq<AbiType>, params: seq<Param>)
    requires types == [t] + ts && params == [p] + ps
    ensures ToValues(read, types, params) == Both(ToValue(read, t, p), ToValues(read, ts, ps))
  {
    assert types[1..] == ts && params[1..] == ps;
  }

  lemma One(read: Reading, t: AbiType, p: Param)
    ensures var v := ToValue(read, t, p); ToValues(read, [t], [p]) == if v.Some? then Some([v.value]) else None
  {
    Cons(read, t, [], p, [], [t], [p]);
    var v := ToValue(read, t, p);
    if v.Some? {
      assert [v.value] + [] == [v.value];
    }
  }

  lemma Two(read: Reading, t1: AbiType, t2: AbiType, p1: Param, p2: Param)
    ensures var v1, v2 := ToValue(read, t1, p1), ToValue(read, t2, p2);
      ToValues(read, [t1, t2], [p1, p2]) == if v1.Some? && v2.Some? then Some([v1.value, v2.value]) else None
  {
    Cons(read, t1, [t2], p1, [p2], [t1, t2], [p1, p2]);
    One(read, t2, p2);
    var v1, v2 := ToValue(read, t1, p1), ToValue(read, t2, p2);
    if v1.Some? && v2.Some? {
      assert [v1.value] + [v2.value] == [v1.value, v2.value];
    }
  }

  lemma Three(read: Reading, t1: AbiType, t2: AbiType, t3: AbiType, p1: Param, p2: Param, p3: Param)
    ensures var v1, v2, v3 := ToValue(read, t1, p1), ToValue(read, t2, p2), ToValue(read, t3, p3);
      ToValues(read, [t1, t2, t3], [p1, p2, p3]) ==
        if v1.Some? && v2.Some? && v3.Some? then Some([v1.value, v2.value, v3.value]) else None
  {
    Cons(read, t1, [t2, t3], p1, [p2, p3], [t1, t2, t3], [p1, p2, p3]);
    Two(read, t2, t3, p2, p3);
    var v1, v2, v3 := ToValue(read, t1, p1), ToValue(read, t2, p2), ToValue(read, t3, p3);
    if v1.Some? && v2.Some? && v3.Some? {
      assert [v1.value] + [v2.value, v3.value] == [v1.value, v2.value, v3.value];
    }
  }

  lemma Four(read: Reading, t1: AbiType, t2: AbiType, t3: AbiType, t4: AbiType,
             p1: Param, p2: Param, p3: Param, p4: Param)
    ensures var v1, v2 := ToValue(read, t1, p1), ToValue(read, t2, p2);
      var v3, v4 := ToValue(read, t3, p3), ToValue(read, t4, p4);
      ToValues(read, [t1, t2, t3, t4], [p1, p2, p3, p4]) ==
        if v1.Some? && v2.Some? && v3.Some? && v4.Some?
        then Some([v1.value, v2.value, v3.value, v4.value]) else None
  {
    Cons(read, t1, [t2, t3, t4], p1, [p2, p3, p4], [t1, t2, t3, t4], [p1, p2, p3, p4]);
    Three(read, t2, t3, t4, p2, p3, p4);
    var v1, v2 := ToValue(read, t1, p1), ToValue(read, t2, p2);
    var v3, v4 := ToValue(read, t3, p3), ToValue(read, t4, p4);
    if v1.Some? && v2.Some? && v3.Some? && v4.Some? {
      assert [v1.value] + [v2.value, v3.value, v4.value] == [v1.value, v2.value, v3.value, v4.value];
    }
  }
}
