/** `AbiMapperService`: matching a contract's ABI against the method tables. */
module AbiMapper {
  import opened Js
  import opened MethodTables

  datatype AbiInput = AbiInput(name: string, kind: AbiType)

  datatype AbiMethod = AbiMethod(name: Option<MethodName>, inputs: Option<seq<AbiInput>>)

  datatype Choice = Chosen(m: AbiMethod, params: seq<Param>) | NoMethod | Failed

  predicate Matches(m: AbiMethod, s: MethodSignature) {
    && m.name == Some(s.name)
    && m.inputs.Some?
    && |m.inputs.value| == |s.inputs|
    && forall i :: 0 <= i < |s.inputs| ==> m.inputs.value[i].kind == s.inputs[i]
  }

  method SignatureMatch(m: AbiMethod, s: MethodSignature) returns (r: bool)
    ensures r == Matches(m, s)
  {
    if m.name != Some(s.name) || m.inputs == None || |s.inputs| != |m.inputs.value| {
      return false;
    }
    for i := 0 to |s.inputs|
      invariant forall k :: 0 <= k < i ==> m.inputs.value[k].kind == s.inputs[k]
    {
      if s.inputs[i] != m.inputs.value[i].kind {
        return false;
      }
    }
    return true;
  }

  // ---------------------------------------------------------------- all methods

  /** The methods of `abi[j..]` that match `s`. */
  function Matching(abi: seq<AbiMethod>, s: MethodSignature, j: nat): seq<AbiMethod>
    decreases |abi| - j
  {
    if j >= |abi| then []
    else if Matches(abi[j], s) then [abi[j]] + Matching(abi, s, j + 1)
    else Matching(abi, s, j + 1)
  }

  /** Signature by signature, the methods matching `signatures[i..]`. */
  function AllMethods(abi: seq<AbiMethod>, signatures: seq<MethodSignature>, i: nat): seq<AbiMethod>
    decreases |signatures| - i
  {
    if i >= |signatures| then []
    else Matching(abi, signatures[i], 0) + AllMethods(abi, signatures, i + 1)
  }

  method GetAllMethods(abi: seq<AbiMethod>, signatures: seq<MethodSignature>) returns (methods: seq<AbiMethod>)
    ensures methods == AllMethods(abi, signatures, 0)
  {
    methods := [];
    for i := 0 to |signatures|
      invariant methods + AllMethods(abi, signatures, i) == AllMethods(abi, signatures, 0)
    {
      ghost var before, rest := methods, AllMethods(abi, signatures, i + 1);
      for j := 0 to |abi|
        invariant methods + Matching(abi, signatures[i], j) == before + Matching(abi, signatures[i], 0)
      {
        ghost var tail := Matching(abi, signatures[i], j + 1);
        var matched := SignatureMatch(abi[j], signatures[i]);
        if matched {
          assert methods + ([abi[j]] + tail) == (methods + [abi[j]]) + tail;
          methods := methods + [abi[j]];
        }
      }
      assert methods == before + Matching(abi, signatures[i], 0);
      assert before + (Matching(abi, signatures[i], 0) + rest) == methods + rest;
    }
  }

  /** Every invocable method: what a pool's subscriptions are registered with. */
  function AllInvokeSignatures(isFungible: bool): seq<MethodSignature> {
    DynamicMethods(isFungible, OpApproval) + DynamicMethods(isFungible, OpBurn)
      + DynamicMethods(isFungible, OpMint) + DynamicMethods(isFungible, OpTransfer)
  }

  function AllInvokeMethods(abi: seq<AbiMethod>, isFungible: bool): seq<AbiMethod> {
    AllMethods(abi, AllInvokeSignatures(isFungible), 0)
  }

  lemma {:induction false} MatchingIff(abi: seq<AbiMethod>, s: MethodSignature, j: nat, m: AbiMethod)
    ensures m in Matching(abi, s, j) <==> Matches(m, s) && m in abi[if j < |abi| then j else |abi|..]
    decreases |abi| - j
  {
    if j >= |abi| {
    } else {
      MatchingIff(abi, s, j + 1, m);
      assert abi[j..] == [abi[j]] + abi[j + 1..];
    }
  }

  lemma {:induction false} AllFrom(abi: seq<AbiMethod>, signatures: seq<MethodSignature>, i: nat, m: AbiMethod)
    ensures m in AllMethods(abi, signatures, i) <==>
      m in abi && exists k :: i <= k < |signatures| && Matches(m, signatures[k])
    decreases |signatures| - i
  {
    if i >= |signatures| {
    } else {
      MatchingIff(abi, signatures[i], 0, m);
      assert abi[0..] == abi;
      AllFrom(abi, signatures, i + 1, m);
    }
  }

  /** Exactly the ABI's methods some signature matches. */
  lemma AllMethodsIff(abi: seq<AbiMethod>, signatures: seq<MethodSignature>, m: AbiMethod)
    ensures m in AllMethods(abi, signatures, 0) <==> m in abi && exists s :: s in signatures && Matches(m, s)
  {
    AllFrom(abi, signatures, 0, m);
  }

  /** How many of `signatures[i..]` match. */
  function MatchCount(signatures: seq<MethodSignature>, m: AbiMethod, i: nat): nat
    decreases |signatures| - i
  {
    if i >= |signatures| then 0
    else (if Matches(m, signatures[i]) then 1 else 0) + MatchCount(signatures, m, i + 1)
  }

  lemma {:induction false} MatchingCounts(abi: seq<AbiMethod>, s: MethodSignature, j: nat, m: AbiMethod)
    requires j <= |abi|
    ensures multiset(Matching(abi, s, j))[m] == if Matches(m, s) then multiset(abi[j..])[m] else 0
    decreases |abi| - j
  {
    if j == |abi| {
    } else {
      MatchingCounts(abi, s, j + 1, m);
      assert abi[j..] == [abi[j]] + abi[j + 1..];
    }
  }

  lemma {:induction false} CountsFrom(abi: seq<AbiMethod>, signatures: seq<MethodSignature>, i: nat, m: AbiMethod)
    ensures multiset(AllMethods(abi, signatures, i))[m] == MatchCount(signatures, m, i) * multiset(abi)[m]
    decreases |signatures| - i
  {
    if i >= |signatures| {
    } else {
      MatchingCounts(abi, signatures[i], 0, m);
      CountsFrom(abi, signatures, i + 1, m);
      assert abi[0..] == abi;
      Distribute(MatchCount(signatures, m, i + 1), multiset(abi)[m]);
    }
  }

  lemma Distribute(n: nat, k: nat)
    ensures (1 + n) * k == k + n * k && (0 + n) * k == n * k
  {
  }

  /** Each method as often as it is in the ABI, once for each signature that matches it. */
  lemma AllMethodsCount(abi: seq<AbiMethod>, signatures: seq<MethodSignature>, m: AbiMethod)
    ensures multiset(AllMethods(abi, signatures, 0))[m] == MatchCount(signatures, m, 0) * multiset(abi)[m]
  {
    CountsFrom(abi, signatures, 0, m);
  }

  // ---------------------------------------------------------------- the chosen method

  /** Signature `i` and method `j` end the search: they match, and the parameters are defined or
      the request is refused. */
  predicate Decides(abi: seq<AbiMethod>, signatures: seq<MethodSignature>, dto: Dto, i: nat, j: nat)
    requires i < |signatures| && j < |abi|
  {
    Matches(abi[j], signatures[i]) && Apply(signatures[i].map', dto) != NotApplicable
  }

  function Ends(m: AbiMethod, s: MethodSignature, dto: Dto): Choice {
    match Apply(s.map', dto)
    case Params(p) => Chosen(m, p)
    case BadRequest => Failed
    case NotApplicable => NoMethod
  }

  /** The search resumed at signature `i`, method `j`. */
  function Search(abi: seq<AbiMethod>, signatures: seq<MethodSignature>, dto: Dto, i: nat, j: nat): Choice
    decreases |signatures| - i, |abi| - j
  {
    if i >= |signatures| then NoMethod
    else if j >= |abi| then Search(abi, signatures, dto, i + 1, 0)
    else if Decides(abi, signatures, dto, i, j) then Ends(abi[j], signatures[i], dto)
    else Search(abi, signatures, dto, i, j + 1)
  }

  function Choose(abi: seq<AbiMethod>, isFungible: bool, dto: Dto): Choice {
    Search(abi, DynamicMethods(isFungible, OperationOf(dto)), dto, 0, 0)
  }

  method GetMethodAndParams(abi: seq<AbiMethod>, isFungible: bool, dto: Dto) returns (r: Choice)
    ensures r == Choose(abi, isFungible, dto)
  {
    var signatures := DynamicMethods(isFungible, OperationOf(dto));
    for i := 0 to |signatures|
      invariant Search(abi, signatures, dto, 0, 0) == Search(abi, signatures, dto, i, 0)
    {
      for j := 0 to |abi|
        invariant Search(abi, signatures, dto, 0, 0) == Search(abi, signatures, dto, i, j)
      {
        var matched := SignatureMatch(abi[j], signatures[i]);
        if matched {
          var params := Apply(signatures[i].map', dto);
          if params.BadRequest? {
            return Failed;
          }
          if params.Params? {
            return Chosen(abi[j], params.params);
          }
        }
      }
    }
    return NoMethod;
  }

  predicate Before(i: nat, j: nat, p: nat, q: nat) {
    i < p || (i == p && j < q)
  }

  /** `(p, q)` is the least deciding pair, priority first and ABI position second. */
  ghost predicate IsFirst(abi: seq<AbiMethod>, signatures: seq<MethodSignature>, dto: Dto, p: nat, q: nat) {
    && p < |signatures| && q < |abi| && Decides(abi, signatures, dto, p, q)
    && forall i: nat, j: nat {:trigger Decides(abi, signatures, dto, i, j)} ::
         i < |signatures| && j < |abi| && Before(i, j, p, q) ==> !Decides(abi, signatures, dto, i, j)
  }

  lemma {:induction false} SearchFinds(abi: seq<AbiMethod>, signatures: seq<MethodSignature>, dto: Dto, i: nat, j: nat)
    returns (p: nat, q: nat)
    requires forall x: nat, y: nat {:trigger Decides(abi, signatures, dto, x, y)} ::
      x < |signatures| && y < |abi| && Before(x, y, i, j) ==> !Decides(abi, signatures, dto, x, y)
    ensures var r := Search(abi, signatures, dto, i, j);
      if r.NoMethod?
      then forall x: nat, y: nat {:trigger Decides(abi, signatures, dto, x, y)} ::
             x < |signatures| && y < |abi| ==> !Decides(abi, signatures, dto, x, y)
      else IsFirst(abi, signatures, dto, p, q) && r == Ends(abi[q], signatures[p], dto)
    decreases |signatures| - i, |abi| - j
  {
    if i >= |signatures| {
      p, q := 0, 0;
    } else if j >= |abi| {
      p, q := SearchFinds(abi, signatures, dto, i + 1, 0);
    } else if Decides(abi, signatures, dto, i, j) {
      p, q := i, j;
    } else {
      p, q := SearchFinds(abi, signatures, dto, i, j + 1);
    }
  }

  /** The search returns the first deciding pair: its method with its parameters, or the refusal
      its parameters meet; nothing exactly when no pair decides. */
  lemma ChoiceIsFirst(abi: seq<AbiMethod>, isFungible: bool, dto: Dto) returns (p: nat, q: nat)
    ensures var signatures, r := DynamicMethods(isFungible, OperationOf(dto)), Choose(abi, isFungible, dto);
      if r.NoMethod?
      then forall i: nat, j: nat {:trigger Decides(abi, signatures, dto, i, j)} ::
             i < |signatures| && j < |abi| ==> !Decides(abi, signatures, dto, i, j)
      else
        && IsFirst(abi, signatures, dto, p, q)
        && (r.Failed? <==> Apply(signatures[p].map', dto) == BadRequest)
        && (r.Chosen? ==> r.m == abi[q] && Apply(signatures[p].map', dto) == Params(r.params))
  {
    p, q := SearchFinds(abi, DynamicMethods(isFungible, OperationOf(dto)), dto, 0, 0);
  }

  function Kinds(inputs: seq<AbiInput>): (r: seq<AbiType>)
    ensures |r| == |inputs| && forall i :: 0 <= i < |r| ==> r[i] == inputs[i].kind
  {
    seq(|inputs|, i requires 0 <= i < |inputs| => inputs[i].kind)
  }

  /** What the search found: an entry of the table, its signature and its parameters. */
  lemma ChosenEntry(abi: seq<AbiMethod>, isFungible: bool, dto: Dto) returns (p: nat)
    requires Choose(abi, isFungible, dto).Chosen?
    ensures var signatures, r := DynamicMethods(isFungible, OperationOf(dto)), Choose(abi, isFungible, dto);
      && p < |signatures| && r.m in abi && Matches(r.m, signatures[p])
      && r.m.name == Some(signatures[p].name) && Kinds(r.m.inputs.value) == signatures[p].inputs
      && Apply(signatures[p].map', dto) == Params(r.params)
  {
    var q;
    p, q := ChoiceIsFirst(abi, isFungible, dto);
  }

  lemma TableWithin(isFungible: bool, op: TokenOperation, i: nat)
    requires i < |DynamicMethods(isFungible, op)|
    ensures DynamicMethods(isFungible, op)[i] in AllInvokeSignatures(isFungible)
  {
    var a, b := DynamicMethods(isFungible, OpApproval), DynamicMethods(isFungible, OpBurn);
    var c, d := DynamicMethods(isFungible, OpMint), DynamicMethods(isFungible, OpTransfer);
    Within(a, b, c, d, AllInvokeSignatures(isFungible), DynamicMethods(isFungible, op)[i]);
  }

  lemma Within<T>(a: seq<T>, b: seq<T>, c: seq<T>, d: seq<T>, all: seq<T>, x: T)
    requires all == a + b + c + d
    ensures x in all <==> x in a || x in b || x in c || x in d
  {
  }

  /** The parameters agree with the chosen method's own inputs, and the method is among those a
      pool's subscriptions are registered with and those `checkInterface` reports for the operation. */
  lemma ChosenFits(abi: seq<AbiMethod>, isFungible: bool, dto: Dto)
    requires Choose(abi, isFungible, dto).Chosen?
    ensures var r := Choose(abi, isFungible, dto);
      && r.m.inputs.Some? && FitsAll(r.params, Kinds(r.m.inputs.value), isFungible, dto)
      && r.m in AllInvokeMethods(abi, isFungible)
      && r.m in AllMethods(abi, DynamicMethods(isFungible, OperationOf(dto)), 0)
  {
    var p := ChosenEntry(abi, isFungible, dto);
    var r := Choose(abi, isFungible, dto);
    TablesWellTyped(isFungible, dto, p);
    TableWithin(isFungible, OperationOf(dto), p);
    AllMethodsIff(abi, AllInvokeSignatures(isFungible), r.m);
    AllMethodsIff(abi, DynamicMethods(isFungible, OperationOf(dto)), r.m);
  }

  /** A nonfungible mint is never compiled to a method that would lose its URI or its index, nor
      any nonfungible request to one that would lose its amount. */
  lemma NothingLost(abi: seq<AbiMethod>, dto: Dto)
    requires Choose(abi, false, dto).Chosen?
    ensures var r := Choose(abi, false, dto);
      && r.m.inputs.Some?
      && (dto.MintDto? && !NoUri(dto) ==> Text in Kinds(r.m.inputs.value))
      && (dto.MintDto? && dto.tokenIndex.Some? ==> Uint256 in Kinds(r.m.inputs.value))
      && (!dto.ApprovalDto? ==> AmountOk(dto))
  {
    var p := ChosenEntry(abi, false, dto);
    if dto.MintDto? {
      if p < 4 {
        ExtensionMintsExpress(dto, p);
      } else {
        PlainMintsExpress(dto, p);
      }
    }
    if !dto.ApprovalDto? {
      AmountChecked(dto, p);
    }
  }

  /** Data is dropped only if the ABI has no method that could carry it: a chosen method without a
      bytes input means that no deciding pair of the ABI has one. */
  lemma DataDroppedOnlyIf(abi: seq<AbiMethod>, isFungible: bool, dto: Dto, i: nat, j: nat)
    requires Choose(abi, isFungible, dto).Chosen?
    requires Bytes !in Kinds(Choose(abi, isFungible, dto).m.inputs.GetOr([]))
    requires i < |DynamicMethods(isFungible, OperationOf(dto))| && j < |abi|
    requires Decides(abi, DynamicMethods(isFungible, OperationOf(dto)), dto, i, j)
    ensures Bytes !in DynamicMethods(isFungible, OperationOf(dto))[i].inputs
  {
    var signatures := DynamicMethods(isFungible, OperationOf(dto));
    var p, q := ChoiceIsFirst(abi, isFungible, dto);
    assert Kinds(abi[q].inputs.value) == signatures[p].inputs;
    assert !Before(i, j, p, q);
    if p < i && Bytes in signatures[i].inputs {
      BytesFirst(isFungible, dto, p, i);
      assert false;
    }
  }

  // ---------------------------------------------------------------- checked interfaces

  /** The first method matching `s`. */
  function FirstOf(methods: seq<AbiMethod>, s: MethodSignature): Option<AbiMethod> {
    if methods == [] then None
    else if Matches(methods[0], s) then Some(methods[0])
    else FirstOf(methods[1..], s)
  }

  /** The search, one signature at a time. */
  function ByPriority(abi: seq<AbiMethod>, signatures: seq<MethodSignature>, dto: Dto, i: nat): Choice
    decreases |signatures| - i
  {
    if i >= |signatures| then NoMethod
    else
      var m := FirstOf(abi, signatures[i]);
      if m.None? || Apply(signatures[i].map', dto) == NotApplicable then ByPriority(abi, signatures, dto, i + 1)
      else Ends(m.value, signatures[i], dto)
  }

  lemma {:induction false} SearchByPriority(abi: seq<AbiMethod>, signatures: seq<MethodSignature>, dto: Dto,
                                            i: nat, j: nat)
    requires j <= |abi|
    ensures Search(abi, signatures, dto, i, j) ==
      if i >= |signatures| then NoMethod
      else if FirstOf(abi[j..], signatures[i]).None? || Apply(signatures[i].map', dto) == NotApplicable
      then ByPriority(abi, signatures, dto, i + 1)
      else Ends(FirstOf(abi[j..], signatures[i]).value, signatures[i], dto)
    decreases |signatures| - i, |abi| - j
  {
    if i >= |signatures| {
    } else {
      if j == |abi| {
        SearchByPriority(abi, signatures, dto, i + 1, 0);
        assert abi[0..] == abi;
      } else {
        SearchByPriority(abi, signatures, dto, i, j + 1);
        assert abi[j..][1..] == abi[j + 1..];
      }
    }
  }

  lemma {:induction false} FirstOfConcat(a: seq<AbiMethod>, b: seq<AbiMethod>, s: MethodSignature)
    ensures FirstOf(a + b, s) == if FirstOf(a, s).Some? then FirstOf(a, s) else FirstOf(b, s)
  {
    if a == [] {
      assert a + b == b;
    } else {
      FirstOfConcat(a[1..], b, s);
      assert (a + b)[1..] == a[1..] + b;
    }
  }

  predicate SameShape(s: MethodSignature, t: MethodSignature) {
    s.name == t.name && s.inputs == t.inputs
  }

  lemma MatchesShape(m: AbiMethod, s: MethodSignature, t: MethodSignature)
    requires Matches(m, s)
    ensures Matches(m, t) <==> SameShape(s, t)
  {
  }

  lemma {:induction false} FirstOfMatching(abi: seq<AbiMethod>, j: nat, s: MethodSignature, t: MethodSignature)
    requires j <= |abi|
    ensures FirstOf(Matching(abi, s, j), t) == if SameShape(s, t) then FirstOf(abi[j..], t) else None
    decreases |abi| - j
  {
    if j >= |abi| {
    } else {
      FirstOfMatching(abi, j + 1, s, t);
      assert abi[j..][1..] == abi[j + 1..];
      if Matches(abi[j], s) {
        MatchesShape(abi[j], s, t);
        assert ([abi[j]] + Matching(abi, s, j + 1))[1..] == Matching(abi, s, j + 1);
      } else if SameShape(s, t) && Matches(abi[j], t) {
        MatchesShape(abi[j], t, s);
      }
    }
  }

  lemma {:induction false} FirstOfAll(abi: seq<AbiMethod>, signatures: seq<MethodSignature>, i: nat, k: nat)
    requires k < |signatures|
    ensures i <= k ==> FirstOf(AllMethods(abi, signatures, i), signatures[k]) == FirstOf(abi, signatures[k])
    ensures FirstOf(AllMethods(abi, signatures, i), signatures[k]) in {None, FirstOf(abi, signatures[k])}
    decreases |signatures| - i
  {
    if i >= |signatures| {
    } else {
      FirstOfAll(abi, signatures, i + 1, k);
      FirstOfConcat(Matching(abi, signatures[i], 0), AllMethods(abi, signatures, i + 1), signatures[k]);
      FirstOfMatching(abi, 0, signatures[i], signatures[k]);
      assert abi[0..] == abi;
    }
  }

  lemma {:induction false} SamePriorities(abi: seq<AbiMethod>, signatures: seq<MethodSignature>, dto: Dto, i: nat)
    ensures ByPriority(AllMethods(abi, signatures, 0), signatures, dto, i) == ByPriority(abi, signatures, dto, i)
    decreases |signatures| - i
  {
    if i >= |signatures| {
    } else {
      FirstOfAll(abi, signatures, 0, i);
      SamePriorities(abi, signatures, dto, i + 1);
    }
  }

  /** The interface `checkInterface` hands out for an operation is all that operation ever needs:
      choosing from it and choosing from the full ABI come to the same method, parameters and
      refusals. */
  lemma CheckedInterfaceSuffices(abi: seq<AbiMethod>, isFungible: bool, dto: Dto)
    ensures Choose(AllMethods(abi, DynamicMethods(isFungible, OperationOf(dto)), 0), isFungible, dto) ==
      Choose(abi, isFungible, dto)
  {
    var signatures := DynamicMethods(isFungible, OperationOf(dto));
    var checked := AllMethods(abi, signatures, 0);
    SamePriorities(abi, signatures, dto, 0);
    SearchByPriority(abi, signatures, dto, 0, 0);
    SearchByPriority(checked, signatures, dto, 0, 0);
    assert abi[0..] == abi && checked[0..] == checked;
  }
}
