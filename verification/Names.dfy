/** Subscription names and pool locators: the only place the connector keeps what it knows about
    a pool. */
module Names {
  import opened Js
  import opened Text
  import opened Percent

  const SUBSCRIPTION_PREFIX := "fft"

  datatype SubscriptionName =
    SubscriptionName(poolLocator: Option<string>, event: Option<string>, poolData: Option<string>)

  datatype Unpacked = Parsed(name: SubscriptionName) | UriError

  function PackSubscriptionName(poolLocator: string, event: string, poolData: Option<string>): string {
    match poolData
    case Some(d) => Join([SUBSCRIPTION_PREFIX, poolLocator, event, EncodeText(Component, d)], ':')
    case None => Join([SUBSCRIPTION_PREFIX, poolLocator, event], ':')
  }

  function UnpackSubscriptionName(data: string): Unpacked {
    var parts := Split(data, ':');
    if |parts| == 4 && parts[0] == SUBSCRIPTION_PREFIX then
      match DecodeComponent(parts[3])
      case Some(d) => Parsed(SubscriptionName(Some(parts[1]), Some(parts[2]), Some(d)))
      case None => UriError
    else if |parts| == 3 then Parsed(SubscriptionName(Some(parts[1]), Some(parts[2]), None))
    else if |parts| == 2 then Parsed(SubscriptionName(Some(parts[1]), None, None))
    else Parsed(SubscriptionName(None, None, None))
  }

  lemma ComponentHasNoColon(s: string)
    ensures ':' !in EncodeText(Component, s)
  {
    EncodedAlphabet(Component, s);
  }

  /** What unpacking returns never contains a colon. */
  lemma UnpackedColonFree(data: string)
    ensures var r := UnpackSubscriptionName(data); r.Parsed? ==>
      (r.name.poolLocator.Some? ==> ':' !in r.name.poolLocator.value) &&
      (r.name.event.Some? ==> ':' !in r.name.event.value)
  {
    SplitParts(data, ':');
  }

  /** A name parses back exactly when neither the locator nor the event contains a colon. */
  lemma NameParsesBackIff(poolLocator: string, event: string, poolData: Option<string>)
    ensures UnpackSubscriptionName(PackSubscriptionName(poolLocator, event, poolData)) ==
              Parsed(SubscriptionName(Some(poolLocator), Some(event), poolData))
            <==> ':' !in poolLocator && ':' !in event
  {
    UnpackedColonFree(PackSubscriptionName(poolLocator, event, poolData));
    if ':' !in poolLocator && ':' !in event {
      NameParsesBack(poolLocator, event, poolData);
    }
  }

  lemma NameParsesBack(poolLocator: string, event: string, poolData: Option<string>)
    requires ':' !in poolLocator && ':' !in event
    ensures UnpackSubscriptionName(PackSubscriptionName(poolLocator, event, poolData)) ==
              Parsed(SubscriptionName(Some(poolLocator), Some(event), poolData))
  {
    match poolData
    case Some(d) =>
      var parts := [SUBSCRIPTION_PREFIX, poolLocator, event, EncodeText(Component, d)];
      ComponentHasNoColon(d);
      ComponentRoundTrip(d);
      SplitJoin(parts, ':');
    case None =>
      SplitJoin([SUBSCRIPTION_PREFIX, poolLocator, event], ':');
  }

  /** Packing is injective, absent and empty pool data included. */
  lemma NamesDistinct(l1: string, e1: string, d1: Option<string>, l2: string, e2: string, d2: Option<string>)
    requires ':' !in l1 && ':' !in e1 && ':' !in l2 && ':' !in e2
    ensures PackSubscriptionName(l1, e1, d1) == PackSubscriptionName(l2, e2, d2)
            <==> l1 == l2 && e1 == e2 && d1 == d2
  {
    NameParsesBack(l1, e1, d1);
    NameParsesBack(l2, e2, d2);
  }

  // ---------------------------------------------------------------- pool locators

  const FUNGIBLE := "fungible"
  const NONFUNGIBLE := "nonfungible"

  datatype PoolLocator = PoolLocator(address: Option<string>, schema: Option<string>, tokenType: Option<string>)
  {
    predicate Valid() {
      address.Some? && schema.Some? && tokenType.Some?
    }
  }

  type Pair = (string, string)

  function Field(p: Pair): string {
    EncodeText(Form, p.0) + "=" + EncodeText(Form, p.1)
  }

  function Fields(pairs: seq<Pair>): seq<string> {
    if pairs == [] then [] else [Field(pairs[0])] + Fields(pairs[1..])
  }

  /** `new URLSearchParams({...}).toString()` */
  function Serialize(pairs: seq<Pair>): string {
    Join(Fields(pairs), '&')
  }

  function ParseField(f: string): Pair {
    var i := IndexOf(f, '=');
    (FormDecode(f[..i]), if i == |f| then "" else FormDecode(f[i + 1..]))
  }

  function ParseFields(fields: seq<string>): seq<Pair> {
    if fields == [] then []
    else (if fields[0] == "" then [] else [ParseField(fields[0])]) + ParseFields(fields[1..])
  }

  /** `new URLSearchParams(s)` */
  function ParseQuery(s: string): seq<Pair> {
    ParseFields(Split(if s != [] && s[0] == '?' then s[1..] else s, '&'))
  }

  function Get(pairs: seq<Pair>, name: string): Option<string> {
    if pairs == [] then None
    else if pairs[0].0 == name then Some(pairs[0].1)
    else Get(pairs[1..], name)
  }

  function PackPoolLocator(address: string, schema: string, tokenType: string): string {
    Serialize([("address", address), ("schema", schema), ("type", tokenType)])
  }

  function UnpackPoolLocator(data: string): PoolLocator {
    var encoded := ParseQuery(data);
    var schema := Get(encoded, "schema");
    PoolLocator(Get(encoded, "address"),
                if schema.Some? then schema else Get(encoded, "standard"),
                Get(encoded, "type"))
  }

  lemma FieldSplits(n: string, v: string, f: string)
    requires '=' !in n && f == n + "=" + v
    ensures ParseField(f) == (FormDecode(n), FormDecode(v))
  {
    assert f == n + ['='] + v;
    IndexOfAppended(n, v, '=');
    assert f[..|n|] == n && f[|n| + 1..] == v;
  }

  lemma FieldAlphabet(p: Pair)
    ensures '&' !in Field(p) && ':' !in Field(p) && Field(p) != "" && '=' !in EncodeText(Form, p.0)
  {
    EncodedAlphabet(Form, p.0);
    EncodedAlphabet(Form, p.1);
  }

  lemma FieldParsesBack(p: Pair)
    ensures ParseField(Field(p)) == p
  {
    FieldAlphabet(p);
    FieldSplits(EncodeText(Form, p.0), EncodeText(Form, p.1), Field(p));
    FormRoundTrip(p.0);
    FormRoundTrip(p.1);
  }

  lemma {:induction false} FieldsParseBack(pairs: seq<Pair>)
    ensures forall f :: f in Fields(pairs) ==> '&' !in f && ':' !in f
    ensures ParseFields(Fields(pairs)) == pairs
    ensures |Fields(pairs)| == |pairs|
  {
    if pairs == [] {
    } else {
      FieldAlphabet(pairs[0]);
      FieldParsesBack(pairs[0]);
      FieldsParseBack(pairs[1..]);
      assert Fields(pairs)[1..] == Fields(pairs[1..]);
    }
  }

  lemma {:induction false} JoinedAlphabet(parts: seq<string>, d: char, c: char)
    requires c != d && forall p :: p in parts ==> c !in p
    ensures c !in Join(parts, d)
  {
    if |parts| > 1 {
      assert parts[0] in parts && forall p :: p in parts[1..] ==> p in parts;
      JoinedAlphabet(parts[1..], d, c);
    } else if |parts| == 1 {
      assert parts[0] in parts;
    }
  }

  /** Any list of pairs with a nonempty, plain first name survives the query string. */
  lemma QueryParsesBack(pairs: seq<Pair>)
    requires pairs != [] && pairs[0].0 != "" && forall c :: c in pairs[0].0 ==> Alphanumeric(c)
    ensures ParseQuery(Serialize(pairs)) == pairs && ':' !in Serialize(pairs)
  {
    var fields := Fields(pairs);
    FieldsParseBack(pairs);
    SplitJoin(fields, '&');
    JoinedAlphabet(fields, '&', ':');
    PlainText(Form, pairs[0].0);
    assert pairs[0].0[0] in pairs[0].0;
    assert fields[0] == Field(pairs[0]);
    assert Serialize(pairs)[0] == pairs[0].0[0];
  }

  lemma GetOfThree(pairs: seq<Pair>, name: string)
    requires |pairs| == 3
    ensures Get(pairs, name) ==
      if pairs[0].0 == name then Some(pairs[0].1)
      else if pairs[1].0 == name then Some(pairs[1].1)
      else if pairs[2].0 == name then Some(pairs[2].1) else None
    ensures |"address"| == 7 && |"schema"| == 6 && |"standard"| == 8 && |"type"| == 4
  {
    assert pairs[1..][0] == pairs[1] && pairs[1..][1..] == [pairs[2]];
    assert Get([pairs[2]], name) == if pairs[2].0 == name then Some(pairs[2].1) else None;
  }

  lemma LocatorParsesBack(address: string, schema: string, tokenType: string)
    ensures UnpackPoolLocator(PackPoolLocator(address, schema, tokenType)) ==
      PoolLocator(Some(address), Some(schema), Some(tokenType))
    ensures ':' !in PackPoolLocator(address, schema, tokenType)
  {
    var pairs := [("address", address), ("schema", schema), ("type", tokenType)];
    QueryParsesBack(pairs);
    GetOfThree(pairs, "address");
    GetOfThree(pairs, "schema");
    GetOfThree(pairs, "type");
  }

  /** Locators written before the key was renamed carry the schema under its old name. */
  lemma LegacyLocatorParses(address: string, schema: string, tokenType: string)
    ensures UnpackPoolLocator(Serialize([("address", address), ("standard", schema), ("type", tokenType)])) ==
      PoolLocator(Some(address), Some(schema), Some(tokenType))
  {
    var pairs := [("address", address), ("standard", schema), ("type", tokenType)];
    QueryParsesBack(pairs);
    GetOfThree(pairs, "address");
    GetOfThree(pairs, "schema");
    GetOfThree(pairs, "standard");
    GetOfThree(pairs, "type");
  }

  /** From a subscription name back to the pool, for every locator, colon-free event and optional
      pool data. */
  lemma PoolNameParsesBack(address: string, schema: string, tokenType: string, event: string, poolData: Option<string>)
    requires ':' !in event
    ensures var u := UnpackSubscriptionName(PackSubscriptionName(PackPoolLocator(address, schema, tokenType), event, poolData));
      && u.Parsed? && u.name.event == Some(event) && u.name.poolData == poolData && u.name.poolLocator.Some?
      && UnpackPoolLocator(u.name.poolLocator.value) == PoolLocator(Some(address), Some(schema), Some(tokenType))
  {
    LocatorParsesBack(address, schema, tokenType);
    NameParsesBack(PackPoolLocator(address, schema, tokenType), event, poolData);
  }
}
