/** Which interface a contract supports, remembered in a cache that may forget at any time. */
module InterfaceCache {
  import opened Js

  const ERC20_WITH_DATA_IID := "0xaefdad0f"
  /** current version */
  const ERC721_WITH_DATA_V2_IID := "0xaefe69bf"
  /** no auto-indexing */
  const ERC721_WITH_DATA_V1B_IID := "0x8706707d"
  /** no mintWithURI or baseTokenUri */
  const ERC721_WITH_DATA_V1A_IID := "0xb2429c12"

  const IIDS: set<string> :=
    {ERC20_WITH_DATA_IID, ERC721_WITH_DATA_V2_IID, ERC721_WITH_DATA_V1B_IID, ERC721_WITH_DATA_V1A_IID}

  datatype TokenType = Fungible | Nonfungible

  datatype Schema =
    | ERC20WithData | ERC20NoData
    | ERC721WithDataV2 | ERC721WithData | ERC721NoData | OtherSchema(name: string)

  datatype Abi =
    | ERC20WithDataABI | ERC20NoDataABI | ERC20NoDataLegacyABI
    | ERC721WithDataV2ABI | ERC721WithDataV1bABI | ERC721WithDataV1aABI | ERC721NoDataABI | ERC721NoDataLegacyABI

  /** What asking a contract comes to: `true`, any other output, or an error. */
  datatype Answer = True | OtherOutput | Error

  /** The chain, asked directly. */
  type Chain = (string, string) -> Answer

  function Supports(chain: Chain, address: string, iid: string): bool {
    chain(address, iid) == True
  }

  // ---------------------------------------------------------------- without a cache

  function SchemaOf(chain: Chain, tokenType: TokenType, address: string): Schema {
    match tokenType
    case Nonfungible =>
      if Supports(chain, address, ERC721_WITH_DATA_V2_IID) then ERC721WithDataV2
      else if Supports(chain, address, ERC721_WITH_DATA_V1B_IID) || Supports(chain, address, ERC721_WITH_DATA_V1A_IID)
      then ERC721WithData
      else ERC721NoData
    case Fungible =>
      if Supports(chain, address, ERC20_WITH_DATA_IID) then ERC20WithData else ERC20NoData
  }

  function AbiOf(chain: Chain, schema: Schema, address: string, legacyERC20: bool, legacyERC721: bool): Option<Abi> {
    match schema
    case ERC721WithDataV2 => Some(ERC721WithDataV2ABI)
    case ERC721WithData =>
      Some(if Supports(chain, address, ERC721_WITH_DATA_V1B_IID) then ERC721WithDataV1bABI else ERC721WithDataV1aABI)
    case ERC721NoData => Some(if legacyERC721 then ERC721NoDataLegacyABI else ERC721NoDataABI)
    case ERC20WithData => Some(ERC20WithDataABI)
    case ERC20NoData => Some(if legacyERC20 then ERC20NoDataLegacyABI else ERC20NoDataABI)
    case OtherSchema(_) => None
  }

  /** The versions of the nonfungible interface, preferred first. */
  function Versions(): seq<(string, Abi)> {
    [(ERC721_WITH_DATA_V2_IID, ERC721WithDataV2ABI),
     (ERC721_WITH_DATA_V1B_IID, ERC721WithDataV1bABI),
     (ERC721_WITH_DATA_V1A_IID, ERC721WithDataV1aABI)]
  }

  /** A nonfungible contract is driven through the first version it supports, or through the
      configured plain ABI exactly when it supports none. */
  lemma FirstSupportedVersion(chain: Chain, address: string, legacyERC20: bool, legacyERC721: bool) returns (i: nat)
    ensures var abi := AbiOf(chain, SchemaOf(chain, Nonfungible, address), address, legacyERC20, legacyERC721);
      && i <= |Versions()|
      && (forall k :: 0 <= k < i ==> !Supports(chain, address, Versions()[k].0))
      && (if i < |Versions()|
          then Supports(chain, address, Versions()[i].0) && abi == Some(Versions()[i].1)
          else abi == Some(if legacyERC721 then ERC721NoDataLegacyABI else ERC721NoDataABI))
  {
    i := if Supports(chain, address, ERC721_WITH_DATA_V2_IID) then 0
      else if Supports(chain, address, ERC721_WITH_DATA_V1B_IID) then 1
      else if Supports(chain, address, ERC721_WITH_DATA_V1A_IID) then 2 else 3;
  }

  /** The schema names the newest interface a contract supports, the two oldest ones alike. */
  lemma SchemaNames(chain: Chain, address: string)
    ensures var v2, v1b := chain(address, ERC721_WITH_DATA_V2_IID) == True, chain(address, ERC721_WITH_DATA_V1B_IID) == True;
      var v1a, schema := chain(address, ERC721_WITH_DATA_V1A_IID) == True, SchemaOf(chain, Nonfungible, address);
      && (schema == ERC721WithDataV2 <==> v2)
      && (schema == ERC721WithData <==> !v2 && (v1b || v1a))
      && (schema == ERC721NoData <==> !v2 && !v1b && !v1a)
    ensures var data, schema := chain(address, ERC20_WITH_DATA_IID) == True, SchemaOf(chain, Fungible, address);
      (schema == ERC20WithData <==> data) && (schema == ERC20NoData <==> !data)
  {
  }

  /** A fungible contract is driven with data exactly if it says it supports data. */
  lemma FungibleAbi(chain: Chain, address: string, legacyERC20: bool, legacyERC721: bool)
    ensures var abi := AbiOf(chain, SchemaOf(chain, Fungible, address), address, legacyERC20, legacyERC721);
      && (abi == Some(ERC20WithDataABI) <==> Supports(chain, address, ERC20_WITH_DATA_IID))
      && (abi == Some(ERC20NoDataLegacyABI) <==> !Supports(chain, address, ERC20_WITH_DATA_IID) && legacyERC20)
      && (abi == Some(ERC20NoDataABI) <==> !Supports(chain, address, ERC20_WITH_DATA_IID) && !legacyERC20)
  {
  }

  // ---------------------------------------------------------------- the cache

  type Cache = map<string, bool>

  function Key(address: string, iid: string): string {
    address + ":" + iid
  }

  lemma IidLengths(iid: string)
    requires iid in IIDS
    ensures |iid| == 10
  {
  }

  /** No two questions share a cache key, whatever characters an address contains. */
  lemma KeysDistinct(a1: string, i1: string, a2: string, i2: string)
    requires i1 in IIDS && i2 in IIDS && Key(a1, i1) == Key(a2, i2)
    ensures a1 == a2 && i1 == i2
  {
    IidLengths(i1);
    IidLengths(i2);
    var k := Key(a1, i1);
    assert k[|k| - 10..] == i1 && k[|k| - 10..] == i2;
    assert k[..|k| - 11] == a1 && k[..|k| - 11] == a2;
  }

  /** Everything remembered is what the chain says. */
  ghost predicate Agrees(chain: Chain, cache: Cache) {
    forall a: string, iid: string {:trigger Key(a, iid)} ::
      iid in IIDS && Key(a, iid) in cache ==> cache[Key(a, iid)] == Supports(chain, a, iid)
  }

  lemma AgreesAfterStore(chain: Chain, cache: Cache, address: string, iid: string)
    requires Agrees(chain, cache) && iid in IIDS
    ensures Agrees(chain, cache[Key(address, iid) := Supports(chain, address, iid)])
  {
    var stored := cache[Key(address, iid) := Supports(chain, address, iid)];
    forall a: string, i: string | i in IIDS && Key(a, i) in stored
      ensures stored[Key(a, i)] == Supports(chain, a, i)
    {
      if Key(a, i) == Key(address, iid) {
        KeysDistinct(a, i, address, iid);
      }
    }
  }

  class AbiMapperService {
    var supportCache: Cache
    var legacyERC20: bool
    var legacyERC721: bool
    const chain: Chain

    constructor (chain: Chain)
      ensures this.chain == chain && Agrees(chain, supportCache) && !legacyERC20 && !legacyERC721
    {
      this.chain := chain;
      supportCache := map[];
      legacyERC20, legacyERC721 := false, false;
    }

    method Configure(legacyERC20: bool, legacyERC721: bool)
      modifies this`legacyERC20, this`legacyERC721
      ensures this.legacyERC20 == legacyERC20 && this.legacyERC721 == legacyERC721
    {
      this.legacyERC20 := legacyERC20;
      this.legacyERC721 := legacyERC721;
    }

    /** Storing may push any other entries out. */
    method SupportsInterface(address: string, iid: string) returns (support: bool)
      requires Agrees(chain, supportCache) && iid in IIDS
      modifies this`supportCache
      ensures Agrees(chain, supportCache) && (support <==> chain(address, iid) == True)
    {
      var cacheKey := Key(address, iid);
      if cacheKey in supportCache {
        return supportCache[cacheKey];
      }
      support := chain(address, iid) == True;
      AgreesAfterStore(chain, supportCache, address, iid);
      var evicted: set<string> := *;
      supportCache := supportCache[cacheKey := support] - evicted;
    }

    method GetTokenSchema(tokenType: TokenType, address: string) returns (schema: Schema)
      requires Agrees(chain, supportCache)
      modifies this`supportCache
      ensures Agrees(chain, supportCache) && schema == SchemaOf(chain, tokenType, address)
    {
      if tokenType == Nonfungible {
        var v2 := SupportsInterface(address, ERC721_WITH_DATA_V2_IID);
        if v2 {
          return ERC721WithDataV2;
        }
        var v1 := SupportsInterface(address, ERC721_WITH_DATA_V1B_IID);
        if !v1 {
          v1 := SupportsInterface(address, ERC721_WITH_DATA_V1A_IID);
        }
        return if v1 then ERC721WithData else ERC721NoData;
      }
      var withData := SupportsInterface(address, ERC20_WITH_DATA_IID);
      return if withData then ERC20WithData else ERC20NoData;
    }

    method GetAbi(schema: Schema, address: string) returns (abi: Option<Abi>)
      requires Agrees(chain, supportCache)
      modifies this`supportCache
      ensures Agrees(chain, supportCache) && abi == AbiOf(chain, schema, address, legacyERC20, legacyERC721)
    {
      match schema
      case ERC721WithDataV2 => return Some(ERC721WithDataV2ABI);
      case ERC721WithData =>
        var v1b := SupportsInterface(address, ERC721_WITH_DATA_V1B_IID);
        return Some(if v1b then ERC721WithDataV1bABI else ERC721WithDataV1aABI);
      case ERC721NoData => return Some(if legacyERC721 then ERC721NoDataLegacyABI else ERC721NoDataABI);
      case ERC20WithData => return Some(ERC20WithDataABI);
      case ERC20NoData => return Some(if legacyERC20 then ERC20NoDataLegacyABI else ERC20NoDataABI);
      case OtherSchema(_) => return None;
    }
  }

  // ---------------------------------------------------------------- interleaved requests

  /** Requests overlap at their awaits: a lookup that missed stores its answer later, whatever was
      stored or forgotten in between. */
  datatype CacheStep = Store(address: string, iid: string, answer: Answer) | Evict(keys: set<string>)

  function CacheAfter(steps: seq<CacheStep>): Cache {
    if steps == [] then map[]
    else
      var before := CacheAfter(steps[..|steps| - 1]);
      match steps[|steps| - 1]
      case Store(address, iid, answer) => before[Key(address, iid) := answer == True]
      case Evict(keys) => before - keys
  }

  ghost predicate Answered(steps: seq<CacheStep>, i: nat, address: string, iid: string) {
    i < |steps| && steps[i].Store? && steps[i].address == address && steps[i].iid == iid
  }

  /** Whatever the chain answered over time: what the cache knows about an interface is the latest
      answer stored for that very contract and interface. */
  lemma {:induction false} CacheHoldsLatest(steps: seq<CacheStep>, address: string, iid: string) returns (i: nat)
    requires (forall k :: 0 <= k < |steps| && steps[k].Store? ==> steps[k].iid in IIDS) && iid in IIDS
    ensures Key(address, iid) in CacheAfter(steps) ==>
      && Answered(steps, i, address, iid)
      && CacheAfter(steps)[Key(address, iid)] == (steps[i].answer == True)
      && forall j: nat :: i < j ==> !Answered(steps, j, address, iid)
  {
    i := 0;
    if steps == [] {
    } else {
      var n := |steps| - 1;
      var last := steps[n];
      if last.Store? && Key(last.address, last.iid) == Key(address, iid) {
        KeysDistinct(last.address, last.iid, address, iid);
        i := n;
      } else {
        i := CacheHoldsLatest(steps[..n], address, iid);
        forall j: nat | i < j && Key(address, iid) in CacheAfter(steps) ensures !Answered(steps, j, address, iid) {
          assert j < n ==> (Answered(steps[..n], j, address, iid) <==> Answered(steps, j, address, iid));
        }
      }
    }
  }

  /** With a chain that keeps its word, every interleaving leaves a cache that agrees with it. */
  lemma CacheAgrees(chain: Chain, steps: seq<CacheStep>)
    requires forall k :: 0 <= k < |steps| && steps[k].Store? ==>
      steps[k].iid in IIDS && steps[k].answer == chain(steps[k].address, steps[k].iid)
    ensures Agrees(chain, CacheAfter(steps))
  {
    forall a: string, iid: string | iid in IIDS && Key(a, iid) in CacheAfter(steps)
      ensures CacheAfter(steps)[Key(a, iid)] == Supports(chain, a, iid)
    {
      var i := CacheHoldsLatest(steps, a, iid);
    }
  }
}
