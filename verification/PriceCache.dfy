/**
 * internal/store/redis.go as a key-value store with expiry, and the parts of
 * internal/services/prices.go that read and write it.
 */
module PriceCache {
  import opened Text
  import opened Slices

  /** The two networks GetPrices serves; any other name is an error. */
  datatype Network = Public | Testnet

  function ParseNetwork(name: string): Option<Network> {
    if name == "PUBLIC" then Some(Public) else if name == "TESTNET" then Some(Testnet) else None
  }

  function CacheNet(network: Network): string {
    match network
    case Public => "public"
    case Testnet => "testnet"
  }

  const CACHE_KEY_PREFIX := "prices:v1"

  function CacheKey(network: Network, canonical: string): string {
    CACHE_KEY_PREFIX + ":" + CacheNet(network) + ":" + canonical
  }

  lemma CacheKeysRead(canonical: string)
    ensures CacheKey(Public, canonical) == "prices:v1:public:" + canonical
    ensures CacheKey(Testnet, canonical) == "prices:v1:testnet:" + canonical
  {
    assert CACHE_KEY_PREFIX + ":" + "public" + ":" == "prices:v1:public:";
    assert CACHE_KEY_PREFIX + ":" + "testnet" + ":" == "prices:v1:testnet:";
  }

  /** A cache key determines the network and the token, whatever characters the token holds. */
  lemma CacheKeyInjective(n1: Network, t1: string, n2: Network, t2: string)
    requires CacheKey(n1, t1) == CacheKey(n2, t2)
    ensures n1 == n2 && t1 == t2
  {
    var k1, k2 := CacheKey(n1, t1), CacheKey(n2, t2);
    assert k1[10] == CacheNet(n1)[0] && k2[10] == CacheNet(n2)[0];
    assert n1 == n2;
    var p := |CACHE_KEY_PREFIX| + 1 + |CacheNet(n1)| + 1;
    assert k1[p..] == t1 && k2[p..] == t2;
  }

  /** types.PriceEntry; the two numbers are opaque strings. */
  datatype Entry = Entry(price: string, change24h: Option<string>)

  /** A stored value either decodes to an entry or does not decode at all. */
  datatype Stored = Encoded(entry: Entry) | Undecodable

  datatype Cell = Cell(value: Stored, expires: int)

  /** What MGET and the JSON decoder yield for one key at time `now`. */
  function Lookup(data: map<string, Cell>, now: int, key: string): Option<Entry> {
    if key in data && now < data[key].expires && data[key].value.Encoded?
    then Some(data[key].value.entry) else None
  }

  /** The map MGetJSON returns: the live, decodable entries among `keys`. */
  function Found(data: map<string, Cell>, now: int, keys: seq<string>): (found: map<string, Entry>)
    ensures forall k :: k in found <==> k in keys && Lookup(data, now, k).Some?
    ensures forall k :: k in found ==> Lookup(data, now, k) == Some(found[k])
  {
    if keys == [] then map[]
    else
      var front, last := keys[..|keys| - 1], keys[|keys| - 1];
      assert keys == front + [last];
      var v := Lookup(data, now, last);
      if v.Some? then Found(data, now, front)[last := v.value] else Found(data, now, front)
  }

  class RedisStore {
    var data: map<string, Cell>

    constructor ()
      ensures data == map[]
    {
      data := map[];
    }

    /** One bad entry is skipped; a failing round trip fails the batch. */
    method MGetJSON(keys: seq<string>, now: int, fails: bool) returns (r: Result<map<string, Entry>, string>)
      ensures r.Err? <==> fails && keys != []
      ensures r.Ok? ==> r.value == Found(data, now, keys)
    {
      if keys == [] {
        return Ok(map[]);
      }
      if fails {
        return Err("redis MGET");
      }
      var out: map<string, Entry> := map[];
      for i := 0 to |keys|
        invariant out == Found(data, now, keys[..i])
      {
        assert keys[..i + 1][..i] == keys[..i];
        var v := Lookup(data, now, keys[i]);
        if v.Some? {
          out := out[keys[i] := v.value];
        }
      }
      assert keys[..|keys|] == keys;
      r := Ok(out);
    }

    method SetJSON(key: string, entry: Entry, ttl: nat, now: int, fails: bool) returns (ok: bool)
      modifies this
      ensures ok == !fails
      ensures data == if fails then old(data) else old(data)[key := Cell(Encoded(entry), now + ttl)]
    {
      if !fails {
        data := data[key := Cell(Encoded(entry), now + ttl)];
      }
      ok := !fails;
    }
  }

  /** Specification of loadCachedPrices: hits by token, for the keys the cache delivers. */
  function Hits(data: map<string, Cell>, now: int, network: Network, tokens: seq<string>): (hits: map<string, Entry>)
    ensures forall t :: t in hits <==> t in tokens && Lookup(data, now, CacheKey(network, t)).Some?
    ensures forall t :: t in hits ==> Lookup(data, now, CacheKey(network, t)) == Some(hits[t])
  {
    if tokens == [] then map[]
    else
      var front, last := tokens[..|tokens| - 1], tokens[|tokens| - 1];
      assert tokens == front + [last];
      var v := Lookup(data, now, CacheKey(network, last));
      if v.Some? then Hits(data, now, network, front)[last := v.value] else Hits(data, now, network, front)
  }

  /** The hits as the first entries of the result map. */
  function Lifted(tokens: seq<string>, hits: map<string, Entry>): (result: map<string, Option<Entry>>)
    ensures forall t :: t in result <==> t in tokens && t in hits
    ensures forall t :: t in result ==> result[t] == Some(hits[t])
  {
    if tokens == [] then map[]
    else
      var front, last := tokens[..|tokens| - 1], tokens[|tokens| - 1];
      assert tokens == front + [last];
      if last in hits then Lifted(front, hits)[last := Some(hits[last])] else Lifted(front, hits)
  }

  /** The key tables of GetPrices: slot i of `keys` is the cache key of slot i of `tokens`, and back. */
  ghost predicate KeyTables(network: Network, tokens: seq<string>, keys: seq<string>, tokenByKey: map<string, string>) {
    && |keys| == |tokens|
    && forall j :: 0 <= j < |keys| ==>
         keys[j] == CacheKey(network, tokens[j]) && keys[j] in tokenByKey && tokenByKey[keys[j]] == tokens[j]
  }

  method BuildKeyTables(network: Network, tokens: seq<string>)
      returns (keys: seq<string>, tokenByKey: map<string, string>)
    ensures KeyTables(network, tokens, keys, tokenByKey)
  {
    keys, tokenByKey := [], map[];
    for i := 0 to |tokens|
      invariant KeyTables(network, tokens[..i], keys, tokenByKey)
    {
      var k := CacheKey(network, tokens[i]);
      forall j | 0 <= j < i && keys[j] == k ensures tokens[j] == tokens[i] {
        CacheKeyInjective(network, tokens[j], network, tokens[i]);
      }
      keys := keys + [k];
      tokenByKey := tokenByKey[k := tokens[i]];
    }
    assert tokens[..|tokens|] == tokens;
  }

  /**
   * loadCachedPrices with the key tables GetPrices builds for it. A missing or failing store turns
   * every token into a miss; each token is counted once, as a hit or as a miss.
   */
  method LoadCachedPrices(redis: RedisStore?, network: Network, tokens: seq<string>,
                          keys: seq<string>, tokenByKey: map<string, string>, now: int, fails: bool)
      returns (hits: map<string, Entry>, hitCount: nat, missCount: nat)
    requires KeyTables(network, tokens, keys, tokenByKey) && Distinct(tokens)
    ensures hits == if redis == null || fails then map[] else Hits(redis.data, now, network, tokens)
    ensures hitCount == |hits| && hitCount + missCount == |tokens|
  {
    hits, hitCount, missCount := map[], 0, |tokens|;
    if redis == null {
      return;
    }
    var cached := redis.MGetJSON(keys, now, fails);
    if cached.Err? {
      return;
    }
    if !fails {
      hits, hitCount, missCount := CollectHits(redis.data, network, tokens, keys, tokenByKey, now, cached.value);
    } else {
      assert tokens == [];
    }
  }

  lemma HitsStep(data: map<string, Cell>, now: int, network: Network, tokens: seq<string>, i: nat)
    requires Distinct(tokens) && i < |tokens|
    ensures tokens[i] !in Hits(data, now, network, tokens[..i])
    ensures Hits(data, now, network, tokens[..i + 1]) ==
            var v := Lookup(data, now, CacheKey(network, tokens[i]));
            var hits := Hits(data, now, network, tokens[..i]);
            if v.Some? then hits[tokens[i] := v.value] else hits
  {
    assert tokens[..i + 1][..i] == tokens[..i];
  }

  method CollectHits(ghost data: map<string, Cell>, ghost network: Network, ghost tokens: seq<string>,
                     keys: seq<string>, tokenByKey: map<string, string>, ghost now: int, cached: map<string, Entry>)
      returns (hits: map<string, Entry>, hitCount: nat, missCount: nat)
    requires KeyTables(network, tokens, keys, tokenByKey) && Distinct(tokens)
    requires cached == Found(data, now, keys)
    ensures hits == Hits(data, now, network, tokens)
    ensures hitCount == |hits| && hitCount + missCount == |tokens|
  {
    hits, hitCount, missCount := map[], 0, 0;
    for i := 0 to |keys|
      invariant hits == Hits(data, now, network, tokens[..i])
      invariant hitCount == |hits| && hitCount + missCount == i
    {
      HitsStep(data, now, network, tokens, i);
      hide Hits, Found, Lookup, CacheKey;
      var k := keys[i];
      assert k in keys;
      if k !in cached {
        missCount := missCount + 1;
      } else {
        hits := hits[tokenByKey[k] := cached[k]];
        hitCount := hitCount + 1;
      }
    }
    assert tokens[..|tokens|] == tokens;
  }

  /** missingTokens as a specification. */
  function Missing<V>(tokens: seq<string>, result: map<string, V>): (misses: seq<string>)
    ensures forall t :: t in misses <==> t in tokens && t !in result
    ensures |misses| <= |tokens|
  {
    if tokens == [] then []
    else
      var front, last := tokens[..|tokens| - 1], tokens[|tokens| - 1];
      assert tokens == front + [last];
      if last in result then Missing(front, result) else Missing(front, result) + [last]
  }

  lemma {:induction false} MissingDistinct<V>(tokens: seq<string>, result: map<string, V>)
    requires Distinct(tokens)
    ensures Distinct(Missing(tokens, result))
  {
    if tokens != [] {
      MissingDistinct(tokens[..|tokens| - 1], result);
    }
  }

  function Absent<V>(result: map<string, V>): string -> bool {
    (t: string) => t !in result
  }

  lemma {:induction false} MissingInOrder<V>(tokens: seq<string>, result: map<string, V>) returns (positions: seq<nat>)
    ensures Selects(tokens, Missing(tokens, result), positions, Absent(result))
  {
    var keep := Absent(result);
    if tokens == [] {
      positions := [];
    } else {
      var n := |tokens| - 1;
      var before := MissingInOrder(tokens[..n], result);
      hide Selects;
      assert tokens == tokens[..n] + [tokens[n]];
      var kept: seq<string>;
      kept, positions := SelectsNext(tokens[..n], tokens[n], Missing(tokens[..n], result), before, keep);
    }
  }

  lemma {:induction false} MissingNothing<V>(tokens: seq<string>, result: map<string, V>)
    requires forall t :: t in tokens ==> t in result
    ensures Missing(tokens, result) == []
  {
    if tokens != [] {
      MissingNothing(tokens[..|tokens| - 1], result);
    }
  }

  /** completeMissingResults as a specification: explicit nulls for what is still missing. */
  function Complete(tokens: seq<string>, result: map<string, Option<Entry>>): (complete: map<string, Option<Entry>>)
    ensures forall t :: t in complete <==> t in result || t in tokens
    ensures forall t :: t in complete ==> complete[t] == if t in result then result[t] else None
  {
    if tokens == [] then result
    else
      var front, last := tokens[..|tokens| - 1], tokens[|tokens| - 1];
      assert tokens == front + [last];
      var r := Complete(front, result);
      if last in r then r else r[last := None]
  }

  /** The result map that the workers of one request share. */
  class PriceResults {
    var result: map<string, Option<Entry>>

    constructor (hits: map<string, Entry>)
      ensures forall t :: t in result <==> t in hits
      ensures forall t :: t in hits ==> result[t] == Some(hits[t])
    {
      result := map[];
      new;
      var rest := hits.Keys;
      while rest != {}
        invariant rest <= hits.Keys
        invariant forall t :: t in result <==> t in hits && t !in rest
        invariant forall t :: t in result ==> result[t] == Some(hits[t])
      {
        var t :| t in rest;
        rest := rest - {t};
        result := result[t := Some(hits[t])];
      }
    }

    method MissingTokens(tokens: seq<string>) returns (misses: seq<string>)
      ensures misses == Missing(tokens, result)
      ensures exists positions :: Selects(tokens, misses, positions, Absent(result))
    {
      hide Selects, Absent;
      misses := [];
      for i := 0 to |tokens|
        invariant misses == Missing(tokens[..i], result)
      {
        assert tokens[..i + 1][..i] == tokens[..i];
        if tokens[i] !in result {
          misses := misses + [tokens[i]];
        }
      }
      assert tokens[..|tokens|] == tokens;
      ghost var positions := MissingInOrder(tokens, result);
    }

    /** A resolved fetch, stored under the mutex. */
    method Put(token: string, entry: Option<Entry>)
      modifies this
      ensures result == old(result)[token := entry]
    {
      result := result[token := entry];
    }

    method CompleteMissingResults(tokens: seq<string>)
      modifies this
      ensures result == Complete(tokens, old(result))
      ensures Missing(tokens, result) == []
    {
      for i := 0 to |tokens|
        invariant result == Complete(tokens[..i], old(result))
      {
        assert tokens[..i + 1][..i] == tokens[..i];
        if tokens[i] !in result {
          result := result[tokens[i] := None];
        }
      }
      assert tokens[..|tokens|] == tokens;
      MissingNothing(tokens, result);
    }
  }
}
