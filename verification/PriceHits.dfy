/**
 * The cache at work: a price that a fetch stored is what later requests are given, until its time is over
 * or the store loses it.
 */
module PriceHits {
  import opened PriceCache
  import opened PriceOrchestrator
  import opened PriceTheorems
  import opened Slices
  import opened Text

  /** Steps that may write or lose the cell of a key: the end of a fetch for it, and the faults. */
  predicate Touches(s: State, a: Action, key: string) {
    || (a.Land? && a.f < |s.flights| && s.flights[a.f].Key() == key)
    || (a.Evict? && a.key == key) || (a.Corrupt? && a.key == key)
  }

  ghost predicate Undisturbed(cfg: Config, s: State, actions: seq<Action>, key: string)
    decreases |actions|
  {
    actions == [] ||
    (Enabled(cfg, s, actions[0]) && !Touches(s, actions[0], key) && Undisturbed(cfg, Next(cfg, s, actions[0]), actions[1..], key))
  }

  /** What the store holds for a key. */
  function CellAt(s: State, key: string): Option<Cell> {
    if key in s.cache then Some(s.cache[key]) else None
  }

  lemma StepKeepsCell(cfg: Config, s: State, a: Action, key: string)
    requires Enabled(cfg, s, a) && !Touches(s, a, key)
    ensures CellAt(Next(cfg, s, a), key) == CellAt(s, key)
  {
    hide CacheKey, Combine, NewRequest, Complete, Active;
  }

  lemma {:induction false} RunKeepsCell(cfg: Config, s: State, actions: seq<Action>, key: string)
    requires Undisturbed(cfg, s, actions, key)
    ensures Run(cfg, s, actions).Some? && CellAt(Run(cfg, s, actions).value, key) == CellAt(s, key)
    decreases |actions|
  {
    if actions != [] {
      StepKeepsCell(cfg, s, actions[0], key);
      hide Next, Enabled, Touches, CellAt;
      RunKeepsCell(cfg, Next(cfg, s, actions[0]), actions[1..], key);
    }
  }

  /** The end of a fetch stores a price while the fetch's own budget lasts, for CacheTTL, and nothing else. */
  lemma LandStores(cfg: Config, s: State, f: nat, stored: bool)
    requires Enabled(cfg, s, Land(f, stored))
    ensures var x, t := s.flights[f], Next(cfg, s, Land(f, stored));
      if x.asset.value.reply.AssetPrice? && stored && s.now < x.started + cfg.budget then
        && CellAt(t, x.Key()).Some? && CellAt(t, x.Key()).value.expires == s.now + cfg.ttl
        && CellAt(t, x.Key()).value.value.Encoded?
        && FollowsReplies(x.asset.value.reply, x.candles.value.reply, Some(CellAt(t, x.Key()).value.value.entry))
      else t.cache == s.cache
  {
    var x := s.flights[f];
    CombineFollows(x.asset.value.reply, x.candles.value.reply);
    hide CacheKey, Combine;
  }

  lemma NewRequestReads(cfg: Config, s: State, network: Network, tokens: seq<string>, cacheUp: bool, token: string)
    ensures var q, cell := NewRequest(cfg, s, network, tokens, cacheUp), CellAt(s, CacheKey(network, token));
      && q.network == network && q.asked == tokens && q.began == s.now && q.deadline == s.now + cfg.budget && !q.cancelled
      && (token in q.hits <==>
            cacheUp && token in tokens && cell.Some? && s.now < cell.value.expires && cell.value.value.Encoded?)
      && (token in q.hits ==> q.hits[token] == cell.value.value.entry)
      && (token in q.misses <==> token in tokens && token !in q.hits)
  {
    hide CacheKey;
  }

  lemma NewRequestReturns(cfg: Config, s: State, network: Network, tokens: seq<string>, cacheUp: bool)
    ensures var q := NewRequest(cfg, s, network, tokens, cacheUp);
      q.returned.Some? <==> forall t :: t in tokens ==> t in q.hits
  {
    hide CacheKey;
    var q := NewRequest(cfg, s, network, tokens, cacheUp);
    if q.misses != [] {
      assert q.misses[0] in q.misses;
    }
    assert forall t :: t in q.misses <==> t in tokens && t !in q.hits;
  }

  /** A new request reads its deduplicated tokens, and is given exactly the live, decodable entries. */
  lemma StartReads(cfg: Config, s: State, network: Network, tokens: seq<string>, cacheUp: bool, token: string)
    ensures var t := Next(cfg, s, Start(network, tokens, cacheUp));
      |t.requests| == |s.requests| + 1
    ensures var q, cell := Next(cfg, s, Start(network, tokens, cacheUp)).requests[|s.requests|], CellAt(s, CacheKey(network, token));
      && q.network == network && q.asked == tokens && q.began == s.now && q.deadline == s.now + cfg.budget && !q.cancelled
      && (token in q.hits <==>
            cacheUp && token in tokens && cell.Some? && s.now < cell.value.expires && cell.value.value.Encoded?)
      && (token in q.hits ==> q.hits[token] == cell.value.value.entry)
      && (token in q.misses <==> token in tokens && token !in q.hits)
      && (q.returned.Some? <==> forall t :: t in tokens ==> t in q.hits)
  {
    NewRequestReads(cfg, s, network, tokens, cacheUp, token);
    NewRequestReturns(cfg, s, network, tokens, cacheUp);
    hide CacheKey, NewRequest, CellAt;
  }

  /**
   * A price that was stored is a hit of exactly those later requests that ask a working cache for it within
   * CacheTTL, whatever else happened in between; and it is the price and the change that upstream answered.
   */
  lemma StoredPriceIsFoundAgain(cfg: Config, s: State, f: nat, later: seq<Action>, tokens: seq<string>, cacheUp: bool)
    requires Enabled(cfg, s, Land(f, true)) && s.now < s.flights[f].started + cfg.budget
    requires s.flights[f].asset.value.reply.AssetPrice? && s.flights[f].token in tokens
    requires Undisturbed(cfg, Next(cfg, s, Land(f, true)), later, s.flights[f].Key())
    ensures Run(cfg, Next(cfg, s, Land(f, true)), later).Some?
    ensures var x, u := s.flights[f], Run(cfg, Next(cfg, s, Land(f, true)), later).value;
      var t := Next(cfg, u, Start(x.network, tokens, cacheUp));
      && |t.requests| == |u.requests| + 1
      && var q := t.requests[|u.requests|];
      && (x.token in q.hits <==> cacheUp && u.now < s.now + cfg.ttl)
      && (x.token in q.hits ==> FollowsReplies(x.asset.value.reply, x.candles.value.reply, Some(q.hits[x.token])))
  {
    var x, landed := s.flights[f], Next(cfg, s, Land(f, true));
    LandStores(cfg, s, f, true);
    RunKeepsCell(cfg, landed, later, x.Key());
    var u := Run(cfg, landed, later).value;
    StartReads(cfg, u, x.network, tokens, cacheUp, x.token);
    hide Next, Run, CacheKey, FollowsReplies, Undisturbed, CellAt;
  }
}
