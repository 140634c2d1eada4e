/** The promises of the token-price service, for every run of the orchestrator. */
module PriceTheorems {
  import opened Text
  import opened Slices
  import opened PriceCache
  import opened PriceOrchestrator
  import opened PriceSafety
  import AssetId

  /*** Coalescing ***/

  /** At most one upstream fetch per network and token is unfinished. */
  lemma OneFetchPerKey(cfg: Config, s: State, f: nat, g: nat)
    requires cfg.Valid() && Reachable(cfg, s)
    requires f < |s.flights| && g < |s.flights| && f != g
    requires s.flights[f].phase != Done && s.flights[g].phase != Done
    ensures (s.flights[f].network, s.flights[f].token) != (s.flights[g].network, s.flights[g].token)
  {
    ReachableInv(cfg, s);
  }

  /** A worker receives the outcome of a flight for its own network and token, and nothing else changes. */
  lemma WaiterReceivesItsOwnFlight(cfg: Config, s: State, r: nat, i: nat)
    requires cfg.Valid() && Reachable(cfg, s) && Enabled(cfg, s, Receive(r, i))
    ensures var q := s.requests[r]; var x := s.flights[q.workers[i].flight]; var p := Next(cfg, s, Receive(r, i)).requests[r];
      && x.network == q.network && x.token == q.misses[i] && q.misses[i] !in q.result
      && x.Answered()
      && (x.asset.value.reply != AssetFailed ==>
            && p.result.Keys == q.result.Keys + {q.misses[i]}
            && FollowsReplies(x.asset.value.reply, x.candles.value.reply, p.result[q.misses[i]]))
      && (x.asset.value.reply == AssetFailed ==> p.result == q.result)
      && forall t :: t in q.result ==> t in p.result && p.result[t] == q.result[t]
  {
    ReachableInv(cfg, s);
    assert RequestOk(cfg, s, r);
    assert JoinedOwn(s, s.requests[r], i) && ValueOk(s, s.requests[r], i);
    var x := s.flights[s.requests[r].workers[i].flight];
    CombineFollows(x.asset.value.reply, x.candles.value.reply);
  }

  /*** What upstream answered ***/

  /**
   * A price exactly when the asset call answered with one, and then that price, with the 24h change exactly
   * as far as the candles call had one to give.
   */
  predicate FollowsReplies(asset: AssetReply, candles: CandlesReply, entry: Option<Entry>) {
    && (entry.Some? <==> asset.AssetPrice?)
    && (entry.Some? ==>
          && entry.value.price == asset.price
          && entry.value.change24h == if candles.Candles? then candles.change24h else None)
  }

  /** The outcome of a fetch follows the replies; it is undecided exactly when the asset call failed. */
  lemma CombineFollows(asset: AssetReply, candles: CandlesReply)
    ensures FollowsReplies(asset, candles, Combine(asset, candles).entry)
    ensures Combine(asset, candles).resolved <==> asset != AssetFailed
  {
  }

  /*** Provenance ***/

  /** Upstream stated this entry for this very asset, between the two instants. */
  ghost predicate Reported(s: State, network: Network, token: string, entry: Entry, from: int, to: int) {
    var id := AssetId.ToStellarExpert(token);
    && (exists at :: from <= at <= to && PriceReport(network, id, entry.price, at) in s.reports)
    && (entry.change24h.Some? ==>
          exists at :: from <= at <= to && ChangeReport(network, id, entry.change24h.value, at) in s.reports)
  }

  lemma ProducedIsReported(cfg: Config, s: State, f: nat, network: Network, token: string, entry: Entry)
    requires Inv(cfg, s) && Produced(s, f, network, token, entry)
    ensures Reported(s, network, token, entry, s.flights[f].started, s.now)
  {
    assert FlightOk(s, f);
    var x := s.flights[f];
    assert x.asset.value.reply.AssetPrice? && x.asset.value.reply.price == entry.price;
  }

  /**
   * Whatever the cache holds, a hit is an entry upstream reported for exactly that network and asset
   * at most CacheTTL + MissFetchTimeout before the read; nulls and unresolved fetches are never hits.
   */
  lemma HitsAreRecentReports(cfg: Config, s: State, network: Network, tokens: seq<string>, t: string)
    requires cfg.Valid() && Reachable(cfg, s)
    requires t in Hits(s.cache, s.now, network, tokens)
    ensures Reported(s, network, t, Hits(s.cache, s.now, network, tokens)[t], s.now - cfg.ttl - cfg.budget, s.now)
  {
    ReachableInv(cfg, s);
    var k := CacheKey(network, t);
    assert CellOk(cfg, s, k);
    var f := s.origins[k];
    CacheKeyInjective(s.flights[f].network, s.flights[f].token, network, t);
    var entry := Hits(s.cache, s.now, network, tokens)[t];
    ProducedIsReported(cfg, s, f, network, t, entry);
    Widen(s, network, t, entry, s.flights[f].started, s.now - cfg.ttl - cfg.budget, s.now);
  }

  lemma Widen(s: State, network: Network, t: string, entry: Entry, from: int, earlier: int, to: int)
    requires Reported(s, network, t, entry, from, to) && earlier <= from
    ensures Reported(s, network, t, entry, earlier, to)
  {
    var id := AssetId.ToStellarExpert(t);
    var at :| from <= at <= to && PriceReport(network, id, entry.price, at) in s.reports;
    assert earlier <= at <= to;
    if entry.change24h.Some? {
      var at' :| from <= at' <= to && ChangeReport(network, id, entry.change24h.value, at') in s.reports;
      assert earlier <= at' <= to;
    }
  }

  /*** The returned map ***/

  /** Some fetch of this very pair ended with this entry: the only thing a cache-free call can return. */
  ghost predicate FetchedBy(s: State, q: Request, t: string, entry: Entry, f: nat) {
    Produced(s, f, q.network, t, entry)
  }

  /**
   * An uncancelled GetPrices returns a value for exactly the requested tokens. Hits are kept as read.
   * Every value, hit or not, is the outcome of a fetch of that pair, as it would be without a cache;
   * a hit's fetch began at most CacheTTL + MissFetchTimeout before the request read the cache.
   */
  lemma CachedRefinesCacheFree(cfg: Config, s: State, r: nat, prices: map<string, Option<Entry>>)
    requires cfg.Valid() && Reachable(cfg, s) && r < |s.requests|
    requires s.requests[r].returned == Some(Prices(prices))
    ensures prices.Keys == set t | t in s.requests[r].asked
    ensures forall t :: t in s.requests[r].hits ==> t in prices && prices[t] == Some(s.requests[r].hits[t])
    ensures forall t :: t in prices && prices[t].Some? ==>
      exists f: nat ::
        && FetchedBy(s, s.requests[r], t, prices[t].value, f)
        && FollowsReplies(s.flights[f].asset.value.reply, s.flights[f].candles.value.reply, prices[t])
        && (t in s.requests[r].hits ==> s.requests[r].began <= s.flights[f].started + cfg.budget + cfg.ttl)
  {
    ReachableInv(cfg, s);
    var q := s.requests[r];
    assert RequestOk(cfg, s, r);
    forall t | t in prices && prices[t].Some?
      ensures exists f: nat ::
        && FetchedBy(s, q, t, prices[t].value, f)
        && FollowsReplies(s.flights[f].asset.value.reply, s.flights[f].candles.value.reply, prices[t])
        && (t in q.hits ==> q.began <= s.flights[f].started + cfg.budget + cfg.ttl)
    {
      var f: nat;
      if t in q.hits {
        f := q.origins[t];
      } else {
        assert t in q.misses;
        var i :| 0 <= i < |q.misses| && q.misses[i] == t;
        assert JoinedOwn(s, q, i) && ValueOk(s, q, i);
        f := q.workers[i].flight;
      }
      assert FetchedBy(s, q, t, prices[t].value, f);
      CombineFollows(s.flights[f].asset.value.reply, s.flights[f].candles.value.reply);
    }
  }

  /** With budget to spare at the end, a null is never a lost answer: each miss has its flight's outcome. */
  lemma NothingLostWithinBudget(cfg: Config, s: State, r: nat, i: nat)
    requires cfg.Valid() && Reachable(cfg, s) && Enabled(cfg, s, Finish(r)) && Live(s, r)
    requires i < |s.requests[r].misses|
    ensures var q := s.requests[r]; var p := Next(cfg, s, Finish(r)).requests[r];
      && i < |q.workers| && q.workers[i].Returned? && q.workers[i].flight < |s.flights|
      && var x := s.flights[q.workers[i].flight];
      && x.network == q.network && x.token == q.misses[i] && x.phase == Done && x.Answered()
      && p.returned.value.Prices? && q.misses[i] in p.returned.value.prices
      && FollowsReplies(x.asset.value.reply, x.candles.value.reply, p.returned.value.prices[q.misses[i]])
  {
    ReachableInv(cfg, s);
    var q := s.requests[r];
    assert RequestOk(cfg, s, r);
    assert JoinedOwn(s, q, i) && ValueOk(s, q, i) && Settled(s, q, i);
    assert q.misses[i] in q.misses && q.misses[i] in q.tokens;
    var x := s.flights[q.workers[i].flight];
    CombineFollows(x.asset.value.reply, x.candles.value.reply);
    NullUnlessPriced(x.asset.value.reply, x.candles.value.reply);
    hide Inv, Reachable, RequestOk, Combine, CacheKey, FollowsReplies;
  }

  lemma NullUnlessPriced(asset: AssetReply, candles: CandlesReply)
    ensures !Combine(asset, candles).resolved ==> FollowsReplies(asset, candles, None)
  {
  }

  /**
   * An eviction or an undecodable value, which may happen to any key at any time, takes away exactly the hit
   * of that key (a nil or failing cache has none at all).
   */
  lemma {:induction false} CacheFaultsOnlyLoseHits(cfg: Config, s: State, key: string, network: Network, tokens: seq<string>)
    ensures Enabled(cfg, s, Evict(key)) && Enabled(cfg, s, Corrupt(key))
    ensures forall a | a == Evict(key) || a == Corrupt(key) ::
      var before, after := Hits(s.cache, s.now, network, tokens), Hits(Next(cfg, s, a).cache, s.now, network, tokens);
      && (forall t :: t in after <==> t in before && CacheKey(network, t) != key)
      && forall t :: t in after ==> after[t] == before[t]
  {
    hide CacheKey;
    forall a | a == Evict(key) || a == Corrupt(key)
      ensures forall k :: Lookup(Next(cfg, s, a).cache, s.now, k) == if k == key then None else Lookup(s.cache, s.now, k)
    {
    }
  }

  /*** The bound on a request's own fetches ***/

  /** The unfinished flights that the first n workers of a request started or joined. */
  ghost function OwnUnfinished(s: State, q: Request, n: nat): set<nat>
    requires n <= |q.workers|
  {
    set i | 0 <= i < n && (q.workers[i].Waiting? || q.workers[i].Returned?)
      && q.workers[i].flight < |s.flights| && s.flights[q.workers[i].flight].phase != Done :: q.workers[i].flight
  }

  lemma ActiveGrows(workers: seq<Worker>, n: nat)
    requires 0 < n <= |workers|
    ensures Active(workers[..n]) ==
            Active(workers[..n - 1]) + if workers[n - 1].Spawned? || workers[n - 1].Waiting? then 1 else 0
  {
    assert workers[..n][..n - 1] == workers[..n - 1];
  }

  lemma {:induction false} OwnBoundedByActive(s: State, q: Request, n: nat)
    requires n <= |q.workers| && |q.workers| == |q.misses|
    requires forall i :: 0 <= i < n ==> Settled(s, q, i)
    ensures |OwnUnfinished(s, q, n)| <= Active(q.workers[..n])
  {
    if n > 0 {
      OwnBoundedByActive(s, q, n - 1);
      var w := q.workers[n - 1];
      assert Settled(s, q, n - 1);
      assert w.Returned? ==> w.flight < |s.flights| && s.flights[w.flight].phase == Done;
      hide Settled, Active;
      assert Active(q.workers[..n]) == Active(q.workers[..n - 1]) + if w.Spawned? || w.Waiting? then 1 else 0 by {
        ActiveGrows(q.workers, n);
      }
      if w.Waiting? {
        assert OwnUnfinished(s, q, n) <= OwnUnfinished(s, q, n - 1) + {w.flight};
        SubsetSize(OwnUnfinished(s, q, n), OwnUnfinished(s, q, n - 1) + {w.flight});
      } else {
        assert OwnUnfinished(s, q, n) == OwnUnfinished(s, q, n - 1);
      }
      hide OwnUnfinished;
    }
  }

  lemma {:induction false} SubsetSize(a: set<nat>, b: set<nat>)
    requires a <= b
    ensures |a| <= |b|
    decreases b
  {
    if x :| x in a {
      SubsetSize(a - {x}, b - {x});
    }
  }

  /** While its fetch budget lasts, a request has at most MaxConcurrent unfinished flights of its own. */
  lemma CapWhileLive(cfg: Config, s: State, r: nat)
    requires cfg.Valid() && Reachable(cfg, s) && r < |s.requests| && Live(s, r)
    ensures |OwnUnfinished(s, s.requests[r], |s.requests[r].workers|)| <= cfg.maxConcurrent
  {
    ReachableInv(cfg, s);
    var q := s.requests[r];
    assert RequestOk(cfg, s, r);
    OwnBoundedByActive(s, q, |q.workers|);
    assert q.workers[..|q.workers|] == q.workers;
  }

  lemma {:induction false} RunThen(cfg: Config, s: State, first: seq<Action>, last: Action)
    requires Run(cfg, s, first).Some? && Enabled(cfg, Run(cfg, s, first).value, last)
    ensures Run(cfg, s, first + [last]) == Some(Next(cfg, Run(cfg, s, first).value, last))
    decreases |first|
  {
    if first == [] {
      assert Run(cfg, Next(cfg, s, last), []) == Some(Next(cfg, s, last));
      assert (first + [last])[1..] == [];
    } else {
      RunThen(cfg, Next(cfg, s, first[0]), first[1..], last);
      assert (first + [last])[1..] == first[1..] + [last];
    }
  }

  lemma ReachableStep(cfg: Config, s: State, a: Action)
    requires Reachable(cfg, s) && Enabled(cfg, s, a)
    ensures Reachable(cfg, Next(cfg, s, a))
  {
    var actions :| Run(cfg, INIT, actions) == Some(s);
    RunThen(cfg, INIT, actions, a);
  }

  /**
   * One request, out of budget; each of its first k workers started a fetch and gave up on it, and
   * worker k is at `w`.
   */
  ghost predicate Overrun(cfg: Config, s: State, network: Network, tokens: seq<string>, k: nat, n: nat, w: Worker) {
    && Reachable(cfg, s) && |s.requests| == 1 && k <= |s.flights| == n && k <= |tokens|
    && var q := s.requests[0];
    && q.network == network && q.asked == tokens && q.misses == tokens && |q.workers| == |tokens|
    && q.returned.None? && q.deadline <= s.now
    && (forall i :: 0 <= i < |tokens| ==> q.workers[i] == if i < k then Returned(i) else if i == k then w else Pending)
    && (forall i :: 0 <= i < n && i < |tokens| ==>
          s.flights[i].network == network && s.flights[i].token == tokens[i] && s.flights[i].phase == Created)
  }

  lemma {:induction false} IdleWorkers(workers: seq<Worker>)
    requires forall i :: 0 <= i < |workers| ==> workers[i].Returned? || workers[i].Pending?
    ensures Active(workers) == 0
  {
    if workers != [] {
      IdleWorkers(workers[..|workers| - 1]);
    }
  }

  /** One request arrives at an empty cache; then its whole budget passes. */
  ghost function Late(cfg: Config, network: Network, tokens: seq<string>): State
    requires cfg.Valid()
  {
    Next(cfg, Next(cfg, INIT, Start(network, tokens, false)), Tick(cfg.budget))
  }

  lemma LateReachable(cfg: Config, network: Network, tokens: seq<string>)
    requires cfg.Valid() && tokens != []
    ensures Reachable(cfg, Late(cfg, network, tokens))
  {
    var a := Start(network, tokens, false);
    assert Run(cfg, INIT, []) == Some(INIT);
    ReachableStep(cfg, INIT, a);
    ReachableStep(cfg, Next(cfg, INIT, a), Tick(cfg.budget));
  }

  lemma OverrunStart(cfg: Config, network: Network, tokens: seq<string>) returns (s: State)
    requires cfg.Valid() && Distinct(tokens) && tokens != []
    ensures Overrun(cfg, s, network, tokens, 0, 0, Pending)
  {
    s := Late(cfg, network, tokens);
    LateReachable(cfg, network, tokens);
    hide Reachable;
    DedupeOfDistinct(tokens);
    MissingAll(tokens);
  }

  lemma {:induction false} MissingAll(tokens: seq<string>)
    ensures Missing<Option<Entry>>(tokens, map[]) == tokens
  {
    if tokens != [] {
      MissingAll(tokens[..|tokens| - 1]);
      assert tokens == tokens[..|tokens| - 1] + [tokens[|tokens| - 1]];
    }
  }

  lemma OverrunJoin(cfg: Config, s: State, network: Network, tokens: seq<string>, k: nat) returns (t: State)
    requires cfg.Valid() && Distinct(tokens) && k < |tokens| && Overrun(cfg, s, network, tokens, k, k, Spawned)
    ensures Overrun(cfg, t, network, tokens, k, k + 1, Waiting(k))
  {
    ReachableInv(cfg, s);
    var key := CacheKey(network, tokens[k]);
    forall f | 0 <= f < k ensures s.flights[f].Key() != key {
      if s.flights[f].Key() == key {
        CacheKeyInjective(network, tokens[f], network, tokens[k]);
      }
    }
    assert key !in s.group;
    ReachableStep(cfg, s, Join(0, k));
    t := Next(cfg, s, Join(0, k));
  }

  lemma OverrunStep(cfg: Config, s: State, network: Network, tokens: seq<string>, k: nat) returns (t: State)
    requires cfg.Valid() && Distinct(tokens) && k < |tokens| && Overrun(cfg, s, network, tokens, k, k, Pending)
    ensures Overrun(cfg, t, network, tokens, k + 1, k + 1, Pending)
  {
    IdleWorkers(s.requests[0].workers);
    ReachableStep(cfg, s, Spawn(0, k));
    var s1 := Next(cfg, s, Spawn(0, k));
    var s2 := OverrunJoin(cfg, s1, network, tokens, k);
    ReachableStep(cfg, s2, GiveUp(0, k));
    t := Next(cfg, s2, GiveUp(0, k));
  }

  lemma {:induction false} OverrunAll(cfg: Config, network: Network, tokens: seq<string>, k: nat) returns (s: State)
    requires cfg.Valid() && Distinct(tokens) && tokens != [] && k <= |tokens|
    ensures Overrun(cfg, s, network, tokens, k, k, Pending)
  {
    if k == 0 {
      s := OverrunStart(cfg, network, tokens);
    } else {
      var t := OverrunAll(cfg, network, tokens, k - 1);
      s := OverrunStep(cfg, t, network, tokens, k - 1);
    }
  }

  /**
   * Once the budget is gone the cap is gone: for every configuration and every list of distinct tokens
   * there is a run in which all of them are being fetched at once for this one request.
   */
  lemma NoCapAfterExpiry(cfg: Config, network: Network, tokens: seq<string>) returns (s: State)
    requires cfg.Valid() && Distinct(tokens) && tokens != []
    ensures Reachable(cfg, s) && |s.requests| == 1 && !Live(s, 0) && s.requests[0].asked == tokens
    ensures |OwnUnfinished(s, s.requests[0], |s.requests[0].workers|)| == |tokens|
  {
    s := OverrunAll(cfg, network, tokens, |tokens|);
    FirstNats(s, s.requests[0], |tokens|);
  }

  lemma {:induction false} FirstNats(s: State, q: Request, n: nat)
    requires n <= |q.workers| && n <= |s.flights|
    requires forall i :: 0 <= i < n ==> q.workers[i] == Returned(i) && s.flights[i].phase != Done
    ensures forall x :: x in OwnUnfinished(s, q, n) ==> x < n
    ensures |OwnUnfinished(s, q, n)| == n
  {
    if n > 0 {
      FirstNats(s, q, n - 1);
      assert q.workers[n - 1].flight == n - 1;
      assert OwnUnfinished(s, q, n) == OwnUnfinished(s, q, n - 1) + {n - 1};
    }
  }

  /*** Independence of callers ***/

  /** The request on whose behalf a step is taken. */
  function Actor(a: Action): Option<nat> {
    match a
    case Spawn(r, _) => Some(r)
    case Join(r, _) => Some(r)
    case Receive(r, _) => Some(r)
    case GiveUp(r, _) => Some(r)
    case Cancel(r) => Some(r)
    case Finish(r) => Some(r)
    case _ => None
  }

  /** Two states that differ at most in the record of request `r`. */
  ghost predicate SameBut(s: State, t: State, r: nat) {
    && s.(requests := []) == t.(requests := []) && |s.requests| == |t.requests|
    && forall p :: 0 <= p < |s.requests| && p != r ==> s.requests[p] == t.requests[p]
  }

  /** Everything a request does besides DoChan is invisible to the others. */
  lemma LocalStepInvisible(cfg: Config, s: State, a: Action, r: nat)
    requires Enabled(cfg, s, a) && Actor(a) == Some(r) && !a.Join?
    ensures SameBut(s, Next(cfg, s, a), r)
  {
  }

  predicate Environment(a: Action) {
    a.Tick? || a.Evict? || a.Corrupt? || a.Start?
  }

  lemma OthersCannotTellFlights(cfg: Config, s: State, t: State, a: Action, r: nat)
    requires r < |s.requests| && SameBut(s, t, r) && Actor(a) == None && !Environment(a)
    ensures Enabled(cfg, s, a) <==> Enabled(cfg, t, a)
    ensures Enabled(cfg, s, a) ==> SameBut(Next(cfg, s, a), Next(cfg, t, a), r)
  {
    assert s.flights == t.flights;
  }

  lemma OthersCannotTellEnvironment(cfg: Config, s: State, t: State, a: Action, r: nat)
    requires r < |s.requests| && SameBut(s, t, r) && Environment(a)
    ensures Enabled(cfg, s, a) <==> Enabled(cfg, t, a)
    ensures Enabled(cfg, s, a) ==> SameBut(Next(cfg, s, a), Next(cfg, t, a), r)
  {
    if a.Start? {
      var q := NewRequest(cfg, s, a.network, a.tokens, a.cacheUp);
      assert q == NewRequest(cfg, t, a.network, a.tokens, a.cacheUp);
      hide NewRequest;
      assert Next(cfg, s, a).requests == s.requests + [q] && Next(cfg, t, a).requests == t.requests + [q];
    }
  }

  lemma OthersCannotTellWorkers(cfg: Config, s: State, t: State, a: Action, r: nat)
    requires r < |s.requests| && SameBut(s, t, r) && Actor(a).Some? && Actor(a) != Some(r)
    ensures Enabled(cfg, s, a) <==> Enabled(cfg, t, a)
    ensures Enabled(cfg, s, a) ==> SameBut(Next(cfg, s, a), Next(cfg, t, a), r)
  {
    hide CacheKey, Combine, Active, Complete;
    var p := Actor(a).value;
    if p < |s.requests| {
      assert s.requests[p] == t.requests[p];
    }
  }

  /** Others can take the same steps, with the same effect, whatever the record of `r` says. */
  lemma OthersCannotTell(cfg: Config, s: State, t: State, a: Action, r: nat)
    requires r < |s.requests| && SameBut(s, t, r) && Actor(a) != Some(r)
    ensures Enabled(cfg, s, a) <==> Enabled(cfg, t, a)
    ensures Enabled(cfg, s, a) ==> SameBut(Next(cfg, s, a), Next(cfg, t, a), r)
  {
    if Actor(a).Some? {
      OthersCannotTellWorkers(cfg, s, t, a, r);
    } else if Environment(a) {
      OthersCannotTellEnvironment(cfg, s, t, a, r);
    } else {
      OthersCannotTellFlights(cfg, s, t, a, r);
    }
  }

  /** No step of another caller, of a flight or of the environment touches the record of `r`. */
  lemma OthersLeaveRecord(cfg: Config, s: State, a: Action, r: nat)
    requires r < |s.requests| && Enabled(cfg, s, a) && Actor(a) != Some(r)
    ensures r < |Next(cfg, s, a).requests| && Next(cfg, s, a).requests[r] == s.requests[r]
  {
  }

  /** A caller's cancellation commutes with every step that is not its own. */
  lemma CancelCommutes(cfg: Config, s: State, a: Action, r: nat)
    requires r < |s.requests| && Actor(a) != Some(r)
    ensures Enabled(cfg, s, a) <==> Enabled(cfg, Next(cfg, s, Cancel(r)), a)
    ensures Enabled(cfg, s, a) ==>
      && Enabled(cfg, Next(cfg, s, a), Cancel(r))
      && Next(cfg, Next(cfg, s, Cancel(r)), a) == Next(cfg, Next(cfg, s, a), Cancel(r))
  {
    var t := Next(cfg, s, Cancel(r));
    LocalStepInvisible(cfg, s, Cancel(r), r);
    OthersCannotTell(cfg, s, t, a, r);
    if Enabled(cfg, s, a) {
      OthersLeaveRecord(cfg, s, a, r);
      OthersLeaveRecord(cfg, t, a, r);
      var u, v := Next(cfg, t, a), Next(cfg, Next(cfg, s, a), Cancel(r));
      LocalStepInvisible(cfg, Next(cfg, s, a), Cancel(r), r);
      SameRecords(u, v, r);
    }
  }

  lemma SameRecords(u: State, v: State, r: nat)
    requires u.(requests := []) == v.(requests := []) && |u.requests| == |v.requests| && r < |u.requests|
    requires u.requests[r] == v.requests[r]
    requires forall p :: 0 <= p < |u.requests| && p != r ==> u.requests[p] == v.requests[p]
    ensures u == v
  {
    assert u.requests == v.requests;
  }

  function Without(actions: seq<Action>, r: nat): seq<Action> {
    if actions == [] then []
    else (if Actor(actions[0]) == Some(r) then [] else [actions[0]]) + Without(actions[1..], r)
  }

  /**
   * Erase from any run everything request `r` does after its DoChan calls, cancellation included: the
   * rest of the run is still possible, and every other request ends with the same record.
   */
  lemma {:induction false} OthersUnaffected(cfg: Config, s: State, t: State, actions: seq<Action>, r: nat)
    requires r < |s.requests| && SameBut(s, t, r) && Run(cfg, s, actions).Some?
    requires forall a :: a in actions && a.Join? ==> a.r != r
    ensures Run(cfg, t, Without(actions, r)).Some?
    ensures SameBut(Run(cfg, s, actions).value, Run(cfg, t, Without(actions, r)).value, r)
    decreases |actions|
  {
    if actions != [] {
      var a := actions[0];
      var s' := Next(cfg, s, a);
      forall b | b in actions[1..] && b.Join? ensures b.r != r {
        assert b in actions;
      }
      if Actor(a) == Some(r) {
        LocalStepInvisible(cfg, s, a, r);
        assert Without(actions, r) == Without(actions[1..], r);
        OthersUnaffected(cfg, s', t, actions[1..], r);
      } else {
        OthersCannotTell(cfg, s, t, a, r);
        assert Without(actions, r)[0] == a && Without(actions, r)[1..] == Without(actions[1..], r);
        OthersUnaffected(cfg, s', Next(cfg, t, a), actions[1..], r);
      }
    }
  }

  /*** Progress ***/

  /** A worker that holds a slot of the group. */
  function BusyWorker(workers: seq<Worker>): (i: nat)
    requires Active(workers) > 0
    ensures i < |workers| && (workers[i].Spawned? || workers[i].Waiting?)
  {
    var n := |workers| - 1;
    if workers[n].Spawned? || workers[n].Waiting? then n else BusyWorker(workers[..n])
  }

  function FirstPending(workers: seq<Worker>, n: nat): (i: nat)
    requires n < |workers| && workers[n] == Pending
    ensures i <= n && workers[i] == Pending && forall j :: 0 <= j < i ==> workers[j] != Pending
  {
    if workers[0] == Pending then 0 else 1 + FirstPending(workers[1..], n - 1)
  }

  /** Once its budget is over or its caller gone, a request waits for nobody: it can always take a step. */
  lemma ExpiredRequestCanStep(cfg: Config, s: State, r: nat) returns (a: Action)
    requires cfg.Valid() && Reachable(cfg, s) && r < |s.requests| && s.requests[r].returned.None? && !Live(s, r)
    ensures Actor(a) == Some(r) && !a.Cancel? && Enabled(cfg, s, a)
  {
    ReachableInv(cfg, s);
    var q := s.requests[r];
    assert RequestOk(cfg, s, r);
    if Active(q.workers) > 0 {
      var i := BusyWorker(q.workers);
      a := if q.workers[i].Spawned? then Join(r, i) else GiveUp(r, i);
    } else if n :| 0 <= n < |q.workers| && q.workers[n] == Pending {
      a := Spawn(r, FirstPending(q.workers, n));
    } else {
      a := Finish(r);
      forall i | 0 <= i < |q.workers| ensures q.workers[i].Returned? {
        IdleMeans(q.workers, i);
      }
    }
  }

  lemma {:induction false} IdleMeans(workers: seq<Worker>, i: nat)
    requires Active(workers) == 0 && i < |workers|
    ensures workers[i].Returned? || workers[i].Pending?
  {
    if i < |workers| - 1 {
      IdleMeans(workers[..|workers| - 1], i);
    }
  }

  function StepsOf(w: Worker): nat {
    match w
    case Pending => 3
    case Spawned => 2
    case Waiting(_) => 1
    case Returned(_) => 0
  }

  function StepsLeft(workers: seq<Worker>): nat {
    if workers == [] then 0 else StepsLeft(workers[..|workers| - 1]) + StepsOf(workers[|workers| - 1])
  }

  lemma {:induction false} StepsLeftUpdate(workers: seq<Worker>, i: nat, w: Worker)
    requires i < |workers|
    ensures StepsLeft(workers[i := w]) == StepsLeft(workers) - StepsOf(workers[i]) + StepsOf(w)
  {
    var n := |workers| - 1;
    if i == n {
      assert workers[i := w][..n] == workers[..n];
    } else {
      StepsLeftUpdate(workers[..n], i, w);
      assert workers[i := w][..n] == workers[..n][i := w];
    }
  }

  /** The steps a request still has to take: at most three for each miss, and its return. */
  function RequestLeft(q: Request): nat {
    StepsLeft(q.workers) + if q.returned.None? then 1 else 0
  }

  /** Each of its own steps brings it closer; nobody else's sets it back (OthersLeaveRecord). */
  lemma OwnStepsShorten(cfg: Config, s: State, a: Action, r: nat)
    requires r < |s.requests| && Enabled(cfg, s, a) && Actor(a) == Some(r) && !a.Cancel?
    ensures r < |Next(cfg, s, a).requests|
    ensures RequestLeft(Next(cfg, s, a).requests[r]) < RequestLeft(s.requests[r])
  {
    hide CacheKey, Combine, Complete, Active, AssetId.ToStellarExpert;
    if !a.Finish? {
      var workers := Next(cfg, s, a).requests[r].workers;
      StepsLeftUpdate(s.requests[r].workers, a.i, workers[a.i]);
    }
  }

  lemma {:induction false} RunAppend(cfg: Config, s: State, actions: seq<Action>, a: Action)
    requires Run(cfg, s, actions).Some? && Enabled(cfg, Run(cfg, s, actions).value, a)
    ensures Run(cfg, s, actions + [a]) == Some(Next(cfg, Run(cfg, s, actions).value, a))
    decreases |actions|
  {
    hide Next, Enabled;
    if actions == [] {
      assert actions + [a] == [a];
      assert Run(cfg, Next(cfg, s, a), []) == Some(Next(cfg, s, a));
    } else {
      assert (actions + [a])[1..] == actions[1..] + [a];
      RunAppend(cfg, Next(cfg, s, actions[0]), actions[1..], a);
    }
  }

  lemma NextReachable(cfg: Config, s: State, a: Action)
    requires Reachable(cfg, s) && Enabled(cfg, s, a)
    ensures Reachable(cfg, Next(cfg, s, a))
  {
    hide Next, Enabled;
    var actions :| Run(cfg, INIT, actions) == Some(s);
    RunAppend(cfg, INIT, actions, a);
  }

  lemma {:induction false} StepsLeftAtMost(workers: seq<Worker>)
    ensures StepsLeft(workers) <= 3 * |workers|
  {
    if workers != [] {
      StepsLeftAtMost(workers[..|workers| - 1]);
    }
  }

  /** A request whose time is over stays so, and is done after Finish. */
  lemma OwnStepKeepsExpired(cfg: Config, s: State, a: Action, r: nat)
    requires r < |s.requests| && Enabled(cfg, s, a) && Actor(a) == Some(r) && !a.Cancel? && !Live(s, r)
    requires s.requests[r].returned.None?
    ensures r < |Next(cfg, s, a).requests| && !Live(Next(cfg, s, a), r)
    ensures Next(cfg, s, a).requests[r].returned.Some? <==> a.Finish?
    ensures s.requests[r].cancelled ==> Next(cfg, s, a).requests[r].cancelled
    ensures s.requests[r].cancelled && a.Finish? ==> Next(cfg, s, a).requests[r].returned.value.ContextError?
  {
    hide CacheKey, Combine, Complete, Active, AssetId.ToStellarExpert;
  }

  /** The steps of request `r` alone, its caller's cancellation aside. */
  predicate AllOwn(own: seq<Action>, r: nat) {
    forall k :: 0 <= k < |own| ==> Actor(own[k]) == Some(r) && !own[k].Cancel?
  }

  lemma {:induction false} OwnStepsReturn(cfg: Config, s: State, r: nat) returns (own: seq<Action>)
    requires cfg.Valid() && Reachable(cfg, s) && r < |s.requests| && s.requests[r].returned.None? && !Live(s, r)
    ensures AllOwn(own, r) && |own| <= RequestLeft(s.requests[r]) && Run(cfg, s, own).Some?
    ensures r < |Run(cfg, s, own).value.requests| && Run(cfg, s, own).value.requests[r].returned.Some?
    ensures s.requests[r].cancelled ==> Run(cfg, s, own).value.requests[r].returned.value.ContextError?
    decreases RequestLeft(s.requests[r])
  {
    var a := ExpiredRequestCanStep(cfg, s, r);
    OwnStepsShorten(cfg, s, a, r);
    OwnStepKeepsExpired(cfg, s, a, r);
    NextReachable(cfg, s, a);
    hide Reachable, Next, Enabled, Actor, RequestLeft, Live;
    var t := Next(cfg, s, a);
    var rest: seq<Action> := [];
    if !a.Finish? {
      rest := OwnStepsReturn(cfg, t, r);
    }
    own := [a] + rest;
    assert own[1..] == rest;
  }

  /**
   * So on its own, whatever fetches and other requests do not do, it returns after at most three steps for
   * each miss and one more.
   */
  lemma ExpiredRequestReturns(cfg: Config, s: State, r: nat)
    requires cfg.Valid() && Reachable(cfg, s) && r < |s.requests| && s.requests[r].returned.None? && !Live(s, r)
    ensures exists own ::
      && AllOwn(own, r) && |own| <= 3 * |s.requests[r].misses| + 1 && Run(cfg, s, own).Some?
      && r < |Run(cfg, s, own).value.requests| && Run(cfg, s, own).value.requests[r].returned.Some?
  {
    ReachableInv(cfg, s);
    assert RequestOk(cfg, s, r);
    StepsLeftAtMost(s.requests[r].workers);
    var own := OwnStepsReturn(cfg, s, r);
    hide Run, Reachable, Inv, RequestOk, StepsLeft, AllOwn;
  }

  /** A caller that gives up frees its request in the same way, and is told that its context is over. */
  lemma CancelledRequestReturns(cfg: Config, s: State, r: nat)
    requires cfg.Valid() && Reachable(cfg, s) && r < |s.requests| && s.requests[r].returned.None?
    ensures exists own ::
      && AllOwn(own, r) && |own| <= 3 * |s.requests[r].misses| + 1 && Run(cfg, s, [Cancel(r)] + own).Some?
      && var t := Run(cfg, s, [Cancel(r)] + own).value;
         r < |t.requests| && t.requests[r].returned.Some? && t.requests[r].returned.value.ContextError?
  {
    ReachableInv(cfg, s);
    assert RequestOk(cfg, s, r);
    StepsLeftAtMost(s.requests[r].workers);
    NextReachable(cfg, s, Cancel(r));
    var own := OwnStepsReturn(cfg, Next(cfg, s, Cancel(r)), r);
    hide Reachable, Inv, RequestOk, StepsLeft, AllOwn;
    assert ([Cancel(r)] + own)[1..] == own;
  }
}
