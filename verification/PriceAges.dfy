/**
 * How old a fetched price can be: a request only ever waits on fetches that were still in progress when
 * it began, or began later. Kept by every step of the orchestrator.
 */
module PriceAges {
  import opened Text
  import opened PriceCache
  import opened PriceOrchestrator
  import opened PriceSafety
  import opened PriceTheorems

  /** The fetch worker `w` joined, if any, had not ended before the request began. */
  predicate JoinedCurrent(s: State, began: int, w: Worker) {
    w.Waiting? || w.Returned? ==>
      && w.flight < |s.flights|
      && (s.flights[w.flight].phase == Done ==>
            s.flights[w.flight].ended.Some? && began <= s.flights[w.flight].ended.value)
  }

  predicate RequestCurrent(s: State, q: Request) {
    q.began <= s.now && forall i :: 0 <= i < |q.workers| ==> JoinedCurrent(s, q.began, q.workers[i])
  }

  predicate Current(s: State) {
    forall r :: 0 <= r < |s.requests| ==> RequestCurrent(s, s.requests[r])
  }

  /** Time goes on; a delivered fetch stays so, and one that is delivered now ends now. */
  predicate FlightsGoOn(s: State, t: State) {
    && s.now <= t.now && |s.flights| <= |t.flights|
    && forall f :: 0 <= f < |s.flights| ==>
         && (s.flights[f].phase == Done ==> t.flights[f].phase == Done && t.flights[f].ended == s.flights[f].ended)
         && (s.flights[f].phase != Done && t.flights[f].phase == Done ==> t.flights[f].ended == Some(t.now))
  }

  lemma CurrentKept(s: State, t: State, q: Request)
    requires RequestCurrent(s, q) && FlightsGoOn(s, t)
    ensures RequestCurrent(t, q)
  {
    forall i | 0 <= i < |q.workers| ensures JoinedCurrent(t, q.began, q.workers[i]) {
      assert JoinedCurrent(s, q.began, q.workers[i]);
    }
  }

  lemma OthersCurrent(s: State, t: State, r: nat)
    requires Current(s) && FlightsGoOn(s, t) && |t.requests| == |s.requests|
    requires forall p :: 0 <= p < |s.requests| && p != r ==> t.requests[p] == s.requests[p]
    requires r < |t.requests| ==> RequestCurrent(t, t.requests[r])
    ensures Current(t)
  {
    forall p | 0 <= p < |t.requests| && p != r ensures RequestCurrent(t, t.requests[p]) {
      CurrentKept(s, t, s.requests[p]);
    }
  }

  lemma FlightStepCurrent(cfg: Config, s: State, a: Action)
    requires Inv(cfg, s) && Current(s) && Enabled(cfg, s, a) && Actor(a) == None && !a.Start?
    ensures Current(Next(cfg, s, a))
  {
    hide Inv, Combine, CacheKey, AssetId.ToStellarExpert;
    OthersCurrent(s, Next(cfg, s, a), |s.requests|);
  }

  lemma StartCurrent(cfg: Config, s: State, a: Action)
    requires Current(s) && Enabled(cfg, s, a) && a.Start?
    ensures Current(Next(cfg, s, a))
  {
    var q := NewRequest(cfg, s, a.network, a.tokens, a.cacheUp);
    assert RequestCurrent(s, q);
    var t := Next(cfg, s, a);
    hide NewRequest, RequestCurrent;
    forall p | 0 <= p < |t.requests| ensures RequestCurrent(t, t.requests[p]) {
      CurrentKept(s, t, if p < |s.requests| then s.requests[p] else q);
    }
  }

  lemma WorkerCurrent(s: State, t: State, q: Request, i: nat, p: Request)
    requires RequestCurrent(s, q) && FlightsGoOn(s, t) && i < |q.workers|
    requires p.began == q.began && i < |p.workers| && p.workers == q.workers[i := p.workers[i]]
    requires JoinedCurrent(t, p.began, p.workers[i])
    ensures RequestCurrent(t, p)
  {
    CurrentKept(s, t, q);
    assert RequestCurrent(t, q);
  }

  lemma JoinCurrent(cfg: Config, s: State, a: Action)
    requires Inv(cfg, s) && Current(s) && Enabled(cfg, s, a) && a.Join?
    ensures Current(Next(cfg, s, a))
  {
    var t := Next(cfg, s, a);
    var q, p := s.requests[a.r], t.requests[a.r];
    assert GroupOk(s);
    hide Inv, FlightOk, RequestOk, CellOk, CacheKey;
    WorkerCurrent(s, t, q, a.i, p);
    OthersCurrent(s, t, a.r);
  }

  lemma OwnStepCurrent(cfg: Config, s: State, a: Action, r: nat)
    requires Inv(cfg, s) && Current(s) && Enabled(cfg, s, a) && Actor(a) == Some(r) && !a.Join?
    ensures Current(Next(cfg, s, a))
  {
    var t := Next(cfg, s, a);
    var q, p := s.requests[r], t.requests[r];
    hide Inv, Combine, CacheKey, Complete, Active;
    assert RequestCurrent(s, q);
    if a.Cancel? || a.Finish? {
      CurrentKept(s, t, q);
    } else {
      assert JoinedCurrent(s, q.began, q.workers[a.i]);
      WorkerCurrent(s, t, q, a.i, p);
    }
    OthersCurrent(s, t, r);
  }

  lemma StepKeepsCurrent(cfg: Config, s: State, a: Action)
    requires Inv(cfg, s) && Current(s) && Enabled(cfg, s, a)
    ensures Current(Next(cfg, s, a))
  {
    hide Inv, Current, Next, Enabled;
    match a
    case Start(_, _, _) => StartCurrent(cfg, s, a);
    case Join(_, _) => JoinCurrent(cfg, s, a);
    case Spawn(r, _) => OwnStepCurrent(cfg, s, a, r);
    case Receive(r, _) => OwnStepCurrent(cfg, s, a, r);
    case GiveUp(r, _) => OwnStepCurrent(cfg, s, a, r);
    case Cancel(r) => OwnStepCurrent(cfg, s, a, r);
    case Finish(r) => OwnStepCurrent(cfg, s, a, r);
    case _ => FlightStepCurrent(cfg, s, a);
  }

  lemma {:induction false} RunKeepsCurrent(cfg: Config, s: State, actions: seq<Action>)
    requires cfg.Valid() && Inv(cfg, s) && Current(s) && Run(cfg, s, actions).Some?
    ensures Current(Run(cfg, s, actions).value)
    decreases |actions|
  {
    if actions != [] {
      hide Inv, Current, Next, Enabled;
      StepKeepsInv(cfg, s, actions[0]);
      StepKeepsCurrent(cfg, s, actions[0]);
      RunKeepsCurrent(cfg, Next(cfg, s, actions[0]), actions[1..]);
    }
  }

  lemma ReachableCurrent(cfg: Config, s: State)
    requires cfg.Valid() && Reachable(cfg, s)
    ensures Current(s)
  {
    var actions :| Run(cfg, INIT, actions) == Some(s);
    RunKeepsCurrent(cfg, INIT, actions);
  }

  predicate FetchOf(f: Flight, network: Network, t: string) {
    f.network == network && f.token == t
  }

  /** What bounds the age of a returned price: the fetch behind it. */
  ghost predicate Backs(cfg: Config, s: State, q: Request, t: string, f: nat) {
    && f < |s.flights| && FetchOf(s.flights[f], q.network, t)
    && (t in q.hits ==> q.began <= s.flights[f].started + cfg.budget + cfg.ttl)
    && (t !in q.hits ==> s.flights[f].ended.Some? && q.began <= s.flights[f].ended.value)
  }

  /**
   * Every price a caller gets was reported by upstream for exactly that asset, after the start of a fetch
   * of it: for a hit that start lies at most CacheTTL + MissFetchTimeout before the request, for a miss
   * the fetch had not ended when the request began.
   */
  lemma ReturnedPricesWereReported(cfg: Config, s: State, r: nat, prices: map<string, Option<Entry>>, t: string)
    requires cfg.Valid() && Reachable(cfg, s) && r < |s.requests|
    requires s.requests[r].returned == Some(Prices(prices)) && t in prices && prices[t].Some?
    ensures exists f: nat ::
      && Backs(cfg, s, s.requests[r], t, f)
      && Reported(s, s.requests[r].network, t, prices[t].value, s.flights[f].started, s.now)
  {
    ReachableInv(cfg, s);
    ReachableCurrent(cfg, s);
    var q := s.requests[r];
    var f := FetchBehind(cfg, s, r, prices, t);
    ProducedIsReported(cfg, s, f, q.network, t, prices[t].value);
    assert Backs(cfg, s, q, t, f);
  }

  /** The fetch a returned price comes from. */
  lemma FetchBehind(cfg: Config, s: State, r: nat, prices: map<string, Option<Entry>>, t: string) returns (f: nat)
    requires cfg.Valid() && Inv(cfg, s) && Current(s) && r < |s.requests|
    requires s.requests[r].returned == Some(Prices(prices)) && t in prices && prices[t].Some?
    ensures Backs(cfg, s, s.requests[r], t, f) && Produced(s, f, s.requests[r].network, t, prices[t].value)
  {
    var q := s.requests[r];
    assert RequestOk(cfg, s, r) && RequestCurrent(s, q);
    hide Inv, Current;
    if t in q.hits {
      f := q.origins[t];
    } else {
      assert t in q.misses;
      var i :| 0 <= i < |q.misses| && q.misses[i] == t;
      assert JoinedOwn(s, q, i) && ValueOk(s, q, i) && JoinedCurrent(s, q.began, q.workers[i]);
      f := q.workers[i].flight;
    }
  }

  /**
   * However late past its own budget fetches of the asset were delivered, a price is older than the request
   * by at most MissFetchTimeout plus, for a hit, CacheTTL, or, for a miss, that lateness.
   */
  lemma PriceAgeBounded(cfg: Config, s: State, r: nat, prices: map<string, Option<Entry>>, t: string, late: nat)
    requires cfg.Valid() && Reachable(cfg, s) && r < |s.requests|
    requires s.requests[r].returned == Some(Prices(prices)) && t in prices && prices[t].Some?
    requires forall f :: 0 <= f < |s.flights| && FetchOf(s.flights[f], s.requests[r].network, t) ==>
               s.flights[f].ended.Some? ==> s.flights[f].ended.value <= s.flights[f].started + cfg.budget + late
    ensures var q := s.requests[r];
      Reported(s, q.network, t, prices[t].value, q.began - cfg.budget - (if t in q.hits then cfg.ttl else late), s.now)
  {
    ReturnedPricesWereReported(cfg, s, r, prices, t);
    var q := s.requests[r];
    var f: nat :| Backs(cfg, s, q, t, f) && Reported(s, q.network, t, prices[t].value, s.flights[f].started, s.now);
    hide Reported, Reachable;
    Widen(s, q.network, t, prices[t].value, s.flights[f].started,
          q.began - cfg.budget - (if t in q.hits then cfg.ttl else late), s.now);
  }
}
