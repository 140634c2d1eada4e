/**
 * What every upstream report is about: the asset of one fetch, which some caller asked for, and no other.
 * Kept by every step of the orchestrator.
 */
module PriceReports {
  import AssetId
  import opened PriceCache
  import opened PriceOrchestrator
  import opened PriceSafety
  import opened Text

  /** The report is what upstream answered to this fetch. */
  predicate Answers(x: Flight, report: Report) {
    && report.network == x.network && report.id == AssetId.ToStellarExpert(x.token)
    && match report
       case PriceReport(_, _, price, at) => x.asset == Some(Timed(AssetPrice(price), at))
       case ChangeReport(_, _, change24h, at) => x.candles == Some(Timed(Candles(Some(change24h)), at))
  }

  ghost predicate Answered(s: State, report: Report) {
    exists f :: 0 <= f < |s.flights| && Answers(s.flights[f], report)
  }

  predicate Asks(q: Request, network: Network, token: string) {
    q.network == network && token in q.asked
  }

  /** Some caller put the token into its list. */
  ghost predicate AskedFor(s: State, network: Network, token: string) {
    exists r :: 0 <= r < |s.requests| && Asks(s.requests[r], network, token)
  }

  ghost predicate Accounted(s: State) {
    && (forall report :: report in s.reports ==> Answered(s, report))
    && (forall f :: 0 <= f < |s.flights| ==> AskedFor(s, s.flights[f].network, s.flights[f].token))
  }

  /** A fetch keeps its pair and its answers, a request its list. */
  predicate Kept(s: State, t: State) {
    && |s.flights| <= |t.flights| && |s.requests| <= |t.requests|
    && (forall f :: 0 <= f < |s.flights| ==> SameFetch(s.flights[f], t.flights[f]))
    && (forall r :: 0 <= r < |s.requests| ==>
          t.requests[r].network == s.requests[r].network && t.requests[r].asked == s.requests[r].asked)
  }

  predicate SameFetch(x: Flight, y: Flight) {
    && y.network == x.network && y.token == x.token
    && (x.asset.Some? ==> y.asset == x.asset) && (x.candles.Some? ==> y.candles == x.candles)
  }

  lemma StaysAnswered(s: State, t: State, report: Report)
    requires Answered(s, report) && Kept(s, t)
    ensures Answered(t, report)
  {
    var f :| 0 <= f < |s.flights| && Answers(s.flights[f], report);
    assert SameFetch(s.flights[f], t.flights[f]);
    assert Answers(t.flights[f], report);
  }

  lemma StaysAskedFor(s: State, t: State, network: Network, token: string)
    requires AskedFor(s, network, token) && Kept(s, t)
    ensures AskedFor(t, network, token)
  {
    var r :| 0 <= r < |s.requests| && Asks(s.requests[r], network, token);
    assert Asks(t.requests[r], network, token);
  }

  /** It is enough to account for what is new. */
  lemma KeptAccounted(s: State, t: State)
    requires Accounted(s) && Kept(s, t)
    requires forall report :: report in t.reports && report !in s.reports ==> Answered(t, report)
    requires forall f :: |s.flights| <= f < |t.flights| ==> AskedFor(t, t.flights[f].network, t.flights[f].token)
    ensures Accounted(t)
  {
    forall report | report in t.reports ensures Answered(t, report) {
      if report in s.reports {
        StaysAnswered(s, t, report);
      }
    }
    forall f | 0 <= f < |t.flights| ensures AskedFor(t, t.flights[f].network, t.flights[f].token) {
      if f < |s.flights| {
        assert SameFetch(s.flights[f], t.flights[f]);
        StaysAskedFor(s, t, s.flights[f].network, s.flights[f].token);
      }
    }
  }

  lemma StepKeeps(cfg: Config, s: State, a: Action)
    requires Enabled(cfg, s, a)
    ensures Kept(s, Next(cfg, s, a))
  {
    hide CacheKey, Combine, Complete, Active, AssetId.ToStellarExpert, NewRequest;
    if a.Start? {
      assert Next(cfg, s, a).requests == s.requests + [NewRequest(cfg, s, a.network, a.tokens, a.cacheUp)];
    }
  }

  /** A new fetch is for a miss of the request that starts it, and every miss is on the request's list. */
  lemma JoinAccounted(cfg: Config, s: State, a: Action)
    requires Inv(cfg, s) && Accounted(s) && Enabled(cfg, s, a) && a.Join?
    ensures Accounted(Next(cfg, s, a))
  {
    var t, q := Next(cfg, s, a), s.requests[a.r];
    StepKeeps(cfg, s, a);
    assert RequestOk(cfg, s, a.r);
    MissIsAsked(cfg, s, a.r, a.i);
    hide Inv, RequestOk, CacheKey, Accounted, Kept;
    forall f | |s.flights| <= f < |t.flights| ensures AskedFor(t, t.flights[f].network, t.flights[f].token) {
      assert Asks(t.requests[a.r], q.network, q.misses[a.i]);
    }
    KeptAccounted(s, t);
  }

  lemma MissIsAsked(cfg: Config, s: State, r: nat, i: nat)
    requires Inv(cfg, s) && r < |s.requests| && i < |s.requests[r].misses|
    ensures s.requests[r].misses[i] in s.requests[r].asked
  {
    assert RequestOk(cfg, s, r) && ShapeOk(s.requests[r]);
    assert s.requests[r].misses[i] in s.requests[r].misses;
  }

  lemma ArrivalAccounted(cfg: Config, s: State, a: Action)
    requires Accounted(s) && Enabled(cfg, s, a) && (a.AssetArrives? || a.CandlesArrive?)
    ensures Accounted(Next(cfg, s, a))
  {
    var t := Next(cfg, s, a);
    StepKeeps(cfg, s, a);
    hide Accounted, Kept, AssetId.ToStellarExpert;
    forall report | report in t.reports && report !in s.reports ensures Answered(t, report) {
      assert Answers(t.flights[a.f], report);
    }
    KeptAccounted(s, t);
  }

  lemma QuietAccounted(cfg: Config, s: State, a: Action)
    requires Accounted(s) && Enabled(cfg, s, a) && !a.Join? && !a.AssetArrives? && !a.CandlesArrive?
    ensures Accounted(Next(cfg, s, a))
  {
    StepKeeps(cfg, s, a);
    hide Accounted, Kept, NewRequest, CacheKey, Combine, Complete, Active;
    KeptAccounted(s, Next(cfg, s, a));
  }

  lemma StepKeepsAccounted(cfg: Config, s: State, a: Action)
    requires Inv(cfg, s) && Accounted(s) && Enabled(cfg, s, a)
    ensures Accounted(Next(cfg, s, a))
  {
    hide Inv, Accounted, Next, Enabled;
    if a.Join? {
      JoinAccounted(cfg, s, a);
    } else if a.AssetArrives? || a.CandlesArrive? {
      ArrivalAccounted(cfg, s, a);
    } else {
      QuietAccounted(cfg, s, a);
    }
  }

  lemma {:induction false} RunKeepsAccounted(cfg: Config, s: State, actions: seq<Action>)
    requires cfg.Valid() && Inv(cfg, s) && Accounted(s) && Run(cfg, s, actions).Some?
    ensures Accounted(Run(cfg, s, actions).value)
    decreases |actions|
  {
    if actions != [] {
      hide Inv, Accounted, Next, Enabled;
      StepKeepsInv(cfg, s, actions[0]);
      StepKeepsAccounted(cfg, s, actions[0]);
      RunKeepsAccounted(cfg, Next(cfg, s, actions[0]), actions[1..]);
    }
  }

  lemma ReachableAccounted(cfg: Config, s: State)
    requires cfg.Valid() && Reachable(cfg, s)
    ensures Accounted(s)
  {
    var actions :| Run(cfg, INIT, actions) == Some(s);
    RunKeepsAccounted(cfg, INIT, actions);
  }

  /** Callers that normalize ask for canonical ids only. */
  ghost predicate AsksCanonically(valid: string -> bool, s: State) {
    forall r, t :: 0 <= r < |s.requests| && t in s.requests[r].asked ==> AssetId.Canonical(valid, t)
  }

  /**
   * Among callers that ask for canonical ids, every upstream report answers a fetch, that fetch was for an
   * asset some caller asked for on that network, and no other canonical id reads the report as its own.
   */
  lemma ReportsNeverCross(valid: string -> bool, cfg: Config, s: State, report: Report)
    requires cfg.Valid() && Reachable(cfg, s) && AsksCanonically(valid, s) && report in s.reports
    ensures exists f ::
      && 0 <= f < |s.flights| && Answers(s.flights[f], report)
      && AskedFor(s, report.network, s.flights[f].token)
      && forall t :: AssetId.Canonical(valid, t) && report.id == AssetId.ToStellarExpert(t) ==> t == s.flights[f].token
  {
    ReachableAccounted(cfg, s);
    assert Answered(s, report);
    var f :| 0 <= f < |s.flights| && Answers(s.flights[f], report);
    var token := s.flights[f].token;
    assert AskedFor(s, s.flights[f].network, token);
    var r :| 0 <= r < |s.requests| && Asks(s.requests[r], s.flights[f].network, token);
    hide Accounted, Reachable, AssetId.Canonical, AssetId.ToStellarExpert;
    forall t | AssetId.Canonical(valid, t) && report.id == AssetId.ToStellarExpert(t) ensures t == token {
      AssetId.ToStellarExpertInjective(valid, t, token);
    }
  }
}
