/** What every step of the price orchestrator keeps, and what that means for callers. */
module PriceSafety {
  import opened Text
  import opened Slices
  import opened PriceCache
  import opened PriceOrchestrator
  import AssetId

  /*** The invariant ***/

  ghost predicate FlightOk(s: State, f: nat)
    requires f < |s.flights|
  {
    var x := s.flights[f];
    var id := AssetId.ToStellarExpert(x.token);
    && (x.phase == Created ==> x.asset.None? && x.candles.None?)
    && (x.phase != Created ==> x.started <= s.now)
    && (x.phase == Landed || x.phase == Done ==> x.Answered())
    && (x.asset.Some? ==>
          && x.started <= x.asset.value.at <= s.now
          && (x.asset.value.reply.AssetPrice? ==>
                PriceReport(x.network, id, x.asset.value.reply.price, x.asset.value.at) in s.reports))
    && (x.candles.Some? ==>
          && x.started <= x.candles.value.at <= s.now
          && (x.candles.value.reply.Candles? && x.candles.value.reply.change24h.Some? ==>
                ChangeReport(x.network, id, x.candles.value.reply.change24h.value, x.candles.value.at) in s.reports))
  }

  /** The singleflight table lists exactly the unfinished flights, each under its own key. */
  ghost predicate GroupOk(s: State) {
    && (forall k :: k in s.group ==>
          s.group[k] < |s.flights| && s.flights[s.group[k]].Key() == k && s.flights[s.group[k]].phase != Done)
    && (forall f :: 0 <= f < |s.flights| && s.flights[f].phase != Done ==>
          s.flights[f].Key() in s.group && s.group[s.flights[f].Key()] == f)
  }

  /** Flight `f` is past its cache write and produced exactly `entry`. */
  ghost predicate Produced(s: State, f: nat, network: Network, token: string, entry: Entry) {
    && f < |s.flights| && s.flights[f].network == network && s.flights[f].token == token
    && (s.flights[f].phase == Landed || s.flights[f].phase == Done)
    && s.flights[f].Answered() && s.flights[f].Result() == Outcome(Some(entry), true)
  }

  ghost predicate CellOk(cfg: Config, s: State, k: string)
    requires k in s.cache
  {
    var cell := s.cache[k];
    cell.value.Encoded? ==>
      && k in s.origins && s.origins[k] < |s.flights| && s.flights[s.origins[k]].Key() == k
      && Produced(s, s.origins[k], s.flights[s.origins[k]].network, s.flights[s.origins[k]].token, cell.value.entry)
      && cell.expires <= s.flights[s.origins[k]].started + cfg.budget + cfg.ttl
  }

  ghost predicate HitsOk(cfg: Config, s: State, q: Request) {
    forall t :: t in q.hits ==>
      && t in q.tokens && t in q.origins && Produced(s, q.origins[t], q.network, t, q.hits[t])
      && q.began <= s.flights[q.origins[t]].started + cfg.budget + cfg.ttl
  }

  /** Worker `i` waits on, or waited on, a flight for its own network and token. */
  ghost predicate JoinedOwn(s: State, q: Request, i: nat)
    requires i < |q.workers| && i < |q.misses|
  {
    q.workers[i].Waiting? || q.workers[i].Returned? ==>
      && q.workers[i].flight < |s.flights|
      && s.flights[q.workers[i].flight].network == q.network
      && s.flights[q.workers[i].flight].token == q.misses[i]
  }

  /** A value found for miss `i` is the resolved outcome of the flight its worker joined. */
  ghost predicate ValueOk(s: State, q: Request, i: nat)
    requires i < |q.workers| && i < |q.misses|
  {
    q.misses[i] in q.result ==>
      && q.workers[i].Returned? && q.workers[i].flight < |s.flights|
      && s.flights[q.workers[i].flight].phase == Done && s.flights[q.workers[i].flight].Answered()
      && s.flights[q.workers[i].flight].Result() == Outcome(q.result[q.misses[i]], true)
  }

  /** A worker that is back saw its flight delivered, and kept what that flight resolved. */
  ghost predicate Settled(s: State, q: Request, i: nat)
    requires i < |q.workers| && i < |q.misses|
  {
    q.workers[i].Returned? ==>
      && q.workers[i].flight < |s.flights|
      && s.flights[q.workers[i].flight].phase == Done && s.flights[q.workers[i].flight].Answered()
      && (s.flights[q.workers[i].flight].Result().resolved ==> q.misses[i] in q.result)
  }

  ghost predicate ShapeOk(q: Request) {
    && |q.workers| == |q.misses| && q.tokens == Dedupe(q.asked) && Distinct(q.tokens) && Distinct(q.misses)
    && (forall t :: t in q.misses <==> t in q.tokens && t !in q.hits)
    && (forall t :: t in q.hits ==> t in q.result && q.result[t] == Some(q.hits[t]))
    && (forall t :: t in q.result ==> t in q.tokens)
  }

  ghost predicate RequestOk(cfg: Config, s: State, r: nat)
    requires r < |s.requests|
  {
    var q := s.requests[r];
    && ShapeOk(q) && HitsOk(cfg, s, q)
    && (forall i :: 0 <= i < |q.misses| ==> JoinedOwn(s, q, i) && ValueOk(s, q, i))
    && Active(q.workers) <= cfg.maxConcurrent
    && (Live(s, r) ==> forall i :: 0 <= i < |q.workers| ==> Settled(s, q, i))
    && (q.returned.Some? && q.returned.value.Prices? ==> q.returned.value.prices == Complete(q.tokens, q.result))
    && (q.returned.Some? && q.returned.value.ContextError? ==> q.cancelled)
  }

  ghost predicate Inv(cfg: Config, s: State) {
    && (forall f :: 0 <= f < |s.flights| ==> FlightOk(s, f))
    && GroupOk(s)
    && (forall k :: k in s.cache ==> CellOk(cfg, s, k))
    && (forall r :: 0 <= r < |s.requests| ==> RequestOk(cfg, s, r))
  }

  /*** Steps keep it ***/

  /** Flights are only added or advanced; what a landed one produced is final. */
  ghost predicate Grows(s: State, t: State) {
    && s.now <= t.now && |s.flights| <= |t.flights|
    && forall f :: 0 <= f < |s.flights| ==> Advances(s.flights[f], t.flights[f])
  }

  predicate Advances(x: Flight, y: Flight) {
    && x.network == y.network && x.token == y.token
    && (x.phase == Done ==> y.phase == Done)
    && (x.phase == Landed ==> y.phase == Landed || y.phase == Done)
    && (x.phase == Landed || x.phase == Done ==> x.asset == y.asset && x.candles == y.candles && x.started == y.started)
  }

  lemma RequestKept(cfg: Config, s: State, t: State, r: nat)
    requires r < |s.requests| && r < |t.requests| && s.requests[r] == t.requests[r]
    requires Grows(s, t) && RequestOk(cfg, s, r)
    ensures RequestOk(cfg, t, r)
  {
    var q := s.requests[r];
    forall i | 0 <= i < |q.misses| ensures JoinedOwn(t, q, i) && ValueOk(t, q, i) {
      assert JoinedOwn(s, q, i) && ValueOk(s, q, i);
    }
    if Live(t, r) {
      forall i | 0 <= i < |q.workers| ensures Settled(t, q, i) {
        assert Settled(s, q, i);
      }
    }
  }

  lemma CellKept(cfg: Config, s: State, t: State, k: string)
    requires k in s.cache && k in t.cache && s.cache[k] == t.cache[k]
    requires k in s.origins ==> k in t.origins && s.origins[k] == t.origins[k]
    requires Grows(s, t) && CellOk(cfg, s, k)
    ensures CellOk(cfg, t, k)
  {
  }

  lemma FlightsGrow(cfg: Config, s: State, a: Action)
    requires Inv(cfg, s) && Enabled(cfg, s, a)
    requires a.Begin? || a.AssetArrives? || a.CandlesArrive? || a.Deliver?
    ensures Grows(s, Next(cfg, s, a))
  {
    hide RequestOk, CellOk, GroupOk, AssetId.ToStellarExpert;
  }

  lemma GroupStaysOk(cfg: Config, s: State, a: Action)
    requires Inv(cfg, s) && Enabled(cfg, s, a)
    requires a.Begin? || a.AssetArrives? || a.CandlesArrive? || a.Deliver?
    ensures GroupOk(Next(cfg, s, a))
  {
    hide RequestOk, CellOk, FlightOk;
    if a.Deliver? {
      GroupAfterDelivery(s, a.f, s.flights[a.f].(phase := Done, ended := Some(s.now)));
    } else {
      hide AssetId.ToStellarExpert;
      GroupAfterProgress(s, Next(cfg, s, a), a.f);
    }
  }

  lemma GroupAfterDelivery(s: State, f: nat, x: Flight)
    requires GroupOk(s) && f < |s.flights| && s.flights[f].phase == Landed && x == s.flights[f].(phase := Done, ended := x.ended)
    ensures GroupOk(SetFlight(s, f, x).(group := s.group - {s.flights[f].Key()}))
  {
  }

  lemma GroupAfterProgress(s: State, t: State, f: nat)
    requires GroupOk(s) && f < |s.flights| && |t.flights| == |s.flights| && t.group == s.group
    requires s.flights[f].phase != Done && t.flights[f].phase != Done
    requires t.flights[f].network == s.flights[f].network && t.flights[f].token == s.flights[f].token
    requires forall g :: 0 <= g < |s.flights| && g != f ==> t.flights[g] == s.flights[g]
    ensures GroupOk(t)
  {
  }

  lemma FlightStaysOk(cfg: Config, s: State, a: Action, g: nat)
    requires Inv(cfg, s) && Enabled(cfg, s, a) && g < |s.flights|
    requires a.Begin? || a.AssetArrives? || a.CandlesArrive? || a.Deliver?
    ensures FlightOk(Next(cfg, s, a), g)
  {
    hide RequestOk, CellOk, GroupOk;
    assert FlightOk(s, a.f) && FlightOk(s, g);
  }

  lemma FlightsStayOk(cfg: Config, s: State, a: Action)
    requires Inv(cfg, s) && Enabled(cfg, s, a)
    requires a.Begin? || a.AssetArrives? || a.CandlesArrive? || a.Deliver?
    ensures var t := Next(cfg, s, a);
      && Grows(s, t) && GroupOk(t) && forall g :: 0 <= g < |t.flights| ==> FlightOk(t, g)
  {
    hide Inv, FlightOk, GroupOk;
    FlightsGrow(cfg, s, a);
    GroupStaysOk(cfg, s, a);
    var t := Next(cfg, s, a);
    forall g | 0 <= g < |t.flights| ensures FlightOk(t, g) {
      FlightStaysOk(cfg, s, a, g);
    }
  }

  lemma FlightStep(cfg: Config, s: State, a: Action)
    requires Inv(cfg, s) && Enabled(cfg, s, a)
    requires a.Begin? || a.AssetArrives? || a.CandlesArrive? || a.Deliver?
    ensures Inv(cfg, Next(cfg, s, a))
  {
    var t := Next(cfg, s, a);
    FlightsStayOk(cfg, s, a);
    forall k | k in t.cache ensures CellOk(cfg, t, k) {
      CellKept(cfg, s, t, k);
    }
    forall r | 0 <= r < |t.requests| ensures RequestOk(cfg, t, r) {
      RequestKept(cfg, s, t, r);
    }
  }

  lemma LandStep(cfg: Config, s: State, a: Action)
    requires Inv(cfg, s) && Enabled(cfg, s, a) && a.Land?
    ensures Inv(cfg, Next(cfg, s, a))
  {
    var mid := SetFlight(s, a.f, s.flights[a.f].(phase := Landed));
    LandedKeepsInv(cfg, s, a, mid);
    hide Inv;
    if Next(cfg, s, a) != mid {
      StoreKeepsInv(cfg, mid, Next(cfg, s, a), a.f);
    }
  }

  lemma LandedKeepsInv(cfg: Config, s: State, a: Action, mid: State)
    requires Inv(cfg, s) && Enabled(cfg, s, a) && a.Land?
    requires mid == SetFlight(s, a.f, s.flights[a.f].(phase := Landed))
    ensures Inv(cfg, mid)
  {
    assert FlightOk(s, a.f);
    forall g | 0 <= g < |mid.flights| ensures FlightOk(mid, g) {
      assert FlightOk(s, g);
    }
    assert Grows(s, mid);
    assert GroupOk(mid);
    forall k | k in mid.cache ensures CellOk(cfg, mid, k) {
      CellKept(cfg, s, mid, k);
    }
    forall r | 0 <= r < |mid.requests| ensures RequestOk(cfg, mid, r) {
      RequestKept(cfg, s, mid, r);
    }
  }

  /** Writing a landed flight's entry under its own key, while its budget lasts. */
  lemma StoreKeepsInv(cfg: Config, s: State, t: State, f: nat)
    requires Inv(cfg, s) && f < |s.flights| && s.flights[f].phase == Landed && s.flights[f].Answered()
    requires s.flights[f].Result().entry.Some? && s.now < s.flights[f].started + cfg.budget
    requires var x := s.flights[f];
      t == s.(cache := s.cache[x.Key() := Cell(Encoded(x.Result().entry.value), s.now + cfg.ttl)],
              origins := s.origins[x.Key() := f])
    ensures Inv(cfg, t)
  {
    forall g | 0 <= g < |t.flights| ensures FlightOk(t, g) {
      assert FlightOk(s, g);
    }
    forall k | k in t.cache ensures CellOk(cfg, t, k) {
      if k != s.flights[f].Key() {
        CellKept(cfg, s, t, k);
      }
    }
    forall r | 0 <= r < |t.requests| ensures RequestOk(cfg, t, r) {
      RequestKept(cfg, s, t, r);
    }
  }

  lemma EnvironmentStep(cfg: Config, s: State, a: Action)
    requires Inv(cfg, s) && Enabled(cfg, s, a)
    requires a.Tick? || a.Evict? || a.Corrupt?
    ensures Inv(cfg, Next(cfg, s, a))
  {
    var t := Next(cfg, s, a);
    forall f | 0 <= f < |t.flights| ensures FlightOk(t, f) {
      assert FlightOk(s, f);
    }
    forall k | k in t.cache ensures CellOk(cfg, t, k) {
      if t.cache[k] == s.cache[k] {
        CellKept(cfg, s, t, k);
      }
    }
    forall r | 0 <= r < |t.requests| ensures RequestOk(cfg, t, r) {
      RequestKept(cfg, s, t, r);
    }
  }

  function Busy(w: Worker): nat {
    if w.Spawned? || w.Waiting? then 1 else 0
  }

  lemma {:induction false} ActiveUpdate(workers: seq<Worker>, i: nat, w: Worker)
    requires i < |workers|
    ensures Active(workers[i := w]) == Active(workers) - Busy(workers[i]) + Busy(w)
  {
    var n := |workers| - 1;
    var front := workers[..n];
    if i == n {
      assert workers[i := w][..n] == front;
    } else {
      assert workers[i := w][..n] == front[i := w];
      ActiveUpdate(front, i, w);
    }
  }

  lemma {:induction false} ActivePending(workers: seq<Worker>)
    requires forall i :: 0 <= i < |workers| ==> workers[i] == Pending
    ensures Active(workers) == 0
  {
    if workers != [] {
      ActivePending(workers[..|workers| - 1]);
    }
  }

  /** The rest of the invariant when only request `r` changes. */
  lemma OneRequest(cfg: Config, s: State, t: State, r: nat)
    requires Inv(cfg, s) && r < |s.requests| && |t.requests| == |s.requests|
    requires t == s.(requests := t.requests) && t.requests == s.requests[r := t.requests[r]]
    requires RequestOk(cfg, t, r)
    ensures Inv(cfg, t)
  {
    forall f | 0 <= f < |t.flights| ensures FlightOk(t, f) {
      assert FlightOk(s, f);
    }
    forall k | k in t.cache ensures CellOk(cfg, t, k) {
      CellKept(cfg, s, t, k);
    }
    forall p | 0 <= p < |t.requests| ensures RequestOk(cfg, t, p) {
      if p != r {
        RequestKept(cfg, s, t, p);
      }
    }
  }

  lemma SpawnGiveUpStep(cfg: Config, s: State, a: Action)
    requires Inv(cfg, s) && Enabled(cfg, s, a) && (a.Spawn? || a.GiveUp?)
    ensures Inv(cfg, Next(cfg, s, a))
  {
    var t := Next(cfg, s, a);
    var q, p := s.requests[a.r], t.requests[a.r];
    assert RequestOk(cfg, s, a.r);
    ActiveUpdate(q.workers, a.i, p.workers[a.i]);
    forall i | 0 <= i < |p.misses| ensures JoinedOwn(t, p, i) && ValueOk(t, p, i) {
      assert JoinedOwn(s, q, i) && ValueOk(s, q, i);
    }
    if Live(t, a.r) {
      assert Live(s, a.r);
      forall i | 0 <= i < |p.workers| ensures Settled(t, p, i) {
        assert Settled(s, q, i);
      }
    }
    assert HitsOk(cfg, t, p);
    assert RequestOk(cfg, t, a.r);
    OneRequest(cfg, s, t, a.r);
  }

  lemma CancelFinishStep(cfg: Config, s: State, a: Action)
    requires Inv(cfg, s) && Enabled(cfg, s, a) && (a.Cancel? || a.Finish?)
    ensures Inv(cfg, Next(cfg, s, a))
  {
    var t := Next(cfg, s, a);
    var q, p := s.requests[a.r], t.requests[a.r];
    assert RequestOk(cfg, s, a.r);
    forall i | 0 <= i < |p.misses| ensures JoinedOwn(t, p, i) && ValueOk(t, p, i) {
      assert JoinedOwn(s, q, i) && ValueOk(s, q, i);
    }
    if Live(t, a.r) {
      assert Live(s, a.r);
      forall i | 0 <= i < |p.workers| ensures Settled(t, p, i) {
        assert Settled(s, q, i);
      }
    }
    assert HitsOk(cfg, t, p);
    OneRequest(cfg, s, t, a.r);
  }

  lemma ReceiveStep(cfg: Config, s: State, a: Action)
    requires Inv(cfg, s) && Enabled(cfg, s, a) && a.Receive?
    ensures Inv(cfg, Next(cfg, s, a))
  {
    var t := Next(cfg, s, a);
    var q, p := s.requests[a.r], t.requests[a.r];
    assert RequestOk(cfg, s, a.r);
    ActiveUpdate(q.workers, a.i, p.workers[a.i]);
    assert JoinedOwn(s, q, a.i) && ValueOk(s, q, a.i);
    assert q.misses[a.i] in q.misses;
    forall i | 0 <= i < |p.misses| ensures JoinedOwn(t, p, i) && ValueOk(t, p, i) {
      assert JoinedOwn(s, q, i) && ValueOk(s, q, i);
    }
    if Live(t, a.r) {
      assert Live(s, a.r);
      forall i | 0 <= i < |p.workers| ensures Settled(t, p, i) {
        assert Settled(s, q, i);
      }
    }
    assert HitsOk(cfg, t, p);
    OneRequest(cfg, s, t, a.r);
  }

  /** DoChan's first half when no call is in flight for the key. */
  lemma RegisterKeepsInv(cfg: Config, s: State, network: Network, token: string)
    requires Inv(cfg, s) && CacheKey(network, token) !in s.group
    ensures Inv(cfg, Registered(s, network, token))
  {
    var t := Registered(s, network, token);
    assert Grows(s, t);
    forall f | 0 <= f < |t.flights| ensures FlightOk(t, f) {
      if f < |s.flights| {
        assert FlightOk(s, f);
      }
    }
    assert GroupOk(t);
    forall k | k in t.cache ensures CellOk(cfg, t, k) {
      CellKept(cfg, s, t, k);
    }
    forall r | 0 <= r < |t.requests| ensures RequestOk(cfg, t, r) {
      RequestKept(cfg, s, t, r);
    }
  }

  function Registered(s: State, network: Network, token: string): State {
    s.(flights := s.flights + [Flight(network, token, s.now, Created, None, None, None)],
       group := s.group[CacheKey(network, token) := |s.flights|])
  }

  /** DoChan's second half: the worker waits on the unfinished flight for its own pair. */
  lemma WaitKeepsInv(cfg: Config, s: State, r: nat, i: nat, f: nat)
    requires Inv(cfg, s) && HasWorker(s, r, i) && s.requests[r].workers[i] == Spawned
    requires f < |s.flights| && s.flights[f].network == s.requests[r].network
    requires s.flights[f].token == s.requests[r].misses[i]
    ensures Inv(cfg, SetWorker(s, r, i, Waiting(f)))
  {
    var t := SetWorker(s, r, i, Waiting(f));
    var q, p := s.requests[r], t.requests[r];
    assert RequestOk(cfg, s, r);
    ActiveUpdate(q.workers, i, p.workers[i]);
    forall j | 0 <= j < |p.misses| ensures JoinedOwn(t, p, j) && ValueOk(t, p, j) {
      assert JoinedOwn(s, q, j) && ValueOk(s, q, j);
    }
    if Live(t, r) {
      assert Live(s, r);
      forall j | 0 <= j < |p.workers| ensures Settled(t, p, j) {
        assert Settled(s, q, j);
      }
    }
    assert HitsOk(cfg, t, p);
    OneRequest(cfg, s, t, r);
  }

  lemma JoinStep(cfg: Config, s: State, a: Action)
    requires Inv(cfg, s) && Enabled(cfg, s, a) && a.Join?
    ensures Inv(cfg, Next(cfg, s, a))
  {
    var network, token := s.requests[a.r].network, s.requests[a.r].misses[a.i];
    var key := CacheKey(network, token);
    if key in s.group {
      var x := s.flights[s.group[key]];
      CacheKeyInjective(x.network, x.token, network, token);
      WaitKeepsInv(cfg, s, a.r, a.i, s.group[key]);
    } else {
      RegisterKeepsInv(cfg, s, network, token);
      WaitKeepsInv(cfg, Registered(s, network, token), a.r, a.i, |s.flights|);
    }
  }

  lemma NewRequestHitsOk(cfg: Config, s: State, network: Network, tokens: seq<string>, cacheUp: bool)
    requires cfg.Valid() && Inv(cfg, s)
    ensures HitsOk(cfg, s, NewRequest(cfg, s, network, tokens, cacheUp))
  {
    var q := NewRequest(cfg, s, network, tokens, cacheUp);
    forall h | h in q.hits
      ensures h in q.tokens && h in q.origins && Produced(s, q.origins[h], q.network, h, q.hits[h])
      ensures q.began <= s.flights[q.origins[h]].started + cfg.budget + cfg.ttl
    {
      var k := CacheKey(network, h);
      assert CellOk(cfg, s, k);
      var x := s.flights[s.origins[k]];
      CacheKeyInjective(x.network, x.token, network, h);
    }
  }

  lemma {:induction false} CompleteAlready(tokens: seq<string>, result: map<string, Option<Entry>>)
    requires forall t :: t in tokens ==> t in result
    ensures Complete(tokens, result) == result
  {
    if tokens != [] {
      CompleteAlready(tokens[..|tokens| - 1], result);
    }
  }

  lemma NewRequestShapeOk(cfg: Config, s: State, network: Network, tokens: seq<string>, cacheUp: bool)
    ensures ShapeOk(NewRequest(cfg, s, network, tokens, cacheUp))
  {
    var q := NewRequest(cfg, s, network, tokens, cacheUp);
    DedupeDistinct(tokens);
    MissingDistinct(q.tokens, q.result);
  }

  lemma NewRequestShape(cfg: Config, s: State, network: Network, tokens: seq<string>, cacheUp: bool)
    ensures var q := NewRequest(cfg, s, network, tokens, cacheUp);
      && ShapeOk(q) && Active(q.workers) == 0
      && (forall i :: 0 <= i < |q.misses| ==> q.workers[i] == Pending && q.misses[i] !in q.result)
      && (q.returned.Some? ==> q.returned.value == Prices(Complete(q.tokens, q.result)))
  {
    var q := NewRequest(cfg, s, network, tokens, cacheUp);
    NewRequestShapeOk(cfg, s, network, tokens, cacheUp);
    ActivePending(q.workers);
    hide ShapeOk, Hits, HitOrigins, Dedupe, Complete;
    forall i | 0 <= i < |q.misses| ensures q.misses[i] !in q.result {
      assert q.misses[i] in q.misses;
    }
    if q.returned.Some? {
      assert forall h :: h in q.tokens ==> h in q.result || h in q.misses;
      CompleteAlready(q.tokens, q.result);
    }
  }

  lemma AppendKeepsInv(cfg: Config, s: State, q: Request)
    requires Inv(cfg, s) && RequestOk(cfg, s.(requests := s.requests + [q]), |s.requests|)
    ensures Inv(cfg, s.(requests := s.requests + [q]))
  {
    var t := s.(requests := s.requests + [q]);
    forall f | 0 <= f < |t.flights| ensures FlightOk(t, f) {
      assert FlightOk(s, f);
    }
    forall k | k in t.cache ensures CellOk(cfg, t, k) {
      CellKept(cfg, s, t, k);
    }
    forall p | 0 <= p < |t.requests| ensures RequestOk(cfg, t, p) {
      if p < |s.requests| {
        RequestKept(cfg, s, t, p);
      }
    }
  }

  lemma FreshRequestOk(cfg: Config, s: State, q: Request)
    requires cfg.Valid() && ShapeOk(q) && HitsOk(cfg, s, q) && Active(q.workers) == 0
    requires forall i :: 0 <= i < |q.misses| ==> q.workers[i] == Pending && q.misses[i] !in q.result
    requires q.returned.Some? ==> q.returned.value == Prices(Complete(q.tokens, q.result))
    ensures RequestOk(cfg, s.(requests := s.requests + [q]), |s.requests|)
  {
    var t := s.(requests := s.requests + [q]);
    assert HitsOk(cfg, t, q);
  }

  lemma StartStep(cfg: Config, s: State, a: Action)
    requires cfg.Valid() && Inv(cfg, s) && Enabled(cfg, s, a) && a.Start?
    ensures Inv(cfg, Next(cfg, s, a))
  {
    var q := NewRequest(cfg, s, a.network, a.tokens, a.cacheUp);
    NewRequestHitsOk(cfg, s, a.network, a.tokens, a.cacheUp);
    NewRequestShape(cfg, s, a.network, a.tokens, a.cacheUp);
    FreshRequestOk(cfg, s, q);
    hide Inv, NewRequest;
    AppendKeepsInv(cfg, s, q);
  }

  lemma StepKeepsInv(cfg: Config, s: State, a: Action)
    requires cfg.Valid() && Inv(cfg, s) && Enabled(cfg, s, a)
    ensures Inv(cfg, Next(cfg, s, a))
  {
    match a
    case Tick(_) => EnvironmentStep(cfg, s, a);
    case Evict(_) => EnvironmentStep(cfg, s, a);
    case Corrupt(_) => EnvironmentStep(cfg, s, a);
    case Start(_, _, _) => StartStep(cfg, s, a);
    case Spawn(_, _) => SpawnGiveUpStep(cfg, s, a);
    case Join(_, _) => JoinStep(cfg, s, a);
    case Receive(_, _) => ReceiveStep(cfg, s, a);
    case GiveUp(_, _) => SpawnGiveUpStep(cfg, s, a);
    case Cancel(_) => CancelFinishStep(cfg, s, a);
    case Finish(_) => CancelFinishStep(cfg, s, a);
    case Begin(_) => FlightStep(cfg, s, a);
    case AssetArrives(_, _) => FlightStep(cfg, s, a);
    case CandlesArrive(_, _) => FlightStep(cfg, s, a);
    case Land(_, _) => LandStep(cfg, s, a);
    case Deliver(_) => FlightStep(cfg, s, a);
  }

  lemma {:induction false} RunKeepsInv(cfg: Config, s: State, actions: seq<Action>)
    requires cfg.Valid() && Inv(cfg, s) && Run(cfg, s, actions).Some?
    ensures Inv(cfg, Run(cfg, s, actions).value)
    decreases |actions|
  {
    if actions != [] {
      StepKeepsInv(cfg, s, actions[0]);
      RunKeepsInv(cfg, Next(cfg, s, actions[0]), actions[1..]);
    }
  }

  lemma ReachableInv(cfg: Config, s: State)
    requires cfg.Valid() && Reachable(cfg, s)
    ensures Inv(cfg, s)
  {
    var actions :| Run(cfg, INIT, actions) == Some(s);
    RunKeepsInv(cfg, INIT, actions);
  }
}
