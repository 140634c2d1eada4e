/**
 * internal/services/prices.go as an interleaving of atomic steps: requests with their bounded worker
 * group, upstream fetches shared through singleflight, the cache, and one clock.
 */
module PriceOrchestrator {
  import opened Text
  import opened Slices
  import opened PriceCache
  import AssetId

  datatype Config = Config(ttl: int, budget: int, maxConcurrent: int) {
    predicate Valid() {
      ttl > 0 && budget > 0 && maxConcurrent > 0
    }
  }

  const SECOND := 1_000_000_000

  /** NewPricesService: values that are not positive fall back to the defaults. */
  function NewConfig(ttl: int, budget: int, maxConcurrent: int): (cfg: Config)
    ensures cfg.Valid()
    ensures cfg.ttl == ttl || (ttl <= 0 && cfg.ttl == 30_000_000_000)
    ensures cfg.budget == budget || (budget <= 0 && cfg.budget == 9_000_000_000)
    ensures cfg.maxConcurrent == maxConcurrent || (maxConcurrent <= 0 && cfg.maxConcurrent == 25)
  {
    Config(if ttl <= 0 then 30 * SECOND else ttl,
           if budget <= 0 then 9 * SECOND else budget,
           if maxConcurrent <= 0 then 25 else maxConcurrent)
  }

  /*** Upstream replies and the outcome of one fetch ***/

  datatype AssetReply = AssetNotFound | AssetMalformed | AssetFailed | AssetZero | AssetPrice(price: string)
  datatype CandlesReply = CandlesFailed | Candles(change24h: Option<string>)
  datatype Timed<T> = Timed(reply: T, at: int)

  datatype Outcome = Outcome(entry: Option<Entry>, resolved: bool)

  /** fetchFromUpstream once both calls are back. */
  function Combine(asset: AssetReply, candles: CandlesReply): Outcome {
    match asset
    case AssetNotFound => Outcome(None, true)
    case AssetMalformed => Outcome(None, true)
    case AssetFailed => Outcome(None, false)
    case AssetZero => Outcome(None, true)
    case AssetPrice(price) =>
      Outcome(Some(Entry(price, if candles.Candles? then candles.change24h else None)), true)
  }

  /** A fact upstream stated: which network, which Stellar Expert id, what, and when. */
  datatype Report =
    | PriceReport(network: Network, id: string, price: string, at: int)
    | ChangeReport(network: Network, id: string, change24h: string, at: int)

  /*** State ***/

  /** Created: DoChan registered it; Fetching: its own budget runs; Landed: cache written; Done: delivered. */
  datatype Phase = Created | Fetching | Landed | Done

  /** `ended`, when the outcome was delivered, is history. */
  datatype Flight = Flight(network: Network, token: string, started: int, phase: Phase,
                           asset: Option<Timed<AssetReply>>, candles: Option<Timed<CandlesReply>>, ended: Option<int>)
  {
    function Key(): string {
      CacheKey(network, token)
    }

    predicate Answered() {
      asset.Some? && candles.Some?
    }

    function Result(): Outcome
      requires Answered()
    {
      Combine(asset.value.reply, candles.value.reply)
    }
  }

  datatype Worker = Pending | Spawned | Waiting(flight: nat) | Returned(flight: nat)

  datatype Return = Prices(prices: map<string, Option<Entry>>) | ContextError(partial: map<string, Option<Entry>>)

  /** `asked` is the caller's list; `origins` remembers which fetch stored each hit; no step reads it. */
  datatype Request = Request(network: Network, asked: seq<string>, tokens: seq<string>,
                             hits: map<string, Entry>, origins: map<string, nat>,
                             misses: seq<string>, workers: seq<Worker>, result: map<string, Option<Entry>>,
                             began: int, deadline: int, cancelled: bool, returned: Option<Return>)

  /** `origins` and `reports` are history: no step reads them. */
  datatype State = State(now: int, cache: map<string, Cell>, origins: map<string, nat>, flights: seq<Flight>,
                         group: map<string, nat>, requests: seq<Request>, reports: set<Report>)

  const INIT := State(0, map[], map[], [], map[], [], {})

  /*** Steps ***/

  datatype Action =
    | Tick(elapsed: nat)
    | Evict(key: string)
    | Corrupt(key: string)
    | Start(network: Network, tokens: seq<string>, cacheUp: bool)
    | Spawn(r: nat, i: nat)
    | Join(r: nat, i: nat)
    | Receive(r: nat, i: nat)
    | GiveUp(r: nat, i: nat)
    | Cancel(r: nat)
    | Finish(r: nat)
    | Begin(f: nat)
    | AssetArrives(f: nat, asset: AssetReply)
    | CandlesArrive(f: nat, candles: CandlesReply)
    | Land(f: nat, stored: bool)
    | Deliver(f: nat)

  function Active(workers: seq<Worker>): nat {
    if workers == [] then 0
    else Active(workers[..|workers| - 1]) +
         (if workers[|workers| - 1].Spawned? || workers[|workers| - 1].Waiting? then 1 else 0)
  }

  /** fetchCtx (and the errgroup context below it) is not done. */
  predicate Live(s: State, r: nat)
    requires r < |s.requests|
  {
    !s.requests[r].cancelled && s.now < s.requests[r].deadline
  }

  /** Request `r` is running and has a worker number `i`. */
  predicate HasWorker(s: State, r: nat, i: nat) {
    && r < |s.requests| && i < |s.requests[r].workers| && i < |s.requests[r].misses|
    && s.requests[r].returned.None?
  }

  predicate Enabled(cfg: Config, s: State, a: Action) {
    match a
    case Tick(_) => true
    case Evict(_) => true
    case Corrupt(_) => true
    case Start(_, _, _) => true
    case Spawn(r, i) =>
      && HasWorker(s, r, i) && s.requests[r].workers[i] == Pending
      && Active(s.requests[r].workers) < cfg.maxConcurrent
      && forall j :: 0 <= j < i ==> s.requests[r].workers[j] != Pending
    case Join(r, i) => HasWorker(s, r, i) && s.requests[r].workers[i] == Spawned
    case Receive(r, i) =>
      && HasWorker(s, r, i) && s.requests[r].workers[i].Waiting?
      && s.requests[r].workers[i].flight < |s.flights|
      && s.flights[s.requests[r].workers[i].flight].phase == Done
      && s.flights[s.requests[r].workers[i].flight].Answered()
    case GiveUp(r, i) => HasWorker(s, r, i) && s.requests[r].workers[i].Waiting? && !Live(s, r)
    case Cancel(r) => r < |s.requests|
    case Finish(r) =>
      && r < |s.requests| && s.requests[r].returned.None?
      && forall i :: 0 <= i < |s.requests[r].workers| ==> s.requests[r].workers[i].Returned?
    case Begin(f) => f < |s.flights| && s.flights[f].phase == Created
    case AssetArrives(f, _) => f < |s.flights| && s.flights[f].phase == Fetching && s.flights[f].asset.None?
    case CandlesArrive(f, _) => f < |s.flights| && s.flights[f].phase == Fetching && s.flights[f].candles.None?
    case Land(f, _) => f < |s.flights| && s.flights[f].phase == Fetching && s.flights[f].Answered()
    case Deliver(f) => f < |s.flights| && s.flights[f].phase == Landed
  }

  function SetRequest(s: State, r: nat, q: Request): State
    requires r < |s.requests|
  {
    s.(requests := s.requests[r := q])
  }

  function SetWorker(s: State, r: nat, i: nat, w: Worker): State
    requires r < |s.requests| && i < |s.requests[r].workers|
  {
    SetRequest(s, r, s.requests[r].(workers := s.requests[r].workers[i := w]))
  }

  function SetFlight(s: State, f: nat, flight: Flight): State
    requires f < |s.flights|
  {
    s.(flights := s.flights[f := flight])
  }

  /** The fetch that stored each hit. */
  function HitOrigins(origins: map<string, nat>, network: Network, tokens: seq<string>, hits: map<string, Entry>):
      (o: map<string, nat>)
    ensures forall t :: t in o <==> t in tokens && t in hits && CacheKey(network, t) in origins
    ensures forall t :: t in o ==> o[t] == origins[CacheKey(network, t)]
  {
    if tokens == [] then map[]
    else
      var front, last := tokens[..|tokens| - 1], tokens[|tokens| - 1];
      assert tokens == front + [last];
      var o := HitOrigins(origins, network, front, hits);
      var k := CacheKey(network, last);
      if last in hits && k in origins then o[last := origins[k]] else o
  }

  /** GetPrices up to the start of the worker group: dedupe, one cache read, the misses. */
  function NewRequest(cfg: Config, s: State, network: Network, tokens: seq<string>, cacheUp: bool): Request {
    var canonical := Dedupe(tokens);
    var hits := if cacheUp then Hits(s.cache, s.now, network, canonical) else map[];
    var result := Lifted(canonical, hits);
    var misses := Missing(canonical, result);
    Request(network, tokens, canonical, hits, HitOrigins(s.origins, network, canonical, hits), misses, seq(|misses|, _ => Pending), result,
            s.now, s.now + cfg.budget, false, if misses == [] then Some(Prices(result)) else None)
  }

  /** singleflight.Group.DoChan: join the call in flight for the key, or register a new one. */
  function DoChan(s: State, r: nat, i: nat): State
    requires r < |s.requests| && i < |s.requests[r].workers| && i < |s.requests[r].misses|
  {
    var q := s.requests[r];
    var key := CacheKey(q.network, q.misses[i]);
    if key in s.group then SetWorker(s, r, i, Waiting(s.group[key]))
    else
      var f := |s.flights|;
      var flight := Flight(q.network, q.misses[i], s.now, Created, None, None, None);
      SetWorker(s.(flights := s.flights + [flight], group := s.group[key := f]), r, i, Waiting(f))
  }

  /** fetchFromUpstream's end: a positive result is written while the fetch's own context lives. */
  function LandFlight(cfg: Config, s: State, f: nat, stored: bool): State
    requires f < |s.flights| && s.flights[f].Answered()
  {
    var flight := s.flights[f];
    var out := flight.Result();
    var landed := SetFlight(s, f, flight.(phase := Landed));
    if out.entry.Some? && stored && s.now < flight.started + cfg.budget then
      landed.(cache := s.cache[flight.Key() := Cell(Encoded(out.entry.value), s.now + cfg.ttl)],
              origins := s.origins[flight.Key() := f])
    else landed
  }

  function Next(cfg: Config, s: State, a: Action): State
    requires Enabled(cfg, s, a)
  {
    match a
    case Tick(elapsed) => s.(now := s.now + elapsed)
    case Evict(key) => s.(cache := s.cache - {key})
    case Corrupt(key) => if key in s.cache then s.(cache := s.cache[key := s.cache[key].(value := Undecodable)]) else s
    case Start(network, tokens, cacheUp) =>
      s.(requests := s.requests + [NewRequest(cfg, s, network, tokens, cacheUp)])
    case Spawn(r, i) => SetWorker(s, r, i, Spawned)
    case Join(r, i) => DoChan(s, r, i)
    case Receive(r, i) =>
      var q := s.requests[r];
      var f := q.workers[i].flight;
      var out := s.flights[f].Result();
      SetRequest(s, r, q.(workers := q.workers[i := Returned(f)],
                          result := if out.resolved then q.result[q.misses[i] := out.entry] else q.result))
    case GiveUp(r, i) => SetWorker(s, r, i, Returned(s.requests[r].workers[i].flight))
    case Cancel(r) => SetRequest(s, r, s.requests[r].(cancelled := true))
    case Finish(r) =>
      var q := s.requests[r];
      SetRequest(s, r, q.(returned := Some(if q.cancelled then ContextError(q.result)
                                           else Prices(Complete(q.tokens, q.result)))))
    case Begin(f) => SetFlight(s, f, s.flights[f].(phase := Fetching, started := s.now))
    case AssetArrives(f, reply) =>
      var flight := s.flights[f];
      var id := AssetId.ToStellarExpert(flight.token);
      SetFlight(s, f, flight.(asset := Some(Timed(reply, s.now))))
      .(reports := s.reports + if reply.AssetPrice? then {PriceReport(flight.network, id, reply.price, s.now)} else {})
    case CandlesArrive(f, reply) =>
      var flight := s.flights[f];
      var id := AssetId.ToStellarExpert(flight.token);
      SetFlight(s, f, flight.(candles := Some(Timed(reply, s.now))))
      .(reports := s.reports + if reply.Candles? && reply.change24h.Some?
                               then {ChangeReport(flight.network, id, reply.change24h.value, s.now)} else {})
    case Land(f, stored) => LandFlight(cfg, s, f, stored)
    case Deliver(f) => SetFlight(s, f, s.flights[f].(phase := Done, ended := Some(s.now))).(group := s.group - {s.flights[f].Key()})
  }

  /** The state after a sequence of steps, or None when some step is not enabled. */
  function Run(cfg: Config, s: State, actions: seq<Action>): Option<State>
    decreases |actions|
  {
    if actions == [] then Some(s)
    else if Enabled(cfg, s, actions[0]) then Run(cfg, Next(cfg, s, actions[0]), actions[1..])
    else None
  }

  ghost predicate Reachable(cfg: Config, s: State) {
    exists actions :: Run(cfg, INIT, actions) == Some(s)
  }
}
