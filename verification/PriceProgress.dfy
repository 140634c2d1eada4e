/**
 * Nothing in the orchestrator waits for the clock: from every reachable state, whatever upstream will answer,
 * a request can be brought to its return by steps of its own and of the fetches it waits for.
 */
module PriceProgress {
  import AssetId
  import opened PriceCache
  import opened PriceOrchestrator
  import opened PriceSafety
  import opened PriceTheorems
  import opened Slices
  import opened Text

  /** What upstream and the store will do. */
  datatype World = World(asset: AssetReply, candles: CandlesReply, stored: bool)

  function FlightLeft(x: Flight): nat {
    match x.phase
    case Created => 5
    case Fetching => 2 + (if x.asset.None? then 1 else 0) + (if x.candles.None? then 1 else 0)
    case Landed => 1
    case Done => 0
  }

  /** The next step of an unfinished fetch. */
  function UpstreamStep(s: State, f: nat, w: World): Action
    requires f < |s.flights|
  {
    var x := s.flights[f];
    match x.phase
    case Created => Begin(f)
    case Fetching =>
      if x.asset.None? then AssetArrives(f, w.asset)
      else if x.candles.None? then CandlesArrive(f, w.candles)
      else Land(f, w.stored)
    case Landed => Deliver(f)
    case Done => Deliver(f)
  }

  /** A fetch is never blocked, and takes at most five steps. */
  lemma FlightAdvances(cfg: Config, s: State, f: nat, w: World)
    requires f < |s.flights| && s.flights[f].phase != Done
    ensures Enabled(cfg, s, UpstreamStep(s, f, w))
    ensures var t := Next(cfg, s, UpstreamStep(s, f, w));
      && t.requests == s.requests && t.now == s.now && |t.flights| == |s.flights|
      && FlightLeft(t.flights[f]) < FlightLeft(s.flights[f])
  {
    hide CacheKey, Combine, AssetId.ToStellarExpert;
    var a := UpstreamStep(s, f, w);
    var x, y := s.flights[f], Next(cfg, s, a).flights[f];
    match a {
      case Begin(_) => assert y == x.(phase := Fetching, started := s.now);
      case AssetArrives(_, reply) => assert y == x.(asset := Some(Timed(reply, s.now)));
      case CandlesArrive(_, reply) => assert y == x.(candles := Some(Timed(reply, s.now)));
      case Land(_, _) => assert y == x.(phase := Landed);
      case Deliver(_) => assert y.phase == Done;
    }
    hide Next, Enabled;
  }

  /** Steps that let no time pass, lose nothing of the cache, cancel nobody, and start no other request. */
  predicate Working(a: Action) {
    !a.Tick? && !a.Evict? && !a.Corrupt? && !a.Start? && !a.Cancel?
  }

  predicate AllWorking(actions: seq<Action>) {
    forall k :: 0 <= k < |actions| ==> Working(actions[k])
  }

  /** The fetch that stands between a request and its next own step. */
  function AwaitedLeft(s: State, q: Request): nat {
    if Active(q.workers) == 0 then 0
    else
      var worker := q.workers[BusyWorker(q.workers)];
      if worker.Waiting? && worker.flight < |s.flights| then FlightLeft(s.flights[worker.flight]) else 0
  }

  /** One step: of the request itself, or of the fetch that its busy worker waits for. */
  lemma StepTowards(cfg: Config, s: State, r: nat, w: World) returns (a: Action)
    requires cfg.Valid() && Inv(cfg, s) && r < |s.requests| && s.requests[r].returned.None?
    ensures Enabled(cfg, s, a) && Working(a) && (Actor(a) == Some(r) || Actor(a) == None)
    ensures Actor(a) == None ==>
      && Next(cfg, s, a).requests == s.requests
      && AwaitedLeft(Next(cfg, s, a), s.requests[r]) < AwaitedLeft(s, s.requests[r])
  {
    var q := s.requests[r];
    assert RequestOk(cfg, s, r);
    if Active(q.workers) > 0 {
      var i := BusyWorker(q.workers);
      if q.workers[i].Spawned? {
        a := Join(r, i);
      } else {
        a := WaiterStep(cfg, s, r, i, w);
      }
    } else if n :| 0 <= n < |q.workers| && q.workers[n] == Pending {
      a := Spawn(r, FirstPending(q.workers, n));
    } else {
      a := Finish(r);
      forall i | 0 <= i < |q.workers| ensures q.workers[i].Returned? {
        IdleMeans(q.workers, i);
      }
    }
  }

  lemma WaiterStep(cfg: Config, s: State, r: nat, i: nat, w: World) returns (a: Action)
    requires Inv(cfg, s) && r < |s.requests| && s.requests[r].returned.None? && Active(s.requests[r].workers) > 0
    requires i == BusyWorker(s.requests[r].workers) && s.requests[r].workers[i].Waiting?
    ensures Enabled(cfg, s, a) && Working(a) && (Actor(a) == Some(r) || Actor(a) == None)
    ensures Actor(a) == None ==>
      && Next(cfg, s, a).requests == s.requests
      && AwaitedLeft(Next(cfg, s, a), s.requests[r]) < AwaitedLeft(s, s.requests[r])
  {
    var q := s.requests[r];
    assert RequestOk(cfg, s, r) && JoinedOwn(s, q, i);
    var f := q.workers[i].flight;
    assert FlightOk(s, f);
    if s.flights[f].phase == Done {
      a := Receive(r, i);
    } else {
      a := UpstreamStep(s, f, w);
      FlightAdvances(cfg, s, f, w);
    }
    hide Inv, RequestOk, FlightOk, Next, Active, BusyWorker;
  }

  /** The return carries prices, unless the caller is gone. */
  lemma FinishReturns(cfg: Config, s: State, r: nat)
    requires Enabled(cfg, s, Finish(r))
    ensures var q, p := s.requests[r], Next(cfg, s, Finish(r)).requests[r];
      && p.returned.Some? && (p.returned.value.Prices? <==> !q.cancelled)
      && (p.returned.value.Prices? ==> p.returned.value.prices == Complete(q.tokens, q.result))
  {
  }

  lemma OwnStepKeepsCaller(cfg: Config, s: State, a: Action, r: nat)
    requires r < |s.requests| && s.requests[r].returned.None? && Enabled(cfg, s, a) && Actor(a) == Some(r) && Working(a)
    ensures r < |Next(cfg, s, a).requests| && Next(cfg, s, a).requests[r].cancelled == s.requests[r].cancelled
    ensures Next(cfg, s, a).requests[r].returned.Some? <==> a.Finish?
    ensures a.Finish? ==> (Next(cfg, s, a).requests[r].returned.value.Prices? <==> !s.requests[r].cancelled)
  {
    hide CacheKey, Combine, Complete, Active, AssetId.ToStellarExpert;
  }

  /** The request has returned, with prices unless its caller is gone. */
  predicate HasReturned(s: State, r: nat) {
    && r < |s.requests| && s.requests[r].returned.Some?
    && (s.requests[r].returned.value.Prices? <==> !s.requests[r].cancelled)
  }

  lemma {:induction false} EveryRequestCanReturn(cfg: Config, s: State, r: nat, w: World) returns (run: seq<Action>)
    requires cfg.Valid() && Inv(cfg, s) && r < |s.requests| && s.requests[r].returned.None?
    ensures AllWorking(run) && Run(cfg, s, run).Some? && HasReturned(Run(cfg, s, run).value, r)
    decreases RequestLeft(s.requests[r]), AwaitedLeft(s, s.requests[r])
  {
    var a := StepTowards(cfg, s, r, w);
    StepKeepsInv(cfg, s, a);
    var rest: seq<Action> := [];
    var t := Next(cfg, s, a);
    if Actor(a) == Some(r) {
      OwnStepKeepsCaller(cfg, s, a, r);
      OwnStepsShorten(cfg, s, a, r);
    }
    hide Inv, Next, Enabled, Actor, RequestLeft, AwaitedLeft;
    if !a.Finish? {
      rest := EveryRequestCanReturn(cfg, t, r, w);
    }
    run := [a] + rest;
    assert run[1..] == rest;
  }

  /** From every reachable state every request can return, without any time passing. */
  lemma ReachableRequestCanReturn(cfg: Config, s: State, r: nat, w: World)
    requires cfg.Valid() && Reachable(cfg, s) && r < |s.requests| && s.requests[r].returned.None?
    ensures exists run :: AllWorking(run) && Run(cfg, s, run).Some? && HasReturned(Run(cfg, s, run).value, r)
  {
    ReachableInv(cfg, s);
    var run := EveryRequestCanReturn(cfg, s, r, w);
  }
}
