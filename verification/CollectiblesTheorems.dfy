/** The promises of the collectibles endpoint: its pools never deadlock, and nothing is lost or mixed up. */
module CollectiblesTheorems {
  import opened Text
  import opened Collectibles
  import opened CollectiblesSafety
  import opened CollectiblesSteps

  /** The running tasks of one pool. */
  function Occupying(s: State, p: Pool): set<nat> {
    set i: nat | i < |s| && s[i].status == Running && PoolOf(s[i].kind) == Some(p)
  }

  lemma {:induction false} RunningAreOccupying(s: State, p: Pool)
    ensures RunningIn(s, p) == |Occupying(s, p)|
  {
    if s != [] {
      var n := |s| - 1;
      RunningAreOccupying(s[..n], p);
      var before := Occupying(s[..n], p);
      if s[n].status == Running && PoolOf(s[n].kind) == Some(p) {
        assert Occupying(s, p) == before + {n};
      } else {
        assert Occupying(s, p) == before;
      }
    }
  }

  /** No pool ever runs more tasks than it was built for: n contracts, 2n tokens and 4n calls, over all requests. */
  lemma PoolsBounded(env: Env, s: State)
    requires Reachable(env, s)
    ensures var n := env.maxConcurrentRPCCalls;
      && |set i: nat | i < |s| && s[i].status == Running && s[i].kind.CollectionTask? && s[i].kind.pooled| <= n
      && |set i: nat | i < |s| && s[i].status == Running && s[i].kind.TokenTask?| <= 2 * n
      && |set i: nat | i < |s| && s[i].status == Running && s[i].kind.RpcCall?| <= 4 * n
  {
    ReachableInv(env, s);
    RunningAreOccupying(s, ContractPool);
    RunningAreOccupying(s, TokenPool);
    RunningAreOccupying(s, RpcPool);
    assert RunningIn(s, ContractPool) <= env.Capacity(ContractPool);
    assert RunningIn(s, TokenPool) <= env.Capacity(TokenPool);
    assert RunningIn(s, RpcPool) <= env.Capacity(RpcPool);
    hide Inv, RunningIn;
    assert Occupying(s, ContractPool) ==
           set i: nat | i < |s| && s[i].status == Running && s[i].kind.CollectionTask? && s[i].kind.pooled;
    assert Occupying(s, TokenPool) == set i: nat | i < |s| && s[i].status == Running && s[i].kind.TokenTask?;
    assert Occupying(s, RpcPool) == set i: nat | i < |s| && s[i].status == Running && s[i].kind.RpcCall?;
  }

  /** And a task that waits for its pool can start exactly while fewer than that many run there. */
  lemma PoolsFillUp(env: Env, s: State, i: nat)
    requires i < |s| && s[i].status == Queued
    ensures Enabled(env, s, Take(i)) <==>
      match s[i].kind
      case RpcCall => |Occupying(s, RpcPool)| < 4 * env.maxConcurrentRPCCalls
      case TokenTask(_, _) => |Occupying(s, TokenPool)| < 2 * env.maxConcurrentRPCCalls
      case CollectionTask(pooled, _) => pooled && |Occupying(s, ContractPool)| < env.maxConcurrentRPCCalls
      case RequestTask(_) => false
  {
    RunningAreOccupying(s, ContractPool);
    RunningAreOccupying(s, TokenPool);
    RunningAreOccupying(s, RpcPool);
  }

  /*** Progress ***/

  ghost predicate LowerDone(s: State, l: nat) {
    forall j :: 0 <= j < |s| && Level(s[j].kind) < l ==> s[j].status == Done
  }

  /** A running task whose lower levels have drained waits for nobody. */
  lemma RunningCanStep(env: Env, s: State, i: nat) returns (a: Action)
    requires Inv(env, s) && i < |s| && s[i].status == Running && LowerDone(s, Level(s[i].kind))
    ensures !a.Arrive? && Enabled(env, s, a)
  {
    assert NodeOk(env, s, i);
    var x := s[i];
    forall j | x.first <= j < x.first + x.count ensures s[j].status == Done {
      assert ChildOk(env, s, i, j);
    }
    match x.kind
    case RpcCall => a := CallReturns(i, true);
    case TokenTask(_, _) => a := if x.stage == Fresh then ParseToken(i) else JoinCalls(i);
    case CollectionTask(_, _) =>
      CollectionSlot(env, s, i);
      a := match x.stage
        case OwnerTokens => OwnerAnswers(i, None)
        case Fresh => CheckContract(i)
        case Details => ReadDetails(i)
        case _ => Gather(i);
    case RequestTask(_) => a := if x.stage == Users then StartMeridian(i) else Respond(i);
  }

  lemma {:induction false} SomeoneRuns(s: State, p: Pool) returns (i: nat)
    requires RunningIn(s, p) > 0
    ensures i < |s| && s[i].status == Running && PoolOf(s[i].kind) == Some(p)
  {
    var n := |s| - 1;
    if s[n].status == Running && PoolOf(s[n].kind) == Some(p) {
      i := n;
    } else {
      i := SomeoneRuns(s[..n], p);
    }
  }

  /** At the lowest unfinished level somebody can act: run a task, or take one from a queue. */
  lemma LowestCanStep(env: Env, s: State, i: nat) returns (a: Action)
    requires env.Valid() && Inv(env, s) && i < |s| && s[i].status != Done && LowerDone(s, Level(s[i].kind))
    ensures !a.Arrive? && Enabled(env, s, a)
  {
    assert NodeOk(env, s, i);
    if s[i].status == Running {
      a := RunningCanStep(env, s, i);
    } else {
      var p := PoolOf(s[i].kind).value;
      if RunningIn(s, p) == 0 {
        a := Take(i);
      } else {
        var k := SomeoneRuns(s, p);
        assert Level(s[k].kind) == Level(s[i].kind);
        a := RunningCanStep(env, s, k);
      }
    }
  }

  lemma {:induction false} CanStepFrom(env: Env, s: State, l: nat) returns (a: Action)
    requires env.Valid() && Inv(env, s) && LowerDone(s, l) && l <= 4
    requires exists j :: 0 <= j < |s| && s[j].status != Done
    ensures !a.Arrive? && Enabled(env, s, a)
    decreases 4 - l
  {
    if i :| 0 <= i < |s| && s[i].status != Done && Level(s[i].kind) == l {
      a := LowestCanStep(env, s, i);
    } else {
      a := CanStepFrom(env, s, l + 1);
    }
  }

  /**
   * The nested pools never deadlock: with any positive pool size, any number of requests, contracts and
   * tokens, and any schedule, as long as a task is unfinished some task can take a step.
   */
  lemma NeverStuck(env: Env, s: State) returns (a: Action)
    requires env.Valid() && Reachable(env, s)
    requires exists j :: 0 <= j < |s| && s[j].status != Done
    ensures !a.Arrive? && Enabled(env, s, a)
  {
    ReachableInv(env, s);
    a := CanStepFrom(env, s, 0);
  }

  /*** Termination ***/

  /** Tasks that may still learn how many tokens they have to fetch. */
  function Unknowns(env: Env, x: Node): nat {
    if x.status == Done then 0
    else if x.kind.RequestTask? && x.stage == Users then |env.MeridianContracts()|
    else if x.kind.CollectionTask? && x.stage == OwnerTokens then 1
    else 0
  }

  /** An upper bound on the steps a task and its future children still take, tokens known. */
  function Weight(env: Env, x: Node): nat {
    if x.status == Done then 0
    else
      match x.kind
      case RpcCall => if x.status == Queued then 2 else 1
      case TokenTask(_, _) => if x.status == Queued then 8 else if x.stage == Fresh then 7 else 1
      case CollectionTask(_, d) =>
        if x.status == Queued then 8 * |d.tokens| + 8
        else (match x.stage
              case OwnerTokens => 1
              case Fresh => 8 * |d.tokens| + 7
              case Details => 8 * |d.tokens| + 2
              case _ => 1)
      case RequestTask(_) => if x.stage == Users then |env.MeridianContracts()| + 2 else 1
  }

  function Sum(s: seq<Node>, f: Node -> nat): nat {
    if s == [] then 0 else Sum(s[..|s| - 1], f) + f(s[|s| - 1])
  }

  lemma {:induction false} SumUpdate(s: seq<Node>, i: nat, x: Node, f: Node -> nat)
    requires i < |s|
    ensures Sum(s[i := x], f) == Sum(s, f) - f(s[i]) + f(x)
  {
    var n := |s| - 1;
    if i == n {
      assert s[i := x][..n] == s[..n];
    } else {
      assert s[i := x][..n] == s[..n][i := x];
      SumUpdate(s[..n], i, x, f);
    }
  }

  lemma OneMore(c: nat, n: nat)
    ensures c * (n + 1) == c * n + c
  {
  }

  lemma {:induction false} SumAppendConstant(s: seq<Node>, kids: seq<Node>, f: Node -> nat, c: nat)
    requires forall k :: 0 <= k < |kids| ==> f(kids[k]) == c
    ensures Sum(s + kids, f) == Sum(s, f) + c * |kids|
  {
    if kids == [] {
      assert s + kids == s;
    } else {
      var n := |kids| - 1;
      assert (s + kids)[..|s| + n] == s + kids[..n];
      SumAppendConstant(s, kids[..n], f, c);
      OneMore(c, n);
    }
  }

  function TotalUnknowns(env: Env, s: State): nat {
    Sum(s, x => Unknowns(env, x))
  }

  function TotalWeight(env: Env, s: State): nat {
    Sum(s, x => Weight(env, x))
  }

  /** The measure goes down lexicographically. */
  predicate Smaller(env: Env, t: State, s: State) {
    || TotalUnknowns(env, t) < TotalUnknowns(env, s)
    || (TotalUnknowns(env, t) == TotalUnknowns(env, s) && TotalWeight(env, t) < TotalWeight(env, s))
  }

  lemma ReplaceMeasure(env: Env, s: State, i: nat, x: Node)
    requires i < |s|
    ensures TotalUnknowns(env, s[i := x]) == TotalUnknowns(env, s) - Unknowns(env, s[i]) + Unknowns(env, x)
    ensures TotalWeight(env, s[i := x]) == TotalWeight(env, s) - Weight(env, s[i]) + Weight(env, x)
  {
    SumUpdate(s, i, x, x => Unknowns(env, x));
    SumUpdate(s, i, x, x => Weight(env, x));
  }

  lemma AppendMeasure(env: Env, s: State, kids: seq<Node>, u: nat, w: nat)
    requires forall k :: 0 <= k < |kids| ==> Unknowns(env, kids[k]) == u && Weight(env, kids[k]) == w
    ensures TotalUnknowns(env, s + kids) == TotalUnknowns(env, s) + u * |kids|
    ensures TotalWeight(env, s + kids) == TotalWeight(env, s) + w * |kids|
  {
    SumAppendConstant(s, kids, x => Unknowns(env, x), u);
    SumAppendConstant(s, kids, x => Weight(env, x), w);
  }

  lemma FinishMeasure(env: Env, s: State, i: nat, done: Node, p: nat, parent: Node)
    requires i < |s| && p < |s| && i != p && s[i].status == Running && done.status == Done
    requires Weight(env, s[i]) > 0 && Weight(env, parent) == Weight(env, s[p]) && Unknowns(env, parent) == Unknowns(env, s[p])
    ensures Smaller(env, s[i := done][p := parent], s)
  {
    ReplaceMeasure(env, s, i, done);
    ReplaceMeasure(env, s[i := done], p, parent);
  }

  lemma FinishCollectionShrinks(env: Env, s: State, i: nat, result: CollectionResult)
    requires Inv(env, s) && HasSlot(s, i) && s[i].kind.CollectionTask? && s[i].status == Running
    ensures Smaller(env, FinishCollection(s, i, result), s)
  {
    var done := s[i].(status := Done, result := result);
    var p := s[i].parent;
    var parent := s[p].(slots := s[p].slots[s[i].slot := Some(result)]);
    FinishMeasure(env, s, i, done, p, parent);
    assert FinishCollection(s, i, result) == s[i := done][p := parent];
  }

  lemma FinishTokenShrinks(env: Env, s: State, i: nat, ok: bool)
    requires Inv(env, s) && i < |s| && s[i].kind.TokenTask? && s[i].status == Running && s[i].parent < |s|
    ensures Smaller(env, FinishToken(s, i, ok), s)
  {
    TokenSlot(env, s, i);
    var done := s[i].(status := Done, ok := ok);
    var p := s[i].parent;
    var parent := s[p].(log := s[p].log + [Finished(s[i].slot, ok)]);
    FinishMeasure(env, s, i, done, p, parent);
    assert FinishToken(s, i, ok) == s[i := done][p := parent];
  }

  lemma SubmitShrinks(env: Env, s: State, i: nat, x: Node, kids: seq<Node>, u: nat, w: nat)
    requires i < |s|
    requires forall k :: 0 <= k < |kids| ==> Unknowns(env, kids[k]) == u && Weight(env, kids[k]) == w
    requires Unknowns(env, x) + u * |kids| == Unknowns(env, s[i])
    requires Weight(env, x) + w * |kids| < Weight(env, s[i])
    ensures Smaller(env, s[i := x] + kids, s)
  {
    ReplaceMeasure(env, s, i, x);
    AppendMeasure(env, s[i := x], kids, u, w);
  }

  lemma CallsShrink(env: Env, s: State, i: nat, stage: Stage)
    requires Inv(env, s) && i < |s| && s[i].status == Running && s[i].stage == Fresh
    requires (s[i].kind.CollectionTask? && stage == Details) || (s[i].kind.TokenTask? && stage == Calls)
    ensures Smaller(env, SubmitCalls(s, i, stage), s)
  {
    var x := s[i].(stage := stage, first := |s|, count := 2, calls := Some(|s|));
    SubmitShrinks(env, s, i, x, Calls2(i), 0, 2);
    assert SubmitCalls(s, i, stage) == s[i := x] + Calls2(i);
  }

  lemma CheckOrParseShrinks(env: Env, s: State, a: Action)
    requires Inv(env, s) && Enabled(env, s, a) && (a.CheckContract? || a.ParseToken?)
    ensures Smaller(env, Next(env, s, a), s)
  {
    var i := a.i;
    hide Inv, Smaller, SubmitCalls;
    if a.CheckContract? {
      if env.validContract(s[i].kind.details.id) {
        CallsShrink(env, s, i, Details);
      } else {
        FinishCollectionShrinks(env, s, i, Failure(InvalidContract, s[i].kind.details.id));
      }
    } else {
      if env.parsesAsUint32(s[i].kind.token) {
        CallsShrink(env, s, i, Calls);
      } else {
        FinishTokenShrinks(env, s, i, false);
      }
    }
  }

  lemma ReadDetailsShrinks(env: Env, s: State, a: Action)
    requires Inv(env, s) && Enabled(env, s, a) && a.ReadDetails?
    ensures Smaller(env, Next(env, s, a), s)
  {
    var i := a.i;
    var kids := TokenKids(i, s[i].kind.details);
    if s[s[i].first].ok && s[s[i].first + 1].ok {
      SubmitShrinks(env, s, i, s[i].(stage := Tokens, first := |s|, count := |kids|), kids, 0, 8);
    } else {
      FinishCollectionShrinks(env, s, i, Failure(CollectionFetchFailed, s[i].kind.details.id));
    }
  }

  lemma StartMeridianShrinks(env: Env, s: State, a: Action)
    requires Enabled(env, s, a) && a.StartMeridian?
    ensures Smaller(env, Next(env, s, a), s)
  {
    var i := a.i;
    var m := env.MeridianContracts();
    var kids := MeridianKids(i, m, |s[i].slots|);
    var x := s[i].(stage := Meridian, first := |s|, count := |kids|, slots := s[i].slots + seq(|m|, _ => None));
    SubmitShrinks(env, s, i, x, kids, 1, 1);
    assert Next(env, s, a) == s[i := x] + kids;
  }

  lemma StatusShrinks(env: Env, s: State, a: Action)
    requires Inv(env, s) && Enabled(env, s, a) && (a.Take? || a.CallReturns? || a.Respond?)
    ensures Smaller(env, Next(env, s, a), s)
  {
    match a
    case Take(i) =>
      assert NodeOk(env, s, i);
      ReplaceMeasure(env, s, i, s[i].(status := Running));
    case CallReturns(i, ok) => ReplaceMeasure(env, s, i, s[i].(status := Done, ok := ok));
    case Respond(i) => ReplaceMeasure(env, s, i, s[i].(status := Done));
  }

  lemma OwnerAnswersShrinks(env: Env, s: State, a: Action)
    requires Inv(env, s) && Enabled(env, s, a) && a.OwnerAnswers?
    ensures Smaller(env, Next(env, s, a), s)
  {
    var c := s[a.i].kind.details;
    var told := s[a.i].(owner := Some(a.tokens));
    ReplaceMeasure(env, s, a.i, told);
    if a.tokens.Some? {
      ReplaceMeasure(env, s[a.i := told], a.i, told.(stage := Fresh, kind := CollectionTask(false, Contract(c.id, a.tokens.value))));
    } else {
      ToldKeepsInv(env, s, a.i, told);
      FinishCollectionShrinks(env, s[a.i := told], a.i, Failure(OwnerTokensFetchFailed, c.id));
    }
  }

  lemma JoinShrinks(env: Env, s: State, a: Action)
    requires Inv(env, s) && Enabled(env, s, a) && (a.Gather? || a.JoinCalls?)
    ensures Smaller(env, Next(env, s, a), s)
  {
    match a
    case Gather(i) =>
      var c := s[i].kind.details;
      FinishCollectionShrinks(env, s, i, Gathered(c, IdsOf(c.tokens, s[i].log, true), IdsOf(c.tokens, s[i].log, false)));
    case JoinCalls(i) => FinishTokenShrinks(env, s, i, s[s[i].first].ok && s[s[i].first + 1].ok);
  }

  /** Every step other than a new request brings all tasks closer to their end. */
  lemma StepShrinks(env: Env, s: State, a: Action)
    requires Inv(env, s) && Enabled(env, s, a) && !a.Arrive?
    ensures Smaller(env, Next(env, s, a), s)
  {
    hide *;
    match a
    case Take(_) => StatusShrinks(env, s, a);
    case CallReturns(_, _) => StatusShrinks(env, s, a);
    case Respond(_) => StatusShrinks(env, s, a);
    case OwnerAnswers(_, _) => OwnerAnswersShrinks(env, s, a);
    case Gather(_) => JoinShrinks(env, s, a);
    case JoinCalls(_) => JoinShrinks(env, s, a);
    case ReadDetails(_) => ReadDetailsShrinks(env, s, a);
    case StartMeridian(_) => StartMeridianShrinks(env, s, a);
    case _ => CheckOrParseShrinks(env, s, a);
  }

  lemma RunCons(env: Env, s: State, a: Action, rest: seq<Action>)
    requires Enabled(env, s, a)
    ensures Run(env, s, [a] + rest) == Run(env, Next(env, s, a), rest)
    ensures |s| <= |Next(env, s, a)|
  {
    assert ([a] + rest)[1..] == rest;
  }

  lemma {:induction false} CompletesFrom(env: Env, s: State) returns (actions: seq<Action>, t: State)
    requires env.Valid() && Inv(env, s)
    ensures Run(env, s, actions) == Some(t) && forall a :: a in actions ==> !a.Arrive?
    ensures Inv(env, t) && |s| <= |t| && forall i :: 0 <= i < |t| ==> t[i].status == Done
    decreases TotalUnknowns(env, s), TotalWeight(env, s)
  {
    if j :| 0 <= j < |s| && s[j].status != Done {
      var a := CanStepFrom(env, s, 0);
      StepKeepsInv(env, s, a);
      StepShrinks(env, s, a);
      var rest, u := CompletesFrom(env, Next(env, s, a));
      RunCons(env, s, a, rest);
      actions, t := [a] + rest, u;
    } else {
      actions, t := [], s;
    }
  }

  /** So from every reachable state all requests can be brought to their response, without new arrivals. */
  lemma EveryRequestCompletes(env: Env, s: State) returns (actions: seq<Action>, t: State)
    requires env.Valid() && Reachable(env, s)
    ensures Run(env, s, actions) == Some(t) && forall a :: a in actions ==> !a.Arrive?
    ensures |s| <= |t| && forall i :: 0 <= i < |t| ==> t[i].status == Done
  {
    ReachableInv(env, s);
    actions, t := CompletesFrom(env, s);
  }
}
