/**
 * What a client of the collectibles endpoint gets, in every interleaving: each result explained by the
 * replies of the calls behind it, and the results in the order of the request.
 */
module CollectiblesResponses {
  import opened Text
  import opened Collectibles
  import opened CollectiblesSafety
  import opened CollectiblesSteps
  import opened CollectiblesTheorems
  import opened CollectiblesTruth
  import opened Slices

  /*** What the chain said ***/

  /** The record of a reply is the reply: nothing else ever writes it. */
  lemma RepliesAreRecorded(env: Env, s: State, a: Action, i: nat)
    requires Inv(env, s) && Enabled(env, s, a) && i < |s|
    ensures i < |Next(env, s, a)|
    ensures Next(env, s, a)[i].owner == if a.OwnerAnswers? && a.i == i then Some(a.tokens) else s[i].owner
    ensures s[i].kind.RpcCall? ==>
      Next(env, s, a)[i].ok == if a.CallReturns? && a.i == i then a.ok else s[i].ok
  {
    hide Filtered, IdsOf, Gathered, RunningIn, Env.MeridianContracts, Inv;
  }

  /*** One result ***/

  predicate HasError(r: CollectionResult, kind: ErrorKind) {
    r.error.Some? && r.error.value.kind == kind
  }

  /** One of the two calls for the collection's name and symbol failed. */
  predicate DetailsFailed(s: State, i: nat)
    requires i < |s|
  {
    s[i].calls.Some? && CallsReturned(s, i, s[i].calls.value) && !CallsOk(s, s[i].calls.value)
  }

  /** Both succeeded. */
  predicate DetailsFetched(s: State, i: nat)
    requires i < |s|
  {
    s[i].calls.Some? && CallsReturned(s, i, s[i].calls.value) && CallsOk(s, s[i].calls.value)
  }

  /** The id of token k parses, and both RPC calls of its task succeeded. */
  predicate Fetched(env: Env, s: State, i: nat, k: nat)
    requires i < |s| && s[i].kind.CollectionTask? && k < |s[i].kind.details.tokens| && TokenEnded(s, i, k)
  {
    env.parsesAsUint32(s[i].kind.details.tokens[k]) && DetailsFetched(s, s[i].first + k)
  }

  function FetchedFlags(env: Env, s: State, i: nat): (flags: seq<bool>)
    requires i < |s| && s[i].kind.CollectionTask? && TokensEnded(s, i)
    ensures |flags| == |s[i].kind.details.tokens|
    ensures forall k {:trigger flags[k]} :: 0 <= k < |flags| ==> TokenEnded(s, i, k) && flags[k] == Fetched(env, s, i, k)
  {
    seq(|s[i].kind.details.tokens|, k requires 0 <= k < |s[i].kind.details.tokens| =>
      TokenEnded(s, i, k) && Fetched(env, s, i, k))
  }

  /** No earlier stage failed. */
  predicate Proceeds(env: Env, s: State, i: nat)
    requires i < |s| && s[i].kind.CollectionTask?
  {
    !OwnerFailed(s[i]) && env.validContract(s[i].kind.details.id) && DetailsFetched(s, i)
  }

  /** Every token is fetched or reported, according to its own calls; a collection is there when one was fetched. */
  ghost predicate TokensExplained(env: Env, s: State, i: nat)
    requires i < |s| && s[i].kind.CollectionTask?
  {
    var d, r := s[i].kind.details, s[i].result;
    && TokensEnded(s, i)
    && multiset(FetchedOf(r)) == multiset(Select(d.tokens, FetchedFlags(env, s, i), true))
    && multiset(FailedOf(r)) == multiset(Select(d.tokens, FetchedFlags(env, s, i), false))
    && (r.collection.Some? <==> FetchedOf(r) != [])
    && (r.collection.Some? ==> (r.error.None? <==> FailedOf(r) == []))
    && (r.collection.None? ==> HasError(r, NoCollectiblesFetched))
  }

  /** Each error has its cause, and the other way round. */
  ghost predicate FailuresExplained(env: Env, s: State, i: nat)
    requires i < |s| && s[i].kind.CollectionTask?
  {
    var x, r := s[i], s[i].result;
    var id := x.kind.details.id;
    && (HasError(r, OwnerTokensFetchFailed) <==> OwnerFailed(x))
    && (HasError(r, InvalidContract) <==> !OwnerFailed(x) && !env.validContract(id))
    && (HasError(r, CollectionFetchFailed) <==> !OwnerFailed(x) && env.validContract(id) && DetailsFailed(s, i))
    && (!Proceeds(env, s, i) ==> r.collection.None? && FailedOf(r) == [])
    && (r.error.Some? ==> r.error.value.address == id)
    && (r.collection.Some? ==> r.collection.value.address == id)
  }

  /** A Meridian collection's tokens are those the chain told for the owner. */
  predicate TokensFromOwner(x: Node)
    requires x.kind.CollectionTask?
  {
    !x.kind.pooled ==> OwnerFailed(x) || x.owner == Some(Some(x.kind.details.tokens))
  }

  ghost predicate Explained(env: Env, s: State, i: nat)
    requires i < |s| && s[i].kind.CollectionTask?
  {
    && FailuresExplained(env, s, i) && TokensFromOwner(s[i])
    && (Proceeds(env, s, i) ==> TokensExplained(env, s, i))
  }

  lemma OutcomesAreFetches(env: Env, s: State, i: nat)
    requires Truth(env, s) && i < |s| && s[i].kind.CollectionTask? && TokensEnded(s, i)
    ensures Oks(s, s[i].first, |s[i].kind.details.tokens|) == FetchedFlags(env, s, i)
  {
    var oks, flags := Oks(s, s[i].first, |s[i].kind.details.tokens|), FetchedFlags(env, s, i);
    forall k | 0 <= k < |oks| ensures oks[k] == flags[k] {
      assert TokenEnded(s, i, k);
      assert TaskTrue(env, s, s[i].first + k);
    }
  }

  lemma ProceedsToGather(env: Env, s: State, i: nat)
    requires i < |s| && s[i].kind.CollectionTask? && CollectionTrue(env, s, i) && Proceeds(env, s, i)
    ensures TokensEnded(s, i) && GathersTokens(s, i)
  {
    hide TokensEnded, GathersTokens;
  }

  lemma GatheredIsExplained(env: Env, s: State, i: nat)
    requires i < |s| && s[i].kind.CollectionTask? && TokensEnded(s, i) && GathersTokens(s, i)
    requires Oks(s, s[i].first, |s[i].kind.details.tokens|) == FetchedFlags(env, s, i)
    ensures TokensExplained(env, s, i)
  {
    hide Select, FetchedFlags, Oks, TokensEnded;
  }

  lemma TokensAreExplained(env: Env, s: State, i: nat)
    requires Truth(env, s) && i < |s| && s[i].kind.CollectionTask? && s[i].status == Done && Proceeds(env, s, i)
    ensures TokensExplained(env, s, i)
  {
    FinishedIsTrue(env, s, i);
    ProceedsToGather(env, s, i);
    OutcomesAreFetches(env, s, i);
    hide *;
    GatheredIsExplained(env, s, i);
  }

  lemma FinishedIsTrue(env: Env, s: State, i: nat)
    requires Truth(env, s) && i < |s| && s[i].kind.CollectionTask? && s[i].status == Done
    ensures CollectionTrue(env, s, i)
  {
    hide CollectionTrue, StageTrue, TokenTrue, UserAnswered;
    assert TaskTrue(env, s, i);
  }

  /** What fetchCollection gathers is about the collection itself, and is none of the earlier errors. */
  lemma GatheredIsLate(s: State, i: nat)
    requires i < |s| && s[i].kind.CollectionTask? && TokensEnded(s, i) && GathersTokens(s, i)
    ensures var r, id := s[i].result, s[i].kind.details.id;
      && (r.error.Some? ==> r.error.value.address == id && (r.error.value.kind == NoCollectiblesFetched || r.error.value.kind == TokensFailed))
      && (r.collection.Some? ==> r.collection.value.address == id)
  {
    hide Select, Oks, TokensEnded;
  }

  lemma FailuresAreExplained(env: Env, s: State, i: nat)
    requires i < |s| && s[i].kind.CollectionTask? && CollectionTrue(env, s, i)
    ensures FailuresExplained(env, s, i) && TokensFromOwner(s[i])
  {
    if Proceeds(env, s, i) {
      GatheredIsLate(s, i);
    }
    hide GathersTokens, TokensEnded, CallsReturned, CallsOk, Gathered;
  }

  /** Every result a collection task ever ends with is explained by what the calls behind it returned. */
  lemma EveryResultExplained(env: Env, s: State, i: nat)
    requires Reachable(env, s) && i < |s| && s[i].kind.CollectionTask? && s[i].status == Done
    ensures Explained(env, s, i)
  {
    ReachableTruth(env, s);
    hide *;
    FinishedIsTrue(env, s, i);
    FailuresAreExplained(env, s, i);
    if Proceeds(env, s, i) {
      TokensAreExplained(env, s, i);
    }
    ExplainedIs(env, s, i);
  }

  lemma ExplainedIs(env: Env, s: State, i: nat)
    requires i < |s| && s[i].kind.CollectionTask? && FailuresExplained(env, s, i) && TokensFromOwner(s[i])
    requires Proceeds(env, s, i) ==> TokensExplained(env, s, i)
    ensures Explained(env, s, i)
  {
    hide FailuresExplained, TokensFromOwner, Proceeds, TokensExplained;
  }

  lemma {:induction false} SelectHas(tokens: seq<string>, flags: seq<bool>, ok: bool, id: string)
    requires |flags| == |tokens|
    ensures id in Select(tokens, flags, ok) <==> exists k :: 0 <= k < |tokens| && tokens[k] == id && flags[k] == ok
  {
    if tokens != [] {
      var n := |tokens| - 1;
      SelectHas(tokens[..n], flags[..n], ok, id);
      assert forall k :: 0 <= k < n ==> tokens[..n][k] == tokens[k] && flags[..n][k] == flags[k];
    }
  }

  /** A token is in the answer exactly when it parses and both its calls succeeded, else it is reported. */
  lemma FetchedIff(env: Env, s: State, i: nat, id: string)
    requires Reachable(env, s) && i < |s| && s[i].kind.CollectionTask? && s[i].status == Done && Proceeds(env, s, i)
    ensures TokensEnded(s, i)
    ensures var tokens := s[i].kind.details.tokens;
      && (id in FetchedOf(s[i].result) <==> exists k :: 0 <= k < |tokens| && tokens[k] == id && FetchedFlags(env, s, i)[k])
      && (id in FailedOf(s[i].result) <==> exists k :: 0 <= k < |tokens| && tokens[k] == id && !FetchedFlags(env, s, i)[k])
  {
    EveryResultExplained(env, s, i);
    var d, r, flags := s[i].kind.details, s[i].result, FetchedFlags(env, s, i);
    hide Truth, Reachable, Proceeds, FailuresExplained, TokensEnded;
    SelectHas(d.tokens, flags, true, id);
    SelectHas(d.tokens, flags, false, id);
    assert id in FetchedOf(r) <==> id in multiset(FetchedOf(r));
    assert id in FailedOf(r) <==> id in multiset(FailedOf(r));
  }

  /** No token is lost or invented: fetched and reported ids together are the requested ids. */
  lemma TokensConserved(env: Env, s: State, i: nat)
    requires Reachable(env, s) && i < |s| && s[i].kind.CollectionTask? && s[i].status == Done
    ensures var d, r := s[i].kind.details, s[i].result;
      && (Proceeds(env, s, i) ==> multiset(FetchedOf(r)) + multiset(FailedOf(r)) == multiset(d.tokens))
      && (!Proceeds(env, s, i) ==> FetchedOf(r) == [] && FailedOf(r) == [])
      && (r.collection.None? <==> FetchedOf(r) == [])
  {
    EveryResultExplained(env, s, i);
    if Proceeds(env, s, i) {
      SelectPartitions(s[i].kind.details.tokens, FetchedFlags(env, s, i));
    }
  }

  /*** The response ***/

  /** Result k of the Meridian part is that of the task for the k-th configured contract. */
  predicate MeridianAnswered(env: Env, s: State, i: nat, k: nat)
    requires i < |s| && s[i].kind.RequestTask? && k < |env.MeridianContracts()|
  {
    var j, n := s[i].first + k, |s[i].kind.contracts|;
    && j < |s| && s[j].kind.CollectionTask? && !s[j].kind.pooled && s[j].kind.details.id == env.MeridianContracts()[k]
    && s[j].parent == i && s[j].status == Done
    && n + k < |s[i].slots| && s[i].slots[n + k] == Some(s[j].result)
  }

  /** Result k is that of the task for the k-th user contract, explained. */
  ghost predicate UserExplained(env: Env, s: State, i: nat, k: nat)
    requires i < |s| && s[i].kind.RequestTask? && k < |s[i].kind.contracts|
  {
    UserAnswered(s, i, k) && Explained(env, s, i + 1 + k)
  }

  ghost predicate MeridianExplained(env: Env, s: State, i: nat, k: nat)
    requires i < |s| && s[i].kind.RequestTask? && k < |env.MeridianContracts()|
  {
    MeridianAnswered(env, s, i, k) && Explained(env, s, s[i].first + k)
  }

  /** One result for each user contract in order, then one for each Meridian contract, every one explained. */
  ghost predicate InOrder(env: Env, s: State, i: nat)
    requires i < |s| && s[i].kind.RequestTask?
  {
    && |s[i].slots| == |s[i].kind.contracts| + |env.MeridianContracts()|
    && (forall k: nat :: k < |s[i].kind.contracts| ==> UserExplained(env, s, i, k))
    && (forall k: nat :: k < |env.MeridianContracts()| ==> MeridianExplained(env, s, i, k))
  }

  lemma MeridianSlot(env: Env, s: State, i: nat, k: nat)
    requires Inv(env, s) && i < |s| && s[i].kind.RequestTask? && s[i].status == Done && k < |env.MeridianContracts()|
    ensures MeridianAnswered(env, s, i, k)
  {
    assert NodeOk(env, s, i);
    var j, n := s[i].first + k, |s[i].kind.contracts|;
    assert SlotIs(s, s[i].slots[n + k], s[i].first + ((n + k) - n));
    assert ChildOk(env, s, i, j);
  }

  lemma SlotCount(env: Env, s: State, i: nat)
    requires Inv(env, s) && i < |s| && s[i].kind.RequestTask? && s[i].status == Done
    ensures s[i].stage == Meridian && |s[i].slots| == |s[i].kind.contracts| + |env.MeridianContracts()|
  {
    assert NodeOk(env, s, i);
  }

  lemma UserSlot(env: Env, s: State, i: nat, k: nat)
    requires Truth(env, s) && i < |s| && s[i].kind.RequestTask? && s[i].stage == Meridian && k < |s[i].kind.contracts|
    ensures UserAnswered(s, i, k)
  {
    assert TaskTrue(env, s, i);
  }

  lemma UserSlotExplained(env: Env, s: State, i: nat, k: nat)
    requires Reachable(env, s) && Truth(env, s) && i < |s| && s[i].kind.RequestTask? && s[i].stage == Meridian
    requires k < |s[i].kind.contracts|
    ensures UserExplained(env, s, i, k)
  {
    hide Truth, Reachable, Explained;
    UserSlot(env, s, i, k);
    EveryResultExplained(env, s, i + 1 + k);
  }

  lemma MeridianSlotExplained(env: Env, s: State, i: nat, k: nat)
    requires Reachable(env, s) && Inv(env, s) && i < |s| && s[i].kind.RequestTask? && s[i].status == Done
    requires k < |env.MeridianContracts()|
    ensures MeridianExplained(env, s, i, k)
  {
    hide Inv, Reachable, Explained, Env.MeridianContracts;
    MeridianSlot(env, s, i, k);
    EveryResultExplained(env, s, s[i].first + k);
  }

  /** A finished request holds its answers in order, each explained. */
  lemma ResponseInOrder(env: Env, s: State, i: nat)
    requires Reachable(env, s) && i < |s| && s[i].kind.RequestTask? && s[i].status == Done
    ensures InOrder(env, s, i)
  {
    ReachableInv(env, s);
    ReachableTruth(env, s);
    SlotCount(env, s, i);
    hide Inv, Truth, UserExplained, MeridianExplained, Reachable, Env.MeridianContracts;
    forall k: nat | k < |s[i].kind.contracts| ensures UserExplained(env, s, i, k) {
      UserSlotExplained(env, s, i, k);
    }
    forall k: nat | k < |env.MeridianContracts()| ensures MeridianExplained(env, s, i, k) {
      MeridianSlotExplained(env, s, i, k);
    }
  }

  /** A step changes no request's own list of contracts. */
  lemma StepKeepsRequest(env: Env, s: State, a: Action, i: nat)
    requires Enabled(env, s, a) && i < |s| && s[i].kind.RequestTask?
    ensures i < |Next(env, s, a)| && Next(env, s, a)[i].kind == s[i].kind
  {
    hide Filtered, IdsOf, Gathered, RunningIn, Env.MeridianContracts;
  }

  lemma {:induction false} RunKeepsRequest(env: Env, s: State, actions: seq<Action>, i: nat)
    requires Run(env, s, actions).Some? && i < |s| && s[i].kind.RequestTask?
    ensures i < |Run(env, s, actions).value| && Run(env, s, actions).value[i].kind == s[i].kind
    decreases |actions|
  {
    if actions != [] {
      hide Next, Enabled;
      StepKeepsRequest(env, s, actions[0], i);
      RunKeepsRequest(env, Next(env, s, actions[0]), actions[1..], i);
    }
  }

  lemma {:induction false} RunConcat(env: Env, s: State, first: seq<Action>, rest: seq<Action>)
    requires Run(env, s, first).Some?
    ensures Run(env, s, first + rest) == Run(env, Run(env, s, first).value, rest)
    decreases |first|
  {
    hide Next, Enabled;
    if first == [] {
      assert first + rest == rest;
    } else {
      RunConcat(env, Next(env, s, first[0]), first[1..], rest);
      assert (first + rest)[1..] == first[1..] + rest;
    }
  }

  lemma StaysReachable(env: Env, s: State, actions: seq<Action>)
    requires Reachable(env, s) && Run(env, s, actions).Some?
    ensures Reachable(env, Run(env, s, actions).value)
  {
    var before :| Run(env, [], before) == Some(s);
    RunConcat(env, [], before, actions);
  }

  lemma ArrivalKind(env: Env, s: State, contracts: seq<Contract>)
    ensures Enabled(env, s, Arrive(contracts)) && |s| < |Next(env, s, Arrive(contracts))|
    ensures Next(env, s, Arrive(contracts))[|s|].kind == RequestTask(Filtered(contracts, set m | m in env.MeridianContracts()))
  {
    hide Filtered, Env.MeridianContracts;
  }

  /**
   * From arrival to response, in whatever interleaving: the answer lists the request's contracts without
   * the Meridian ones, in request order, and then the configured Meridian contracts, each result explained.
   */
  lemma EveryArrivalIsAnswered(env: Env, s: State, contracts: seq<Contract>, actions: seq<Action>, t: State)
    requires Reachable(env, s) && Run(env, s, [Arrive(contracts)] + actions) == Some(t)
    requires |s| < |t| && t[|s|].status == Done
    ensures t[|s|].kind.RequestTask? && InOrder(env, t, |s|)
    ensures exists positions :: Selects(contracts, t[|s|].kind.contracts, positions, env.IsUsers)
  {
    hide *;
    var i := |s|;
    ArrivalKind(env, s, contracts);
    RunCons(env, s, Arrive(contracts), actions);
    RunKeepsRequest(env, Next(env, s, Arrive(contracts)), actions, i);
    StaysReachable(env, s, [Arrive(contracts)] + actions);
    ResponseInOrder(env, t, i);
    var positions := UsersInOrder(env, contracts);
  }
}
