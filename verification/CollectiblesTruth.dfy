/**
 * What the collectibles fan-out answers, in terms of what happened: the replies of the RPC calls, the
 * owner's tokens as the chain told them, and the two syntactic checks. Every step keeps it.
 */
module CollectiblesTruth {
  import opened Text
  import opened Collectibles
  import opened CollectiblesSafety
  import opened CollectiblesSteps

  /*** Completion order ***/

  /** The tokens whose task ended with the given outcome, in request order. */
  function Select(tokens: seq<string>, oks: seq<bool>, ok: bool): seq<string>
    requires |oks| == |tokens|
  {
    if tokens == [] then []
    else
      var n := |tokens| - 1;
      Select(tokens[..n], oks[..n], ok) + (if oks[n] == ok then [tokens[n]] else [])
  }

  function FetchedOf(r: CollectionResult): seq<string> {
    if r.collection.Some? then r.collection.value.tokens else []
  }

  function FailedOf(r: CollectionResult): seq<string> {
    if r.error.Some? then r.error.value.tokens else []
  }

  lemma PartsGrow(yes: seq<string>, no: seq<string>, all: seq<string>, last: string)
    requires multiset(yes) + multiset(no) == multiset(all)
    ensures multiset(yes + [last]) + multiset(no) == multiset(all + [last])
    ensures multiset(yes) + multiset(no + [last]) == multiset(all + [last])
  {
    assert multiset(yes + [last]) == multiset(yes) + multiset{last};
    assert multiset(no + [last]) == multiset(no) + multiset{last};
    assert multiset(all + [last]) == multiset(all) + multiset{last};
  }

  lemma {:induction false} SelectPartitions(tokens: seq<string>, oks: seq<bool>)
    requires |oks| == |tokens|
    ensures multiset(Select(tokens, oks, true)) + multiset(Select(tokens, oks, false)) == multiset(tokens)
  {
    if tokens != [] {
      var n := |tokens| - 1;
      SelectPartitions(tokens[..n], oks[..n]);
      var yes, no := Select(tokens[..n], oks[..n], true), Select(tokens[..n], oks[..n], false);
      PartsGrow(yes, no, tokens[..n], tokens[n]);
      assert tokens == tokens[..n] + [tokens[n]];
      assert yes + [] == yes && no + [] == no;
    }
  }

  lemma {:induction false} IdsOfConcat(tokens: seq<string>, front: seq<Finished>, back: seq<Finished>, ok: bool)
    ensures IdsOf(tokens, front + back, ok) == IdsOf(tokens, front, ok) + IdsOf(tokens, back, ok)
  {
    if back == [] {
      assert front + back == front;
    } else {
      var n := |back| - 1;
      assert (front + back)[..|front| + n] == front + back[..n];
      IdsOfConcat(tokens, front, back[..n], ok);
    }
  }

  lemma {:induction false} IdsOfShorter(tokens: seq<string>, n: nat, log: seq<Finished>, ok: bool)
    requires n <= |tokens| && forall a :: 0 <= a < |log| ==> log[a].slot < n
    ensures IdsOf(tokens[..n], log, ok) == IdsOf(tokens, log, ok)
  {
    if log != [] {
      IdsOfShorter(tokens, n, log[..|log| - 1], ok);
    }
  }

  function IdOf(tokens: seq<string>, e: Finished, ok: bool): seq<string> {
    if e.ok == ok && e.slot < |tokens| then [tokens[e.slot]] else []
  }

  lemma IdsOfAround(tokens: seq<string>, front: seq<Finished>, e: Finished, back: seq<Finished>, ok: bool)
    ensures IdsOf(tokens, front + [e] + back, ok) ==
            IdsOf(tokens, front, ok) + IdOf(tokens, e, ok) + IdsOf(tokens, back, ok)
  {
    IdsOfConcat(tokens, front + [e], back, ok);
    assert (front + [e])[..|front|] == front;
  }

  lemma MiddleOut(front: seq<string>, middle: seq<string>, back: seq<string>)
    ensures multiset(front + middle + back) == multiset(front + back) + multiset(middle)
  {
  }

  lemma ExtractEntry(tokens: seq<string>, log: seq<Finished>, a: nat, ok: bool)
    requires a < |log|
    ensures multiset(IdsOf(tokens, log, ok)) ==
            multiset(IdsOf(tokens, log[..a] + log[a + 1..], ok)) + multiset(IdOf(tokens, log[a], ok))
  {
    assert log == log[..a] + [log[a]] + log[a + 1..];
    IdsOfAround(tokens, log[..a], log[a], log[a + 1..], ok);
    IdsOfConcat(tokens, log[..a], log[a + 1..], ok);
    MiddleOut(IdsOf(tokens, log[..a], ok), IdOf(tokens, log[a], ok), IdsOf(tokens, log[a + 1..], ok));
  }

  /** Taking one entry out of a complete log leaves a complete log of the other slots. */
  lemma RemoveEntry(log: seq<Finished>, oks: seq<bool>, n: nat, a: nat)
    requires LogOk(log, n + 1) && |oks| == n + 1 && a < |log| && log[a].slot == n
    requires forall k :: 0 <= k <= n ==> Logged(log, k, oks[k])
    ensures LogOk(log[..a] + log[a + 1..], n)
    ensures forall k :: 0 <= k < n ==> Logged(log[..a] + log[a + 1..], k, oks[..n][k])
  {
    var rest := log[..a] + log[a + 1..];
    forall b | 0 <= b < |rest| ensures rest[b] == log[if b < a then b else b + 1] {}
    forall k | 0 <= k < n ensures Logged(rest, k, oks[..n][k]) {
      assert Logged(log, k, oks[k]);
      var b :| 0 <= b < |log| && log[b] == Finished(k, oks[k]);
      assert rest[if b < a then b else b - 1] == log[b];
    }
  }

  /** Whatever the completion order, a complete log splits the tokens by their tasks' outcomes. */
  lemma {:induction false} IdsOfCompleteLog(tokens: seq<string>, oks: seq<bool>, log: seq<Finished>, ok: bool)
    requires |oks| == |tokens| && LogOk(log, |tokens|)
    requires forall k :: 0 <= k < |tokens| ==> Logged(log, k, oks[k])
    ensures multiset(IdsOf(tokens, log, ok)) == multiset(Select(tokens, oks, ok))
    decreases |tokens|
  {
    if tokens == [] {
      assert log == [];
    } else {
      var n := |tokens| - 1;
      hide IdsOf, LogOk;
      assert Logged(log, n, oks[n]);
      var a :| 0 <= a < |log| && log[a] == Finished(n, oks[n]);
      var front, back := log[..a], log[a + 1..];
      RemoveEntry(log, oks, n, a);
      IdsOfCompleteLog(tokens[..n], oks[..n], front + back, ok);
      IdsOfShorter(tokens, n, front + back, ok);
      ExtractEntry(tokens, log, a, ok);
    }
  }

  /** The outcomes of a collection's token tasks, by slot. */
  function Oks(s: State, first: nat, n: nat): seq<bool>
    requires first + n <= |s|
  {
    seq(n, k requires 0 <= k < n => s[first + k].ok)
  }

  lemma LogComplete(env: Env, s: State, i: nat)
    requires NodesOk(env, s) && At(s, i, Tokens) && s[i].kind.CollectionTask? && ChildrenDone(s, i)
    ensures s[i].count == |s[i].kind.details.tokens| && s[i].first + s[i].count <= |s| && LogOk(s[i].log, s[i].count)
    ensures forall k :: 0 <= k < s[i].count ==> Logged(s[i].log, k, Oks(s, s[i].first, s[i].count)[k])
  {
    assert NodeOk(env, s, i);
    forall k | 0 <= k < s[i].count ensures Logged(s[i].log, k, Oks(s, s[i].first, s[i].count)[k]) {
      assert TokenLogged(s, s[i], k);
    }
  }

  /*** The truth about each task ***/

  /** The two RPC calls from node c on are node i's, and both have returned. */
  predicate CallsReturned(s: State, i: nat, c: nat) {
    && c + 1 < |s|
    && s[c].kind.RpcCall? && s[c].parent == i && s[c].status == Done
    && s[c + 1].kind.RpcCall? && s[c + 1].parent == i && s[c + 1].status == Done
  }

  /** Both succeeded. */
  predicate CallsOk(s: State, c: nat) {
    c + 1 < |s| && s[c].ok && s[c + 1].ok
  }

  /** A finished token task ended well exactly when the id parses and both its calls succeeded. */
  predicate TokenTrue(env: Env, s: State, i: nat)
    requires i < |s| && s[i].kind.TokenTask?
  {
    var x := s[i];
    if env.parsesAsUint32(x.kind.token) then
      x.calls.Some? && CallsReturned(s, i, x.calls.value) && (x.ok <==> CallsOk(s, x.calls.value))
    else !x.ok
  }

  /** The token tasks of collection i are there and have ended. */
  predicate TokensEnded(s: State, i: nat)
    requires i < |s| && s[i].kind.CollectionTask?
  {
    var x := s[i];
    && x.first + |x.kind.details.tokens| <= |s|
    && forall k :: 0 <= k < |x.kind.details.tokens| ==> TokenEnded(s, i, k)
  }

  predicate TokenEnded(s: State, i: nat, k: nat)
    requires i < |s| && s[i].kind.CollectionTask? && k < |s[i].kind.details.tokens|
  {
    var j := s[i].first + k;
    && j < |s| && s[j].kind == TokenTask(s[i].kind.details.id, s[i].kind.details.tokens[k])
    && s[j].parent == i && s[j].status == Done
  }

  /** The result gathers the tokens by their tasks' outcomes, in some order. */
  ghost predicate GathersTokens(s: State, i: nat)
    requires i < |s| && s[i].kind.CollectionTask? && TokensEnded(s, i)
  {
    var d := s[i].kind.details;
    var oks := Oks(s, s[i].first, |d.tokens|);
    exists fetched, failed ::
      && s[i].result == Gathered(d, fetched, failed)
      && multiset(fetched) == multiset(Select(d.tokens, oks, true))
      && multiset(failed) == multiset(Select(d.tokens, oks, false))
  }

  /** The chain did not tell the owner's tokens. */
  predicate OwnerFailed(x: Node) {
    x.kind.CollectionTask? && !x.kind.pooled && x.owner == Some(None)
  }

  /** The result of a finished collection task, stage by stage. */
  ghost predicate CollectionTrue(env: Env, s: State, i: nat)
    requires i < |s| && s[i].kind.CollectionTask?
  {
    var x, d := s[i], s[i].kind.details;
    if OwnerFailed(x) then x.result == Failure(OwnerTokensFetchFailed, d.id)
    else
      && (!x.kind.pooled ==> x.owner == Some(Some(d.tokens)))
      && if !env.validContract(d.id) then x.result == Failure(InvalidContract, d.id)
         else
           && x.calls.Some? && CallsReturned(s, i, x.calls.value)
           && if !CallsOk(s, x.calls.value) then x.result == Failure(CollectionFetchFailed, d.id)
              else TokensEnded(s, i) && GathersTokens(s, i)
  }

  /** Result k of request i is that of the task for its k-th contract, node i + 1 + k. */
  predicate UserAnswered(s: State, i: nat, k: nat)
    requires i < |s| && s[i].kind.RequestTask? && k < |s[i].kind.contracts|
  {
    var j := i + 1 + k;
    && j < |s| && s[j].kind == CollectionTask(true, s[i].kind.contracts[k]) && s[j].parent == i && s[j].status == Done
    && k < |s[i].slots| && s[i].slots[k] == Some(s[j].result)
  }

  /** What has been established about an unfinished collection at its stage. */
  predicate StageTrue(env: Env, s: State, i: nat)
    requires i < |s| && s[i].kind.CollectionTask?
  {
    var x := s[i];
    && (x.stage == OwnerTokens && x.status != Done ==> x.owner == None)
    && (x.stage != OwnerTokens && !x.kind.pooled ==> x.owner == Some(Some(x.kind.details.tokens)))
    && (x.stage == Details || x.stage == Tokens ==> env.validContract(x.kind.details.id))
    && (x.stage == Details ==> x.calls == Some(x.first))
    && (x.stage == Tokens ==> x.calls.Some? && CallsReturned(s, i, x.calls.value) && CallsOk(s, x.calls.value))
  }

  ghost predicate TaskTrue(env: Env, s: State, i: nat)
    requires i < |s|
  {
    var x := s[i];
    match x.kind
    case RpcCall => true
    case TokenTask(_, token) =>
      && (x.stage == Calls ==> env.parsesAsUint32(token) && x.calls == Some(x.first))
      && (x.status == Done ==> TokenTrue(env, s, i))
    case CollectionTask(_, _) => StageTrue(env, s, i) && (x.status == Done ==> CollectionTrue(env, s, i))
    case RequestTask(contracts) =>
      && (x.stage == Users ==> x.first == i + 1)
      && (x.stage == Meridian ==> forall k :: 0 <= k < |contracts| ==> UserAnswered(s, i, k))
  }

  ghost predicate Truth(env: Env, s: State) {
    forall i :: 0 <= i < |s| ==> TaskTrue(env, s, i)
  }

  /*** Finished tasks are final ***/

  predicate Settled(s: State, t: State) {
    |s| <= |t| && forall j :: 0 <= j < |s| && s[j].status == Done ==> t[j] == s[j]
  }

  lemma CollectionFramed(env: Env, s: State, t: State, i: nat)
    requires Settled(s, t) && i < |s| && t[i] == s[i] && s[i].kind.CollectionTask? && CollectionTrue(env, s, i)
    ensures CollectionTrue(env, t, i)
  {
    var x, n := s[i], |s[i].kind.details.tokens|;
    hide Gathered, Select, Failure;
    if !OwnerFailed(x) && env.validContract(x.kind.details.id) && CallsOk(s, x.calls.value) {
      TokensFramed(s, t, i);
    }
  }

  lemma SameOks(s: State, t: State, first: nat, n: nat)
    requires first + n <= |s| && first + n <= |t|
    requires forall j :: first <= j < first + n ==> s[j].ok == t[j].ok
    ensures Oks(s, first, n) == Oks(t, first, n)
  {
  }

  /** Finished token tasks, and what they found, stay where they are. */
  lemma TokensFramed(s: State, t: State, i: nat)
    requires Settled(s, t) && i < |s| && s[i].kind.CollectionTask? && TokensEnded(s, i)
    requires t[i].kind == s[i].kind && t[i].first == s[i].first
    ensures TokensEnded(t, i)
    ensures Oks(s, s[i].first, |s[i].kind.details.tokens|) == Oks(t, s[i].first, |s[i].kind.details.tokens|)
  {
    var first, n := s[i].first, |s[i].kind.details.tokens|;
    forall k | 0 <= k < n ensures TokenEnded(t, i, k) {
      assert TokenEnded(s, i, k);
    }
    forall j | first <= j < first + n ensures s[j].ok == t[j].ok {
      assert TokenEnded(s, i, j - first);
    }
    SameOks(s, t, first, n);
  }

  lemma TaskFramed(env: Env, s: State, t: State, i: nat)
    requires Settled(s, t) && i < |s| && t[i] == s[i] && TaskTrue(env, s, i)
    ensures TaskTrue(env, t, i)
  {
    hide CollectionTrue;
    if s[i].kind.CollectionTask? && s[i].status == Done {
      CollectionFramed(env, s, t, i);
    }
    if s[i].kind.RequestTask? && s[i].stage == Meridian {
      forall k | 0 <= k < |s[i].kind.contracts| ensures UserAnswered(t, i, k) {
        assert UserAnswered(s, i, k);
      }
    }
  }

  /** All but two tasks look the same, and finished ones are untouched. */
  lemma OthersTrue(env: Env, s: State, t: State, i: nat, p: nat)
    requires Truth(env, s) && Settled(s, t)
    requires forall k :: 0 <= k < |s| && k != i && k != p ==> t[k] == s[k]
    ensures forall k :: 0 <= k < |s| && k != i && k != p ==> TaskTrue(env, t, k)
  {
    hide TaskTrue;
    forall k | 0 <= k < |s| && k != i && k != p ensures TaskTrue(env, t, k) {
      TaskFramed(env, s, t, k);
    }
  }

  /*** Steps ***/

  lemma OneTaskTrue(env: Env, s: State, i: nat, x: Node)
    requires Truth(env, s) && i < |s| && s[i].status != Done && TaskTrue(env, s[i := x], i)
    ensures Truth(env, s[i := x])
  {
    hide TaskTrue;
    OthersTrue(env, s, s[i := x], i, i);
  }

  lemma TakeTrue(env: Env, s: State, a: Action)
    requires Inv(env, s) && Truth(env, s) && Enabled(env, s, a) && a.Take?
    ensures Truth(env, Next(env, s, a))
  {
    assert NodeOk(env, s, a.i) && TaskTrue(env, s, a.i);
    OneTaskTrue(env, s, a.i, s[a.i].(status := Running));
  }

  lemma CallReturnsTrue(env: Env, s: State, a: Action)
    requires Truth(env, s) && Enabled(env, s, a) && a.CallReturns?
    ensures Truth(env, Next(env, s, a))
  {
    OneTaskTrue(env, s, a.i, s[a.i].(status := Done, ok := a.ok));
  }

  lemma RespondTrue(env: Env, s: State, a: Action)
    requires Truth(env, s) && Enabled(env, s, a) && a.Respond?
    ensures Truth(env, Next(env, s, a))
  {
    var i := a.i;
    var t := s[i := s[i].(status := Done)];
    assert TaskTrue(env, s, i);
    forall k | 0 <= k < |s[i].kind.contracts| ensures UserAnswered(t, i, k) {
      assert UserAnswered(s, i, k);
    }
    OneTaskTrue(env, s, i, t[i]);
  }

  lemma OwnerTellsTrue(env: Env, s: State, a: Action)
    requires Inv(env, s) && Truth(env, s) && Enabled(env, s, a) && a.OwnerAnswers? && a.tokens.Some?
    ensures Truth(env, Next(env, s, a))
  {
    var i := a.i;
    var x := s[i].(stage := Fresh, kind := CollectionTask(false, Contract(s[i].kind.details.id, a.tokens.value)),
                   owner := Some(a.tokens));
    assert Next(env, s, a) == s[i := x];
    OneTaskTrue(env, s, i, x);
  }

  /** Appending to a collection's log, or to a request's Meridian results, leaves what is known of it. */
  lemma FinishTokenTrue(env: Env, s: State, i: nat, ok: bool)
    requires Inv(env, s) && Truth(env, s) && i < |s| && s[i].kind.TokenTask? && s[i].status == Running && s[i].parent < |s|
    requires TokenTrue(env, s[i := s[i].(status := Done, ok := ok)], i)
    ensures Truth(env, FinishToken(s, i, ok))
  {
    TokenSlot(env, s, i);
    var p := s[i].parent;
    var done := s[i := s[i].(status := Done, ok := ok)];
    assert TaskTrue(env, s, i) && TaskTrue(env, s, p);
    OneTaskTrue(env, s, i, done[i]);
    assert TaskTrue(env, done, p);
    var x := done[p].(log := done[p].log + [Finished(s[i].slot, ok)]);
    assert TaskTrue(env, done[p := x], p);
    OneTaskTrue(env, done, p, x);
  }

  lemma FinishCollectionTrue(env: Env, s: State, i: nat, result: CollectionResult)
    requires Inv(env, s) && Truth(env, s) && i < |s| && s[i].kind.CollectionTask? && s[i].status == Running && HasSlot(s, i)
    requires CollectionTrue(env, s[i := s[i].(status := Done, result := result)], i)
    ensures Truth(env, FinishCollection(s, i, result))
  {
    CollectionSlot(env, s, i);
    var p := s[i].parent;
    var done := s[i := s[i].(status := Done, result := result)];
    assert TaskTrue(env, s, i) && TaskTrue(env, s, p) && NodeOk(env, s, p);
    OneTaskTrue(env, s, i, done[i]);
    SlotWriteTrue(env, done, p, s[i].slot, result);
    hide TaskTrue;
    OneTaskTrue(env, done, p, done[p].(slots := done[p].slots[s[i].slot := Some(result)]));
  }

  /** A Meridian task writes behind the user contracts' results. */
  lemma SlotWriteTrue(env: Env, s: State, p: nat, w: nat, result: CollectionResult)
    requires p < |s| && s[p].kind.RequestTask? && TaskTrue(env, s, p) && w < |s[p].slots|
    requires s[p].status != Done && (s[p].stage == Meridian ==> w >= |s[p].kind.contracts|)
    ensures TaskTrue(env, s[p := s[p].(slots := s[p].slots[w := Some(result)])], p)
  {
    var t := s[p := s[p].(slots := s[p].slots[w := Some(result)])];
    if s[p].stage == Meridian {
      forall k | 0 <= k < |s[p].kind.contracts| ensures UserAnswered(t, p, k) {
        assert UserAnswered(s, p, k);
      }
    }
  }

  lemma SubmitTrue(env: Env, s: State, i: nat, x: Node, kids: seq<Node>)
    requires Truth(env, s) && i < |s| && s[i].status != Done && TaskTrue(env, s[i := x] + kids, i)
    requires forall k :: 0 <= k < |kids| ==> IsNew(kids[k])
    ensures Truth(env, s[i := x] + kids)
  {
    var t := s[i := x] + kids;
    hide TaskTrue;
    OthersTrue(env, s, t, i, i);
    forall k | |s| <= k < |t| ensures TaskTrue(env, t, k) {
      NewIsTrue(env, t, k);
    }
  }

  /** A task about which nothing is known yet. */
  predicate IsNew(x: Node) {
    && x.status != Done && !x.kind.RequestTask?
    && (if x.kind.CollectionTask? && !x.kind.pooled then x.stage == OwnerTokens && x.owner == None else x.stage == Fresh)
  }

  lemma NewIsTrue(env: Env, t: State, k: nat)
    requires k < |t| && IsNew(t[k])
    ensures TaskTrue(env, t, k)
  {
  }

  lemma SubmitCallsTrue(env: Env, s: State, i: nat, stage: Stage)
    requires Truth(env, s) && i < |s| && s[i].status == Running && s[i].stage == Fresh
    requires (s[i].kind.CollectionTask? && stage == Details && env.validContract(s[i].kind.details.id))
             || (s[i].kind.TokenTask? && stage == Calls && env.parsesAsUint32(s[i].kind.token))
    ensures Truth(env, SubmitCalls(s, i, stage))
  {
    var x := s[i].(stage := stage, first := |s|, count := 2, calls := Some(|s|));
    assert TaskTrue(env, s, i);
    assert SubmitCalls(s, i, stage) == s[i := x] + Calls2(i);
    SubmitTrue(env, s, i, x, Calls2(i));
  }

  /** The children of a task at its calls are its own two calls. */
  lemma CallsOfTask(env: Env, s: State, i: nat)
    requires Inv(env, s) && i < |s| && (s[i].stage == Details || s[i].stage == Calls) && s[i].count == 2 && ChildrenDone(s, i)
    ensures CallsReturned(s, i, s[i].first)
  {
    assert NodeOk(env, s, i);
    assert ChildOk(env, s, i, s[i].first) && ChildOk(env, s, i, s[i].first + 1);
  }

  lemma ReadDetailsTrue(env: Env, s: State, a: Action)
    requires Inv(env, s) && Truth(env, s) && Enabled(env, s, a) && a.ReadDetails?
    ensures Truth(env, Next(env, s, a))
  {
    var i := a.i;
    var x := s[i];
    assert TaskTrue(env, s, i);
    CallsOfTask(env, s, i);
    if CallsOk(s, x.first) {
      var kids := TokenKids(i, x.kind.details);
      var y := x.(stage := Tokens, first := |s|, count := |kids|);
      assert Next(env, s, a) == s[i := y] + kids;
      SubmitTrue(env, s, i, y, kids);
    } else {
      FinishCollectionTrue(env, s, i, Failure(CollectionFetchFailed, x.kind.details.id));
    }
  }

  lemma CheckContractTrue(env: Env, s: State, a: Action)
    requires Inv(env, s) && Truth(env, s) && Enabled(env, s, a) && a.CheckContract?
    ensures Truth(env, Next(env, s, a))
  {
    var i := a.i;
    assert TaskTrue(env, s, i);
    if env.validContract(s[i].kind.details.id) {
      SubmitCallsTrue(env, s, i, Details);
    } else {
      FinishCollectionTrue(env, s, i, Failure(InvalidContract, s[i].kind.details.id));
    }
  }

  lemma ParseTokenTrue(env: Env, s: State, a: Action)
    requires Inv(env, s) && Truth(env, s) && Enabled(env, s, a) && a.ParseToken?
    ensures Truth(env, Next(env, s, a))
  {
    if env.parsesAsUint32(s[a.i].kind.token) {
      SubmitCallsTrue(env, s, a.i, Calls);
    } else {
      FinishTokenTrue(env, s, a.i, false);
    }
  }

  lemma JoinCallsTrue(env: Env, s: State, a: Action)
    requires Inv(env, s) && Truth(env, s) && Enabled(env, s, a) && a.JoinCalls?
    ensures Truth(env, Next(env, s, a))
  {
    assert TaskTrue(env, s, a.i);
    CallsOfTask(env, s, a.i);
    FinishTokenTrue(env, s, a.i, CallsOk(s, s[a.i].first));
  }

  lemma OwnerFailsTrue(env: Env, s: State, a: Action)
    requires Inv(env, s) && Truth(env, s) && Enabled(env, s, a) && a.OwnerAnswers? && a.tokens.None?
    ensures Truth(env, Next(env, s, a))
  {
    var i := a.i;
    var x := s[i].(owner := Some(None));
    var id := s[i].kind.details.id;
    ToldKeepsInv(env, s, i, x);
    CollectionSlot(env, s, i);
    assert TaskTrue(env, s, i);
    var told, p := s[i := x], s[i].parent;
    var done := s[i := x.(status := Done, result := Failure(OwnerTokensFetchFailed, id))];
    assert NodeOk(env, s, p) && TaskTrue(env, s, p) && NodeOk(env, s, i);
    OneTaskTrue(env, s, i, done[i]);
    SlotWriteTrue(env, done, p, s[i].slot, done[i].result);
    OneTaskTrue(env, done, p, done[p].(slots := done[p].slots[s[i].slot := Some(done[i].result)]));
    assert told[i := done[i]] == done;
  }

  lemma TokensOfTask(env: Env, s: State, i: nat)
    requires Inv(env, s) && At(s, i, Tokens) && s[i].kind.CollectionTask? && ChildrenDone(s, i)
    ensures TokensEnded(s, i)
  {
    assert NodeOk(env, s, i);
    forall k | 0 <= k < |s[i].kind.details.tokens| ensures TokenEnded(s, i, k) {
      assert ChildOk(env, s, i, s[i].first + k);
    }
  }

  /** A complete log gathers every token by its task's outcome. */
  lemma GathersByOutcome(env: Env, s: State, i: nat)
    requires Inv(env, s) && At(s, i, Tokens) && s[i].kind.CollectionTask? && ChildrenDone(s, i) && TokensEnded(s, i)
    ensures var d := s[i].kind.details; var oks := Oks(s, s[i].first, |d.tokens|);
      && multiset(IdsOf(d.tokens, s[i].log, true)) == multiset(Select(d.tokens, oks, true))
      && multiset(IdsOf(d.tokens, s[i].log, false)) == multiset(Select(d.tokens, oks, false))
  {
    var d := s[i].kind.details;
    LogComplete(env, s, i);
    hide NodeOk, TokensEnded, ChildrenDone;
    IdsOfCompleteLog(d.tokens, Oks(s, s[i].first, |d.tokens|), s[i].log, true);
    IdsOfCompleteLog(d.tokens, Oks(s, s[i].first, |d.tokens|), s[i].log, false);
  }

  lemma CallsFramed(s: State, t: State, i: nat, c: nat)
    requires Settled(s, t) && CallsReturned(s, i, c) && CallsOk(s, c)
    ensures CallsReturned(t, i, c) && CallsOk(t, c)
  {
  }

  lemma GatherTrue(env: Env, s: State, a: Action)
    requires Inv(env, s) && Truth(env, s) && Enabled(env, s, a) && a.Gather?
    ensures Truth(env, Next(env, s, a))
  {
    var i, d := a.i, s[a.i].kind.details;
    var fetched, failed := IdsOf(d.tokens, s[i].log, true), IdsOf(d.tokens, s[i].log, false);
    var done := s[i := s[i].(status := Done, result := Gathered(d, fetched, failed))];
    assert TaskTrue(env, s, i);
    TokensOfTask(env, s, i);
    GathersByOutcome(env, s, i);
    TokensFramed(s, done, i);
    hide Gathered, Select, IdsOf, Oks, Inv, TokensEnded, CallsReturned, CallsOk, UserAnswered, TokenTrue;
    assert GathersTokens(done, i);
    assert CollectionTrue(env, done, i) by {
      CallsFramed(s, done, i, s[i].calls.value);
    }
    hide CollectionTrue, Truth, GathersTokens;
    FinishCollectionTrue(env, s, i, Gathered(d, fetched, failed));
  }

  /** When all user contracts are done, every result is in its place. */
  lemma UsersAnswered(env: Env, s: State, i: nat, k: nat)
    requires Inv(env, s) && Truth(env, s) && At(s, i, Users) && s[i].kind.RequestTask? && ChildrenDone(s, i)
    requires k < |s[i].kind.contracts|
    ensures UserAnswered(s, i, k)
  {
    assert NodeOk(env, s, i) && TaskTrue(env, s, i);
    assert ChildOk(env, s, i, s[i].first + k);
    assert SlotIs(s, s[i].slots[k], s[i].first + (k - 0));
  }

  lemma StartMeridianTrue(env: Env, s: State, a: Action)
    requires Inv(env, s) && Truth(env, s) && Enabled(env, s, a) && a.StartMeridian?
    ensures Truth(env, Next(env, s, a))
  {
    var i, m := a.i, env.MeridianContracts();
    var kids := MeridianKids(i, m, |s[i].slots|);
    var x := s[i].(stage := Meridian, first := |s|, count := |kids|, slots := s[i].slots + seq(|m|, _ => None));
    var t := s[i := x] + kids;
    assert Next(env, s, a) == t;
    forall k | 0 <= k < |s[i].kind.contracts| ensures UserAnswered(t, i, k) {
      UsersAnswered(env, s, i, k);
    }
    SubmitTrue(env, s, i, x, kids);
  }

  lemma ArriveTrue(env: Env, s: State, a: Action)
    requires Truth(env, s) && Enabled(env, s, a) && a.Arrive?
    ensures Truth(env, Next(env, s, a))
  {
    var t := Next(env, s, a);
    var kids := UserKids(|s|, Filtered(a.contracts, set m | m in env.MeridianContracts()));
    assert t[|s| + 1..] == kids;
    OthersTrue(env, s, t, |s|, |s|);
    forall k | |s| < k < |t| ensures TaskTrue(env, t, k) {
      assert t[k] == kids[k - |s| - 1];
      NewIsTrue(env, t, k);
    }
    assert TaskTrue(env, t, |s|);
  }

  lemma StepKeepsTruth(env: Env, s: State, a: Action)
    requires Inv(env, s) && Truth(env, s) && Enabled(env, s, a)
    ensures Truth(env, Next(env, s, a))
  {
    hide *;
    match a
    case Arrive(_) => ArriveTrue(env, s, a);
    case Take(_) => TakeTrue(env, s, a);
    case OwnerAnswers(_, tokens) =>
      if tokens.Some? {
        OwnerTellsTrue(env, s, a);
      } else {
        OwnerFailsTrue(env, s, a);
      }
    case CheckContract(_) => CheckContractTrue(env, s, a);
    case ReadDetails(_) => ReadDetailsTrue(env, s, a);
    case Gather(_) => GatherTrue(env, s, a);
    case ParseToken(_) => ParseTokenTrue(env, s, a);
    case JoinCalls(_) => JoinCallsTrue(env, s, a);
    case CallReturns(_, _) => CallReturnsTrue(env, s, a);
    case StartMeridian(_) => StartMeridianTrue(env, s, a);
    case Respond(_) => RespondTrue(env, s, a);
  }

  lemma {:induction false} RunKeepsTruth(env: Env, s: State, actions: seq<Action>)
    requires Inv(env, s) && Truth(env, s) && Run(env, s, actions).Some?
    ensures Truth(env, Run(env, s, actions).value)
    decreases |actions|
  {
    if actions != [] {
      hide Inv, Truth, Next, Enabled;
      StepKeepsInv(env, s, actions[0]);
      StepKeepsTruth(env, s, actions[0]);
      RunKeepsTruth(env, Next(env, s, actions[0]), actions[1..]);
    }
  }

  lemma ReachableTruth(env: Env, s: State)
    requires Reachable(env, s)
    ensures Truth(env, s)
  {
    var actions :| Run(env, [], actions) == Some(s);
    RunKeepsTruth(env, [], actions);
  }
}
