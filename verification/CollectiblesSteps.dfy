/** Every step of the collectibles fan-out preserves the invariant. */
module CollectiblesSteps {
  import opened Text
  import opened Collectibles
  import opened CollectiblesSafety

  /** A step that changes one task only. */
  lemma ReplaceKeeps(env: Env, s: State, i: nat, x: Node)
    requires NodesOk(env, s) && i < |s| && NodeOk(env, s[i := x], i)
    requires SameChild(s[i], x) || s[i].kind.RequestTask?
    requires SameParent(s[i], x) || ChildrenDone(s, i)
    ensures NodesOk(env, s[i := x])
  {
    var t := s[i := x];
    forall j | 0 <= j < |t| ensures NodeOk(env, t, j) {
      if j != i {
        Bystander(env, s, t, i, i, j);
      }
    }
  }

  lemma TakeStep(env: Env, s: State, a: Action)
    requires Inv(env, s) && Enabled(env, s, a) && a.Take?
    ensures Inv(env, Next(env, s, a))
  {
    var i := a.i;
    var x := s[i].(status := Running);
    assert NodeOk(env, s, i);
    assert NodeOk(env, s[i := x], i);
    ReplaceKeeps(env, s, i, x);
    forall p ensures RunningIn(s[i := x], p) <= env.Capacity(p) {
      RunningUpdate(s, i, x, p);
    }
  }

  lemma CallReturnsStep(env: Env, s: State, a: Action)
    requires Inv(env, s) && Enabled(env, s, a) && a.CallReturns?
    ensures Inv(env, Next(env, s, a))
  {
    var i := a.i;
    var x := s[i].(status := Done, ok := a.ok);
    assert NodeOk(env, s, i);
    assert NodeOk(env, s[i := x], i);
    ReplaceKeeps(env, s, i, x);
    PoolsAfterReplace(env, s, i, x);
  }

  lemma RespondStep(env: Env, s: State, a: Action)
    requires Inv(env, s) && Enabled(env, s, a) && a.Respond?
    ensures Inv(env, Next(env, s, a))
  {
    var i := a.i;
    var x := s[i].(status := Done);
    assert NodeOk(env, s, i);
    var t := s[i := x];
    forall j | x.first <= j < x.first + x.count ensures ChildOk(env, t, i, j) && t[j] == s[j] {
      assert ChildOk(env, s, i, j);
    }
    assert DataOk(env, t, i);
    ReplaceKeeps(env, s, i, x);
    PoolsAfterReplace(env, s, i, x);
  }

  lemma OwnerHasTokensStep(env: Env, s: State, a: Action)
    requires Inv(env, s) && Enabled(env, s, a) && a.OwnerAnswers? && a.tokens.Some?
    ensures Inv(env, Next(env, s, a))
  {
    var i := a.i;
    var x := s[i].(stage := Fresh, kind := CollectionTask(false, Contract(s[i].kind.details.id, a.tokens.value)),
                   owner := Some(a.tokens));
    assert Next(env, s, a) == s[i := x];
    assert NodeOk(env, s, i);
    assert NodeOk(env, s[i := x], i);
    ReplaceKeeps(env, s, i, x);
    PoolsAfterReplace(env, s, i, x);
  }

  /*** Endings ***/

  /** A collection task in a request's range: where its slot is. */
  lemma CollectionSlot(env: Env, s: State, i: nat)
    requires NodesOk(env, s) && i < |s| && s[i].kind.CollectionTask? && s[i].status == Running
    ensures HasSlot(s, i) && s[s[i].parent].kind.RequestTask? && s[s[i].parent].status == Running
    ensures ChildRange(s, s[i].parent, i) && ChildOk(env, s, s[i].parent, i)
  {
    assert NodeOk(env, s, i);
    assert NodeOk(env, s, s[i].parent);
    assert ChildRange(s, s[i].parent, i);
    assert ChildOk(env, s, s[i].parent, i);
  }

  /** Writing the slot of the task that has just ended. */
  lemma SlotWritten(s: State, t: State, slots: seq<Option<CollectionResult>>, lo: nat, base: nat, w: nat, result: CollectionResult)
    requires SlotsAre(s, slots, lo, base) && lo <= w < |slots| && |s| == |t| && base + (w - lo) < |s|
    requires t[base + (w - lo)].status == Done && t[base + (w - lo)].result == result
    requires forall j :: 0 <= j < |s| && j != base + (w - lo) ==> t[j].status == s[j].status && t[j].result == s[j].result
    ensures SlotsAre(t, slots[w := Some(result)], lo, base)
  {
    var written := slots[w := Some(result)];
    forall k | lo <= k < |written| ensures SlotIs(t, written[k], base + (k - lo)) {
      assert SlotIs(s, slots[k], base + (k - lo));
    }
  }

  lemma SlotsAfterCollection(env: Env, s: State, i: nat, result: CollectionResult)
    requires NodesOk(env, s) && i < |s| && s[i].kind.CollectionTask? && s[i].status == Running
    requires HasSlot(s, i)
    ensures DataOk(env, FinishCollection(s, i, result), s[i].parent)
  {
    CollectionSlot(env, s, i);
    var t := FinishCollection(s, i, result);
    var x := s[s[i].parent];
    assert NodeOk(env, s, s[i].parent);
    SlotWritten(s, t, x.slots, if x.stage == Users then 0 else |x.kind.contracts|, x.first, s[i].slot, result);
  }

  lemma RangeAfterCollection(env: Env, s: State, i: nat, result: CollectionResult)
    requires NodesOk(env, s) && i < |s| && s[i].kind.CollectionTask? && s[i].status == Running && HasSlot(s, i)
    ensures var t, p := FinishCollection(s, i, result), s[i].parent;
      forall j :: t[p].first <= j < t[p].first + t[p].count ==> j < |t| && ChildOk(env, t, p, j)
  {
    CollectionSlot(env, s, i);
    var t, p := FinishCollection(s, i, result), s[i].parent;
    assert NodeOk(env, s, p);
    hide DataOk, Linked;
    forall j | t[p].first <= j < t[p].first + t[p].count ensures ChildOk(env, t, p, j) {
      assert ChildOk(env, s, p, j);
    }
  }

  lemma ParentAfterCollection(env: Env, s: State, i: nat, result: CollectionResult)
    requires NodesOk(env, s) && i < |s| && s[i].kind.CollectionTask? && s[i].status == Running
    requires HasSlot(s, i)
    ensures NodeOk(env, FinishCollection(s, i, result), s[i].parent)
  {
    CollectionSlot(env, s, i);
    var t := FinishCollection(s, i, result);
    var p := s[i].parent;
    assert NodeOk(env, s, p);
    RangeAfterCollection(env, s, i, result);
    SlotsAfterCollection(env, s, i, result);
    assert t[p] == s[p].(slots := t[p].slots);
  }

  /** A task's own children stay as they are when it ends. */
  lemma ChildrenAfterCollection(env: Env, s: State, i: nat, result: CollectionResult)
    requires NodesOk(env, s) && i < |s| && s[i].kind.CollectionTask? && s[i].status == Running
    requires HasSlot(s, i)
    ensures var t := FinishCollection(s, i, result);
      forall j :: s[i].first <= j < s[i].first + s[i].count ==> j < |t| && t[j] == s[j] && ChildOk(env, t, i, j)
  {
    CollectionSlot(env, s, i);
    assert NodeOk(env, s, i);
    var t := FinishCollection(s, i, result);
    hide DataOk, Linked, StageOk;
    forall j | s[i].first <= j < s[i].first + s[i].count ensures t[j] == s[j] && ChildOk(env, t, i, j) {
      assert ChildOk(env, s, i, j);
    }
  }

  lemma DataAfterCollection(env: Env, s: State, t: State, i: nat, x: Node)
    requires i < |s| && NodeOk(env, s, i) && s[i].kind.CollectionTask? && |t| == |s|
    requires t[i] == x && x.kind == s[i].kind && x.stage == s[i].stage && x.log == s[i].log && x.first == s[i].first
    requires forall j :: s[i].first <= j < s[i].first + s[i].count ==> t[j] == s[j]
    ensures DataOk(env, t, i)
  {
    hide ChildOk, Linked;
    if x.stage == Tokens {
      forall k | 0 <= k < |x.kind.details.tokens| ensures TokenLogged(t, x, k) {
        assert TokenLogged(s, s[i], k);
      }
    }
  }

  lemma SelfAfterCollection(env: Env, s: State, i: nat, result: CollectionResult)
    requires NodesOk(env, s) && i < |s| && s[i].kind.CollectionTask? && s[i].status == Running
    requires HasSlot(s, i) && ChildrenDone(s, i)
    ensures NodeOk(env, FinishCollection(s, i, result), i)
  {
    CollectionSlot(env, s, i);
    var t := FinishCollection(s, i, result);
    assert NodeOk(env, s, i);
    ChildrenAfterCollection(env, s, i, result);
    DataAfterCollection(env, s, t, i, t[i]);
    hide DataOk, ChildOk;
  }

  lemma FinishCollectionKeeps(env: Env, s: State, i: nat, result: CollectionResult)
    requires Inv(env, s) && i < |s| && s[i].kind.CollectionTask? && s[i].status == Running
    requires HasSlot(s, i) && ChildrenDone(s, i)
    ensures Inv(env, FinishCollection(s, i, result))
  {
    CollectionSlot(env, s, i);
    var t := FinishCollection(s, i, result);
    var p := s[i].parent;
    ParentAfterCollection(env, s, i, result);
    SelfAfterCollection(env, s, i, result);
    forall j | 0 <= j < |t| ensures NodeOk(env, t, j) {
      if j != i && j != p {
        Bystander(env, s, t, i, p, j);
      }
    }
    var done := s[i := s[i].(status := Done, result := result)];
    PoolsAfterReplace(env, s, i, done[i]);
    PoolsAfterReplace(env, done, p, t[p]);
  }

  lemma TokenSlot(env: Env, s: State, i: nat)
    requires NodesOk(env, s) && i < |s| && s[i].kind.TokenTask? && s[i].status == Running
    ensures s[i].parent < i
    ensures var x := s[s[i].parent];
      && x.kind.CollectionTask? && x.status == Running && x.stage == Tokens
      && i == x.first + s[i].slot && s[i].slot < x.count == |x.kind.details.tokens|
  {
    assert NodeOk(env, s, i);
    assert NodeOk(env, s, s[i].parent);
    assert ChildOk(env, s, s[i].parent, i);
  }

  /** The parent's log names only ended tasks, each once. */
  lemma LogAfterToken(env: Env, s: State, i: nat, ok: bool)
    requires NodesOk(env, s) && i < |s| && s[i].kind.TokenTask? && s[i].status == Running && s[i].parent < |s|
    ensures var t, p := FinishToken(s, i, ok), s[i].parent;
      && t[p].kind.CollectionTask? && LogOk(t[p].log, |t[p].kind.details.tokens|)
      && forall a :: 0 <= a < |t[p].log| ==> EndedAt(t, t[p].first + t[p].log[a].slot)
  {
    TokenSlot(env, s, i);
    var t := FinishToken(s, i, ok);
    var x, y := s[s[i].parent], t[s[i].parent];
    assert NodeOk(env, s, s[i].parent);
    hide NodesOk, NodeOk;
    forall a | 0 <= a < |x.log| ensures x.log[a].slot != s[i].slot {
      assert EndedAt(s, x.first + x.log[a].slot);
    }
    forall a | 0 <= a < |y.log| ensures EndedAt(t, y.first + y.log[a].slot) {
      if a < |x.log| {
        assert EndedAt(s, x.first + x.log[a].slot);
      }
    }
  }

  lemma LoggedAfterToken(env: Env, s: State, i: nat, ok: bool, k: nat)
    requires NodesOk(env, s) && i < |s| && s[i].kind.TokenTask? && s[i].status == Running && s[i].parent < |s|
    requires s[s[i].parent].kind.CollectionTask? && k < |s[s[i].parent].kind.details.tokens|
    ensures TokenLogged(FinishToken(s, i, ok), FinishToken(s, i, ok)[s[i].parent], k)
  {
    TokenSlot(env, s, i);
    var t := FinishToken(s, i, ok);
    var x, y := s[s[i].parent], t[s[i].parent];
    assert NodeOk(env, s, s[i].parent);
    assert TokenLogged(s, x, k);
    hide NodesOk, NodeOk;
    if k == s[i].slot {
      assert y.log[|x.log|] == Finished(k, ok);
    } else if EndedAt(t, x.first + k) {
      assert t[x.first + k] == s[x.first + k];
      var a :| 0 <= a < |x.log| && x.log[a] == Finished(k, s[x.first + k].ok);
      assert y.log[a] == x.log[a];
    }
  }

  lemma ParentAfterToken(env: Env, s: State, i: nat, ok: bool)
    requires NodesOk(env, s) && i < |s| && s[i].kind.TokenTask? && s[i].status == Running && s[i].parent < |s|
    ensures NodeOk(env, FinishToken(s, i, ok), s[i].parent)
  {
    TokenSlot(env, s, i);
    var t := FinishToken(s, i, ok);
    var p := s[i].parent;
    var x, y := s[p], t[p];
    assert NodeOk(env, s, p);
    LogAfterToken(env, s, i, ok);
    hide EndedAt, LogOk, TokenLogged;
    forall j | x.first <= j < x.first + x.count ensures ChildOk(env, t, p, j) {
      assert ChildOk(env, s, p, j);
    }
    forall k | 0 <= k < |x.kind.details.tokens| ensures TokenLogged(t, y, k) {
      LoggedAfterToken(env, s, i, ok, k);
    }
    assert DataOk(env, t, p);
    assert Linked(t, p);
  }

  lemma FinishTokenKeeps(env: Env, s: State, i: nat, ok: bool)
    requires Inv(env, s) && i < |s| && s[i].kind.TokenTask? && s[i].status == Running && s[i].parent < |s|
    requires ChildrenDone(s, i)
    ensures Inv(env, FinishToken(s, i, ok))
  {
    TokenSlot(env, s, i);
    var t := FinishToken(s, i, ok);
    var p := s[i].parent;
    ParentAfterToken(env, s, i, ok);
    assert NodeOk(env, s, i);
    forall j | t[i].first <= j < t[i].first + t[i].count ensures ChildOk(env, t, i, j) {
      assert ChildOk(env, s, i, j);
    }
    assert NodeOk(env, t, i);
    forall j | 0 <= j < |t| ensures NodeOk(env, t, j) {
      if j != i && j != p {
        Bystander(env, s, t, i, p, j);
      }
    }
    var done := s[i := s[i].(status := Done, ok := ok)];
    PoolsAfterReplace(env, s, i, done[i]);
    PoolsAfterReplace(env, done, p, t[p]);
  }

  /*** Submissions ***/

  /** A task whose current children are done submits new ones. */
  lemma SubmitKeeps(env: Env, s: State, i: nat, x: Node, kids: seq<Node>, t: State)
    requires Inv(env, s) && i < |s| && t == s[i := x] + kids
    requires s[i].status == Running && x.status == Running && ChildrenDone(s, i)
    requires SameChild(s[i], x) || s[i].kind.RequestTask?
    requires x.kind == s[i].kind
    requires NodeOk(env, t, i) && forall j :: |s| <= j < |t| ==> NodeOk(env, t, j)
    requires forall k, p :: 0 <= k < |kids| ==> Busy(kids[k], p) == 0
    ensures Inv(env, t)
  {
    forall j | 0 <= j < |t| ensures NodeOk(env, t, j) {
      if j < |s| && j != i {
        Bystander(env, s, t, i, i, j);
      }
    }
    PoolsAfterReplace(env, s, i, x);
    PoolsAfterAppend(env, s[i := x], kids);
  }

  lemma SubmitCallsKeeps(env: Env, s: State, i: nat, stage: Stage)
    requires Inv(env, s) && i < |s| && s[i].status == Running && s[i].stage == Fresh
    requires (s[i].kind.CollectionTask? && stage == Details) || (s[i].kind.TokenTask? && stage == Calls)
    ensures Inv(env, SubmitCalls(s, i, stage))
  {
    assert NodeOk(env, s, i);
    var kids := Calls2(i);
    var x := s[i].(stage := stage, first := |s|, count := 2, calls := Some(|s|));
    var t := s[i := x] + kids;
    forall j | |s| <= j < |s| + 2 ensures NodeOk(env, t, j) && ChildOk(env, t, i, j) {
      assert t[j] == kids[j - |s|];
    }
    assert NodeOk(env, t, i);
    assert SubmitCalls(s, i, stage) == t;
    SubmitKeeps(env, s, i, x, kids, t);
  }

  lemma SubmitTokens(env: Env, s: State, i: nat)
    requires Inv(env, s) && i < |s| && s[i].status == Running && s[i].stage == Details
    requires s[i].kind.CollectionTask? && ChildrenDone(s, i)
    ensures Inv(env, Submit(s, i, Tokens, TokenKids(i, s[i].kind.details)))
  {
    assert NodeOk(env, s, i);
    var c := s[i].kind.details;
    var kids := TokenKids(i, c);
    var x := s[i].(stage := Tokens, first := |s|, count := |kids|);
    var t := s[i := x] + kids;
    forall j | |s| <= j < |s| + |kids| ensures NodeOk(env, t, j) && ChildOk(env, t, i, j) {
      assert t[j] == kids[j - |s|];
    }
    forall k | 0 <= k < |c.tokens| ensures TokenLogged(t, x, k) {
      assert t[|s| + k] == kids[k];
    }
    assert DataOk(env, t, i);
    SubmitKeeps(env, s, i, x, kids, t);
  }

  lemma MeridianChildren(env: Env, s: State, t: State, i: nat)
    requires i < |s| && s[i].kind.RequestTask? && |t| == |s| + |env.MeridianContracts()|
    requires t[i].kind == s[i].kind && t[i].status == Running && t[i].stage == Meridian
    requires t[i].first == |s| && t[i].count == |env.MeridianContracts()|
    requires t[|s|..] == MeridianKids(i, env.MeridianContracts(), |s[i].kind.contracts|)
    ensures forall j :: |s| <= j < |t| ==> NodeOk(env, t, j) && ChildOk(env, t, i, j)
    requires |t[i].slots| == |s[i].kind.contracts| + t[i].count
    requires forall k :: |s[i].kind.contracts| <= k < |t[i].slots| ==> t[i].slots[k] == None
    ensures SlotsAre(t, t[i].slots, |s[i].kind.contracts|, |s|)
  {
    forall j | |s| <= j < |t| ensures NodeOk(env, t, j) && ChildOk(env, t, i, j) && t[j].status == Running {
      assert t[j] == t[|s|..][j - |s|];
    }
  }

  lemma StartMeridianStep(env: Env, s: State, a: Action)
    requires Inv(env, s) && Enabled(env, s, a) && a.StartMeridian?
    ensures Inv(env, Next(env, s, a))
  {
    var i := a.i;
    assert NodeOk(env, s, i);
    var m := env.MeridianContracts();
    var slots := s[i].slots + seq(|m|, _ => None);
    var kids := MeridianKids(i, m, |s[i].slots|);
    var x := s[i].(stage := Meridian, first := |s|, count := |kids|, slots := slots);
    var t := s[i := x] + kids;
    assert t == Next(env, s, a);
    assert t[|s|..] == kids;
    MeridianChildren(env, s, t, i);
    assert DataOk(env, t, i);
    SubmitKeeps(env, s, i, x, kids, t);
  }

  lemma ArrivedChildren(env: Env, s: State, t: State, wanted: seq<Contract>)
    requires |t| == |s| + 1 + |wanted| && t[|s|].kind == RequestTask(wanted)
    requires t[|s|].status == Running && t[|s|].stage == Users && t[|s|].first == |s| + 1 && t[|s|].count == |wanted|
    requires t[|s| + 1..] == UserKids(|s|, wanted)
    requires t[|s|].slots == seq(|wanted|, _ => None)
    ensures forall j :: |s| <= j < |t| ==> NodeOk(env, t, j)
  {
    var n := |s|;
    forall j | n < j < |t| ensures NodeOk(env, t, j) && ChildOk(env, t, n, j) && t[j].status == Queued {
      assert t[j] == t[n + 1..][j - n - 1];
    }
    assert SlotsAre(t, t[n].slots, 0, n + 1);
  }

  lemma ArriveStep(env: Env, s: State, a: Action)
    requires Inv(env, s) && Enabled(env, s, a) && a.Arrive?
    ensures Inv(env, Next(env, s, a))
  {
    var t := Next(env, s, a);
    var n := |s|;
    var wanted := Filtered(a.contracts, set m | m in env.MeridianContracts());
    var kids := UserKids(n, wanted);
    assert t == s + ([t[n]] + kids);
    assert t[n + 1..] == kids;
    ArrivedChildren(env, s, t, wanted);
    forall j | 0 <= j < n ensures NodeOk(env, t, j) {
      Framed(env, s, t, j);
    }
    PoolsAfterAppend(env, s, [t[n]] + kids);
  }

  lemma GatherStep(env: Env, s: State, a: Action)
    requires Inv(env, s) && Enabled(env, s, a) && a.Gather?
    ensures Inv(env, Next(env, s, a))
  {
    var d := s[a.i].kind.details;
    FinishCollectionKeeps(env, s, a.i, Gathered(d, IdsOf(d.tokens, s[a.i].log, true), IdsOf(d.tokens, s[a.i].log, false)));
  }

  lemma ToldKeepsInv(env: Env, s: State, i: nat, x: Node)
    requires Inv(env, s) && At(s, i, OwnerTokens) && s[i].kind.CollectionTask? && HasSlot(s, i)
    requires x == s[i].(owner := x.owner)
    ensures Inv(env, s[i := x]) && ChildrenDone(s[i := x], i) && HasSlot(s[i := x], i)
  {
    assert NodeOk(env, s, i);
    assert NodeOk(env, s[i := x], i);
    ReplaceKeeps(env, s, i, x);
    PoolsAfterReplace(env, s, i, x);
  }

  lemma OwnerAnswersStep(env: Env, s: State, a: Action)
    requires Inv(env, s) && Enabled(env, s, a) && a.OwnerAnswers?
    ensures Inv(env, Next(env, s, a))
  {
    if a.tokens.Some? {
      OwnerHasTokensStep(env, s, a);
    } else {
      var x := s[a.i].(owner := Some(None));
      ToldKeepsInv(env, s, a.i, x);
      FinishCollectionKeeps(env, s[a.i := x], a.i, Failure(OwnerTokensFetchFailed, s[a.i].kind.details.id));
    }
  }

  lemma CheckContractStep(env: Env, s: State, a: Action)
    requires Inv(env, s) && Enabled(env, s, a) && a.CheckContract?
    ensures Inv(env, Next(env, s, a))
  {
    assert NodeOk(env, s, a.i);
    if env.validContract(s[a.i].kind.details.id) {
      SubmitCallsKeeps(env, s, a.i, Details);
    } else {
      FinishCollectionKeeps(env, s, a.i, Failure(InvalidContract, s[a.i].kind.details.id));
    }
  }

  lemma ReadDetailsStep(env: Env, s: State, a: Action)
    requires Inv(env, s) && Enabled(env, s, a) && a.ReadDetails?
    ensures Inv(env, Next(env, s, a))
  {
    if s[s[a.i].first].ok && s[s[a.i].first + 1].ok {
      SubmitTokens(env, s, a.i);
    } else {
      FinishCollectionKeeps(env, s, a.i, Failure(CollectionFetchFailed, s[a.i].kind.details.id));
    }
  }

  lemma ParseTokenStep(env: Env, s: State, a: Action)
    requires Inv(env, s) && Enabled(env, s, a) && a.ParseToken?
    ensures Inv(env, Next(env, s, a))
  {
    assert NodeOk(env, s, a.i);
    if env.parsesAsUint32(s[a.i].kind.token) {
      SubmitCallsKeeps(env, s, a.i, Calls);
    } else {
      FinishTokenKeeps(env, s, a.i, false);
    }
  }

  lemma JoinCallsStep(env: Env, s: State, a: Action)
    requires Inv(env, s) && Enabled(env, s, a) && a.JoinCalls?
    ensures Inv(env, Next(env, s, a))
  {
    FinishTokenKeeps(env, s, a.i, s[s[a.i].first].ok && s[s[a.i].first + 1].ok);
  }

  lemma StepKeepsInv(env: Env, s: State, a: Action)
    requires Inv(env, s) && Enabled(env, s, a)
    ensures Inv(env, Next(env, s, a))
  {
    hide *;
    match a
    case Arrive(_) => ArriveStep(env, s, a);
    case Take(_) => TakeStep(env, s, a);
    case OwnerAnswers(_, _) => OwnerAnswersStep(env, s, a);
    case CheckContract(_) => CheckContractStep(env, s, a);
    case ReadDetails(_) => ReadDetailsStep(env, s, a);
    case Gather(_) => GatherStep(env, s, a);
    case ParseToken(_) => ParseTokenStep(env, s, a);
    case JoinCalls(_) => JoinCallsStep(env, s, a);
    case CallReturns(_, _) => CallReturnsStep(env, s, a);
    case StartMeridian(_) => StartMeridianStep(env, s, a);
    case Respond(_) => RespondStep(env, s, a);
  }

  lemma {:induction false} RunKeepsInv(env: Env, s: State, actions: seq<Action>)
    requires Inv(env, s) && Run(env, s, actions).Some?
    ensures Inv(env, Run(env, s, actions).value)
    decreases |actions|
  {
    if actions != [] {
      StepKeepsInv(env, s, actions[0]);
      RunKeepsInv(env, Next(env, s, actions[0]), actions[1..]);
    }
  }

  lemma ReachableInv(env: Env, s: State)
    requires Reachable(env, s)
    ensures Inv(env, s)
  {
    var actions :| Run(env, [], actions) == Some(s);
    RunKeepsInv(env, [], actions);
  }
}
