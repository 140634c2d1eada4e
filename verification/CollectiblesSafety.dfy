/** What every step of the collectibles fan-out keeps: the shape of the task tree and the data in it. */
module CollectiblesSafety {
  import opened Text
  import opened Collectibles

  /** The log names each slot at most once, inside the range. */
  ghost predicate LogOk(log: seq<Finished>, n: nat) {
    && (forall a :: 0 <= a < |log| ==> log[a].slot < n)
    && (forall a, b :: 0 <= a < b < |log| ==> log[a].slot != log[b].slot)
  }

  ghost predicate Logged(log: seq<Finished>, slot: nat, ok: bool) {
    exists a :: 0 <= a < |log| && log[a] == Finished(slot, ok)
  }

  /*** The invariant ***/

  ghost predicate ChildOk(env: Env, s: State, i: nat, j: nat)
    requires i < |s| && s[i].first <= j < |s|
  {
    var x, c, k := s[i], s[j], j - s[i].first;
    i < j && c.parent == i &&
    match x.stage
    case Details => c.kind.RpcCall?
    case Calls => c.kind.RpcCall?
    case Tokens =>
      && x.kind.CollectionTask? && k < |x.kind.details.tokens| && c.slot == k
      && c.kind == TokenTask(x.kind.details.id, x.kind.details.tokens[k])
    case Users =>
      && x.kind.RequestTask? && k < |x.kind.contracts| && c.slot == k
      && c.kind == CollectionTask(true, x.kind.contracts[k])
    case Meridian =>
      && x.kind.RequestTask? && k < |env.MeridianContracts()| && c.slot == |x.kind.contracts| + k
      && c.kind.CollectionTask? && !c.kind.pooled && c.kind.details.id == env.MeridianContracts()[k]
    case _ => false
  }

  ghost predicate StageOk(env: Env, x: Node) {
    match x.kind
    case RpcCall => x.stage == Fresh && x.count == 0
    case TokenTask(_, _) =>
      || (x.stage == Fresh && x.count == 0)
      || (x.stage == Calls && x.count == 2 && x.status != Queued)
    case CollectionTask(pooled, d) =>
      || (x.stage == OwnerTokens && x.count == 0 && !pooled && x.status != Queued)
      || (x.stage == Fresh && x.count == 0 && (x.status == Queued ==> pooled))
      || (x.stage == Details && x.count == 2 && x.status != Queued)
      || (x.stage == Tokens && x.count == |d.tokens| && x.status != Queued)
    case RequestTask(contracts) =>
      && x.status != Queued
      && ((x.stage == Users && x.count == |contracts| && x.status == Running)
          || (x.stage == Meridian && x.count == |env.MeridianContracts()|))
  }

  /** An unfinished token or collection task is a current child of a running parent. */
  ghost predicate Linked(s: State, i: nat)
    requires i < |s|
  {
    s[i].kind.TokenTask? || s[i].kind.CollectionTask? ==>
      && s[i].parent < i
      && (s[i].status != Done ==>
            var p := s[s[i].parent]; p.status == Running && p.first <= i < p.first + p.count)
  }

  /** Slot k of a request: empty until its task ends, then that task's result. */
  ghost predicate SlotIs(s: State, slot: Option<CollectionResult>, j: nat) {
    j < |s| && slot == if s[j].status == Done then Some(s[j].result) else None
  }

  /** The slots from `lo` on belong to the tasks from `base` on. */
  ghost predicate SlotsAre(s: State, slots: seq<Option<CollectionResult>>, lo: nat, base: nat) {
    forall k :: lo <= k < |slots| ==> SlotIs(s, slots[k], base + (k - lo))
  }

  predicate EndedAt(s: State, j: nat) {
    j < |s| && s[j].status == Done
  }

  /** Once its task has ended, token k is in the collection's log with that task's outcome. */
  ghost predicate TokenLogged(s: State, x: Node, k: nat) {
    EndedAt(s, x.first + k) ==> Logged(x.log, k, s[x.first + k].ok)
  }

  ghost predicate DataOk(env: Env, s: State, i: nat)
    requires i < |s|
  {
    var x := s[i];
    match x.kind
    case CollectionTask(_, d) =>
      && (x.stage != Tokens ==> x.log == [])
      && (x.stage == Tokens ==>
            && LogOk(x.log, |d.tokens|)
            && (forall a :: 0 <= a < |x.log| ==> EndedAt(s, x.first + x.log[a].slot))
            && (forall k :: 0 <= k < |d.tokens| ==> TokenLogged(s, x, k)))
    case RequestTask(contracts) =>
      if x.stage == Users then
        && |x.slots| == |contracts|
        && SlotsAre(s, x.slots, 0, x.first)
      else
        && |x.slots| == |contracts| + |env.MeridianContracts()|
        && SlotsAre(s, x.slots, |contracts|, x.first)
        && (x.status == Done ==> ChildrenDone(s, i))
    case _ => true
  }

  ghost predicate NodeOk(env: Env, s: State, i: nat)
    requires i < |s|
  {
    && s[i].first + s[i].count <= |s|
    && (forall j :: s[i].first <= j < s[i].first + s[i].count ==> ChildOk(env, s, i, j))
    && StageOk(env, s[i]) && Linked(s, i) && DataOk(env, s, i)
  }

  ghost predicate PoolsOk(env: Env, s: State) {
    forall p :: RunningIn(s, p) <= env.Capacity(p)
  }

  ghost predicate Inv(env: Env, s: State) {
    PoolsOk(env, s) && forall i :: 0 <= i < |s| ==> NodeOk(env, s, i)
  }

  /*** Frames ***/

  predicate SameKind(x: Kind, y: Kind) {
    || x == y
    || (x.CollectionTask? && y.CollectionTask? && !x.pooled && !y.pooled && x.details.id == y.details.id)
  }

  /** What a parent's part of the invariant reads of a child. */
  predicate SameChild(x: Node, y: Node) {
    && SameKind(x.kind, y.kind) && x.parent == y.parent && x.slot == y.slot
    && (!x.kind.RpcCall? ==> (x.status == Done <==> y.status == Done) && x.ok == y.ok && x.result == y.result)
  }

  /** What a child's part of the invariant reads of its parent. */
  predicate SameParent(x: Node, y: Node) {
    x.status == Running ==> y.status == Running && x.first == y.first && x.count == y.count
  }

  predicate ChildRange(s: State, i: nat, j: nat)
    requires i < |s|
  {
    s[i].first <= j < s[i].first + s[i].count
  }

  predicate HasParent(s: State, i: nat)
    requires i < |s|
  {
    (s[i].kind.TokenTask? || s[i].kind.CollectionTask?) && s[i].status != Done && s[i].parent < |s|
  }

  lemma FramedData(env: Env, s: State, t: State, i: nat)
    requires i < |s| <= |t| && NodeOk(env, s, i) && s[i] == t[i]
    requires forall j: nat :: ChildRange(s, i, j) ==> SameChild(s[j], t[j])
    ensures DataOk(env, t, i)
  {
    var x := s[i];
    forall j | x.first <= j < x.first + x.count ensures SameChild(s[j], t[j]) && ChildOk(env, s, i, j) {
      assert ChildRange(s, i, j);
    }
    if x.kind.CollectionTask? && x.stage == Tokens {
      forall k | 0 <= k < |x.kind.details.tokens| ensures TokenLogged(t, x, k) {
        assert TokenLogged(s, x, k) && SameChild(s[x.first + k], t[x.first + k]);
      }
    }
    if x.kind.RequestTask? {
      SlotsKept(s, t, x.slots, if x.stage == Users then 0 else |x.kind.contracts|, x.first);
    }
  }

  lemma FramedChildren(env: Env, s: State, t: State, i: nat)
    requires i < |s| <= |t| && NodeOk(env, s, i)
    requires s[i].kind == t[i].kind && s[i].stage == t[i].stage && s[i].first == t[i].first && s[i].count == t[i].count
    requires forall j: nat :: ChildRange(s, i, j) ==> SameChild(s[j], t[j])
    ensures forall j :: t[i].first <= j < t[i].first + t[i].count ==> ChildOk(env, t, i, j)
  {
    forall j | t[i].first <= j < t[i].first + t[i].count ensures ChildOk(env, t, i, j) {
      assert ChildRange(s, i, j) && ChildOk(env, s, i, j);
    }
  }

  lemma SlotsKept(s: State, t: State, slots: seq<Option<CollectionResult>>, lo: nat, base: nat)
    requires SlotsAre(s, slots, lo, base) && |s| <= |t|
    requires forall j :: base <= j < base + (|slots| - lo) && j < |s| ==>
      (s[j].status == Done <==> t[j].status == Done) && s[j].result == t[j].result
    ensures SlotsAre(t, slots, lo, base)
  {
    forall k | lo <= k < |slots| ensures SlotIs(t, slots[k], base + (k - lo)) {
      assert SlotIs(s, slots[k], base + (k - lo));
    }
  }

  lemma Framed(env: Env, s: State, t: State, i: nat)
    requires i < |s| <= |t| && NodeOk(env, s, i) && s[i] == t[i]
    requires forall j: nat :: ChildRange(s, i, j) ==> SameChild(s[j], t[j])
    requires HasParent(s, i) ==> SameParent(s[s[i].parent], t[s[i].parent])
    ensures NodeOk(env, t, i)
  {
    FramedChildren(env, s, t, i);
    FramedData(env, s, t, i);
    assert Linked(t, i);
  }

  ghost predicate NodesOk(env: Env, s: State) {
    forall i :: 0 <= i < |s| ==> NodeOk(env, s, i)
  }

  /**
   * A bystander of a change to task i (and perhaps to its parent p). Either i still looks the same to a
   * parent, or p is that parent; either i still looks the same to its children, or they are all done.
   */
  lemma Bystander(env: Env, s: State, t: State, i: nat, p: nat, j: nat)
    requires NodesOk(env, s) && i < |s| <= |t| && p < |s| && j < |s| && j != i && j != p
    requires forall k :: 0 <= k < |s| && k != i && k != p ==> t[k] == s[k]
    requires p != i ==> SameChild(s[p], t[p]) && SameParent(s[p], t[p])
    requires SameChild(s[i], t[i]) || s[i].parent == p || s[i].kind.RequestTask?
    requires SameParent(s[i], t[i]) || ChildrenDone(s, i)
    ensures NodeOk(env, t, j)
  {
    assert NodeOk(env, s, j);
    forall k: nat | ChildRange(s, j, k) ensures SameChild(s[k], t[k]) {
      assert ChildOk(env, s, j, k);
    }
    assert HasParent(s, j) ==> Linked(s, j);
    Framed(env, s, t, j);
  }

  /*** Pools ***/

  function Busy(x: Node, p: Pool): nat {
    if x.status == Running && PoolOf(x.kind) == Some(p) then 1 else 0
  }

  lemma {:induction false} RunningUpdate(s: State, i: nat, x: Node, p: Pool)
    requires i < |s|
    ensures RunningIn(s[i := x], p) == RunningIn(s, p) - Busy(s[i], p) + Busy(x, p)
  {
    var n := |s| - 1;
    if i == n {
      assert s[i := x][..n] == s[..n];
    } else {
      assert s[i := x][..n] == s[..n][i := x];
      RunningUpdate(s[..n], i, x, p);
    }
  }

  /** New tasks are queued, or run outside the pools. */
  lemma {:induction false} RunningAppend(s: State, kids: seq<Node>, p: Pool)
    requires forall j :: 0 <= j < |kids| ==> Busy(kids[j], p) == 0
    ensures RunningIn(s + kids, p) == RunningIn(s, p)
  {
    if kids == [] {
      assert s + kids == s;
    } else {
      var n := |kids| - 1;
      assert (s + kids)[..|s| + n] == s + kids[..n];
      RunningAppend(s, kids[..n], p);
    }
  }

  lemma PoolsAfterReplace(env: Env, s: State, i: nat, x: Node)
    requires PoolsOk(env, s) && i < |s| && forall p :: Busy(x, p) <= Busy(s[i], p)
    ensures PoolsOk(env, s[i := x])
  {
    forall p ensures RunningIn(s[i := x], p) <= env.Capacity(p) {
      RunningUpdate(s, i, x, p);
    }
  }

  lemma PoolsAfterAppend(env: Env, s: State, kids: seq<Node>)
    requires PoolsOk(env, s) && forall j, p :: 0 <= j < |kids| ==> Busy(kids[j], p) == 0
    ensures PoolsOk(env, s + kids)
  {
    forall p ensures RunningIn(s + kids, p) <= env.Capacity(p) {
      RunningAppend(s, kids, p);
    }
  }
}
