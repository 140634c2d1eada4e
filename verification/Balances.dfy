/**
 * GetBalancesByAccountAddresses (internal/services/wallet_backend.go): one fetch per distinct address in
 * an errgroup with a limit. The group's context ends with the caller's, or at the first error; a fetch
 * that sees its context ended may be cut short with any error other than account-not-found.
 */
module Balances {
  import opened Amounts
  import opened ErrorChains
  import opened Slices
  import opened Text

  datatype Reply = Fetched(balances: seq<SdkBalance>) | Failed(err: Err)

  datatype Account = Account(address: string, isFunded: bool, subentryCount: nat, balances: seq<Balance>)

  /*** One account ***/

  function MapAll(balances: seq<SdkBalance>): (mapped: seq<Balance>)
    ensures |mapped| == |balances|
    ensures forall k :: 0 <= k < |balances| ==> mapped[k] == MapBalance(balances[k])
  {
    seq(|balances|, k requires 0 <= k < |balances| => MapBalance(balances[k]))
  }

  predicate NoNativeAfter(balances: seq<SdkBalance>, k: nat) {
    forall j :: k < j < |balances| ==> !balances[j].NativeBalance?
  }

  /** The last native entry, when there is one. */
  function LastNative(balances: seq<SdkBalance>): (r: Option<SdkBalance>)
    ensures r.None? <==> forall b :: b in balances ==> !b.NativeBalance?
    ensures r.Some? ==> r.value.NativeBalance?
    ensures r.Some? ==> exists k :: 0 <= k < |balances| && balances[k] == r.value && NoNativeAfter(balances, k)
  {
    if balances == [] then None
    else
      var front, last := balances[..|balances| - 1], balances[|balances| - 1];
      assert balances == front + [last];
      if last.NativeBalance? then
        assert NoNativeAfter(balances, |front|);
        Some(last)
      else
        var r := LastNative(front);
        assert forall k :: 0 <= k < |front| && NoNativeAfter(front, k) ==> NoNativeAfter(balances, k);
        r
  }

  function Mapped(address: string, balances: seq<SdkBalance>): Account {
    var native := LastNative(balances);
    if native.Some? && native.value.NativeBalance? then Account(address, true, native.value.subentries, MapAll(balances))
    else Account(address, false, 0, [])
  }

  /** The loop over one account's balances. */
  method MapAccount(address: string, balances: seq<SdkBalance>) returns (ab: Account)
    ensures ab == Mapped(address, balances)
  {
    hide MapBalance;
    ab := Account(address, false, 0, []);
    var mapped: seq<Balance> := [];
    for k := 0 to |balances|
      invariant mapped == MapAll(balances[..k])
      invariant ab.address == address && ab.balances == []
      invariant ab.isFunded == LastNative(balances[..k]).Some?
      invariant ab.subentryCount == if ab.isFunded then LastNative(balances[..k]).value.subentries else 0
    {
      assert balances[..k + 1][..k] == balances[..k];
      var b := balances[k];
      match b {
        case NativeBalance(_, _, _, _, subentries) => ab := ab.(isFunded := true, subentryCount := subentries);
        case _ =>
      }
      mapped := mapped + [MapBalance(b)];
    }
    assert balances[..|balances|] == balances;
    if ab.isFunded {
      ab := ab.(balances := mapped);
    }
  }

  /** Funded exactly when a native balance is there; only a funded account shows balances, and all of them. */
  lemma FundedIffNative(address: string, balances: seq<SdkBalance>)
    ensures var a := Mapped(address, balances);
      && (a.isFunded <==> exists b :: b in balances && b.NativeBalance?)
      && a.balances == (if a.isFunded then MapAll(balances) else [])
      && (a.isFunded ==> exists k :: 0 <= k < |balances| && balances[k].NativeBalance? && NoNativeAfter(balances, k)
                                       && balances[k].subentries == a.subentryCount)
  {
    hide MapAll;
    var native := LastNative(balances);
    assert native.Some? ==> native.value in balances;
  }

  /** What one goroutine makes of the client's reply: an account, or the group's error. */
  function Outcome(address: string, reply: Reply): Result<Account, Err> {
    match reply
    case Fetched(balances) => Ok(Mapped(address, balances))
    case Failed(e) => if Has(e, IsNotFound) then Ok(Account(address, false, 0, [])) else Result.Err(ClassifyWB(e))
  }

  /** A failure that is not just a missing account. */
  predicate Systemic(reply: Reply) {
    reply.Failed? && !Has(reply.err, IsNotFound)
  }

  /*** The fan-out ***/

  /** `reply` is what the upstream says about each address when it is left to answer. */
  datatype Env = Env(addresses: seq<string>, maxConcurrency: nat, reply: string -> Reply)
  {
    function Unique(): seq<string> {
      Dedupe(addresses)
    }
  }

  datatype Worker = Pending | Running | Done

  datatype State = State(workers: seq<Worker>, results: seq<Option<Account>>, firstErr: Option<Err>, callerDone: bool)

  function Init(env: Env): State {
    State(seq(|env.Unique()|, _ => Pending), seq(|env.Unique()|, _ => None), None, false)
  }

  datatype Action = Launch(i: nat) | Answer(i: nat) | CutShort(i: nat, err: Err) | CallerDone

  function Active(workers: seq<Worker>): nat {
    if workers == [] then 0
    else Active(workers[..|workers| - 1]) + if workers[|workers| - 1].Running? then 1 else 0
  }

  predicate Enabled(env: Env, s: State, a: Action) {
    match a
    case Launch(i) =>
      && i < |s.workers| && s.workers[i].Pending? && Active(s.workers) < env.maxConcurrency
      && forall j :: 0 <= j < i ==> !s.workers[j].Pending?
    case Answer(i) => i < |s.workers| && i < |s.results| && i < |env.Unique()| && s.workers[i].Running?
    case CutShort(i, e) =>
      && i < |s.workers| && i < |s.results| && i < |env.Unique()| && s.workers[i].Running?
      && (s.callerDone || s.firstErr.Some?) && !Has(e, IsNotFound)
    case CallerDone => true
  }

  /** The goroutine returns: its slot is written, or the first error is kept and ends the group's context. */
  function Finish(env: Env, s: State, i: nat, reply: Reply): State
    requires i < |s.workers| && i < |s.results| && i < |env.Unique()|
  {
    var done := s.(workers := s.workers[i := Done]);
    match Outcome(env.Unique()[i], reply)
    case Ok(account) => done.(results := s.results[i := Some(account)])
    case Err(e) => if s.firstErr.None? then done.(firstErr := Some(e)) else done
  }

  function Next(env: Env, s: State, a: Action): State
    requires Enabled(env, s, a)
  {
    match a
    case Launch(i) => s.(workers := s.workers[i := Running])
    case Answer(i) => Finish(env, s, i, env.reply(env.Unique()[i]))
    case CutShort(i, e) => Finish(env, s, i, Failed(e))
    case CallerDone => s.(callerDone := true)
  }

  function Run(env: Env, s: State, actions: seq<Action>): Option<State>
    decreases |actions|
  {
    if actions == [] then Some(s)
    else if Enabled(env, s, actions[0]) then Run(env, Next(env, s, actions[0]), actions[1..])
    else None
  }

  ghost predicate Reachable(env: Env, s: State) {
    exists actions :: Run(env, Init(env), actions) == Some(s)
  }

  predicate AllDone(s: State) {
    forall i :: 0 <= i < |s.workers| ==> s.workers[i].Done?
  }

  /** What g.Wait and the return statement make of a finished group. */
  function Returned(s: State): Result<seq<Option<Account>>, Err> {
    match s.firstErr
    case Some(e) => Result.Err(e)
    case None => Ok(s.results)
  }

  /*** Invariant ***/

  /** The classified failure of some requested address. */
  ghost predicate Genuine(env: Env, e: Err) {
    exists address :: address in env.addresses && Systemic(env.reply(address)) && e == ClassifyWB(env.reply(address).err)
  }

  /** A slot is empty until its goroutine is back; then it is right, or an error is on record. */
  predicate SlotOk(env: Env, s: State, i: nat)
    requires i < |s.workers| == |s.results| == |env.Unique()|
  {
    var address := env.Unique()[i];
    && (s.workers[i] != Done ==> s.results[i].None?)
    && (s.results[i].Some? ==> Outcome(address, env.reply(address)) == Ok(s.results[i].value))
    && (s.workers[i].Done? && s.results[i].None? ==> s.firstErr.Some?)
  }

  /** The fetches that were started are a prefix of the addresses. */
  predicate InOrder(workers: seq<Worker>) {
    forall j, i :: 0 <= j < i < |workers| && workers[j].Pending? ==> workers[i].Pending?
  }

  ghost predicate Inv(env: Env, s: State) {
    && |s.workers| == |s.results| == |env.Unique()|
    && Active(s.workers) <= env.maxConcurrency
    && InOrder(s.workers)
    && (forall i :: 0 <= i < |s.workers| ==> SlotOk(env, s, i))
    && (s.firstErr.Some? && !s.callerDone ==> Genuine(env, s.firstErr.value))
  }

  lemma {:induction false} ActiveUpdate(workers: seq<Worker>, i: nat, w: Worker)
    requires i < |workers|
    ensures Active(workers[i := w]) ==
            Active(workers) - (if workers[i].Running? then 1 else 0) + if w.Running? then 1 else 0
  {
    var n := |workers| - 1;
    if i == n {
      assert workers[i := w][..n] == workers[..n];
    } else {
      ActiveUpdate(workers[..n], i, w);
      assert workers[i := w][..n] == workers[..n][i := w];
    }
  }

  lemma {:induction false} ActivePending(workers: seq<Worker>)
    requires forall i :: 0 <= i < |workers| ==> workers[i].Pending?
    ensures Active(workers) == 0
  {
    if workers != [] {
      ActivePending(workers[..|workers| - 1]);
    }
  }

  /** A goroutine may return its own reply at any time, or any failure once the context is over. */
  lemma FinishKeepsInv(env: Env, s: State, i: nat, reply: Reply)
    requires Inv(env, s) && i < |s.workers| && s.workers[i].Running?
    requires reply == env.reply(env.Unique()[i]) || (Systemic(reply) && (s.callerDone || s.firstErr.Some?))
    ensures Inv(env, Finish(env, s, i, reply))
  {
    var t := Finish(env, s, i, reply);
    var address := env.Unique()[i];
    ActiveUpdate(s.workers, i, Done);
    assert SlotOk(env, s, i);
    forall j | 0 <= j < |t.workers| ensures SlotOk(env, t, j) {
      assert SlotOk(env, s, j);
    }
    if t.firstErr != s.firstErr && !t.callerDone {
      assert address in env.Unique();
      assert Genuine(env, t.firstErr.value);
    }
  }

  lemma LaunchKeepsInv(env: Env, s: State, i: nat)
    requires Inv(env, s) && Enabled(env, s, Launch(i))
    ensures Inv(env, Next(env, s, Launch(i)))
  {
    var t := Next(env, s, Launch(i));
    ActiveUpdate(s.workers, i, Running);
    forall j | 0 <= j < |t.workers| ensures SlotOk(env, t, j) {
      assert SlotOk(env, s, j);
    }
  }

  lemma StepKeepsInv(env: Env, s: State, a: Action)
    requires Inv(env, s) && Enabled(env, s, a)
    ensures Inv(env, Next(env, s, a))
  {
    match a
    case Launch(i) => LaunchKeepsInv(env, s, i);
    case Answer(i) => FinishKeepsInv(env, s, i, env.reply(env.Unique()[i]));
    case CutShort(i, e) => FinishKeepsInv(env, s, i, Failed(e));
    case CallerDone =>
      forall j | 0 <= j < |s.workers| ensures SlotOk(env, Next(env, s, a), j) {
        assert SlotOk(env, s, j);
      }
  }

  lemma {:induction false} RunKeepsInv(env: Env, s: State, actions: seq<Action>)
    requires Inv(env, s) && Run(env, s, actions).Some?
    ensures Inv(env, Run(env, s, actions).value)
    decreases |actions|
  {
    if actions != [] {
      StepKeepsInv(env, s, actions[0]);
      RunKeepsInv(env, Next(env, s, actions[0]), actions[1..]);
    }
  }

  lemma InitInv(env: Env)
    ensures Inv(env, Init(env)) && !Init(env).callerDone
  {
    ActivePending(Init(env).workers);
  }

  lemma ReachableInv(env: Env, s: State)
    requires Reachable(env, s)
    ensures Inv(env, s)
  {
    InitInv(env);
    var actions :| Run(env, Init(env), actions) == Some(s);
    RunKeepsInv(env, Init(env), actions);
  }

  /*** What the caller gets ***/

  /** The answer without any concurrency: every address in first-seen order, or no answer. */
  ghost predicate Expected(env: Env, accounts: seq<Option<Account>>) {
    && |accounts| == |env.Unique()|
    && forall i :: 0 <= i < |accounts| ==>
         accounts[i].Some? && Outcome(env.Unique()[i], env.reply(env.Unique()[i])) == Ok(accounts[i].value)
  }

  /** While the caller lives, an error is some requested address's own failure, never a sibling's cancellation. */
  lemma ErrorsAreGenuine(env: Env, s: State, e: Err)
    requires Reachable(env, s) && !s.callerDone && Returned(s) == Result.Err(e)
    ensures Genuine(env, e)
  {
    ReachableInv(env, s);
  }

  /** So the HTTP status is the one that failure deserves by itself, or 502 for a recognised upstream answer. */
  lemma ErrorStatusIsItsOwn(env: Env, s: State, e: Err)
    requires Reachable(env, s) && !s.callerDone && Returned(s) == Result.Err(e)
    ensures exists address :: address in env.addresses && Systemic(env.reply(address)) &&
              Status(e) == (var cause := env.reply(address).err; if Status(cause) == 500 && Answered(cause) then 502 else Status(cause))
  {
    ErrorsAreGenuine(env, s, e);
    var address :| address in env.addresses && Systemic(env.reply(address)) && e == ClassifyWB(env.reply(address).err);
    ClassifyWBKeepsCauses(env.reply(address).err);
  }

  /** A success is the same under every schedule, even when the caller gave up meanwhile. */
  lemma SuccessIsExpected(env: Env, s: State)
    requires Reachable(env, s) && AllDone(s) && Returned(s).Ok?
    ensures Expected(env, Returned(s).value)
  {
    ReachableInv(env, s);
    forall i | 0 <= i < |s.results|
      ensures s.results[i].Some? && Outcome(env.Unique()[i], env.reply(env.Unique()[i])) == Ok(s.results[i].value)
    {
      assert SlotOk(env, s, i);
    }
  }

  /** While the caller lives, the group fails exactly when the fetch of some requested address does. */
  lemma FailsIffSystemic(env: Env, s: State)
    requires Reachable(env, s) && AllDone(s) && !s.callerDone
    ensures Returned(s).Err? <==> exists address :: address in env.addresses && Systemic(env.reply(address))
    ensures forall address :: Systemic(env.reply(address)) <==>
              env.reply(address).Failed? && AccountNotFound !in Faults(env.reply(address).err)
  {
    ReachableInv(env, s);
    forall address | env.reply(address).Failed?
      ensures Has(env.reply(address).err, IsNotFound) <==> AccountNotFound in Faults(env.reply(address).err)
    {
      HasIsMembership(env.reply(address).err, IsNotFound);
    }
    if address :| address in env.addresses && Systemic(env.reply(address)) {
      assert address in env.Unique();
      var i :| 0 <= i < |env.Unique()| && env.Unique()[i] == address;
      assert SlotOk(env, s, i);
    }
  }

  lemma ScheduleIndependent(env: Env, s: State, t: State)
    requires Reachable(env, s) && AllDone(s) && !s.callerDone
    requires Reachable(env, t) && AllDone(t) && !t.callerDone
    ensures Returned(s).Ok? <==> Returned(t).Ok?
    ensures Returned(s).Ok? ==> Returned(s) == Returned(t)
  {
    FailsIffSystemic(env, s);
    FailsIffSystemic(env, t);
    if Returned(s).Ok? {
      SuccessIsExpected(env, s);
      SuccessIsExpected(env, t);
      assert s.results == t.results;
    }
  }

  /** The account of one reply: funded by its last native balance, and then showing every balance in order. */
  ghost predicate ShowsReply(reply: Reply, a: Account) {
    if reply.Fetched? && exists b :: b in reply.balances && b.NativeBalance? then
      && a.isFunded && |a.balances| == |reply.balances|
      && (forall k :: 0 <= k < |reply.balances| ==> Shows(reply.balances[k], a.balances[k]))
      && exists k :: 0 <= k < |reply.balances| && reply.balances[k].NativeBalance? && NoNativeAfter(reply.balances, k)
                       && a.subentryCount == reply.balances[k].subentries
    else !a.isFunded && a.subentryCount == 0 && a.balances == []
  }

  lemma OutcomeShowsReply(address: string, reply: Reply)
    requires Outcome(address, reply).Ok?
    ensures ShowsReply(reply, Outcome(address, reply).value) && Outcome(address, reply).value.address == address
  {
    if reply.Fetched? {
      FundedIffNative(address, reply.balances);
      forall k | 0 <= k < |reply.balances| ensures Shows(reply.balances[k], MapBalance(reply.balances[k])) {
        EveryBalanceShows(reply.balances[k]);
      }
      hide Shows, MapBalance;
    }
  }

  /** Slot i of a success is about the i-th distinct address, and shows what the upstream replied about it. */
  lemma SlotsInRequestOrder(env: Env, s: State, i: nat)
    requires Reachable(env, s) && AllDone(s) && Returned(s).Ok? && i < |env.Unique()|
    ensures i < |s.results| && s.results[i].Some? && s.results[i].value.address == env.Unique()[i]
    ensures ShowsReply(env.reply(env.Unique()[i]), s.results[i].value)
  {
    SuccessIsExpected(env, s);
    OutcomeShowsReply(env.Unique()[i], env.reply(env.Unique()[i]));
  }

  /** Addresses are taken up in request order: while one waits, so do all behind it. */
  lemma LaunchedInOrder(env: Env, s: State, i: nat, j: nat)
    requires Reachable(env, s) && j < i < |s.workers| && s.workers[i] != Pending
    ensures s.workers[j] != Pending
  {
    ReachableInv(env, s);
  }

  function Fetching(workers: seq<Worker>): set<nat> {
    set i: nat | i < |workers| && workers[i] == Running
  }

  lemma {:induction false} ActiveAreFetching(workers: seq<Worker>)
    ensures Active(workers) == |Fetching(workers)|
  {
    if workers != [] {
      var n := |workers| - 1;
      ActiveAreFetching(workers[..n]);
      var before := Fetching(workers[..n]);
      assert Fetching(workers) == if workers[n] == Running then before + {n} else before;
    }
  }

  lemma FetchesBounded(env: Env, s: State)
    requires Reachable(env, s)
    ensures |set i: nat | i < |s.workers| && s.workers[i] == Running| <= env.maxConcurrency
  {
    ReachableInv(env, s);
    ActiveAreFetching(s.workers);
  }

  /*** Progress ***/

  function Remaining(workers: seq<Worker>): nat {
    if workers == [] then 0
    else Remaining(workers[..|workers| - 1]) + match workers[|workers| - 1]
      case Pending => 2
      case Running => 1
      case Done => 0
  }

  lemma {:induction false} RemainingShrinks(workers: seq<Worker>, i: nat, w: Worker)
    requires i < |workers| && ((workers[i].Pending? && w.Running?) || (workers[i].Running? && w.Done?))
    ensures Remaining(workers[i := w]) == Remaining(workers) - 1
  {
    var n := |workers| - 1;
    if i == n {
      assert workers[i := w][..n] == workers[..n];
    } else {
      RemainingShrinks(workers[..n], i, w);
      assert workers[i := w][..n] == workers[..n][i := w];
    }
  }

  lemma {:induction false} NoneActive(workers: seq<Worker>)
    requires forall i :: 0 <= i < |workers| ==> !workers[i].Running?
    ensures Active(workers) == 0
  {
    if workers != [] {
      NoneActive(workers[..|workers| - 1]);
    }
  }

  function FirstPending(workers: seq<Worker>, n: nat): (i: nat)
    requires n < |workers| && workers[n].Pending?
    ensures i <= n && workers[i].Pending? && forall j :: 0 <= j < i ==> !workers[j].Pending?
  {
    if workers[0].Pending? then 0 else 1 + FirstPending(workers[1..], n - 1)
  }

  lemma CanMove(env: Env, s: State) returns (a: Action)
    requires env.maxConcurrency > 0 && Inv(env, s) && !AllDone(s)
    ensures Enabled(env, s, a) && (a.Launch? || a.Answer?)
  {
    if i :| 0 <= i < |s.workers| && s.workers[i].Running? {
      a := Answer(i);
    } else {
      var n :| 0 <= n < |s.workers| && s.workers[n].Pending?;
      NoneActive(s.workers);
      a := Launch(FirstPending(s.workers, n));
    }
  }

  /** An unfinished group can always move, and every step but the caller's own shortens what remains. */
  lemma AlwaysProgress(env: Env, s: State)
    requires env.maxConcurrency > 0 && Reachable(env, s) && !AllDone(s)
    ensures exists a: Action :: (a.Launch? || a.Answer?) && Enabled(env, s, a)
  {
    ReachableInv(env, s);
    var a := CanMove(env, s);
  }

  lemma StepsShorten(env: Env, s: State, a: Action)
    requires Enabled(env, s, a) && a != CallerDone
    ensures Remaining(Next(env, s, a).workers) < Remaining(s.workers)
  {
    RemainingShrinks(s.workers, a.i, if a.Launch? then Running else Done);
  }

  lemma {:induction false} CompletesFrom(env: Env, s: State) returns (actions: seq<Action>)
    requires env.maxConcurrency > 0 && Inv(env, s)
    ensures Run(env, s, actions).Some? && AllDone(Run(env, s, actions).value)
    ensures Run(env, s, actions).value.callerDone == s.callerDone
    decreases Remaining(s.workers)
  {
    if AllDone(s) {
      actions := [];
    } else {
      var a := CanMove(env, s);
      StepKeepsInv(env, s, a);
      StepsShorten(env, s, a);
      var rest := CompletesFrom(env, Next(env, s, a));
      hide Next, Enabled, Inv, AllDone;
      actions := [a] + rest;
      assert actions[1..] == rest;
    }
  }

  /** Left alone, every fan-out runs to its end. */
  lemma EveryFanOutCompletes(env: Env)
    requires env.maxConcurrency > 0
    ensures exists s :: Reachable(env, s) && AllDone(s) && !s.callerDone
  {
    InitInv(env);
    var actions := CompletesFrom(env, Init(env));
    assert Reachable(env, Run(env, Init(env), actions).value);
  }

  /** The group keeps its first error, whatever happens after it. */
  lemma {:induction false} FirstErrorStays(env: Env, s: State, actions: seq<Action>)
    requires s.firstErr.Some? && Run(env, s, actions).Some?
    ensures Returned(Run(env, s, actions).value) == Result.Err(s.firstErr.value)
    decreases |actions|
  {
    if actions != [] {
      FirstErrorStays(env, Next(env, s, actions[0]), actions[1..]);
    }
  }

  /** Once the caller has given up, a finished group may fail with any error, even if every address has an account. */
  lemma AbandonedMayFail(env: Env, e: Err)
    requires env.maxConcurrency > 0 && env.Unique() != [] && !Has(e, IsNotFound)
    ensures exists s :: Reachable(env, s) && AllDone(s) && Returned(s) == Result.Err(ClassifyWB(e))
  {
    InitInv(env);
    var s1 := Next(env, Init(env), CallerDone);
    StepKeepsInv(env, Init(env), CallerDone);
    ActivePending(s1.workers);
    var s2 := Next(env, s1, Launch(0));
    StepKeepsInv(env, s1, Launch(0));
    var s3 := Next(env, s2, CutShort(0, e));
    StepKeepsInv(env, s2, CutShort(0, e));
    var rest := CompletesFrom(env, s3);
    FirstErrorStays(env, s3, rest);
    var actions := [CallerDone, Launch(0), CutShort(0, e)] + rest;
    assert actions[1..][1..][1..] == rest;
    assert Run(env, s2, actions[1..][1..]) == Run(env, s3, rest);
    assert Run(env, s1, actions[1..]) == Run(env, s3, rest);
    assert Run(env, Init(env), actions) == Run(env, s3, rest);
    assert Reachable(env, Run(env, s3, rest).value);
  }
}
