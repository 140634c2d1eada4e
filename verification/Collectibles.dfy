/**
 * internal/api/handlers/collectibles.go and the fetch helpers of utils.go as an interleaving of steps:
 * requests, three handler-wide worker pools, and the tasks that wait inside them. Contexts are not
 * cancelled and tasks do not panic.
 */
module Collectibles {
  import opened Slices
  import opened Text

  datatype Contract = Contract(id: string, tokens: seq<string>)

  datatype Pool = ContractPool | TokenPool | RpcPool

  /** What the handler was built with, and the two syntactic checks it relies on. */
  datatype Env = Env(maxConcurrentRPCCalls: nat, huntAddress: string, poapAddress: string, houseAddress: string,
                     validContract: string -> bool, parsesAsUint32: string -> bool)
  {
    predicate Valid() {
      maxConcurrentRPCCalls > 0
    }

    /** A contract that is none of the addresses that are set. */
    predicate IsUsers(c: Contract) {
      c.id == "" || (c.id != huntAddress && c.id != poapAddress && c.id != houseAddress)
    }

    /** NewCollectiblesHandler: n contracts, 2n tokens, 4n RPC calls. */
    function Capacity(p: Pool): nat {
      match p
      case ContractPool => maxConcurrentRPCCalls
      case TokenPool => maxConcurrentRPCCalls * 2
      case RpcPool => maxConcurrentRPCCalls * 4
    }

    /** The configured Meridian contracts, in their fixed order. */
    function MeridianContracts(): seq<string> {
      (if huntAddress != "" then [huntAddress] else []) +
      (if poapAddress != "" then [poapAddress] else []) +
      (if houseAddress != "" then [houseAddress] else [])
    }
  }

  datatype ErrorKind = InvalidContract | CollectionFetchFailed | OwnerTokensFetchFailed | NoCollectiblesFetched | TokensFailed
  datatype CollectionError = CollectionError(kind: ErrorKind, address: string, tokens: seq<string>)
  datatype Collection = Collection(address: string, tokens: seq<string>)
  datatype CollectionResult = CollectionResult(collection: Option<Collection>, error: Option<CollectionError>)

  /** The user's contracts without the Meridian ones, which are looked up separately. */
  function Filtered(contracts: seq<Contract>, skip: set<string>): (r: seq<Contract>)
    ensures |r| <= |contracts|
  {
    if contracts == [] then []
    else
      var front, last := contracts[..|contracts| - 1], contracts[|contracts| - 1];
      if last.id in skip then Filtered(front, skip) else Filtered(front, skip) + [last]
  }

  /** What is left is what the skip set does not name, each contract as often and in the order as it was given. */
  lemma {:induction false} FilteredKeepsOrder(contracts: seq<Contract>, skip: set<string>) returns (positions: seq<nat>)
    ensures Selects(contracts, Filtered(contracts, skip), positions, (c: Contract) => c.id !in skip)
  {
    var keep := (c: Contract) => c.id !in skip;
    if contracts == [] {
      positions := [];
    } else {
      var n := |contracts| - 1;
      var before := FilteredKeepsOrder(contracts[..n], skip);
      hide Selects;
      assert contracts == contracts[..n] + [contracts[n]];
      var kept: seq<Contract>;
      kept, positions := SelectsNext(contracts[..n], contracts[n], Filtered(contracts[..n], skip), before, keep);
    }
  }

  method FilterContracts(env: Env, contracts: seq<Contract>) returns (filtered: seq<Contract>)
    ensures filtered == Filtered(contracts, set a | a in env.MeridianContracts())
    ensures exists positions :: Selects(contracts, filtered, positions, env.IsUsers)
  {
    var skip: set<string> := {};
    if env.huntAddress != "" { skip := skip + {env.huntAddress}; }
    if env.poapAddress != "" { skip := skip + {env.poapAddress}; }
    if env.houseAddress != "" { skip := skip + {env.houseAddress}; }
    assert skip == set a | a in env.MeridianContracts();
    filtered := FilterBySkip(contracts, skip);
    ghost var positions := UsersInOrder(env, contracts);
  }

  /** The configured Meridian contracts are the addresses that are set, in their fixed order. */
  lemma MeridianInOrder(env: Env) returns (positions: seq<nat>)
    ensures Selects([env.huntAddress, env.poapAddress, env.houseAddress], env.MeridianContracts(), positions,
                    (a: string) => a != "")
  {
    var isSet := (a: string) => a != "";
    SelectsNothing(isSet);
    hide Selects;
    var all := [env.huntAddress, env.poapAddress, env.houseAddress];
    assert [] + [env.huntAddress] == [env.huntAddress];
    assert [env.huntAddress] + [env.poapAddress] == [env.huntAddress, env.poapAddress];
    assert [env.huntAddress, env.poapAddress] + [env.houseAddress] == all;
    var one, first := SelectsNext([], env.huntAddress, [], [], isSet);
    var two, second := SelectsNext([env.huntAddress], env.poapAddress, one, first, isSet);
    var three, third := SelectsNext([env.huntAddress, env.poapAddress], env.houseAddress, two, second, isSet);
    assert three == env.MeridianContracts();
    positions := third;
  }

  /** The contracts that are left are the user's own, in request order. */
  lemma UsersInOrder(env: Env, contracts: seq<Contract>) returns (positions: seq<nat>)
    ensures Selects(contracts, Filtered(contracts, set a | a in env.MeridianContracts()), positions, env.IsUsers)
  {
    var skip := set a | a in env.MeridianContracts();
    positions := FilteredKeepsOrder(contracts, skip);
    assert forall c: Contract :: env.IsUsers(c) <==> c.id !in skip;
  }

  /** The loop over the user's contracts. */
  method FilterBySkip(contracts: seq<Contract>, skip: set<string>) returns (filtered: seq<Contract>)
    ensures filtered == Filtered(contracts, skip)
    ensures forall c :: c in filtered <==> c in contracts && c.id !in skip
  {
    filtered := [];
    for i := 0 to |contracts|
      invariant filtered == Filtered(contracts[..i], skip)
      invariant forall c :: c in filtered <==> c in contracts[..i] && c.id !in skip
    {
      assert contracts[..i + 1] == contracts[..i] + [contracts[i]];
      assert contracts[..i + 1][..i] == contracts[..i];
      if contracts[i].id !in skip {
        filtered := filtered + [contracts[i]];
      }
    }
    assert contracts[..|contracts|] == contracts;
  }

  /*** Tasks ***/

  datatype Kind =
    | RpcCall
    | TokenTask(contract: string, token: string)
    | CollectionTask(pooled: bool, details: Contract)
    | RequestTask(contracts: seq<Contract>)

  datatype Status = Queued | Running | Done

  /** Where a running task stands; in all but Fresh and OwnerTokens it waits for its children. */
  datatype Stage = OwnerTokens | Fresh | Details | Tokens | Calls | Users | Meridian

  /** One entry per finished token, in the order in which the mutex was taken. */
  datatype Finished = Finished(slot: nat, ok: bool)

  /**
   * A task. Its current children are nodes first .. first + count. `slot` is its position in its
   * parent's result, `log` and `slots` what its children reported, `ok` and `result` its own answer.
   * `calls` and `owner` are history, which no step reads: where its two RPC calls are, once submitted,
   * and what the chain said about the owner's tokens.
   */
  datatype Node = Node(kind: Kind, status: Status, stage: Stage, parent: nat, slot: nat, first: nat, count: nat,
                       log: seq<Finished>, slots: seq<Option<CollectionResult>>, ok: bool, result: CollectionResult,
                       calls: Option<nat>, owner: Option<Option<seq<string>>>)

  const NO_RESULT := CollectionResult(None, None)

  function NewNode(kind: Kind, status: Status, stage: Stage, parent: nat, slot: nat): Node {
    Node(kind, status, stage, parent, slot, 0, 0, [], [], false, NO_RESULT, None, None)
  }

  function PoolOf(kind: Kind): Option<Pool> {
    match kind
    case RpcCall => Some(RpcPool)
    case TokenTask(_, _) => Some(TokenPool)
    case CollectionTask(pooled, _) => if pooled then Some(ContractPool) else None
    case RequestTask(_) => None
  }

  /** Contract tasks wait on token and RPC tasks, token tasks on RPC tasks, RPC tasks on nothing. */
  function Level(kind: Kind): nat {
    match kind
    case RpcCall => 0
    case TokenTask(_, _) => 1
    case CollectionTask(_, _) => 2
    case RequestTask(_) => 3
  }

  function RunningIn(nodes: seq<Node>, p: Pool): nat {
    if nodes == [] then 0
    else
      var last := nodes[|nodes| - 1];
      RunningIn(nodes[..|nodes| - 1], p) + (if last.status == Running && PoolOf(last.kind) == Some(p) then 1 else 0)
  }

  /*** The answers ***/

  /** The ids among the log's entries with the given outcome, in completion order. */
  function IdsOf(tokens: seq<string>, log: seq<Finished>, ok: bool): seq<string> {
    if log == [] then []
    else
      var last := log[|log| - 1];
      IdsOf(tokens, log[..|log| - 1], ok) + (if last.ok == ok && last.slot < |tokens| then [tokens[last.slot]] else [])
  }

  function Failure(kind: ErrorKind, address: string): CollectionResult {
    CollectionResult(None, Some(CollectionError(kind, address, [])))
  }

  /** The end of fetchCollection, from what fetchCollectibles gathered. */
  function Gathered(c: Contract, fetched: seq<string>, failed: seq<string>): CollectionResult {
    if fetched == [] then
      CollectionResult(None, Some(CollectionError(NoCollectiblesFetched, c.id, failed)))
    else
      CollectionResult(Some(Collection(c.id, fetched)),
                       if failed != [] then Some(CollectionError(TokensFailed, c.id, failed)) else None)
  }

  /*** Steps ***/

  type State = seq<Node>

  datatype Action =
    | Arrive(contracts: seq<Contract>)
    | Take(i: nat)
    | OwnerAnswers(i: nat, tokens: Option<seq<string>>)
    | CheckContract(i: nat)
    | ReadDetails(i: nat)
    | Gather(i: nat)
    | ParseToken(i: nat)
    | JoinCalls(i: nat)
    | CallReturns(i: nat, ok: bool)
    | StartMeridian(i: nat)
    | Respond(i: nat)

  predicate ChildrenDone(s: State, i: nat)
    requires i < |s|
  {
    s[i].first + s[i].count <= |s| && forall j :: s[i].first <= j < s[i].first + s[i].count ==> s[j].status == Done
  }

  predicate At(s: State, i: nat, stage: Stage) {
    i < |s| && s[i].status == Running && s[i].stage == stage
  }

  /** The slot that a collection task writes exists (and is not the task's own). */
  predicate HasSlot(s: State, i: nat) {
    && i < |s| && s[i].parent < |s| && s[i].parent != i && s[i].slot < |s[s[i].parent].slots|
  }

  predicate Enabled(env: Env, s: State, a: Action) {
    match a
    case Arrive(_) => true
    case Take(i) =>
      && i < |s| && s[i].status == Queued && PoolOf(s[i].kind).Some?
      && RunningIn(s, PoolOf(s[i].kind).value) < env.Capacity(PoolOf(s[i].kind).value)
    case OwnerAnswers(i, _) => At(s, i, OwnerTokens) && s[i].kind.CollectionTask? && HasSlot(s, i)
    case CheckContract(i) => At(s, i, Fresh) && s[i].kind.CollectionTask? && HasSlot(s, i)
    case ReadDetails(i) =>
      At(s, i, Details) && s[i].kind.CollectionTask? && HasSlot(s, i) && s[i].count == 2 && ChildrenDone(s, i)
    case Gather(i) => At(s, i, Tokens) && s[i].kind.CollectionTask? && HasSlot(s, i) && ChildrenDone(s, i)
    case ParseToken(i) => At(s, i, Fresh) && s[i].kind.TokenTask? && s[i].parent < |s|
    case JoinCalls(i) => At(s, i, Calls) && s[i].kind.TokenTask? && s[i].parent < |s| && s[i].count == 2 && ChildrenDone(s, i)
    case CallReturns(i, _) => i < |s| && s[i].kind.RpcCall? && s[i].status == Running
    case StartMeridian(i) => At(s, i, Users) && s[i].kind.RequestTask? && ChildrenDone(s, i)
    case Respond(i) => At(s, i, Meridian) && s[i].kind.RequestTask? && ChildrenDone(s, i)
  }

  /** Node i submits `kids` to their pools (or starts them as goroutines) and waits. */
  function Submit(s: State, i: nat, stage: Stage, kids: seq<Node>): State
    requires i < |s|
  {
    s[i := s[i].(stage := stage, first := |s|, count := |kids|)] + kids
  }

  /** fetchCollection returns: the task writes its own slot of the request's results. */
  function FinishCollection(s: State, i: nat, result: CollectionResult): State
    requires HasSlot(s, i)
  {
    var p := s[i].parent;
    var done := s[i := s[i].(status := Done, result := result)];
    done[p := done[p].(slots := done[p].slots[s[i].slot := Some(result)])]
  }

  /** A token task appends its outcome to its collection's lists under the mutex, and ends. */
  function FinishToken(s: State, i: nat, ok: bool): State
    requires i < |s| && s[i].parent < |s|
  {
    var p := s[i].parent;
    var done := s[i := s[i].(status := Done, ok := ok)];
    done[p := done[p].(log := done[p].log + [Finished(s[i].slot, ok)])]
  }

  function Calls2(i: nat): seq<Node> {
    [NewNode(RpcCall, Queued, Fresh, i, 0), NewNode(RpcCall, Queued, Fresh, i, 1)]
  }

  /** Two RPC calls for node i: name and symbol of a collection, or owner and URI of a token. */
  function SubmitCalls(s: State, i: nat, stage: Stage): State
    requires i < |s|
  {
    Submit(s[i := s[i].(calls := Some(|s|))], i, stage, Calls2(i))
  }

  function TokenKids(i: nat, c: Contract): seq<Node> {
    seq(|c.tokens|, j requires 0 <= j < |c.tokens| => NewNode(TokenTask(c.id, c.tokens[j]), Queued, Fresh, i, j))
  }

  function UserKids(i: nat, contracts: seq<Contract>): seq<Node> {
    seq(|contracts|, j requires 0 <= j < |contracts| => NewNode(CollectionTask(true, contracts[j]), Queued, Fresh, i, j))
  }

  /** Meridian goroutines run outside the pools and first ask for the owner's tokens. */
  function MeridianKids(i: nat, addresses: seq<string>, offset: nat): seq<Node> {
    seq(|addresses|, j requires 0 <= j < |addresses| =>
      NewNode(CollectionTask(false, Contract(addresses[j], [])), Running, OwnerTokens, i, offset + j))
  }

  function Next(env: Env, s: State, a: Action): State
    requires Enabled(env, s, a)
  {
    match a
    case Arrive(contracts) =>
      var wanted := Filtered(contracts, set m | m in env.MeridianContracts());
      var request := Node(RequestTask(wanted), Running, Users, |s|, 0, |s| + 1, |wanted|, [],
                          seq(|wanted|, _ => None), false, NO_RESULT, None, None);
      s + [request] + UserKids(|s|, wanted)
    case Take(i) => s[i := s[i].(status := Running)]
    case OwnerAnswers(i, tokens) =>
      var c := s[i].kind.details;
      var told := s[i := s[i].(owner := Some(tokens))];
      if tokens.None? then FinishCollection(told, i, Failure(OwnerTokensFetchFailed, c.id))
      else told[i := told[i].(stage := Fresh, kind := CollectionTask(false, Contract(c.id, tokens.value)))]
    case CheckContract(i) =>
      var c := s[i].kind.details;
      if !env.validContract(c.id) then FinishCollection(s, i, Failure(InvalidContract, c.id))
      else SubmitCalls(s, i, Details)
    case ReadDetails(i) =>
      var c := s[i].kind.details;
      if !(s[s[i].first].ok && s[s[i].first + 1].ok) then FinishCollection(s, i, Failure(CollectionFetchFailed, c.id))
      else Submit(s, i, Tokens, TokenKids(i, c))
    case Gather(i) =>
      var c := s[i].kind.details;
      FinishCollection(s, i, Gathered(c, IdsOf(c.tokens, s[i].log, true), IdsOf(c.tokens, s[i].log, false)))
    case ParseToken(i) =>
      if !env.parsesAsUint32(s[i].kind.token) then FinishToken(s, i, false) else SubmitCalls(s, i, Calls)
    case JoinCalls(i) => FinishToken(s, i, s[s[i].first].ok && s[s[i].first + 1].ok)
    case CallReturns(i, ok) => s[i := s[i].(status := Done, ok := ok)]
    case StartMeridian(i) =>
      var addresses := env.MeridianContracts();
      var kids := MeridianKids(i, addresses, |s[i].slots|);
      Submit(s[i := s[i].(slots := s[i].slots + seq(|addresses|, _ => None))], i, Meridian, kids)
    case Respond(i) => s[i := s[i].(status := Done)]
  }

  function Run(env: Env, s: State, actions: seq<Action>): Option<State>
    decreases |actions|
  {
    if actions == [] then Some(s)
    else if Enabled(env, s, actions[0]) then Run(env, Next(env, s, actions[0]), actions[1..])
    else None
  }

  ghost predicate Reachable(env: Env, s: State) {
    exists actions :: Run(env, [], actions) == Some(s)
  }
}
