/**
 * internal/api/handlers/token_prices.go: the request is validated and reduced to distinct canonical ids,
 * the answer is keyed by the client's own spellings.
 */
module TokenPrices {
  import AssetId
  import ErrorChains
  import opened PriceCache
  import opened PriceOrchestrator
  import opened PriceAges
  import opened PriceTheorems
  import opened Slices
  import opened Text

  /** What decoding the request body yields. */
  datatype Decoded = OverLimit | NotJson | Tokens(tokens: seq<string>)

  datatype Validated = Validated(originals: seq<string>, canonicalIds: seq<string>, canonicalByOriginal: map<string, string>)

  predicate AllNormalize(valid: string -> bool, tokens: seq<string>) {
    forall i :: 0 <= i < |tokens| ==> AssetId.Normalize(valid, tokens[i]).Ok?
  }

  /** The canonical id of each token, in order. */
  function Canonicals(valid: string -> bool, tokens: seq<string>): (ids: seq<string>)
    requires AllNormalize(valid, tokens)
    ensures |ids| == |tokens|
    ensures forall i :: 0 <= i < |tokens| ==> ids[i] == AssetId.Normalize(valid, tokens[i]).value
  {
    seq(|tokens|, i requires 0 <= i < |tokens| => AssetId.Normalize(valid, tokens[i]).value)
  }

  /** The cap counts distinct canonical ids; a cap of zero or less is no cap. */
  predicate WithinCap(valid: string -> bool, tokens: seq<string>, maxTokens: int)
    requires AllNormalize(valid, tokens)
  {
    maxTokens > 0 ==> |Dedupe(Canonicals(valid, tokens))| <= maxTokens
  }

  predicate Acceptable(valid: string -> bool, d: Decoded, maxTokens: int) {
    d.Tokens? && d.tokens != [] && AllNormalize(valid, d.tokens) && WithinCap(valid, d.tokens, maxTokens)
  }

  lemma CanonicalsStep(valid: string -> bool, tokens: seq<string>, i: nat)
    requires i < |tokens| && AllNormalize(valid, tokens[..i]) && AssetId.Normalize(valid, tokens[i]).Ok?
    ensures AllNormalize(valid, tokens[..i + 1])
    ensures var id, seen := AssetId.Normalize(valid, tokens[i]).value, Dedupe(Canonicals(valid, tokens[..i]));
      Dedupe(Canonicals(valid, tokens[..i + 1])) == if id in seen then seen else seen + [id]
  {
    hide AssetId.Normalize;
    var front, id := Canonicals(valid, tokens[..i]), AssetId.Normalize(valid, tokens[i]).value;
    assert forall j :: 0 <= j <= i ==> tokens[..i + 1][j] == tokens[j];
    assert Canonicals(valid, tokens[..i + 1]) == front + [id];
    assert (front + [id])[..i] == front;
  }

  lemma RejectsToken(valid: string -> bool, tokens: seq<string>, i: nat)
    requires i < |tokens| && AssetId.Normalize(valid, tokens[i]).Err?
    ensures !AllNormalize(valid, tokens)
  {
  }

  /** Exactly these tokens are keys, each with its canonical id. */
  ghost predicate MapsEach(valid: string -> bool, tokens: seq<string>, byOriginal: map<string, string>) {
    && (forall t :: t in byOriginal <==> t in tokens)
    && forall t :: t in byOriginal ==> AssetId.Normalize(valid, t) == Ok(byOriginal[t])
  }

  lemma MapsOneMore(valid: string -> bool, tokens: seq<string>, i: nat, byOriginal: map<string, string>, id: string)
    requires i < |tokens| && MapsEach(valid, tokens[..i], byOriginal) && AssetId.Normalize(valid, tokens[i]) == Ok(id)
    ensures MapsEach(valid, tokens[..i + 1], byOriginal[tokens[i] := id])
  {
    hide AssetId.Normalize;
    assert tokens[..i + 1] == tokens[..i] + [tokens[i]];
  }

  /** The loop over the tokens: their distinct canonical ids, and the way back from each spelling. */
  method Canonicalize(valid: string -> bool, tokens: seq<string>)
      returns (ok: bool, canonicalIds: seq<string>, byOriginal: map<string, string>)
    ensures ok <==> AllNormalize(valid, tokens)
    ensures ok ==> canonicalIds == Dedupe(Canonicals(valid, tokens)) && MapsEach(valid, tokens, byOriginal)
  {
    hide AssetId.Normalize, Canonicals, AllNormalize, Dedupe, MapsEach;
    canonicalIds, byOriginal := [], map[];
    var seen: set<string> := {};
    EmptyTables(valid, tokens);
    for i := 0 to |tokens|
      invariant AllNormalize(valid, tokens[..i]) && MapsEach(valid, tokens[..i], byOriginal)
      invariant forall x :: x in seen <==> x in canonicalIds
      invariant canonicalIds == Dedupe(Canonicals(valid, tokens[..i]))
    {
      var canonical := AssetId.Normalize(valid, tokens[i]);
      if canonical.Err? {
        RejectsToken(valid, tokens, i);
        return false, [], map[];
      }
      CanonicalsStep(valid, tokens, i);
      MapsOneMore(valid, tokens, i, byOriginal, canonical.value);
      byOriginal := byOriginal[tokens[i] := canonical.value];
      if canonical.value !in seen {
        seen := seen + {canonical.value};
        canonicalIds := canonicalIds + [canonical.value];
      }
    }
    assert tokens[..|tokens|] == tokens;
    ok := true;
  }

  lemma EmptyTables(valid: string -> bool, tokens: seq<string>)
    ensures AllNormalize(valid, tokens[..0]) && MapsEach(valid, tokens[..0], map[])
    ensures Dedupe(Canonicals(valid, tokens[..0])) == []
  {
  }

  lemma {:induction false} DedupeCounts(ids: seq<string>)
    ensures |Dedupe(ids)| == |set x | x in ids|
  {
    if ids != [] {
      var front, last := ids[..|ids| - 1], ids[|ids| - 1];
      DedupeCounts(front);
      assert ids == front + [last];
      var before := set x | x in front;
      assert (set x | x in ids) == before + {last};
      if last in before {
        assert before + {last} == before;
      } else {
        assert last !in front;
        assert |before + {last}| == |before| + 1;
      }
    }
  }

  /** The assets a request denotes, each once. */
  ghost function Denoted(valid: string -> bool, tokens: seq<string>): set<string>
    requires AllNormalize(valid, tokens)
  {
    set t | t in tokens && AssetId.Normalize(valid, t).Ok? :: AssetId.Normalize(valid, t).value
  }

  lemma DenotedAreCanonicals(valid: string -> bool, tokens: seq<string>)
    requires AllNormalize(valid, tokens)
    ensures |Dedupe(Canonicals(valid, tokens))| == |Denoted(valid, tokens)|
  {
    hide AssetId.Normalize;
    var ids := Canonicals(valid, tokens);
    DedupeCounts(ids);
    forall id ensures id in ids <==> id in Denoted(valid, tokens) {
      if id in ids {
        var i :| 0 <= i < |ids| && ids[i] == id;
        assert tokens[i] in tokens;
      }
      if t :| t in tokens && AssetId.Normalize(valid, t).Ok? && AssetId.Normalize(valid, t).value == id {
        var i :| 0 <= i < |tokens| && tokens[i] == t;
        assert ids[i] in ids;
      }
    }
    assert (set x | x in ids) == Denoted(valid, tokens);
  }

  /** A request that names at least one token, only tokens that normalize, and no more assets than the cap, if there is one. */
  lemma AcceptableMeans(valid: string -> bool, d: Decoded, maxTokens: int)
    ensures Acceptable(valid, d, maxTokens) <==>
      && d.Tokens? && |d.tokens| >= 1 && (forall t :: t in d.tokens ==> AssetId.Normalize(valid, t).Ok?)
      && (maxTokens >= 1 ==> AllNormalize(valid, d.tokens) && |Denoted(valid, d.tokens)| <= maxTokens)
  {
    hide AssetId.Normalize, Canonicals, Denoted;
    if d.Tokens? && AllNormalize(valid, d.tokens) {
      DenotedAreCanonicals(valid, d.tokens);
    }
  }

  /** validateTokenPricesRequest; the error is an HTTP status. */
  method ValidateRequest(valid: string -> bool, d: Decoded, maxTokens: int) returns (r: Result<Validated, int>)
    ensures r.Ok? <==> Acceptable(valid, d, maxTokens)
    ensures r.Ok? <==>
      && d.Tokens? && |d.tokens| >= 1 && (forall t :: t in d.tokens ==> AssetId.Normalize(valid, t).Ok?)
      && (maxTokens >= 1 ==> AllNormalize(valid, d.tokens) && |Denoted(valid, d.tokens)| <= maxTokens)
    ensures r.Err? ==> r.error == if d.OverLimit? then 413 else 400
    ensures r.Ok? ==>
      && r.value.originals == d.tokens
      && r.value.canonicalIds == Dedupe(Canonicals(valid, d.tokens))
      && MapsEach(valid, d.tokens, r.value.canonicalByOriginal)
  {
    AcceptableMeans(valid, d, maxTokens);
    hide Denoted;
    if d.OverLimit? {
      return Err(413);
    }
    if d.NotJson? || d.tokens == [] {
      return Err(400);
    }
    hide AssetId.Normalize, Canonicals, AllNormalize, Dedupe, MapsEach;
    var ok, canonicalIds, byOriginal := Canonicalize(valid, d.tokens);
    if !ok || (maxTokens > 0 && |canonicalIds| > maxTokens) {
      return Err(400);
    }
    r := Ok(Validated(d.tokens, canonicalIds, byOriginal));
  }

  /** A missing map key reads as a null price. */
  function PriceOf(prices: map<string, Option<Entry>>, id: string): Option<Entry> {
    if id in prices then prices[id] else None
  }

  /** The response loop. */
  method Echo(v: Validated, prices: map<string, Option<Entry>>) returns (out: map<string, Option<Entry>>)
    requires forall t :: t in v.originals ==> t in v.canonicalByOriginal
    ensures forall t :: t in out <==> t in v.originals
    ensures forall t :: t in out ==> out[t] == PriceOf(prices, v.canonicalByOriginal[t])
  {
    out := map[];
    for i := 0 to |v.originals|
      invariant forall t :: t in out <==> t in v.originals[..i]
      invariant forall t :: t in out ==> out[t] == PriceOf(prices, v.canonicalByOriginal[t])
    {
      assert v.originals[..i + 1] == v.originals[..i] + [v.originals[i]];
      out := out[v.originals[i] := PriceOf(prices, v.canonicalByOriginal[v.originals[i]])];
    }
    assert v.originals[..|v.originals|] == v.originals;
  }

  /** What the price service answers for a list of ids. */
  datatype ServiceReply = ServiceError(err: ErrorChains.Err) | ServicePrices(prices: map<string, Option<Entry>>)

  datatype HttpReply = Status(code: int) | Answer(out: map<string, Option<Entry>>)

  /** The keys of an answer are the client's inputs; each maps to the price of its canonical id. */
  ghost predicate EchoesInputs(valid: string -> bool, tokens: seq<string>, prices: map<string, Option<Entry>>,
                               out: map<string, Option<Entry>>) {
    && (forall t :: t in out <==> t in tokens)
    && forall t :: t in out ==>
         AssetId.Normalize(valid, t).Ok? && out[t] == PriceOf(prices, AssetId.Normalize(valid, t).value)
  }

  predicate TimedOut(e: ErrorChains.Err) {
    ErrorChains.Has(e, ErrorChains.IsDeadline) || ErrorChains.Has(e, ErrorChains.IsCanceled)
  }

  lemma TimedOutMeans(e: ErrorChains.Err)
    ensures TimedOut(e) <==>
            ErrorChains.DeadlineExceeded in ErrorChains.Faults(e) || ErrorChains.Canceled in ErrorChains.Faults(e)
  {
    ErrorChains.HasIsMembership(e, ErrorChains.IsDeadline);
    ErrorChains.HasIsMembership(e, ErrorChains.IsCanceled);
  }

  /**
   * GetPrices; `reply` is the service's answer to the canonical ids. A bad network or request never reaches the
   * service; a service error is 503 when something timed out or was cancelled, else 500.
   */
  method GetPrices(valid: string -> bool, network: string, d: Decoded, maxTokens: int,
                   reply: (Network, seq<string>) -> ServiceReply) returns (http: HttpReply)
    ensures network != "PUBLIC" && network != "TESTNET" ==> http == Status(400)
    ensures (network == "PUBLIC" || network == "TESTNET") && !Acceptable(valid, d, maxTokens) ==>
      http == Status(if d.OverLimit? then 413 else 400)
    ensures (network == "PUBLIC" || network == "TESTNET") && Acceptable(valid, d, maxTokens) ==>
      var r := reply(if network == "PUBLIC" then Public else Testnet, Dedupe(Canonicals(valid, d.tokens)));
      match r
      case ServiceError(e) =>
        http == Status(if ErrorChains.DeadlineExceeded in ErrorChains.Faults(e)
                          || ErrorChains.Canceled in ErrorChains.Faults(e) then 503 else 500)
      case ServicePrices(prices) => http.Answer? && EchoesInputs(valid, d.tokens, prices, http.out)
  {
    if network != "PUBLIC" && network != "TESTNET" && network != "FUTURENET" {
      return Status(400);
    }
    if network == "FUTURENET" {
      return Status(400);
    }
    var v := ValidateRequest(valid, d, maxTokens);
    if v.Err? {
      return Status(v.error);
    }
    var prices := reply(ParseNetwork(network).value, v.value.canonicalIds);
    match prices {
      case ServiceError(e) =>
        TimedOutMeans(e);
        http := Status(if TimedOut(e) then 503 else 500);
      case ServicePrices(p) =>
        var out := Echo(v.value, p);
        http := Answer(out);
    }
  }

  /** Spellings of the same asset get the same entry. */
  lemma SameAssetSameEntry(valid: string -> bool, tokens: seq<string>, prices: map<string, Option<Entry>>,
                           out: map<string, Option<Entry>>, t: string, u: string)
    requires EchoesInputs(valid, tokens, prices, out) && t in tokens && u in tokens
    requires AssetId.Normalize(valid, t) == AssetId.Normalize(valid, u)
    ensures out[t] == out[u]
  {
  }

  /** Asking again for what was already asked, under any spelling, never exceeds the cap. */
  lemma RespellingIsFree(valid: string -> bool, tokens: seq<string>, more: seq<string>, maxTokens: int)
    requires AllNormalize(valid, tokens) && AllNormalize(valid, tokens + more)
    requires forall id :: id in Canonicals(valid, tokens + more) ==> id in Canonicals(valid, tokens)
    ensures WithinCap(valid, tokens, maxTokens) <==> WithinCap(valid, tokens + more, maxTokens)
  {
    var few, many := Canonicals(valid, tokens), Canonicals(valid, tokens + more);
    assert forall i :: 0 <= i < |few| ==> few[i] == many[i];
    assert (set x | x in few) == (set x | x in many);
    DedupeCounts(few);
    DedupeCounts(many);
  }

  /** The service is only ever asked for distinct canonical ids. */
  lemma AsksForCanonicalIds(valid: string -> bool, tokens: seq<string>)
    requires AllNormalize(valid, tokens)
    ensures var ids := Dedupe(Canonicals(valid, tokens));
      Distinct(ids) && forall id :: id in ids ==> AssetId.Canonical(valid, id)
  {
    var all := Canonicals(valid, tokens);
    DedupeDistinct(all);
    forall id | id in Dedupe(all) ensures AssetId.Canonical(valid, id) {
      var i :| 0 <= i < |all| && all[i] == id;
      AssetId.NormalizeReturnsCanonical(valid, tokens[i]);
    }
  }

  /**
   * From the wire to upstream: when the handler's request is served by a run of the orchestrator, every
   * input is answered, and every price in the answer was reported by upstream for exactly the network
   * asked for and the asset that the input denotes.
   */
  lemma AnswersWereReported(valid: string -> bool, tokens: seq<string>, cfg: Config, s: State, r: nat,
                            prices: map<string, Option<Entry>>, out: map<string, Option<Entry>>, t: string)
    requires AllNormalize(valid, tokens) && cfg.Valid() && Reachable(cfg, s) && r < |s.requests|
    requires s.requests[r].asked == Dedupe(Canonicals(valid, tokens)) && s.requests[r].returned == Some(Prices(prices))
    requires EchoesInputs(valid, tokens, prices, out) && t in tokens
    ensures t in out && AssetId.Normalize(valid, t).value in prices && out[t] == prices[AssetId.Normalize(valid, t).value]
    ensures out[t].Some? ==>
      var id := AssetId.Normalize(valid, t).value;
      exists f: nat ::
        && Backs(cfg, s, s.requests[r], id, f)
        && Reported(s, s.requests[r].network, id, out[t].value, s.flights[f].started, s.now)
  {
    var ids := Canonicals(valid, tokens);
    var i :| 0 <= i < |tokens| && tokens[i] == t;
    assert ids[i] in ids;
    CachedRefinesCacheFree(cfg, s, r, prices);
    if out[t].Some? {
      ReturnedPricesWereReported(cfg, s, r, prices, ids[i]);
    }
  }
}
