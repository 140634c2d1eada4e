/**
 * The three classifiers of wrapped errors: ClassifyError (internal/metrics/metrics.go) for the metric
 * label, translateServiceError (internal/api/handlers/utils.go) for the HTTP status, and
 * classifyWBError (internal/services/wallet_backend.go), which marks upstream failures.
 */
module ErrorChains {
  import opened Decimal
  import opened Text

  /** What one error of a chain is to errors.Is and errors.As. */
  datatype Fault =
    | AccountNotFound
    | DeadlineExceeded
    | Canceled
    | UrlError
    | OpError
    | GraphQLErrors
    | RpcError(rpcCode: int)
    | Upstream(kind: string, code: int)
    | Plain

  /** `message` is what Error() returns; `causes` is what Unwrap returns, several for a joined error. */
  datatype Err = Failure(fault: Fault, message: string, causes: seq<Err>)

  /*** errors.Is and errors.As ***/

  /** The depth-first search of errors.As: the error itself, then its causes in order. */
  function Find(e: Err, p: Fault -> bool): Option<Fault>
    decreases e, 0
  {
    if p(e.fault) then Some(e.fault) else FindIn(e.causes, p)
  }

  function FindIn(errs: seq<Err>, p: Fault -> bool): Option<Fault>
    decreases errs, 1
  {
    if errs == [] then None
    else
      var r := Find(errs[0], p);
      if r.Some? then r else FindIn(errs[1..], p)
  }

  /** The faults of a chain in the order in which the search meets them. */
  function Faults(e: Err): seq<Fault>
    decreases e, 0
  {
    [e.fault] + FaultsIn(e.causes)
  }

  function FaultsIn(errs: seq<Err>): seq<Fault>
    decreases errs, 1
  {
    if errs == [] then [] else Faults(errs[0]) + FaultsIn(errs[1..])
  }

  function FirstMatch(faults: seq<Fault>, p: Fault -> bool): (r: Option<Fault>)
    ensures r.Some? ==> r.value in faults && p(r.value)
    ensures r.None? ==> forall f :: f in faults ==> !p(f)
  {
    if faults == [] then None
    else if p(faults[0]) then Some(faults[0])
    else FirstMatch(faults[1..], p)
  }

  lemma {:induction false} FirstMatchConcat(a: seq<Fault>, b: seq<Fault>, p: Fault -> bool)
    ensures FirstMatch(a + b, p) == if FirstMatch(a, p).Some? then FirstMatch(a, p) else FirstMatch(b, p)
  {
    if a == [] {
      assert a + b == b;
    } else {
      FirstMatchConcat(a[1..], b, p);
      assert (a + b)[1..] == a[1..] + b;
    }
  }

  /** The search over the tree finds the first match of the flattened chain. */
  lemma {:induction false} FindIsFirstMatch(e: Err, p: Fault -> bool)
    ensures Find(e, p) == FirstMatch(Faults(e), p)
    decreases e, 0
  {
    FindInIsFirstMatch(e.causes, p);
    assert Faults(e)[1..] == FaultsIn(e.causes);
  }

  lemma {:induction false} FindInIsFirstMatch(errs: seq<Err>, p: Fault -> bool)
    ensures FindIn(errs, p) == FirstMatch(FaultsIn(errs), p)
    decreases errs, 1
  {
    if errs != [] {
      FindIsFirstMatch(errs[0], p);
      FindInIsFirstMatch(errs[1..], p);
      FirstMatchConcat(Faults(errs[0]), FaultsIn(errs[1..]), p);
    }
  }

  /** errors.Is, for the sentinels and types used here. */
  predicate Has(e: Err, p: Fault -> bool) {
    Find(e, p).Some?
  }

  lemma HasIsMembership(e: Err, p: Fault -> bool)
    ensures Has(e, p) <==> exists f :: f in Faults(e) && p(f)
  {
    FindIsFirstMatch(e, p);
  }

  predicate IsNotFound(f: Fault) {
    f.AccountNotFound?
  }

  predicate IsDeadline(f: Fault) {
    f.DeadlineExceeded?
  }

  predicate IsCanceled(f: Fault) {
    f.Canceled?
  }

  predicate IsUrl(f: Fault) {
    f.UrlError?
  }

  predicate IsOp(f: Fault) {
    f.OpError?
  }

  predicate IsGraphQL(f: Fault) {
    f.GraphQLErrors?
  }

  predicate IsRpc(f: Fault) {
    f.RpcError?
  }

  predicate IsUpstream(f: Fault) {
    f.Upstream?
  }

  /*** The metric label and the status ***/

  datatype Label = Timeout | Connection | UpstreamLabel(kind: string, code: int) | RpcLabel(rpcCode: int) | Internal

  function Classify(e: Err): Label {
    if Has(e, IsDeadline) || Has(e, IsCanceled) then Timeout
    else if Has(e, IsOp) || Has(e, IsUrl) then Connection
    else
      var up := Find(e, IsUpstream);
      if up.Some? && up.value.Upstream? then UpstreamLabel(up.value.kind, up.value.code)
      else
        var rpc := Find(e, IsRpc);
        if rpc.Some? && rpc.value.RpcError? then RpcLabel(rpc.value.rpcCode) else Internal
  }

  /** The string ClassifyError returns. */
  function Render(l: Label): string {
    match l
    case Timeout => "timeout"
    case Connection => "connection"
    case UpstreamLabel(kind, code) => if code != 0 then kind + ":" + PrintInt(code) else kind
    case RpcLabel(code) => "rpc_error:" + PrintInt(code)
    case Internal => "internal"
  }

  function Status(e: Err): int {
    if Has(e, IsNotFound) then 404
    else if Has(e, IsDeadline) then 504
    else if Has(e, IsCanceled) then 503
    else if Has(e, IsUpstream) then 502
    else if Has(e, IsUrl) || Has(e, IsOp) then 502
    else 500
  }

  /** For every chain without an account-not-found, label and status tell the same story. */
  lemma LabelAgreesWithStatus(e: Err)
    requires AccountNotFound !in Faults(e)
    ensures Status(e) == 503 || Status(e) == 504 <==> Classify(e) == Timeout
    ensures Status(e) == 504 <==> DeadlineExceeded in Faults(e)
    ensures Status(e) == 502 <==> Classify(e) == Connection || Classify(e).UpstreamLabel?
    ensures Status(e) == 500 <==> Classify(e).RpcLabel? || Classify(e) == Internal
  {
    HasIsMembership(e, IsNotFound);
    HasIsMembership(e, IsDeadline);
    FindIsFirstMatch(e, IsUpstream);
  }

  /** An account-not-found anywhere wins over every other cause, and the label does not see it. */
  lemma NotFoundWins(e: Err)
    ensures Status(e) == 404 <==> AccountNotFound in Faults(e)
  {
    HasIsMembership(e, IsNotFound);
  }

  /** The status by what the chain holds: the first of these that applies. */
  lemma StatusByFaults(e: Err)
    ensures var faults := Faults(e);
      Status(e) ==
      if AccountNotFound in faults then 404
      else if DeadlineExceeded in faults then 504
      else if Canceled in faults then 503
      else if UrlError in faults || OpError in faults || exists f :: f in faults && f.Upstream? then 502
      else 500
  {
    HasIsMembership(e, IsNotFound);
    HasIsMembership(e, IsDeadline);
    HasIsMembership(e, IsCanceled);
    HasIsMembership(e, IsUpstream);
    HasIsMembership(e, IsUrl);
    HasIsMembership(e, IsOp);
  }

  /** The label string too; of several upstream or RPC errors the first in preorder counts. */
  lemma LabelByFaults(e: Err)
    ensures var faults := Faults(e);
      var up, rpc := FirstMatch(faults, IsUpstream), FirstMatch(faults, IsRpc);
      Render(Classify(e)) ==
      if DeadlineExceeded in faults || Canceled in faults then "timeout"
      else if UrlError in faults || OpError in faults then "connection"
      else if up.Some? then up.value.kind + if up.value.code == 0 then "" else ":" + PrintInt(up.value.code)
      else if rpc.Some? then "rpc_error:" + PrintInt(rpc.value.rpcCode)
      else "internal"
  {
    HasIsMembership(e, IsDeadline);
    HasIsMembership(e, IsCanceled);
    HasIsMembership(e, IsUrl);
    HasIsMembership(e, IsOp);
    FindIsFirstMatch(e, IsUpstream);
    FindIsFirstMatch(e, IsRpc);
    var up := FirstMatch(Faults(e), IsUpstream);
    if up.Some? {
      assert up.value.kind + "" == up.value.kind;
      assert up.value.kind + ":" + PrintInt(up.value.code) == up.value.kind + (":" + PrintInt(up.value.code));
    }
    hide Faults, PrintInt;
  }

  /** The kinds the code itself writes. */
  predicate KnownKind(kind: string) {
    kind == "simulation_error" || kind == "graphql_error" || kind == "http_error"
  }

  predicate KnownLabel(l: Label) {
    l.UpstreamLabel? ==> KnownKind(l.kind)
  }

  function Initial(l: Label): char
    requires KnownLabel(l)
  {
    match l
    case Timeout => 't'
    case Connection => 'c'
    case UpstreamLabel(kind, _) => kind[0]
    case RpcLabel(_) => 'r'
    case Internal => 'i'
  }

  /** The first character tells the class of a label, and the upstream kind. */
  lemma RenderStarts(l: Label)
    requires KnownLabel(l)
    ensures Render(l) != "" && Render(l)[0] == Initial(l)
  {
  }

  lemma InitialTellsClass(k: Label, l: Label)
    requires KnownLabel(k) && KnownLabel(l) && Initial(k) == Initial(l)
    ensures k.UpstreamLabel? <==> l.UpstreamLabel?
    ensures k.RpcLabel? <==> l.RpcLabel?
    ensures k.UpstreamLabel? ==> k.kind == l.kind
    ensures !k.UpstreamLabel? && !k.RpcLabel? ==> k == l
  {
  }

  function CodeSuffix(code: int): string {
    if code == 0 then "" else ":" + PrintInt(code)
  }

  lemma CodeSuffixInjective(a: int, b: int)
    requires CodeSuffix(a) == CodeSuffix(b)
    ensures a == b
  {
    if a != 0 && b != 0 {
      assert CodeSuffix(a)[1..] == PrintInt(a) && CodeSuffix(b)[1..] == PrintInt(b);
      PrintIntInjective(a, b);
    }
  }

  lemma SameSuffix(head: string, a: string, b: string)
    requires head + a == head + b
    ensures a == b
  {
    assert (head + a)[|head|..] == a && (head + b)[|head|..] == b;
  }

  /** With those kinds the label string determines the label. */
  lemma RenderInjective(k: Label, l: Label)
    requires KnownLabel(k) && KnownLabel(l)
    ensures Render(k) == Render(l) <==> k == l
  {
    if Render(k) == Render(l) {
      RenderStarts(k);
      RenderStarts(l);
      InitialTellsClass(k, l);
      if k.UpstreamLabel? {
        assert Render(k) == k.kind + CodeSuffix(k.code) && Render(l) == l.kind + CodeSuffix(l.code);
        SameSuffix(k.kind, CodeSuffix(k.code), CodeSuffix(l.code));
        CodeSuffixInjective(k.code, l.code);
      } else if k.RpcLabel? {
        SameSuffix("rpc_error:", PrintInt(k.rpcCode), PrintInt(l.rpcCode));
        PrintIntInjective(k.rpcCode, l.rpcCode);
      }
    }
  }

  /*** The label as a string ***/

  /** The strings of the labels of local failures and of RPC errors. */
  ghost predicate ReadsAs500(text: string) {
    text == "internal" || exists c: int :: text == "rpc_error:" + PrintInt(c)
  }

  /** What someone who only sees the label string expects the status to have been. */
  ghost predicate LabelFits(text: string, status: int) {
    if text == "timeout" then status == 503 || status == 504
    else if ReadsAs500(text) then status == 500
    else status == 502
  }

  /** An upstream error that is rendered like something else. */
  ghost predicate Misleading(kind: string, code: int) {
    if code == 0 then kind == "timeout" || ReadsAs500(kind) else kind == "rpc_error"
  }

  /** Nothing in the chain is a timeout or a transport failure, and its first upstream error is misleading. */
  ghost predicate Misleads(e: Err) {
    var up := FirstMatch(Faults(e), IsUpstream);
    && DeadlineExceeded !in Faults(e) && Canceled !in Faults(e) && UrlError !in Faults(e) && OpError !in Faults(e)
    && up.Some? && Misleading(up.value.kind, up.value.code)
  }

  lemma PrintIntHasNoColon(v: int)
    ensures ':' !in PrintInt(v)
  {
    assert forall c :: IsDigit(c) ==> c != ':';
  }

  /** Around the only colon of a string its two parts are determined. */
  lemma OneColon(a: string, b: string, c: string, d: string)
    requires a + ":" + b == c + ":" + d && ':' !in b && ':' !in d
    ensures a == c
  {
    var s := a + ":" + b;
    assert s[|a|] == ':' && s[|c|] == ':';
    forall i | |a| < i < |s| ensures s[i] != ':' {
      assert s[i] == b[i - |a| - 1];
    }
    forall i | |c| < i < |s| ensures s[i] != ':' {
      assert s[i] == d[i - |c| - 1];
    }
    assert s[..|a|] == a && s[..|c|] == c;
  }

  lemma WithCodeReadsAs500(kind: string, code: int)
    ensures ReadsAs500(kind + ":" + PrintInt(code)) <==> kind == "rpc_error"
  {
    var s := kind + ":" + PrintInt(code);
    PrintIntHasNoColon(code);
    assert s[|kind|] == ':';
    if c: int :| s == "rpc_error:" + PrintInt(c) {
      PrintIntHasNoColon(c);
      assert "rpc_error:" == "rpc_error" + ":";
      OneColon(kind, PrintInt(code), "rpc_error", PrintInt(c));
    }
    if kind == "rpc_error" {
      assert s == "rpc_error:" + PrintInt(code);
    }
  }

  /** An upstream label fits the status 502 exactly unless it is misleading. */
  lemma UpstreamFits(kind: string, code: int)
    ensures LabelFits(Render(UpstreamLabel(kind, code)), 502) <==> !Misleading(kind, code)
  {
    hide ReadsAs500;
    if code != 0 {
      WithCodeReadsAs500(kind, code);
      assert Render(UpstreamLabel(kind, code))[|kind|] == ':';
    }
  }

  lemma RpcFits(code: int)
    ensures LabelFits(Render(RpcLabel(code)), 500)
  {
    assert Render(RpcLabel(code))[0] == 'r';
  }

  lemma ConnectionFits()
    ensures LabelFits(Render(Connection), 502)
  {
    forall c: int ensures "connection" != "rpc_error:" + PrintInt(c) {
      assert ("rpc_error:" + PrintInt(c))[0] == 'r';
    }
  }

  lemma LabelledMisleadingly(e: Err)
    ensures Misleads(e) <==> Classify(e).UpstreamLabel? && Misleading(Classify(e).kind, Classify(e).code)
  {
    hide Misleading;
    HasIsMembership(e, IsDeadline);
    HasIsMembership(e, IsCanceled);
    HasIsMembership(e, IsUrl);
    HasIsMembership(e, IsOp);
    FindIsFirstMatch(e, IsUpstream);
  }

  /**
   * As a string too the label tells the status: "timeout" 503 or 504, "internal" and the RPC errors 500, and
   * everything else 502, exactly unless an account was not found or the first upstream error is misleading.
   */
  lemma LabelStringAgrees(e: Err)
    ensures LabelFits(Render(Classify(e)), Status(e)) <==> AccountNotFound !in Faults(e) && !Misleads(e)
  {
    NotFoundWins(e);
    if AccountNotFound !in Faults(e) {
      LabelAgreesWithStatus(e);
      LabelledMisleadingly(e);
      hide ReadsAs500, Misleads, Misleading, LabelFits, Render, Status, Classify, Faults;
      match Classify(e) {
        case UpstreamLabel(kind, code) => UpstreamFits(kind, code);
        case RpcLabel(code) => RpcFits(code);
        case Connection => ConnectionFits();
        case Timeout => TimeoutFits(Status(e));
        case Internal => InternalFits();
      }
    }
  }

  lemma TimeoutFits(status: int)
    requires status == 503 || status == 504
    ensures LabelFits(Render(Timeout), status)
  {
  }

  lemma InternalFits()
    ensures LabelFits(Render(Internal), 500)
  {
  }

  /** Nothing forces a kind to be one of the known ones: these read as a timeout and as 500, and are 502. */
  lemma KindCanImpersonate(kind: string, code: int)
    requires Misleading(kind, code)
    ensures var e := Failure(Upstream(kind, code), "", []); Status(e) == 502 && !LabelFits(Render(Classify(e)), 502)
    ensures Misleading("timeout", 0) && Misleading("internal", 0) && Misleading("rpc_error", 5)
  {
    var e := Failure(Upstream(kind, code), "", []);
    assert Faults(e) == [Upstream(kind, code)];
    assert FirstMatch(Faults(e), IsUpstream) == Some(Upstream(kind, code));
    LabelStringAgrees(e);
    LabelledMisleadingly(e);
    LabelAgreesWithStatus(e);
  }

  /** And a timeout beside an account-not-found is labelled as one, with status 404. */
  lemma NotFoundHidesTimeout()
    ensures var e := Failure(AccountNotFound, "", [Failure(DeadlineExceeded, "", [])]);
      Render(Classify(e)) == "timeout" && Status(e) == 404
  {
    var inner := Failure(DeadlineExceeded, "", []);
    var e := Failure(AccountNotFound, "", [inner]);
    assert Faults(e) == [AccountNotFound, DeadlineExceeded] by {
      assert Faults(inner) == [DeadlineExceeded];
      assert FaultsIn([inner]) == Faults(inner) + FaultsIn([]);
    }
    NotFoundWins(e);
    HasIsMembership(e, IsDeadline);
  }

  /*** Wrapping ***/

  /** The faults without the plain errors around them. */
  function Essential(faults: seq<Fault>): seq<Fault> {
    if faults == [] then []
    else (if faults[0].Plain? then [] else [faults[0]]) + Essential(faults[1..])
  }

  lemma {:induction false} FirstMatchEssential(faults: seq<Fault>, p: Fault -> bool)
    requires !p(Plain)
    ensures FirstMatch(Essential(faults), p) == FirstMatch(faults, p)
  {
    if faults != [] {
      FirstMatchEssential(faults[1..], p);
      FirstMatchConcat(if faults[0].Plain? then [] else [faults[0]], Essential(faults[1..]), p);
    }
  }

  lemma SameFind(d: Err, e: Err, p: Fault -> bool)
    requires Essential(Faults(d)) == Essential(Faults(e)) && !p(Plain)
    ensures Find(d, p) == Find(e, p)
  {
    FindIsFirstMatch(d, p);
    FindIsFirstMatch(e, p);
    FirstMatchEssential(Faults(d), p);
    FirstMatchEssential(Faults(e), p);
  }

  /** However plain errors wrap or join the others, label and status stay what they are. */
  lemma PlainErrorsAreInvisible(d: Err, e: Err)
    requires Essential(Faults(d)) == Essential(Faults(e))
    ensures Classify(d) == Classify(e) && Status(d) == Status(e)
  {
    SameFind(d, e, IsNotFound);
    SameFind(d, e, IsDeadline);
    SameFind(d, e, IsCanceled);
    SameFind(d, e, IsUrl);
    SameFind(d, e, IsOp);
    SameFind(d, e, IsRpc);
    SameFind(d, e, IsUpstream);
  }

  /** fmt.Errorf with %w, any number of times. */
  function Wrapped(e: Err, messages: seq<string>): Err {
    if messages == [] then e else Failure(Plain, messages[0], [Wrapped(e, messages[1..])])
  }

  lemma {:induction false} WrappingKeepsBoth(e: Err, messages: seq<string>)
    ensures Classify(Wrapped(e, messages)) == Classify(e) && Status(Wrapped(e, messages)) == Status(e)
  {
    if messages != [] {
      var inner := Wrapped(e, messages[1..]);
      WrappingKeepsBoth(e, messages[1..]);
      var outer := Wrapped(e, messages);
      assert FaultsIn([inner]) == Faults(inner) + FaultsIn([]);
      assert Faults(outer) == [Plain] + Faults(inner);
      assert Faults(outer)[1..] == Faults(inner);
      PlainErrorsAreInvisible(outer, inner);
    }
  }

  /*** classifyWBError ***/

  predicate OccursAt(s: string, i: nat, t: string) {
    i + |t| <= |s| && s[i..i + |t|] == t
  }

  predicate Contains(s: string, t: string) {
    exists i :: 0 <= i <= |s| && OccursAt(s, i, t)
  }

  const UNEXPECTED := "unexpected statusCode="
  const STATUS_CODE := "statusCode="

  /** `statusCode=(\d{3})` matches at position i. */
  predicate CodeAt(s: string, i: nat) {
    OccursAt(s, i, STATUS_CODE) && i + 14 <= |s| && AllDigits(s[i + 11..i + 14])
  }

  /** The capture of the leftmost match at or after position i. */
  function CodeFrom(s: string, i: nat): (r: Option<nat>)
    ensures r.None? <==> forall j :: i <= j <= |s| ==> !CodeAt(s, j)
    decreases |s| - i
  {
    if i > |s| then None
    else if CodeAt(s, i) then Some(NatOf(s[i + 11..i + 14]))
    else CodeFrom(s, i + 1)
  }

  lemma {:induction false} CodeFromIs(s: string, i: nat, j: nat)
    requires i <= j <= |s| && CodeAt(s, j) && forall k :: i <= k < j ==> !CodeAt(s, k)
    ensures CodeFrom(s, i) == Some(NatOf(s[j + 11..j + 14]))
    decreases j - i
  {
    if i < j {
      CodeFromIs(s, i + 1, j);
    }
  }

  /** (*UpstreamError).Error, around a cause. */
  function NewUpstream(kind: string, code: int, cause: Err): Err {
    var head := if code != 0 then kind + " (code " + PrintInt(code) + "): " else kind + ": ";
    Failure(Upstream(kind, code), head + cause.message, [cause])
  }

  function ClassifyWB(e: Err): Err {
    if Has(e, IsGraphQL) then NewUpstream("graphql_error", 0, e)
    else if Contains(e.message, UNEXPECTED) then
      var code := CodeFrom(e.message, 0);
      NewUpstream("http_error", if code.Some? then code.value else 0, e)
    else e
  }

  /** What classifyWBError puts before the message of what it classifies. */
  lemma ClassifyWBMessage(e: Err)
    ensures ClassifyWB(e).message ==
            if GraphQLErrors in Faults(e) then "graphql_error: " + e.message
            else if !Contains(e.message, "unexpected statusCode=") then e.message
            else
              var code := CodeFrom(e.message, 0);
              if code.None? || code == Some(0) then "http_error: " + e.message
              else "http_error (code " + PrintInt(code.value) + "): " + e.message
  {
    HasIsMembership(e, IsGraphQL);
    assert "graphql_error" + ": " == "graphql_error: " && "http_error" + ": " == "http_error: ";
    assert "http_error" + " (code " == "http_error (code ";
    hide Contains, CodeFrom, PrintInt;
  }

  lemma FaultsOfUpstream(kind: string, code: int, cause: Err)
    ensures Faults(NewUpstream(kind, code, cause)) == [Upstream(kind, code)] + Faults(cause)
  {
    assert FaultsIn([cause]) == Faults(cause) + FaultsIn([]);
  }

  /** An upstream wrapper hides no fault behind it, except from the search for upstream errors. */
  lemma FindBehindUpstream(kind: string, code: int, cause: Err, p: Fault -> bool)
    ensures var up := Upstream(kind, code);
      Find(NewUpstream(kind, code, cause), p) == if p(up) then Some(up) else Find(cause, p)
  {
    var e := NewUpstream(kind, code, cause);
    FaultsOfUpstream(kind, code, cause);
    FindIsFirstMatch(e, p);
    FindIsFirstMatch(cause, p);
    assert Faults(e)[1..] == Faults(cause);
  }

  lemma UpstreamLabelAndStatus(kind: string, code: int, e: Err)
    ensures var w := NewUpstream(kind, code, e);
      Classify(w) == if Classify(e) == Timeout || Classify(e) == Connection then Classify(e) else UpstreamLabel(kind, code)
    ensures var w := NewUpstream(kind, code, e);
      Status(w) == if Status(e) == 500 then 502 else Status(e)
  {
    FindBehindUpstream(kind, code, e, IsNotFound);
    FindBehindUpstream(kind, code, e, IsDeadline);
    FindBehindUpstream(kind, code, e, IsCanceled);
    FindBehindUpstream(kind, code, e, IsUrl);
    FindBehindUpstream(kind, code, e, IsOp);
    FindBehindUpstream(kind, code, e, IsUpstream);
  }

  /** Whether classifyWBError takes the error for an answer of the upstream. */
  predicate Answered(e: Err) {
    GraphQLErrors in Faults(e) || Contains(e.message, UNEXPECTED)
  }

  /**
   * classifyWBError never hides a timeout, a cancellation, a transport failure or a missing account;
   * what it recognises among the rest moves from 500 to 502.
   */
  lemma ClassifyWBKeepsCauses(e: Err)
    ensures Status(ClassifyWB(e)) == if Status(e) == 500 && Answered(e) then 502 else Status(e)
    ensures Classify(e) == Timeout || Classify(e) == Connection ==> Classify(ClassifyWB(e)) == Classify(e)
    ensures forall f :: f in Faults(e) ==> f in Faults(ClassifyWB(e))
  {
    HasIsMembership(e, IsGraphQL);
    if Answered(e) {
      var w := ClassifyWB(e);
      var kind, code := w.fault.kind, w.fault.code;
      assert w == NewUpstream(kind, code, e);
      UpstreamLabelAndStatus(kind, code, e);
      FaultsOfUpstream(kind, code, e);
    }
  }

  /** The label of a classified error that is neither a timeout nor a transport failure. */
  lemma ClassifyWBLabel(e: Err)
    requires Classify(e) != Timeout && Classify(e) != Connection
    ensures GraphQLErrors in Faults(e) ==> Classify(ClassifyWB(e)) == UpstreamLabel("graphql_error", 0)
    ensures GraphQLErrors !in Faults(e) && Contains(e.message, UNEXPECTED) ==>
      var code := CodeFrom(e.message, 0);
      Classify(ClassifyWB(e)) == UpstreamLabel("http_error", if code.Some? then code.value else 0)
    ensures !Answered(e) ==> Classify(ClassifyWB(e)) == Classify(e)
  {
    HasIsMembership(e, IsGraphQL);
    if Answered(e) {
      var w := ClassifyWB(e);
      assert w == NewUpstream(w.fault.kind, w.fault.code, e);
      UpstreamLabelAndStatus(w.fault.kind, w.fault.code, e);
    }
  }

  lemma CodeStartsWithS(s: string, i: nat)
    requires CodeAt(s, i)
    ensures s[i] == 's'
  {
    assert s[i] == s[i..i + 11][0] == STATUS_CODE[0];
  }

  lemma NoMatchBeforeMarker(before: string, s: string, i: nat)
    requires |before| <= |s| && UNEXPECTED <= s[|before|..] && |before| <= i < |before| + 11
    ensures !CodeAt(s, i)
  {
    assert s[i] == s[|before|..][i - |before|] == UNEXPECTED[i - |before|] != 's';
    if CodeAt(s, i) {
      CodeStartsWithS(s, i);
      assert false;
    }
  }

  /**
   * The code is read from the marker: whatever body the upstream sends after it, the three digits that
   * follow are what counts, unless the text before the marker already looks like a code.
   */
  lemma BodyCannotSpoofCode(before: string, digits: string, body: string)
    requires |digits| == 3 && AllDigits(digits)
    requires var s := before + UNEXPECTED + digits + body; forall i :: 0 <= i < |before| ==> !CodeAt(s, i)
    ensures var s := before + UNEXPECTED + digits + body;
      Contains(s, UNEXPECTED) && CodeFrom(s, 0) == Some(NatOf(digits))
  {
    var s := before + UNEXPECTED + digits + body;
    var j := |before| + 11;
    assert OccursAt(s, |before|, UNEXPECTED);
    assert s[j..j + 11] == STATUS_CODE;
    assert s[j + 11..j + 14] == digits;
    forall i | 0 <= i < j ensures !CodeAt(s, i) {
      if i >= |before| {
        NoMatchBeforeMarker(before, s, i);
      }
    }
    CodeFromIs(s, 0, j);
  }
}
