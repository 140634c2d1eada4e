/**
 * internal/auth/verifier.go and internal/api/middleware/auth.go: the bearer header, the body that is
 * read for its hash and put back, the permissive or strict decision, and the metric of each request.
 */
module AuthGate {
  import opened AuthToken
  import opened BearerHeader
  import opened Hex
  import opened Text

  /*** Request bodies ***/

  /** How reading a body to its end ends. */
  datatype Ending = Eof | TooLarge | ReadError

  datatype Stream = Stream(bytes: seq<Byte>, ending: Ending)

  const DEFAULT_MAX_BODY_SIZE := 1048576

  /** http.MaxBytesReader: the first n bytes, then an error if there are more. */
  function Limited(s: Stream, n: nat): Stream {
    if |s.bytes| > n then Stream(s.bytes[..n], TooLarge) else s
  }

  class Request {
    const verb: string
    const requestUri: string
    const authorization: string
    const contentLength: int
    var body: Option<Stream>

    constructor (verb: string, requestUri: string, authorization: string, contentLength: int, body: Option<Stream>)
      ensures this.verb == verb && this.requestUri == requestUri && this.authorization == authorization
      ensures this.contentLength == contentLength && this.body == body
    {
      this.verb, this.requestUri, this.authorization := verb, requestUri, authorization;
      this.contentLength, this.body := contentLength, body;
    }

    /** BodySizeLimit, which runs before the gate; a limit of zero or less means the default. */
    method LimitBody(maxBytes: int)
      modifies this
      ensures body == LimitedBody(old(body), contentLength, maxBytes)
      ensures var n := if maxBytes <= 0 then 1024 * 1024 else maxBytes;
        body == old(if body.Some? && contentLength != 0 && |body.value.bytes| > n
                    then Some(Stream(body.value.bytes[..n], TooLarge)) else body)
    {
      var n: nat := if maxBytes <= 0 then DEFAULT_MAX_BODY_SIZE else maxBytes;
      if body.Some? && contentLength != 0 {
        body := Some(Limited(body.value, n));
      }
    }

    /** readAndResetBody: on an error the body stays drained. */
    method ReadAndReset() returns (r: Result<seq<Byte>, Ending>)
      modifies this
      ensures r == ReadAll(old(body))
      ensures body == if r.Ok? then old(body) else Some(Stream([], r.error))
    {
      if body.None? {
        return Ok([]);
      }
      var b := body.value;
      body := Some(Stream([], b.ending));
      if b.ending != Eof {
        return Err(b.ending);
      }
      body := Some(Stream(b.bytes, Eof));
      r := Ok(b.bytes);
    }
  }

  function LimitedBody(body: Option<Stream>, contentLength: int, maxBytes: int): Option<Stream> {
    if body.Some? && contentLength != 0
    then Some(Limited(body.value, if maxBytes <= 0 then DEFAULT_MAX_BODY_SIZE else maxBytes)) else body
  }

  function ReadAll(body: Option<Stream>): Result<seq<Byte>, Ending> {
    if body.None? then Ok([])
    else if body.value.ending == Eof then Ok(body.value.bytes) else Err(body.value.ending)
  }

  /** IssuerFromRequestUnverified */
  function UnverifiedIssuer(crypto: Crypto, authorization: string): string {
    var credential := ReadHeader(authorization);
    if !credential.Bearer? then ""
    else
      var claims := crypto.parse(credential.token);
      if claims.Some? then claims.value.iss else crypto.issuerAlone(credential.token)
  }

  /*** Verification and decision ***/

  datatype VerifyError = ErrNoToken | Invalid(failure: Failure) | Unread(ending: Ending)

  datatype Mode = Permissive | Required

  /** One request as the gate sees it, with the instants of its two clock reads. */
  datatype Input = Input(verb: string, requestUri: string, authorization: string, body: Option<Stream>, t1: int, t2: int)

  datatype Labels = Labels(result: string, reason: string, client: string)

  /** What the gate does: call the next handler, with or without a user id, or refuse with a status. */
  datatype Decision = Next(userId: Option<string>) | Refuse(status: int)

  datatype Config = Config(crypto: Crypto, leeway: int, mode: Mode)
  {
    /** As every leeway that can be configured does (ConfiguredLeewaysFit). */
    predicate LeewayFits() {
      Amounts.Fits(leeway) && SumFits(leeway)
    }
  }

  /** VerifyHTTPRequest */
  function Verify(cfg: Config, i: Input): Result<Identity, VerifyError> {
    match ReadHeader(i.authorization)
    case NoToken => Err(ErrNoToken)
    case EmptyCredential => Err(Invalid(Verification(Malformed)))
    case Bearer(token) =>
      match ReadAll(i.body)
      case Err(ending) => Err(Unread(ending))
      case Ok(bytes) =>
        match ParseJwt(cfg.crypto, token, i.verb + " " + i.requestUri, bytes, cfg.leeway, i.t1, i.t2)
        case Ok(identity) => Ok(identity)
        case Err(failure) => Err(Invalid(failure))
  }

  function SanitizeClient(iss: string): string {
    if iss == "freighter-extension" || iss == "freighter-mobile" then iss else "other"
  }

  function ReasonLabel(f: Failure): string {
    match f
    case Expired(_) => "expired"
    case ClockAhead(_) => "clock_ahead"
    case Verification(reason) =>
      match reason
      case BadSignature => "bad_signature"
      case BadTiming => "bad_timing"
      case BadMethodPath => "bad_method_path"
      case BadBodyHash => "bad_body_hash"
      case BadSubject => "bad_subject"
      case Malformed => "malformed"
  }

  /** The issuer behind the client label: the verified one of a clock failure, when it is not empty. */
  function LabelIssuer(cfg: Config, i: Input, f: Failure): string {
    if !f.Verification? && f.issuer != "" then f.issuer else UnverifiedIssuer(cfg.crypto, i.authorization)
  }

  function Decide(cfg: Config, i: Input): Decision {
    match Verify(cfg, i)
    case Ok(identity) => Next(Some(identity.userId))
    case Err(ErrNoToken) => if cfg.mode == Required then Refuse(401) else Next(None)
    case Err(Invalid(f)) => if cfg.mode == Permissive && !f.Verification? then Next(None) else Refuse(401)
    case Err(Unread(ending)) => if ending == TooLarge then Refuse(413) else Refuse(500)
  }

  function Recorded(cfg: Config, i: Input): Labels {
    match Verify(cfg, i)
    case Ok(identity) => Labels("authenticated", "ok", SanitizeClient(identity.issuer))
    case Err(ErrNoToken) => Labels(if cfg.mode == Required then "rejected" else "anonymous", "no_token", "none")
    case Err(Invalid(f)) =>
      Labels(if cfg.mode == Permissive && !f.Verification? then "invalid_permitted" else "rejected",
             ReasonLabel(f), SanitizeClient(LabelIssuer(cfg, i, f)))
    case Err(Unread(ending)) =>
      Labels("rejected", if ending == TooLarge then "too_large" else "internal",
             SanitizeClient(UnverifiedIssuer(cfg.crypto, i.authorization)))
  }

  /** The body after verification: as it came, or drained by the read that failed. */
  function BodyAfter(cfg: Config, i: Input): Option<Stream> {
    match Verify(cfg, i)
    case Err(Unread(ending)) => Some(Stream([], ending))
    case _ => i.body
  }

  /** The counter after a run of gated requests. */
  function Counted(cfg: Config, inputs: seq<Input>): multiset<Labels> {
    if inputs == [] then multiset{}
    else Counted(cfg, inputs[..|inputs| - 1]) + multiset{Recorded(cfg, inputs[|inputs| - 1])}
  }

  /** The gate in front of the gated routes, with its request counter. */
  class Gate {
    const cfg: Config
    var requestsTotal: multiset<Labels>
    ghost var served: seq<Input>

    /** The counter holds the labels of the requests served so far. */
    ghost predicate Valid()
      reads this
    {
      requestsTotal == Counted(cfg, served)
    }

    constructor (cfg: Config)
      ensures this.cfg == cfg && requestsTotal == multiset{} && served == [] && Valid()
    {
      this.cfg, this.requestsTotal, this.served := cfg, multiset{}, [];
    }

    function InputOf(r: Request, t1: int, t2: int): (i: Input)
      reads r
      ensures i.verb == r.verb && i.requestUri == r.requestUri && i.authorization == r.authorization
      ensures i.body == r.body && i.t1 == t1 && i.t2 == t2
    {
      Input(r.verb, r.requestUri, r.authorization, r.body, t1, t2)
    }

    method VerifyHTTPRequest(r: Request, t1: int, t2: int) returns (v: Result<Identity, VerifyError>)
      modifies r
      ensures v == old(Verify(cfg, InputOf(r, t1, t2)))
      ensures r.body == old(BodyAfter(cfg, InputOf(r, t1, t2)))
    {
      var credential := ReadHeader(r.authorization);
      if credential.NoToken? {
        return Err(ErrNoToken);
      }
      if credential.EmptyCredential? {
        return Err(Invalid(Verification(Malformed)));
      }
      var body := r.ReadAndReset();
      if body.Err? {
        return Err(Unread(body.error));
      }
      var claims := ParseJwt(cfg.crypto, credential.token, r.verb + " " + r.requestUri, body.value, cfg.leeway, t1, t2);
      match claims {
        case Ok(identity) => v := Ok(identity);
        case Err(failure) => v := Err(Invalid(failure));
      }
    }

    /** One request through the middleware: counted once, and handed on with its body as it came. */
    method Serve(r: Request, t1: int, t2: int) returns (d: Decision)
      requires Valid()
      modifies this, r
      ensures Valid() && served == old(served + [InputOf(r, t1, t2)])
      ensures d == old(Decide(cfg, InputOf(r, t1, t2)))
      ensures requestsTotal == old(requestsTotal) + multiset{old(Recorded(cfg, InputOf(r, t1, t2)))}
      ensures r.body == old(BodyAfter(cfg, InputOf(r, t1, t2)))
      ensures d.Next? ==> r.body == old(r.body)
    {
      served := served + [InputOf(r, t1, t2)];
      assert served[..|served| - 1] == old(served);
      var v := VerifyHTTPRequest(r, t1, t2);
      match v {
        case Ok(identity) =>
          Record("authenticated", "ok", SanitizeClient(identity.issuer));
          d := Next(Some(identity.userId));
        case Err(ErrNoToken) =>
          if cfg.mode == Required {
            Record("rejected", "no_token", "none");
            return Refuse(401);
          }
          Record("anonymous", "no_token", "none");
          d := Next(None);
        case Err(Invalid(f)) =>
          var iss := UnverifiedIssuer(cfg.crypto, r.authorization);
          if !f.Verification? && f.issuer != "" {
            iss := f.issuer;
          }
          var permitted := cfg.mode == Permissive && !f.Verification?;
          Record(if permitted then "invalid_permitted" else "rejected", ReasonLabel(f), SanitizeClient(iss));
          d := if permitted then Next(None) else Refuse(401);
        case Err(Unread(ending)) =>
          var iss := UnverifiedIssuer(cfg.crypto, r.authorization);
          if ending == TooLarge {
            Record("rejected", "too_large", SanitizeClient(iss));
            return Refuse(413);
          }
          Record("rejected", "internal", SanitizeClient(iss));
          d := Refuse(500);
      }
    }

    /** RecordAuth */
    method Record(result: string, reason: string, client: string)
      modifies `requestsTotal
      ensures requestsTotal == old(requestsTotal) + multiset{Labels(result, reason, client)}
    {
      requestsTotal := requestsTotal + multiset{Labels(result, reason, client)};
    }
  }

  /*** Who gets through ***/

  /** The body can be read within its limit. */
  predicate Readable(i: Input) {
    ReadAll(i.body).Ok?
  }

  function TokenOf(i: Input): Option<string> {
    var credential := ReadHeader(i.authorization);
    if credential.Bearer? then Some(credential.token) else None
  }

  /** The claims of a bearer token that its subject's key signed, on a request whose body can be read. */
  function SignedClaims(cfg: Config, i: Input): (c: Option<Claims>)
    ensures c.Some? ==> TokenOf(i).Some? && Readable(i)
  {
    if TokenOf(i).Some? && Readable(i) && Signed(cfg.crypto, TokenOf(i).value) then cfg.crypto.parse(TokenOf(i).value)
    else None
  }

  /** Signed, bound to this request, and in time at both clock reads. */
  predicate Authentic(cfg: Config, i: Input) {
    var c := SignedClaims(cfg, i);
    && c.Some?
    && Bound(cfg.crypto, c.value, i.verb + " " + i.requestUri, ReadAll(i.body).value)
    && InTime(c.value, cfg.leeway, i.t1, i.t2)
  }

  /** Signed, but on the server's clock over already or still to come. */
  predicate ClockFailure(cfg: Config, i: Input) {
    var c := SignedClaims(cfg, i);
    c.Some? && (Late(c.value, cfg.leeway, i.t1) || Early(c.value, cfg.leeway, i.t1, i.t2))
  }

  /** One of the two error types that permissive mode lets through. */
  predicate ClockError(cfg: Config, i: Input) {
    var v := Verify(cfg, i);
    v.Err? && v.error.Invalid? && !v.error.failure.Verification?
  }

  lemma VerifyIsParse(cfg: Config, i: Input)
    requires TokenOf(i).Some? && Readable(i)
    ensures var v, p := Verify(cfg, i), Parsed(cfg, i);
      v == if p.Ok? then Ok(p.value) else Err(Invalid(p.error))
  {
    hide ParseJwt;
  }

  lemma VerifyWithoutParse(cfg: Config, i: Input)
    requires TokenOf(i).None? || !Readable(i)
    ensures Verify(cfg, i).Err? && !ClockError(cfg, i)
  {
    hide ParseJwt;
  }

  /** parseJWT on a request whose body can be read. */
  function Parsed(cfg: Config, i: Input): Result<Identity, Failure>
    requires TokenOf(i).Some? && Readable(i)
  {
    ParseJwt(cfg.crypto, TokenOf(i).value, i.verb + " " + i.requestUri, ReadAll(i.body).value, cfg.leeway, i.t1, i.t2)
  }

  /** Those error types mean what they should: a signed token and a wrong clock, and nothing else. */
  lemma ClockErrorIffClockFailure(cfg: Config, i: Input)
    requires cfg.LeewayFits()
    ensures ClockError(cfg, i) <==> ClockFailure(cfg, i)
  {
    if TokenOf(i).Some? && Readable(i) {
      var token, m, body := TokenOf(i).value, i.verb + " " + i.requestUri, ReadAll(i.body).value;
      VerifyIsParse(cfg, i);
      OtherOutcomesImplySignature(cfg.crypto, token, m, body, cfg.leeway, i.t1, i.t2);
      if Signed(cfg.crypto, token) {
        FailureReasons(cfg.crypto, token, m, body, cfg.leeway, i.t1, i.t2);
      }
      hide ParseJwt, Signed, ReadHeader, ReadAll, Verify, TokenOf, Readable, WellTimed, Late, Early;
    } else {
      VerifyWithoutParse(cfg, i);
    }
  }

  /** Verification succeeds exactly for authentic tokens, and yields the key in lower case. */
  lemma VerifiesIffAuthentic(cfg: Config, i: Input)
    requires cfg.LeewayFits()
    ensures Verify(cfg, i).Ok? <==> Authentic(cfg, i)
    ensures Authentic(cfg, i) ==> Verify(cfg, i).value == Identity(ToLower(SignedClaims(cfg, i).value.sub), SignedClaims(cfg, i).value.iss)
  {
    if TokenOf(i).Some? && Readable(i) {
      var token, m, body := TokenOf(i).value, i.verb + " " + i.requestUri, ReadAll(i.body).value;
      VerifyIsParse(cfg, i);
      AcceptedIff(cfg.crypto, token, m, body, cfg.leeway, i.t1, i.t2);
      OtherOutcomesImplySignature(cfg.crypto, token, m, body, cfg.leeway, i.t1, i.t2);
      if Parsed(cfg, i).Ok? {
        UserIdIsCanonical(cfg.crypto, token, m, body, cfg.leeway, i.t1, i.t2);
      }
      hide ParseJwt, ReadHeader, ReadAll, Verify, TokenOf, Readable, Bound, InTime, ToLower;
    } else {
      VerifyWithoutParse(cfg, i);
    }
  }

  /*** In terms of the header, the body and the token ***/

  /** The body ends within its limit, or there is none. */
  predicate Complete(body: Option<Stream>, bytes: seq<Byte>) {
    if body.Some? then body.value == Stream(bytes, Eof) else bytes == []
  }

  /** The header carries the token `t`, which the key of its subject signed and whose claims are `c`. */
  ghost predicate SignedWith(cfg: Config, i: Input, bytes: seq<Byte>, t: string, c: Claims) {
    && Carries(i.authorization, t) && Complete(i.body, bytes)
    && cfg.crypto.parse(t) == Some(c) && Signed(cfg.crypto, t)
  }

  lemma SignedClaimsAre(cfg: Config, i: Input, c: Claims)
    ensures SignedClaims(cfg, i) == Some(c) <==> exists bytes, t :: SignedWith(cfg, i, bytes, t, c)
    ensures forall bytes, t :: SignedWith(cfg, i, bytes, t, c) ==> ReadAll(i.body) == Ok(bytes)
    ensures forall t :: TokenOf(i) == Some(t) <==> Carries(i.authorization, t)
  {
    forall t ensures TokenOf(i) == Some(t) <==> Carries(i.authorization, t) {
      ReadsWhatItCarries(i.authorization, t);
      hide ReadHeader, Carries;
    }
    hide ReadHeader, Carries, Signed;
    if SignedClaims(cfg, i) == Some(c) {
      assert SignedWith(cfg, i, ReadAll(i.body).value, TokenOf(i).value, c);
    }
  }

  /** A signed token for this request, in time at both clock reads, of this user. */
  ghost predicate AuthenticAs(cfg: Config, i: Input, id: string) {
    exists bytes, t, c ::
      && SignedWith(cfg, i, bytes, t, c) && Bound(cfg.crypto, c, i.verb + " " + i.requestUri, bytes)
      && InTime(c, cfg.leeway, i.t1, i.t2) && id == ToLower(c.sub)
  }

  /** A signed token that is, on the server's clock, over already or still to come. */
  ghost predicate WrongClock(cfg: Config, i: Input) {
    exists bytes, t, c ::
      SignedWith(cfg, i, bytes, t, c) && (Late(c, cfg.leeway, i.t1) || Early(c, cfg.leeway, i.t1, i.t2))
  }

  lemma AuthenticMeans(cfg: Config, i: Input, id: string)
    ensures AuthenticAs(cfg, i, id) <==> Authentic(cfg, i) && id == ToLower(SignedClaims(cfg, i).value.sub)
  {
    hide SignedClaims, SignedWith, InTime, ToLower, ReadAll;
    if Authentic(cfg, i) {
      SignedClaimsAre(cfg, i, SignedClaims(cfg, i).value);
    }
    if AuthenticAs(cfg, i, id) {
      var bytes, t, c :| SignedWith(cfg, i, bytes, t, c) && Bound(cfg.crypto, c, i.verb + " " + i.requestUri, bytes)
        && InTime(c, cfg.leeway, i.t1, i.t2) && id == ToLower(c.sub);
      SignedClaimsAre(cfg, i, c);
    }
  }

  lemma ClockFailureMeans(cfg: Config, i: Input)
    ensures WrongClock(cfg, i) <==> ClockFailure(cfg, i)
  {
    hide SignedClaims, SignedWith, Late, Early, ReadAll;
    if ClockFailure(cfg, i) {
      SignedClaimsAre(cfg, i, SignedClaims(cfg, i).value);
    }
    if WrongClock(cfg, i) {
      var bytes, t, c :|
        SignedWith(cfg, i, bytes, t, c) && (Late(c, cfg.leeway, i.t1) || Early(c, cfg.leeway, i.t1, i.t2));
      SignedClaimsAre(cfg, i, c);
    }
  }

  /**
   * With a user id exactly for authentic tokens, and then it is the subject in lower case; without one
   * exactly in permissive mode, when the header does not name the bearer scheme, or carries a signed token
   * whose clock is wrong.
   */
  lemma WhoGetsThrough(cfg: Config, i: Input)
    requires cfg.LeewayFits()
    ensures forall id :: Decide(cfg, i) == Next(Some(id)) <==> AuthenticAs(cfg, i, id)
    ensures Decide(cfg, i) == Next(None) <==>
            cfg.mode == Permissive && (!NamesBearer(i.authorization) || WrongClock(cfg, i))
  {
    VerifiesIffAuthentic(cfg, i);
    ClockErrorIffClockFailure(cfg, i);
    hide SignedClaims, Authentic, ClockFailure, ToLower, AuthenticAs, WrongClock, NamesBearer;
    NoTokenIs(cfg, i);
    ReadsWhatItCarries(i.authorization, "");
    ClockFailureMeans(cfg, i);
    forall id ensures AuthenticAs(cfg, i, id) <==> Authentic(cfg, i) && id == ToLower(SignedClaims(cfg, i).value.sub) {
      AuthenticMeans(cfg, i, id);
    }
    hide ReadHeader, ParseJwt;
  }

  /**
   * Every other request is refused: with 413 or 500 exactly when the header carries a token and the body
   * could not be read, being too large or for another reason, and else with 401.
   */
  lemma HowOthersAreRefused(cfg: Config, i: Input)
    ensures var carries := exists t :: Carries(i.authorization, t);
      && (Decide(cfg, i) == Refuse(413) <==> carries && i.body.Some? && i.body.value.ending == TooLarge)
      && (Decide(cfg, i) == Refuse(500) <==> carries && i.body.Some? && i.body.value.ending == ReadError)
      && (Decide(cfg, i).Refuse? ==> Decide(cfg, i).status in {401, 413, 500})
  {
    hide Carries, ParseJwt;
    forall t ensures ReadHeader(i.authorization) == Bearer(t) <==> Carries(i.authorization, t) {
      ReadsWhatItCarries(i.authorization, t);
    }
    hide ReadHeader;
    if ReadHeader(i.authorization).Bearer? {
      assert Carries(i.authorization, ReadHeader(i.authorization).token);
    }
  }

  lemma NoTokenIs(cfg: Config, i: Input)
    ensures ReadHeader(i.authorization) == NoToken <==> Verify(cfg, i) == Err(ErrNoToken)
  {
    hide ParseJwt;
  }

  /** Whatever strict mode serves, permissive mode serves identically; the converse fails on those two cases only. */
  lemma StrictServesLess(cfg: Config, i: Input)
    ensures var strict, lax := Decide(cfg.(mode := Required), i), Decide(cfg.(mode := Permissive), i);
      && (strict.Next? ==> strict == lax && strict.userId.Some?)
      && (lax.Refuse? ==> strict == lax)
      && (strict != lax <==> lax == Next(None))
  {
  }

  /** A bearer token with a readable body and no valid signature is refused with 401 in both modes. */
  lemma UnsignedIsRefused(cfg: Config, i: Input)
    requires TokenOf(i).Some? && Readable(i) && !Signed(cfg.crypto, TokenOf(i).value)
    ensures Decide(cfg, i) == Refuse(401)
    ensures cfg.crypto.parse(TokenOf(i).value).Some? && DecodePublicKey(cfg.crypto.parse(TokenOf(i).value).value.sub).Some? ==>
      Recorded(cfg, i) == Labels("rejected", "bad_signature", SanitizeClient(UnverifiedIssuer(cfg.crypto, i.authorization)))
  {
  }

  /** A body over the limit with a bearer credential gets 413 in both modes; without one it is not even read. */
  lemma OversizedBody(cfg: Config, i: Input, sent: Stream, contentLength: int, maxBytes: int)
    requires i.body == LimitedBody(Some(sent), contentLength, maxBytes) && contentLength != 0
    requires |sent.bytes| > (if maxBytes <= 0 then DEFAULT_MAX_BODY_SIZE else maxBytes)
    ensures TokenOf(i).Some? ==> Decide(cfg, i) == Refuse(413)
    ensures TokenOf(i).None? ==> Decide(cfg, i) == Decide(cfg, i.(body := None))
  {
  }

  /*** Metrics over runs ***/

  const CLIENTS: set<string> := {"freighter-extension", "freighter-mobile", "other"}
  const CLOCK_REASONS: set<string> := {"expired", "clock_ahead"}
  const REJECT_REASONS: set<string> :=
    {"expired", "clock_ahead", "bad_signature", "bad_timing", "bad_method_path", "bad_body_hash", "bad_subject",
     "malformed", "too_large", "internal"}

  /** The label triples the counter can ever hold. */
  predicate Allowed(l: Labels) {
    || (l.result == "authenticated" && l.reason == "ok" && l.client in CLIENTS)
    || ((l.result == "anonymous" || l.result == "rejected") && l.reason == "no_token" && l.client == "none")
    || (l.result == "rejected" && l.reason in REJECT_REASONS && l.client in CLIENTS)
    || (l.result == "invalid_permitted" && l.reason in CLOCK_REASONS && l.client in CLIENTS)
  }

  lemma RecordedIsAllowed(cfg: Config, i: Input)
    ensures Allowed(Recorded(cfg, i))
    ensures Recorded(cfg, i).result == "invalid_permitted" <==> cfg.mode == Permissive && ClockError(cfg, i)
    ensures Recorded(cfg, i).result == "authenticated" <==> Verify(cfg, i).Ok?
    ensures Recorded(cfg, i).result == "rejected" <==> Decide(cfg, i).Refuse?
    ensures Recorded(cfg, i).reason == "too_large" <==> Decide(cfg, i) == Refuse(413)
    ensures Recorded(cfg, i).reason == "internal" <==> Decide(cfg, i) == Refuse(500)
    ensures Decide(cfg, i).Refuse? ==> Decide(cfg, i).status in {401, 413, 500}
  {
    hide ParseJwt, ReadHeader, ReadAll;
  }

  lemma RecordedReason(cfg: Config, i: Input)
    requires TokenOf(i).Some? && Readable(i)
    ensures var r := Parsed(cfg, i);
      Recorded(cfg, i).reason == if r.Ok? then "ok" else ReasonLabel(r.error)
  {
    hide ParseJwt;
  }

  /** No two kinds of failure share a label, and none is labelled as a success. */
  lemma LabelsDiffer(f: Failure, g: Failure)
    ensures ReasonLabel(f) == ReasonLabel(g) <==>
            (f.Expired? && g.Expired?) || (f.ClockAhead? && g.ClockAhead?) || (f.Verification? && f == g)
    ensures ReasonLabel(f) != "ok"
  {
  }

  /** The two clock reasons say what they mean about the signed token. */
  lemma ClockReasonsMeanIt(cfg: Config, i: Input)
    requires cfg.LeewayFits()
    requires Recorded(cfg, i).reason in CLOCK_REASONS
    ensures TokenOf(i).Some? && Signed(cfg.crypto, TokenOf(i).value)
    ensures var c := cfg.crypto.parse(TokenOf(i).value).value;
      && (Recorded(cfg, i).reason == "expired" <==> Late(c, cfg.leeway, i.t1))
      && (Recorded(cfg, i).reason == "clock_ahead" ==> Early(c, cfg.leeway, i.t1, i.t2))
  {
    ClockReasonIsClockFailure(cfg, i);
    RecordedReason(cfg, i);
    var r := Parsed(cfg, i);
    OtherOutcomesImplySignature(cfg.crypto, TokenOf(i).value, i.verb + " " + i.requestUri, ReadAll(i.body).value,
                                cfg.leeway, i.t1, i.t2);
    FailureReasons(cfg.crypto, TokenOf(i).value, i.verb + " " + i.requestUri, ReadAll(i.body).value,
                   cfg.leeway, i.t1, i.t2);
    hide ParseJwt, Signed, ReadHeader, ReadAll, DecodePublicKey, WellTimed, Late, Early, Recorded;
    LabelsDiffer(r.error, Expired(""));
    LabelsDiffer(r.error, ClockAhead(""));
  }

  lemma ClockReasonIsClockFailure(cfg: Config, i: Input)
    requires Recorded(cfg, i).reason in CLOCK_REASONS
    ensures TokenOf(i).Some? && Readable(i) && Parsed(cfg, i).Err? && !Parsed(cfg, i).error.Verification?
  {
    hide ParseJwt;
  }

  /** The others too: what was wrong with the token, its subject, its signature or its binding. */
  lemma TokenReasonsMeanIt(cfg: Config, i: Input)
    requires cfg.LeewayFits() && TokenOf(i).Some? && Readable(i)
    ensures var token, reason := TokenOf(i).value, Recorded(cfg, i).reason;
      var parsed := cfg.crypto.parse(token);
      && (reason == "malformed" <==> parsed.None?)
      && (reason == "bad_subject" <==> parsed.Some? && DecodePublicKey(parsed.value.sub).None?)
      && (reason == "bad_signature" <==>
            parsed.Some? && DecodePublicKey(parsed.value.sub).Some? && !Signed(cfg.crypto, token))
      && (reason == "bad_timing" ==> Signed(cfg.crypto, token) && !WellTimed(parsed.value))
      && (reason == "bad_method_path" ==>
            Signed(cfg.crypto, token) && parsed.value.methodAndPath != TrimSpace(i.verb + " " + i.requestUri))
      && (reason == "bad_body_hash" ==>
            Signed(cfg.crypto, token) && parsed.value.bodyHash != cfg.crypto.hash(ReadAll(i.body).value))
  {
    var token, m, body := TokenOf(i).value, i.verb + " " + i.requestUri, ReadAll(i.body).value;
    var r := Parsed(cfg, i);
    RecordedReason(cfg, i);
    UnsignedReasons(cfg.crypto, token, m, body, cfg.leeway, i.t1, i.t2);
    if Signed(cfg.crypto, token) {
      FailureReasons(cfg.crypto, token, m, body, cfg.leeway, i.t1, i.t2);
    }
    hide ParseJwt, Signed, ReadHeader, ReadAll, DecodePublicKey, WellTimed, Late, Early, Recorded;
    if r.Err? {
      LabelsDiffer(r.error, Verification(Malformed));
      LabelsDiffer(r.error, Verification(BadSubject));
      LabelsDiffer(r.error, Verification(BadSignature));
      LabelsDiffer(r.error, Verification(BadTiming));
      LabelsDiffer(r.error, Verification(BadMethodPath));
      LabelsDiffer(r.error, Verification(BadBodyHash));
    }
  }

  function CountWhere(inputs: seq<Input>, p: Input -> bool): nat {
    if inputs == [] then 0
    else CountWhere(inputs[..|inputs| - 1], p) + if p(inputs[|inputs| - 1]) then 1 else 0
  }

  /** The part of the counter with one result (WithResultSelects). */
  function WithResult(cfg: Config, inputs: seq<Input>, result: string): multiset<Labels> {
    if inputs == [] then multiset{}
    else
      var l := Recorded(cfg, inputs[|inputs| - 1]);
      WithResult(cfg, inputs[..|inputs| - 1], result) + if l.result == result then multiset{l} else multiset{}
  }

  lemma {:induction false} WithResultSelects(cfg: Config, inputs: seq<Input>, result: string, l: Labels)
    ensures WithResult(cfg, inputs, result)[l] == if l.result == result then Counted(cfg, inputs)[l] else 0
  {
    if inputs != [] {
      WithResultSelects(cfg, inputs[..|inputs| - 1], result, l);
    }
  }

  /** Over any run the counts add up to the number of requests, and no other triple appears. */
  lemma {:induction false} CountersAddUp(cfg: Config, inputs: seq<Input>)
    ensures |Counted(cfg, inputs)| == |inputs|
    ensures forall l :: l in Counted(cfg, inputs) ==> Allowed(l)
  {
    if inputs != [] {
      CountersAddUp(cfg, inputs[..|inputs| - 1]);
      RecordedIsAllowed(cfg, inputs[|inputs| - 1]);
    }
  }

  /*** The four results, in terms of the token and the mode ***/

  function ServedOnClockFailure(cfg: Config): Input -> bool {
    (i: Input) => cfg.mode == Permissive && ClockFailure(cfg, i)
  }

  function ServedWithUserId(cfg: Config): Input -> bool {
    (i: Input) => Authentic(cfg, i)
  }

  function ServedWithoutToken(cfg: Config): Input -> bool {
    (i: Input) => cfg.mode == Permissive && ReadHeader(i.authorization) == NoToken
  }

  function TurnedAway(cfg: Config): Input -> bool {
    (i: Input) => !ServedWithUserId(cfg)(i) && !ServedWithoutToken(cfg)(i) && !ServedOnClockFailure(cfg)(i)
  }

  lemma {:induction false} ResultCounts(cfg: Config, inputs: seq<Input>)
    requires cfg.LeewayFits()
    ensures |WithResult(cfg, inputs, "invalid_permitted")| == CountWhere(inputs, ServedOnClockFailure(cfg))
    ensures |WithResult(cfg, inputs, "authenticated")| == CountWhere(inputs, ServedWithUserId(cfg))
    ensures |WithResult(cfg, inputs, "anonymous")| == CountWhere(inputs, ServedWithoutToken(cfg))
    ensures |WithResult(cfg, inputs, "rejected")| == CountWhere(inputs, TurnedAway(cfg))
  {
    if inputs != [] {
      ResultCounts(cfg, inputs[..|inputs| - 1]);
      ResultTells(cfg, inputs[|inputs| - 1]);
      hide Authentic, ClockFailure, ReadHeader, Recorded;
    }
  }

  /**
   * invalid_permitted counts exactly the requests in permissive mode with a signed token and a wrong clock,
   * authenticated the authentic ones, anonymous those in permissive mode without a token, rejected the rest;
   * each count is over that part of the counter.
   */
  lemma PermittedCount(cfg: Config, inputs: seq<Input>)
    requires cfg.LeewayFits()
    ensures |WithResult(cfg, inputs, "invalid_permitted")| == CountWhere(inputs, ServedOnClockFailure(cfg))
    ensures |WithResult(cfg, inputs, "authenticated")| == CountWhere(inputs, ServedWithUserId(cfg))
    ensures |WithResult(cfg, inputs, "anonymous")| == CountWhere(inputs, ServedWithoutToken(cfg))
    ensures |WithResult(cfg, inputs, "rejected")| == CountWhere(inputs, TurnedAway(cfg))
    ensures forall result, l ::
      WithResult(cfg, inputs, result)[l] == if l.result == result then Counted(cfg, inputs)[l] else 0
  {
    hide *;
    ResultCounts(cfg, inputs);
    forall result, l
      ensures WithResult(cfg, inputs, result)[l] == if l.result == result then Counted(cfg, inputs)[l] else 0
    {
      WithResultSelects(cfg, inputs, result, l);
    }
  }

  /** Which of the four results a request is counted under. */
  lemma ResultTells(cfg: Config, i: Input)
    requires cfg.LeewayFits()
    ensures var result := Recorded(cfg, i).result;
      && (result == "invalid_permitted" <==> cfg.mode == Permissive && ClockFailure(cfg, i))
      && (result == "authenticated" <==> Authentic(cfg, i))
      && (result == "anonymous" <==> cfg.mode == Permissive && ReadHeader(i.authorization) == NoToken)
      && (result == "rejected" <==>
            !Authentic(cfg, i) && !(cfg.mode == Permissive && (ReadHeader(i.authorization) == NoToken || ClockFailure(cfg, i))))
  {
    RecordedIsAllowed(cfg, i);
    VerifiesIffAuthentic(cfg, i);
    ClockErrorIffClockFailure(cfg, i);
    NoTokenIs(cfg, i);
    hide Authentic, ClockFailure, ReadHeader, ParseJwt, ClockError, ReasonLabel, SanitizeClient, LabelIssuer;
  }

  /** Whatever is recorded of a token that parses, the client label is that of its own issuer. */
  lemma ClientIsTokens(cfg: Config, i: Input)
    requires TokenOf(i).Some? && cfg.crypto.parse(TokenOf(i).value).Some?
    ensures Recorded(cfg, i).client == SanitizeClient(cfg.crypto.parse(TokenOf(i).value).value.iss)
    ensures var iss := cfg.crypto.parse(TokenOf(i).value).value.iss;
      Recorded(cfg, i).client == if iss in {"freighter-extension", "freighter-mobile"} then iss else "other"
  {
    if Readable(i) {
      VerifyIsParse(cfg, i);
      OtherOutcomesImplySignature(cfg.crypto, TokenOf(i).value, i.verb + " " + i.requestUri,
                                  ReadAll(i.body).value, cfg.leeway, i.t1, i.t2);
    }
    hide ParseJwt, ReasonLabel, Signed;
  }

  /** So the client label of a permitted failure is the signed issuer's: the sender cannot choose it. */
  lemma PermittedClientIsSigned(cfg: Config, i: Input)
    requires Recorded(cfg, i).result == "invalid_permitted"
    ensures TokenOf(i).Some? && Signed(cfg.crypto, TokenOf(i).value)
    ensures var iss := cfg.crypto.parse(TokenOf(i).value).value.iss;
      Recorded(cfg, i).client == if iss in {"freighter-extension", "freighter-mobile"} then iss else "other"
  {
    RecordedIsAllowed(cfg, i);
    PermittedIsParsed(cfg, i);
    OtherOutcomesImplySignature(cfg.crypto, TokenOf(i).value, i.verb + " " + i.requestUri,
                                ReadAll(i.body).value, cfg.leeway, i.t1, i.t2);
    ClientIsTokens(cfg, i);
  }

  lemma PermittedIsParsed(cfg: Config, i: Input)
    requires ClockError(cfg, i)
    ensures TokenOf(i).Some? && Readable(i)
  {
    hide ParseJwt;
  }
}
