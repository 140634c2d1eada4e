/**
 * internal/auth/parser.go and claims.go: the ordered gates subject, signature, jwt/v5 claims, Validate.
 * Instants and durations are integers in nanoseconds; durations are 64 bits wide. jwt/v5 and Validate
 * each read the clock once.
 */
module AuthToken {
  import opened Amounts
  import opened Hex
  import opened Text

  const SECOND := 1_000_000_000

  /** maxLifetime of a token: 15 s. */
  const MAX_TOKEN_LIFETIME := 15_000_000_000

  /** The largest leeway the configuration admits: 10 m. */
  const MAX_LEEWAY := 600_000_000_000

  datatype Claims = Claims(sub: string, iss: string, iat: Option<int>, exp: Option<int>, nbf: Option<int>,
                           methodAndPath: string, bodyHash: string)

  datatype Reason = BadSignature | BadTiming | BadMethodPath | BadBodyHash | BadSubject | Malformed

  datatype Failure = Expired(issuer: string) | ClockAhead(issuer: string) | Verification(reason: Reason)

  /** auth.Identity */
  datatype Identity = Identity(userId: string, issuer: string)

  /**
   * The primitives left abstract: the unverified JSON parse of a token, the EdDSA check of a token under
   * a key (wrong algorithms included), SHA-256 in hex, and what a parse of the registered claims alone
   * reads as `iss` in a token that the fuller parse refuses.
   */
  datatype Crypto = Crypto(parse: string -> Option<Claims>, verifies: (seq<Byte>, string) -> bool,
                           hash: seq<Byte> -> string, issuerAlone: string -> string)

  /** decodePublicKey */
  function DecodePublicKey(sub: string): (key: Option<seq<Byte>>)
    ensures key.Some? ==> |key.value| == 32
  {
    var raw := Hex.Decode(sub);
    if raw.Some? && |raw.value| == 32 then raw else None
  }

  /*** Clock arithmetic ***/

  /** time.Time.Sub saturates. */
  function Sub(t: int, u: int): int {
    if t - u > 0x7FFF_FFFF_FFFF_FFFF then 0x7FFF_FFFF_FFFF_FFFF
    else if t - u < -0x8000_0000_0000_0000 then -0x8000_0000_0000_0000
    else t - u
  }

  /** The claim checks of jwt/v5: exp is optional, expiry is reported before nbf. */
  function JwtClaims(c: Claims, leeway: int, now: int): Option<Failure> {
    if c.exp.Some? && !(now < c.exp.value + leeway) then Some(Expired(c.iss))
    else if c.nbf.Some? && !(now >= c.nbf.value - leeway) then Some(ClockAhead(c.iss))
    else None
  }

  /** Whether Validate reaches its last clock check, and fails it. */
  predicate ExpTooFar(iat: int, exp: int, leeway: int, now: int) {
    && 0 <= Sub(exp, iat) <= MAX_TOKEN_LIFETIME
    && iat <= now + leeway
    && exp > now + Wrap(MAX_TOKEN_LIFETIME + leeway)
  }

  /** Claims.Validate, with the default lifetime. */
  function Validate(hash: seq<Byte> -> string, c: Claims, methodAndPath: string, body: seq<Byte>,
                    leeway: int, now: int): Option<Failure> {
    if c.exp.None? || c.iat.None? then Some(Verification(BadTiming))
    else if Sub(c.exp.value, c.iat.value) < 0 then Some(Verification(BadTiming))
    else if Sub(c.exp.value, c.iat.value) > MAX_TOKEN_LIFETIME then Some(Verification(BadTiming))
    else if c.iat.value > now + leeway then Some(ClockAhead(c.iss))
    else if c.exp.value > now + Wrap(MAX_TOKEN_LIFETIME + leeway) then Some(ClockAhead(c.iss))
    else if c.methodAndPath != TrimSpace(methodAndPath) then Some(Verification(BadMethodPath))
    else if c.bodyHash != hash(body) then Some(Verification(BadBodyHash))
    else None
  }

  /** parseJWT; jwt/v5 reads the clock at `t1`, Validate at `t2`. */
  function ParseJwt(crypto: Crypto, token: string, methodAndPath: string, body: seq<Byte>,
                    leeway: int, t1: int, t2: int): Result<Identity, Failure> {
    var parsed := crypto.parse(token);
    if parsed.None? then Err(Verification(Malformed))
    else
      var c := parsed.value;
      var key := DecodePublicKey(c.sub);
      if key.None? then Err(Verification(BadSubject))
      else if !crypto.verifies(key.value, token) then Err(Verification(BadSignature))
      else
        var jwt := JwtClaims(c, leeway, t1);
        if jwt.Some? then Err(jwt.value)
        else
          var invalid := Validate(crypto.hash, c, methodAndPath, body, leeway, t2);
          if invalid.Some? then Err(invalid.value) else Ok(Identity(Hex.Encode(key.value), c.iss))
  }

  /*** The signature gate ***/

  /** The token parses, its subject is a key, and the key signed it. */
  predicate Signed(crypto: Crypto, token: string) {
    var parsed := crypto.parse(token);
    && parsed.Some?
    && DecodePublicKey(parsed.value.sub).Some?
    && crypto.verifies(DecodePublicKey(parsed.value.sub).value, token)
  }

  /** The three outcomes that do not imply a signature. */
  predicate Unauthenticated(r: Result<Identity, Failure>) {
    r == Err(Verification(Malformed)) || r == Err(Verification(BadSubject)) || r == Err(Verification(BadSignature))
  }

  /** Every other outcome means that the subject's key signed the token, and carries the issuer it signed. */
  lemma OtherOutcomesImplySignature(crypto: Crypto, token: string, methodAndPath: string, body: seq<Byte>,
                                    leeway: int, t1: int, t2: int)
    ensures var r := ParseJwt(crypto, token, methodAndPath, body, leeway, t1, t2);
      && (!Unauthenticated(r) <==> Signed(crypto, token))
      && (r.Err? && !r.error.Verification? ==> Signed(crypto, token) && r.error.issuer == crypto.parse(token).value.iss)
      && (r.Ok? ==> r.value.issuer == crypto.parse(token).value.iss)
  {
  }

  /** The three outcomes of an unsigned token, told apart by the token alone. */
  lemma UnsignedReasons(crypto: Crypto, token: string, m: string, body: seq<Byte>, leeway: int, t1: int, t2: int)
    ensures var r, parsed := ParseJwt(crypto, token, m, body, leeway, t1, t2), crypto.parse(token);
      && (r == Err(Verification(Malformed)) <==> parsed.None?)
      && (r == Err(Verification(BadSubject)) <==> parsed.Some? && DecodePublicKey(parsed.value.sub).None?)
      && (r == Err(Verification(BadSignature)) <==>
            parsed.Some? && DecodePublicKey(parsed.value.sub).Some? && !Signed(crypto, token))
  {
  }

  /** An unsigned token fails the same way at all times, for all requests and all leeways. */
  lemma UnsignedTokensLookAlike(crypto: Crypto, token: string,
                                m: string, body: seq<Byte>, leeway: int, t1: int, t2: int,
                                m': string, body': seq<Byte>, leeway': int, t1': int, t2': int)
    requires !Signed(crypto, token)
    ensures ParseJwt(crypto, token, m, body, leeway, t1, t2) == ParseJwt(crypto, token, m', body', leeway', t1', t2')
    ensures crypto.parse(token).Some? && DecodePublicKey(crypto.parse(token).value.sub).Some? ==>
      ParseJwt(crypto, token, m, body, leeway, t1, t2) == Err(Verification(BadSignature))
  {
  }

  /** The user id is the canonical form of the key: 64 characters, lower case, one per key. */
  lemma UserIdIsCanonical(crypto: Crypto, token: string, m: string, body: seq<Byte>, leeway: int, t1: int, t2: int)
    requires ParseJwt(crypto, token, m, body, leeway, t1, t2).Ok?
    ensures var id := ParseJwt(crypto, token, m, body, leeway, t1, t2).value.userId;
      && id == ToLower(crypto.parse(token).value.sub) && |id| == 64
      && Hex.Decode(id) == DecodePublicKey(crypto.parse(token).value.sub)
  {
    var sub := crypto.parse(token).value.sub;
    EncodeOfDecode(sub);
    DecodeOfEncode(DecodePublicKey(sub).value);
  }

  /*** When a signed token is accepted ***/

  /** The conditions that no clock decides. */
  predicate Bound(crypto: Crypto, c: Claims, methodAndPath: string, body: seq<Byte>) {
    && c.exp.Some? && c.iat.Some? && 0 <= c.exp.value - c.iat.value <= MAX_TOKEN_LIFETIME
    && c.methodAndPath == TrimSpace(methodAndPath) && c.bodyHash == crypto.hash(body)
  }

  /** The sum maxLifetime + leeway does not wrap. */
  predicate SumFits(leeway: int) {
    MAX_TOKEN_LIFETIME + leeway <= MAX_INT64
  }

  lemma WrapOfSum(leeway: int)
    requires Fits(leeway)
    ensures SumFits(leeway) ==> Wrap(MAX_TOKEN_LIFETIME + leeway) == MAX_TOKEN_LIFETIME + leeway
    ensures !SumFits(leeway) ==> Wrap(MAX_TOKEN_LIFETIME + leeway) < 0
  {
    if !SumFits(leeway) {
      var sum := MAX_TOKEN_LIFETIME + leeway;
      WrapUnique(sum, sum - 0x1_0000_0000_0000_0000, 1);
    }
  }

  /** A token can reach and fail Validate's last clock check only when that sum wraps. */
  lemma ExpTooFarIsUnreachable(leeway: int)
    requires Fits(leeway)
    ensures (exists iat, exp, now :: ExpTooFar(iat, exp, leeway, now)) <==> !SumFits(leeway)
  {
    WrapOfSum(leeway);
    if !SumFits(leeway) {
      assert ExpTooFar(0, 0, leeway, 0);
    }
  }

  /** Where it is reached and fails, Validate reports the clock. */
  lemma LastClockCheckReports(hash: seq<Byte> -> string, c: Claims, m: string, body: seq<Byte>, leeway: int, now: int)
    requires c.exp.Some? && c.iat.Some?
    ensures ExpTooFar(c.iat.value, c.exp.value, leeway, now) || (c.iat.value > now + leeway && 0 <= Sub(c.exp.value, c.iat.value) <= MAX_TOKEN_LIFETIME) <==>
            Validate(hash, c, m, body, leeway, now) == Some(ClockAhead(c.iss))
  {
  }

  /** The configured range of leeways is far from that. */
  lemma ConfiguredLeewaysFit(leeway: int)
    requires 0 <= leeway <= MAX_LEEWAY
    ensures leeway <= 10 * 60 * SECOND
    ensures Fits(leeway) && SumFits(leeway) && forall iat, exp, now :: !ExpTooFar(iat, exp, leeway, now)
  {
    ExpTooFarIsUnreachable(leeway);
  }

  /** Each clock read decides for itself: the first bounds exp and nbf, the second iat. */
  predicate InTime(c: Claims, leeway: int, t1: int, t2: int)
    requires c.exp.Some? && c.iat.Some?
  {
    && t1 < c.exp.value + leeway
    && (c.nbf.Some? ==> c.nbf.value - leeway <= t1)
    && c.iat.value - leeway <= t2
  }

  /** A token is accepted exactly when it is signed, bound to the request, and in time. */
  lemma AcceptedIff(crypto: Crypto, token: string, m: string, body: seq<Byte>, leeway: int, t1: int, t2: int)
    requires Fits(leeway) && SumFits(leeway)
    ensures ParseJwt(crypto, token, m, body, leeway, t1, t2).Ok? <==>
            && Signed(crypto, token) && Bound(crypto, crypto.parse(token).value, m, body)
            && InTime(crypto.parse(token).value, leeway, t1, t2)
  {
    WrapOfSum(leeway);
  }

  /** exp and iat are there, in order, and not too far apart. */
  predicate WellTimed(c: Claims) {
    c.exp.Some? && c.iat.Some? && 0 <= c.exp.value - c.iat.value <= MAX_TOKEN_LIFETIME
  }

  /** The client's clock lags: exp is over. */
  predicate Late(c: Claims, leeway: int, t1: int) {
    c.exp.Some? && c.exp.value + leeway <= t1
  }

  /** It is fast: nbf, or the iat of a well-timed token, is still to come. */
  predicate Early(c: Claims, leeway: int, t1: int, t2: int) {
    (c.nbf.Some? && t1 < c.nbf.value - leeway) || (WellTimed(c) && t2 < c.iat.value - leeway)
  }

  /**
   * Why a signed token fails, reason by reason: neither saturation nor wrap-around shows, and a wrong
   * clock is never reported as anything else, except that a lagging one hides a fast one.
   */
  lemma FailureReasons(crypto: Crypto, token: string, m: string, body: seq<Byte>, leeway: int, t1: int, t2: int)
    requires Fits(leeway) && SumFits(leeway) && Signed(crypto, token)
    ensures var r, c := ParseJwt(crypto, token, m, body, leeway, t1, t2), crypto.parse(token).value;
      && (r == Err(Expired(c.iss)) <==> Late(c, leeway, t1))
      && (r == Err(ClockAhead(c.iss)) <==> !Late(c, leeway, t1) && Early(c, leeway, t1, t2))
      && (r == Err(Verification(BadTiming)) <==>
            !Late(c, leeway, t1) && !Early(c, leeway, t1, t2) && !WellTimed(c))
      && (r == Err(Verification(BadMethodPath)) <==>
            !Late(c, leeway, t1) && !Early(c, leeway, t1, t2) && WellTimed(c) && c.methodAndPath != TrimSpace(m))
      && (r == Err(Verification(BadBodyHash)) <==>
            !Late(c, leeway, t1) && !Early(c, leeway, t1, t2) && WellTimed(c) && c.methodAndPath == TrimSpace(m)
            && c.bodyHash != crypto.hash(body))
  {
    WrapOfSum(leeway);
  }

  predicate Accepted(crypto: Crypto, token: string, m: string, body: seq<Byte>, leeway: int, t1: int, t2: int) {
    ParseJwt(crypto, token, m, body, leeway, t1, t2).Ok?
  }

  /** The accepted clock readings form a box: anything between two acceptances is accepted too. */
  lemma AcceptanceIsAnInterval(crypto: Crypto, token: string, m: string, body: seq<Byte>, leeway: int,
                               a1: int, a2: int, b1: int, b2: int, t1: int, t2: int)
    requires Fits(leeway) && SumFits(leeway)
    requires Accepted(crypto, token, m, body, leeway, a1, a2) && Accepted(crypto, token, m, body, leeway, b1, b2)
    requires a1 <= t1 <= b1 && a2 <= t2
    ensures Accepted(crypto, token, m, body, leeway, t1, t2)
  {
    AcceptedIff(crypto, token, m, body, leeway, a1, a2);
    AcceptedIff(crypto, token, m, body, leeway, b1, b2);
    AcceptedIff(crypto, token, m, body, leeway, t1, t2);
  }

  /** A wider leeway accepts at least as much. */
  lemma AcceptanceIsMonotone(crypto: Crypto, token: string, m: string, body: seq<Byte>,
                             narrow: int, wide: int, t1: int, t2: int)
    requires Fits(narrow) && SumFits(wide) && narrow <= wide
    requires Accepted(crypto, token, m, body, narrow, t1, t2)
    ensures Accepted(crypto, token, m, body, wide, t1, t2)
  {
    AcceptedIff(crypto, token, m, body, narrow, t1, t2);
    AcceptedIff(crypto, token, m, body, wide, t1, t2);
  }

  /** A replay is started less than 2 * leeway + MaxTokenLifetime after an acceptance is finished. */
  lemma ReplayWindow(crypto: Crypto, token: string, leeway: int, m: string, body: seq<Byte>, a1: int, a2: int,
                     m': string, body': seq<Byte>, b1: int, b2: int)
    requires Fits(leeway) && SumFits(leeway)
    requires Accepted(crypto, token, m, body, leeway, a1, a2) && Accepted(crypto, token, m', body', leeway, b1, b2)
    ensures b1 - a2 < 2 * leeway + 15 * SECOND
    ensures b1 - a1 < 2 * leeway + 15 * SECOND + (a2 - a1)
  {
    AcceptedIff(crypto, token, m, body, leeway, a1, a2);
    AcceptedIff(crypto, token, m', body', leeway, b1, b2);
  }

  /** Two acceptances, the first with `delay` between its two clock reads, are within the window. */
  ghost predicate WindowHolds(crypto: Crypto, token: string, m: string, body: seq<Byte>, leeway: int, delay: nat) {
    forall a1, a2, b1, b2 ::
      && Accepted(crypto, token, m, body, leeway, a1, a2) && a2 == a1 + delay
      && Accepted(crypto, token, m, body, leeway, b1, b2)
      ==> b1 - a1 < 2 * leeway + MAX_TOKEN_LIFETIME
  }

  /**
   * What a token's own claims leave of the window, with `delay` between the two clock reads: its lifetime
   * and the delay fit the maximum lifetime, or its nbf is that close to exp.
   */
  predicate FitsWindow(c: Claims, delay: nat)
    requires c.exp.Some? && c.iat.Some?
  {
    || (c.exp.value - c.iat.value) + delay <= MAX_TOKEN_LIFETIME
    || (c.nbf.Some? && c.exp.value - c.nbf.value <= MAX_TOKEN_LIFETIME)
  }

  lemma FittingTokensKeepWindow(crypto: Crypto, token: string, m: string, body: seq<Byte>, leeway: nat, delay: nat)
    requires Fits(leeway) && SumFits(leeway) && Signed(crypto, token)
    requires Bound(crypto, crypto.parse(token).value, m, body) && FitsWindow(crypto.parse(token).value, delay)
    ensures WindowHolds(crypto, token, m, body, leeway, delay)
  {
    forall a1, a2, b1, b2 | Accepted(crypto, token, m, body, leeway, a1, a2) && a2 == a1 + delay
                            && Accepted(crypto, token, m, body, leeway, b1, b2)
      ensures b1 - a1 < 2 * leeway + MAX_TOKEN_LIFETIME
    {
      AcceptedIff(crypto, token, m, body, leeway, a1, a2);
      AcceptedIff(crypto, token, m, body, leeway, b1, b2);
    }
  }

  /** The earliest and the latest instant at which verification can start and still accept. */
  lemma OtherTokensOverrun(crypto: Crypto, token: string, m: string, body: seq<Byte>, leeway: nat, delay: nat)
    requires Fits(leeway) && SumFits(leeway) && Signed(crypto, token)
    requires Bound(crypto, crypto.parse(token).value, m, body) && !FitsWindow(crypto.parse(token).value, delay)
    ensures !WindowHolds(crypto, token, m, body, leeway, delay)
  {
    var c := crypto.parse(token).value;
    var early := c.iat.value - leeway - delay;
    var a1 := if c.nbf.Some? && c.nbf.value - leeway > early then c.nbf.value - leeway else early;
    var b1 := c.exp.value + leeway - 1;
    AcceptedIff(crypto, token, m, body, leeway, a1, a1 + delay);
    AcceptedIff(crypto, token, m, body, leeway, b1, b1 + 1);
    assert b1 - a1 >= 2 * leeway + MAX_TOKEN_LIFETIME;
    assert Accepted(crypto, token, m, body, leeway, a1, a1 + delay) && Accepted(crypto, token, m, body, leeway, b1, b1 + 1);
  }

  /**
   * Measured from the first clock read of an acceptance, the window is kept exactly for the tokens that
   * fit it: with no delay between the reads all of them do, with some delay not those of full lifetime.
   */
  lemma WindowFromFirstRead(crypto: Crypto, token: string, m: string, body: seq<Byte>, leeway: nat, delay: nat)
    requires Fits(leeway) && SumFits(leeway) && Signed(crypto, token) && Bound(crypto, crypto.parse(token).value, m, body)
    ensures WindowHolds(crypto, token, m, body, leeway, delay) <==> FitsWindow(crypto.parse(token).value, delay)
    ensures delay == 0 ==> WindowHolds(crypto, token, m, body, leeway, delay)
  {
    hide Accepted, WindowHolds;
    if FitsWindow(crypto.parse(token).value, delay) {
      FittingTokensKeepWindow(crypto, token, m, body, leeway, delay);
    } else {
      OtherTokensOverrun(crypto, token, m, body, leeway, delay);
    }
  }
}
