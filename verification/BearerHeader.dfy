/**
 * The Authorization header as internal/auth/verifier.go and internal/auth/issuer.go read it: the scheme of
 * section 2.1 of RFC 6750 in any case, and a credential behind it.
 */
module BearerHeader {
  import opened Text

  datatype Credential = NoToken | EmptyCredential | Bearer(token: string)

  /** The header of a bearer credential, split at its first space; the scheme's case does not matter. */
  function ReadHeader(authorization: string): Credential {
    var space := IndexOf(authorization, ' ');
    var scheme, rest := authorization[..space], if space < |authorization| then authorization[space + 1..] else "";
    if authorization == "" || !EqualFold(scheme, "Bearer") then NoToken
    else if TrimSpace(rest) == "" then EmptyCredential
    else Bearer(TrimSpace(rest))
  }

  /*** What that reads ***/

  /** "bearer", each letter in either case. */
  predicate IsBearerScheme(scheme: string) {
    |scheme| == 6 && forall i :: 0 <= i < 6 ==> scheme[i] == "bearer"[i] || scheme[i] == "BEARER"[i]
  }

  lemma FoldsToBearer(scheme: string)
    ensures EqualFold(scheme, "Bearer") <==> IsBearerScheme(scheme)
  {
    var lower := "bearer";
    assert ToLower("Bearer") == lower;
    assert |scheme| == 6 ==> (ToLower(scheme) == lower <==> forall i :: 0 <= i < 6 ==> LowerChar(scheme[i]) == lower[i]);
    forall i | 0 <= i < 6 && |scheme| == 6
      ensures LowerChar(scheme[i]) == lower[i] <==> scheme[i] == "bearer"[i] || scheme[i] == "BEARER"[i]
    {
      LowersTo(scheme[i], lower[i], "BEARER"[i]);
    }
  }

  lemma LowersTo(c: char, lower: char, upper: char)
    requires 'a' <= lower <= 'z' && upper == lower - 'a' + 'A'
    ensures LowerChar(c) == lower <==> c == lower || c == upper
  {
  }

  /** A header is its scheme, up to the first space, and what follows that space, if there is one. */
  function Header(scheme: string, rest: Option<string>): string {
    if rest.Some? then scheme + " " + rest.value else scheme
  }

  lemma SplitsAtSpace(h: string) returns (scheme: string, rest: Option<string>)
    ensures ' ' !in scheme && h == Header(scheme, rest)
  {
    var space := IndexOf(h, ' ');
    scheme := h[..space];
    rest := if space < |h| then Some(h[space + 1..]) else None;
  }

  lemma SchemeAndRest(scheme: string, rest: Option<string>)
    requires ' ' !in scheme
    ensures var h := Header(scheme, rest); var space := IndexOf(h, ' ');
      h[..space] == scheme && (if space < |h| then h[space + 1..] else "") == (if rest.Some? then rest.value else "")
  {
    var h := Header(scheme, rest);
    if rest.Some? {
      assert h[|scheme|] == ' ';
      IndexOfIs(h, ' ', |scheme|);
    } else {
      assert IndexOf(h, ' ') == |h|;
    }
  }

  /** The credential is `t`, in white space. */
  ghost predicate Wraps(rest: Option<string>, t: string) {
    rest.Some? && exists before, after :: AllSpace(before) && AllSpace(after) && rest.value == before + t + after
  }

  lemma TrimsTo(rest: string, t: string)
    requires Trimmed(t)
    ensures TrimSpace(rest) == t <==> Wraps(Some(rest), t)
  {
    hide AllSpace, TrimSpace;
    if TrimSpace(rest) == t {
      var before, after := TrimSpaceSplits(rest);
    }
    if before, after :| AllSpace(before) && AllSpace(after) && rest == before + t + after {
      TrimSpaceIs(before, t, after);
    }
  }

  lemma TrimsToNothing(rest: string)
    ensures TrimSpace(rest) == "" <==> AllSpace(rest)
  {
    if AllSpace(rest) {
      assert rest == rest + "" + "";
      TrimSpaceIs(rest, "", "");
    } else {
      var before, after := TrimSpaceSplits(rest);
    }
  }

  /**
   * No token exactly under another scheme (the empty header's included), an empty credential exactly when
   * nothing but white space follows the scheme, and else exactly what follows, without the white space around it.
   */
  lemma HeaderReads(scheme: string, rest: Option<string>, t: string)
    requires ' ' !in scheme
    ensures ReadHeader(Header(scheme, rest)) == NoToken <==> !IsBearerScheme(scheme)
    ensures ReadHeader(Header(scheme, rest)) == EmptyCredential <==>
            IsBearerScheme(scheme) && (rest.Some? ==> AllSpace(rest.value))
    ensures ReadHeader(Header(scheme, rest)) == Bearer(t) <==>
            IsBearerScheme(scheme) && t != "" && Trimmed(t) && Wraps(rest, t)
  {
    SchemeAndRest(scheme, rest);
    FoldsToBearer(scheme);
    var text := if rest.Some? then rest.value else "";
    TrimsToNothing(text);
    if Trimmed(t) {
      TrimsTo(text, t);
    }
    hide IsBearerScheme, EqualFold, TrimSpace, AllSpace, Trimmed, Wraps;
    assert Header(scheme, rest) == "" ==> scheme == "";
    SchemeIsNotEmpty(scheme);
    NothingWraps(rest, t);
  }

  lemma SchemeIsNotEmpty(scheme: string)
    ensures IsBearerScheme(scheme) ==> scheme != ""
  {
  }

  lemma NothingWraps(rest: Option<string>, t: string)
    ensures Wraps(rest, t) ==> rest.Some?
  {
  }

  /** A header that names the bearer scheme. */
  ghost predicate NamesBearer(h: string) {
    exists scheme, rest :: ' ' !in scheme && IsBearerScheme(scheme) && h == Header(scheme, rest)
  }

  /** A header that carries the bearer token `t`. */
  ghost predicate Carries(h: string, t: string) {
    && t != "" && Trimmed(t)
    && exists scheme, rest :: ' ' !in scheme && IsBearerScheme(scheme) && Wraps(rest, t) && h == Header(scheme, rest)
  }

  /** So for every header. */
  lemma ReadsWhatItCarries(h: string, t: string)
    ensures ReadHeader(h) == NoToken <==> !NamesBearer(h)
    ensures ReadHeader(h) == Bearer(t) <==> Carries(h, t)
  {
    hide ReadHeader, Header, IsBearerScheme, Wraps, Trimmed;
    var scheme, rest := SplitsAtSpace(h);
    HeaderReads(scheme, rest, t);
    if NamesBearer(h) {
      var s, r :| ' ' !in s && IsBearerScheme(s) && h == Header(s, r);
      HeaderReads(s, r, t);
    }
    if Carries(h, t) {
      var s, r :| ' ' !in s && IsBearerScheme(s) && Wraps(r, t) && h == Header(s, r);
      HeaderReads(s, r, t);
    }
  }
}
