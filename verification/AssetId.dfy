/**
 * internal/utils/assetid/assetid.go. `valid` stands for the strkey check of an issuer; nothing is
 * assumed about it.
 */
module AssetId {
  import opened Text

  const NATIVE := "XLM"
  const MAX_CODE_LEN := 12
  const CREDIT4_MAX_CODE_LEN := 4

  datatype NormalizeError = Empty | NotAPair | InvalidCode(code: string) | InvalidIssuer(issuer: string)

  predicate IsAlphanumeric(c: char) {
    'a' <= c <= 'z' || 'A' <= c <= 'Z' || '0' <= c <= '9'
  }

  predicate IsValidAssetCode(code: string) {
    1 <= |code| <= MAX_CODE_LEN && forall c :: c in code ==> IsAlphanumeric(c)
  }

  function Normalize(valid: string -> bool, input: string): Result<string, NormalizeError> {
    var trimmed := TrimSpace(input);
    if trimmed == "" then Err(Empty)
    else if EqualFold(trimmed, "XLM") || EqualFold(trimmed, "native") then Ok(NATIVE)
    else
      var parts := Split(trimmed, ':');
      if |parts| != 2 then Err(NotAPair)
      else if !IsValidAssetCode(parts[0]) then Err(InvalidCode(parts[0]))
      else if !valid(parts[1]) then Err(InvalidIssuer(parts[1]))
      else Ok(parts[0] + ":" + parts[1])
  }

  function TypeDigit(code: string): string {
    if |code| <= CREDIT4_MAX_CODE_LEN then "1" else "2"
  }

  function ToStellarExpert(canonical: string): string {
    if canonical == NATIVE then NATIVE
    else
      var idx := IndexOf(canonical, ':');
      if idx == |canonical| || idx == 0 then canonical
      else
        var code, issuer := canonical[..idx], canonical[idx + 1..];
        code + "-" + issuer + "-" + TypeDigit(code)
  }

  /** Inverse of ToStellarExpert on canonical ids: CODE-ISSUER-{1|2} back to CODE:ISSUER. */
  function FromStellarExpert(id: string): Option<string> {
    if id == NATIVE then Some(NATIVE)
    else
      var idx := IndexOf(id, '-');
      if idx + 3 > |id| then None
      else Some(id[..idx] + ":" + id[idx + 1..|id| - 2])
  }

  /** The canonical ids: native, or a valid code and a valid issuer around one colon. */
  ghost predicate Canonical(valid: string -> bool, c: string) {
    || c == NATIVE
    || exists code, issuer ::
         && IsValidAssetCode(code) && valid(issuer) && ':' !in issuer
         && Trimmed(code + ":" + issuer) && c == code + ":" + issuer
  }

  lemma NoFold(s: string)
    requires ':' in s
    ensures !EqualFold(s, "XLM") && !EqualFold(s, "native")
  {
    var i :| 0 <= i < |s| && s[i] == ':';
    assert ToLower(s)[i] == ':';
    assert ToLower("XLM") == "xlm";
    assert ToLower("native") == "native";
  }

  lemma NormalizePair(valid: string -> bool, code: string, issuer: string)
    requires IsValidAssetCode(code) && valid(issuer) && ':' !in issuer && Trimmed(code + ":" + issuer)
    ensures Normalize(valid, code + ":" + issuer) == Ok(code + ":" + issuer)
  {
    var s := code + ":" + issuer;
    assert s[|code|] == ':';
    NoFold(s);
    assert ':' !in code;
    SplitOfPair(code, issuer, ':');
  }

  lemma NormalizeReturnsCanonical(valid: string -> bool, s: string)
    requires Normalize(valid, s).Ok?
    ensures Canonical(valid, Normalize(valid, s).value)
  {
    var t := TrimSpace(s);
    var n := Normalize(valid, s);
    if n.value != NATIVE {
      SplitPair(t, ':');
      var parts := Split(t, ':');
      assert parts[1] in parts;
      assert n.value == parts[0] + ":" + parts[1] == t;
    }
  }

  lemma NormalizeKeepsCanonical(valid: string -> bool, s: string)
    requires Canonical(valid, s)
    ensures Normalize(valid, s) == Ok(s)
  {
    if s == NATIVE {
      assert Trimmed(s);
    } else {
      var code, issuer :| IsValidAssetCode(code) && valid(issuer) && ':' !in issuer
        && Trimmed(code + ":" + issuer) && s == code + ":" + issuer;
      hide Normalize, IsValidAssetCode, Trimmed;
      NormalizePair(valid, code, issuer);
    }
  }

  /** Normalize fixes exactly the canonical ids, and everything it returns is one of them. */
  lemma NormalizeFixesExactlyCanonical(valid: string -> bool, s: string)
    ensures Normalize(valid, s).Ok? ==> Canonical(valid, Normalize(valid, s).value)
    ensures Normalize(valid, s) == Ok(s) <==> Canonical(valid, s)
  {
    hide *;
    if Normalize(valid, s).Ok? {
      NormalizeReturnsCanonical(valid, s);
    }
    if Canonical(valid, s) {
      NormalizeKeepsCanonical(valid, s);
    }
  }

  /** By code point: 0-9, A-Z, a-z. */
  predicate LetterOrDigit(c: char) {
    var n := c as int;
    48 <= n < 48 + 10 || 65 <= n < 65 + 26 || 97 <= n < 97 + 26
  }

  /** A pair of a code of at most twelve letters and digits and an issuer without a colon. */
  ghost predicate IsPair(valid: string -> bool, s: string) {
    exists code, issuer ::
      && s == code + ":" + issuer && 1 <= |code| <= 12 && (forall i :: 0 <= i < |code| ==> LetterOrDigit(code[i]))
      && ':' !in issuer && valid(issuer)
  }

  /** The two names of the native asset, in any case. */
  predicate NamesNative(s: string) {
    ToLower(s) == "xlm" || ToLower(s) == "native"
  }

  lemma LettersAndDigits(c: char)
    ensures IsAlphanumeric(c) <==> LetterOrDigit(c)
  {
  }

  lemma ValidCodes(code: string)
    ensures IsValidAssetCode(code) <==> 1 <= |code| <= 12 && forall i :: 0 <= i < |code| ==> LetterOrDigit(code[i])
  {
    forall i | 0 <= i < |code| ensures IsAlphanumeric(code[i]) <==> LetterOrDigit(code[i]) {
      LettersAndDigits(code[i]);
    }
    hide IsAlphanumeric, LetterOrDigit;
    assert (forall c :: c in code ==> IsAlphanumeric(c)) <==> forall i :: 0 <= i < |code| ==> IsAlphanumeric(code[i]);
  }

  lemma FoldsToNative(s: string)
    ensures EqualFold(s, "XLM") || EqualFold(s, "native") <==> NamesNative(s)
  {
    assert ToLower("XLM") == "xlm" && ToLower("native") == "native";
  }

  lemma PairsSplit(valid: string -> bool, s: string)
    ensures IsPair(valid, s) <==>
      var parts := Split(s, ':'); |parts| == 2 && IsValidAssetCode(parts[0]) && valid(parts[1])
    ensures IsPair(valid, s) ==> s == Split(s, ':')[0] + ":" + Split(s, ':')[1]
  {
    var parts := Split(s, ':');
    SplitPair(s, ':');
    hide LetterOrDigit, IsValidAssetCode, Split;
    if |parts| == 2 && IsValidAssetCode(parts[0]) && valid(parts[1]) {
      assert parts[1] in parts;
      ValidPair(valid, parts[0], parts[1]);
    }
    if IsPair(valid, s) {
      PairIsValid(valid, s);
    }
  }

  lemma ValidPair(valid: string -> bool, code: string, issuer: string)
    requires IsValidAssetCode(code) && valid(issuer) && ':' !in issuer
    ensures IsPair(valid, code + ":" + issuer)
  {
    ValidCodes(code);
    hide LetterOrDigit, IsValidAssetCode;
  }

  lemma PairIsValid(valid: string -> bool, s: string)
    requires IsPair(valid, s)
    ensures var parts := Split(s, ':');
      |parts| == 2 && IsValidAssetCode(parts[0]) && valid(parts[1]) && s == parts[0] + ":" + parts[1]
  {
    var code, issuer :| s == code + ":" + issuer && 1 <= |code| <= 12
      && (forall i :: 0 <= i < |code| ==> LetterOrDigit(code[i])) && ':' !in issuer && valid(issuer);
    ValidCodes(code);
    assert ':' !in code;
    SplitOfPair(code, issuer, ':');
    hide LetterOrDigit, IsValidAssetCode, Split;
  }

  /**
   * What is accepted, and as what: in white space, a name of the native asset, or such a pair, which stays as
   * it is; everything else is an error, and an empty one its own.
   */
  lemma NormalizeAccepts(valid: string -> bool, input: string)
    ensures var t, r := TrimSpace(input), Normalize(valid, input);
      && (r.Ok? <==> NamesNative(t) || IsPair(valid, t))
      && (r.Ok? ==> r.value == if NamesNative(t) then "XLM" else t)
      && (r == Err(Empty) <==> t == "")
  {
    var t := TrimSpace(input);
    FoldsToNative(t);
    PairsSplit(valid, t);
    hide TrimSpace, Split, EqualFold, IsPair, IsValidAssetCode;
    if t == "" {
      assert !NamesNative(t);
      EmptyIsNoPair(valid);
    }
  }

  lemma EmptyIsNoPair(valid: string -> bool)
    ensures !IsPair(valid, "")
  {
  }

  lemma NormalizeIdempotent(valid: string -> bool, s: string)
    requires Normalize(valid, s).Ok?
    ensures Normalize(valid, Normalize(valid, s).value) == Normalize(valid, s)
  {
    NormalizeFixesExactlyCanonical(valid, s);
    NormalizeFixesExactlyCanonical(valid, Normalize(valid, s).value);
  }

  lemma CodePrefix(code: string, rest: string, sep: char)
    requires IsValidAssetCode(code) && !IsAlphanumeric(sep)
    ensures IndexOf(code + [sep] + rest, sep) == |code|
  {
    var s := code + [sep] + rest;
    forall j | 0 <= j < |code| ensures s[j] != sep {
      assert s[j] == code[j] && code[j] in code;
    }
    IndexOfIs(s, sep, |code|);
  }

  /** A code of up to four characters and a longer one differ in the last digit; native is its own id. */
  lemma ToStellarExpertOfPair(code: string, issuer: string)
    requires IsValidAssetCode(code)
    ensures ToStellarExpert(code + ":" + issuer) == code + "-" + issuer + (if |code| <= 4 then "-1" else "-2")
    ensures ToStellarExpert(code + ":" + issuer) == code + "-" + issuer + "-" + TypeDigit(code)
    ensures ToStellarExpert("XLM") == "XLM"
  {
    assert forall digit: string :: code + "-" + issuer + "-" + digit == code + "-" + issuer + ("-" + digit);
    assert "-" + "1" == "-1" && "-" + "2" == "-2";
    var c := code + ":" + issuer;
    CodePrefix(code, issuer, ':');
    assert c[|code|] == ':';
    assert c != NATIVE;
    assert c[..|code|] == code && c[|code| + 1..] == issuer;
  }

  lemma FromStellarExpertOfPair(code: string, issuer: string)
    requires IsValidAssetCode(code)
    ensures FromStellarExpert(code + "-" + issuer + "-" + TypeDigit(code)) == Some(code + ":" + issuer)
  {
    var id := code + "-" + issuer + "-" + TypeDigit(code);
    CodePrefix(code, issuer + "-" + TypeDigit(code), '-');
    assert id == code + "-" + (issuer + "-" + TypeDigit(code));
    assert id[|code|] == '-';
    assert id != NATIVE;
    assert id[..|code|] == code && id[|code| + 1..|id| - 2] == issuer;
  }

  lemma StellarExpertRoundTrip(valid: string -> bool, c: string)
    requires Canonical(valid, c)
    ensures FromStellarExpert(ToStellarExpert(c)) == Some(c)
  {
    if c != NATIVE {
      var code, issuer :| IsValidAssetCode(code) && valid(issuer) && ':' !in issuer
        && Trimmed(code + ":" + issuer) && c == code + ":" + issuer;
      ToStellarExpertOfPair(code, issuer);
      FromStellarExpertOfPair(code, issuer);
    }
  }

  /** Distinct canonical ids are distinct assets upstream. */
  lemma ToStellarExpertInjective(valid: string -> bool, c1: string, c2: string)
    requires Canonical(valid, c1) && Canonical(valid, c2)
    requires ToStellarExpert(c1) == ToStellarExpert(c2)
    ensures c1 == c2
  {
    StellarExpertRoundTrip(valid, c1);
    StellarExpertRoundTrip(valid, c2);
  }
}
