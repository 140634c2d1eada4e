/** String helpers with the meaning of Go's `strings` package, over sequences of code points. */
module Text {

  datatype Option<+T> = None | Some(value: T)

  datatype Result<+T, +E> = Ok(value: T) | Err(error: E)

  /** unicode.IsSpace: the code points that strings.TrimSpace removes. */
  predicate IsSpace(c: char) {
    || '\U{9}' <= c <= '\U{D}'
    || c == ' ' || c == '\U{85}' || c == '\U{A0}' || c == '\U{1680}'
    || '\U{2000}' <= c <= '\U{200A}'
    || c == '\U{2028}' || c == '\U{2029}' || c == '\U{202F}' || c == '\U{205F}' || c == '\U{3000}'
  }

  /** No white space at either end. */
  predicate Trimmed(s: string) {
    s != [] ==> !IsSpace(s[0]) && !IsSpace(s[|s| - 1])
  }

  function TrimSpace(s: string): (r: string)
    ensures Trimmed(r)
    ensures Trimmed(s) ==> r == s
    ensures |r| <= |s|
  {
    if s == [] then s
    else if IsSpace(s[0]) then TrimSpace(s[1..])
    else if IsSpace(s[|s| - 1]) then TrimSpace(s[..|s| - 1])
    else s
  }

  /** The characters of the Unicode property White_Space. */
  const WHITE_SPACE := "\t\n\U{B}\U{C}\r \U{85}\U{A0}\U{1680}\U{2000}\U{2001}\U{2002}\U{2003}\U{2004}\U{2005}" +
                       "\U{2006}\U{2007}\U{2008}\U{2009}\U{200A}\U{2028}\U{2029}\U{202F}\U{205F}\U{3000}"

  lemma SpacesAreWhiteSpace(c: char)
    ensures IsSpace(c) <==> c in WHITE_SPACE
  {
    var listed := WHITE_SPACE;
    assert |listed| == 25;
    if '\U{9}' <= c <= '\U{D}' {
      assert c == listed[c as int - 0x9];
    } else if '\U{2000}' <= c <= '\U{200A}' {
      assert c == listed[c as int - 0x2000 + 9];
    } else if IsSpace(c) {
      assert listed[5] == ' ' && listed[6] == '\U{85}' && listed[7] == '\U{A0}' && listed[8] == '\U{1680}';
      assert listed[20] == '\U{2028}' && listed[21] == '\U{2029}' && listed[22] == '\U{202F}';
      assert listed[23] == '\U{205F}' && listed[24] == '\U{3000}';
    }
  }

  predicate AllSpace(s: string) {
    forall i :: 0 <= i < |s| ==> IsSpace(s[i])
  }

  /** TrimSpace removes what is white space at both ends, and nothing else. */
  lemma {:induction false} TrimSpaceIs(before: string, r: string, after: string)
    requires AllSpace(before) && AllSpace(after) && Trimmed(r)
    ensures TrimSpace(before + r + after) == r
    decreases |before| + |after|
  {
    var s := before + r + after;
    hide IsSpace;
    if before != "" {
      assert s[0] == before[0] && s[1..] == before[1..] + r + after;
      TrimSpaceIs(before[1..], r, after);
    } else if after != "" {
      var n := |after| - 1;
      assert s[|s| - 1] == after[n] && s[..|s| - 1] == before + r + after[..n];
      if r == "" {
        assert s == after && after[1..] == "" + "" + after[1..];
        TrimSpaceIs("", "", after[1..]);
      } else {
        TrimSpaceIs(before, r, after[..n]);
      }
    } else {
      assert s == r;
    }
  }

  lemma {:induction false} TrimSpaceSplits(s: string) returns (before: string, after: string)
    ensures AllSpace(before) && AllSpace(after) && s == before + TrimSpace(s) + after
    decreases |s|
  {
    hide IsSpace, Trimmed;
    if s == "" || (!IsSpace(s[0]) && !IsSpace(s[|s| - 1])) {
      before, after := "", "";
      assert s == "" + s + "";
    } else if IsSpace(s[0]) {
      var rest, more := s[1..], "";
      more, after := TrimSpaceSplits(rest);
      before := [s[0]] + more;
      hide TrimSpace;
      assert s == [s[0]] + rest && [s[0]] + (more + TrimSpace(rest) + after) == before + TrimSpace(rest) + after;
    } else {
      var rest, more := s[..|s| - 1], "";
      before, more := TrimSpaceSplits(rest);
      after := more + [s[|s| - 1]];
      hide TrimSpace;
      assert s == rest + [s[|s| - 1]] && before + TrimSpace(rest) + more + [s[|s| - 1]] == before + TrimSpace(rest) + after;
    }
  }

  function LowerChar(c: char): char {
    if 'A' <= c <= 'Z' then c - 'A' + 'a' else c
  }

  function ToLower(s: string): (r: string)
    ensures |r| == |s|
  {
    seq(|s|, i requires 0 <= i < |s| => LowerChar(s[i]))
  }

  /**
   * strings.EqualFold. The words it is used with hold neither `k` nor `s`, the only letters of the
   * basic alphabet that Unicode folding identifies with a character outside it.
   */
  predicate EqualFold(s: string, t: string) {
    ToLower(s) == ToLower(t)
  }

  /** strings.IndexByte: the first position of `c`, or |s| when there is none. */
  function IndexOf(s: string, c: char): (i: nat)
    ensures i <= |s|
    ensures i < |s| ==> s[i] == c
    ensures forall j :: 0 <= j < i ==> s[j] != c
  {
    if s == [] then 0
    else if s[0] == c then 0
    else 1 + IndexOf(s[1..], c)
  }

  /** The position found is determined by what precedes it. */
  lemma IndexOfIs(s: string, c: char, i: nat)
    requires i < |s| && s[i] == c
    requires forall j :: 0 <= j < i ==> s[j] != c
    ensures IndexOf(s, c) == i
  {
  }

  /** strings.Split on one character. */
  function Split(s: string, c: char): (parts: seq<string>)
    ensures |parts| >= 1
    ensures forall p :: p in parts ==> c !in p
    decreases |s|
  {
    var i := IndexOf(s, c);
    if i == |s| then
      [s]
    else
      assert forall j :: 0 <= j < |s[..i]| ==> s[..i][j] == s[j] != c;
      [s[..i]] + Split(s[i + 1..], c)
  }

  /** A string splits in two exactly when it is two separator-free pieces around one separator. */
  lemma SplitPair(s: string, c: char)
    ensures |Split(s, c)| == 2 ==> s == Split(s, c)[0] + [c] + Split(s, c)[1]
  {
    var i := IndexOf(s, c);
    if i < |s| {
      var rest := s[i + 1..];
      assert s == s[..i] + [c] + rest;
      if IndexOf(rest, c) == |rest| {
        assert Split(rest, c) == [rest];
      }
    }
  }

  lemma SplitOfPair(a: string, b: string, c: char)
    requires c !in a && c !in b
    ensures Split(a + [c] + b, c) == [a, b]
  {
    var s := a + [c] + b;
    IndexOfIs(s, c, |a|);
    assert s[..|a|] == a && s[|a| + 1..] == b;
    assert IndexOf(b, c) == |b|;
  }
}
