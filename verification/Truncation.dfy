/**
 * truncate of internal/api/middleware/auth.go, over bytes. Characters are those of section 4 of
 * RFC 3629; like Go's decoder, a byte that starts none counts as one invalid byte.
 */
module Truncation {
  import opened Hex

  predicate IsTail(b: Byte) {
    0x80 <= b <= 0xBF
  }

  /** How long the character that starts with this byte is; 0 when none does. */
  function Width(b: Byte): nat {
    if b <= 0x7F then 1
    else if 0xC2 <= b <= 0xDF then 2
    else if 0xE0 <= b <= 0xEF then 3
    else if 0xF0 <= b <= 0xF4 then 4
    else 0
  }

  /** Overlong forms, surrogates and code points past 10FFFF are ruled out by the second byte. */
  predicate SecondOk(b0: Byte, b1: Byte) {
    if b0 == 0xE0 then 0xA0 <= b1 <= 0xBF
    else if b0 == 0xED then 0x80 <= b1 <= 0x9F
    else if b0 == 0xF0 then 0x90 <= b1 <= 0xBF
    else if b0 == 0xF4 then 0x80 <= b1 <= 0x8F
    else IsTail(b1)
  }

  /** The length of the character at the start, 0 when there is none. */
  function CharLen(s: seq<Byte>): (n: nat)
    ensures n <= |s|
  {
    if s == [] then 0
    else
      var w := Width(s[0]);
      if |s| < w then 0
      else if w >= 2 && !SecondOk(s[0], s[1]) then 0
      else if w >= 3 && !IsTail(s[2]) then 0
      else if w >= 4 && !IsTail(s[3]) then 0
      else w
  }

  /*** Characters are the encodings of Unicode scalar values ***/

  predicate IsScalar(n: nat) {
    n < 0xD800 || 0xE000 <= n < 0x11_0000
  }

  /** Section 3 of RFC 3629. */
  function Utf8(n: nat): (s: seq<Byte>)
    requires IsScalar(n)
    ensures 1 <= |s| <= 4
  {
    if n < 0x80 then [n]
    else if n < 0x800 then [0xC0 + n / 64, 0x80 + n % 64]
    else if n < 0x1_0000 then [0xE0 + n / 4096, 0x80 + n / 64 % 64, 0x80 + n % 64]
    else [0xF0 + n / 262144, 0x80 + n / 4096 % 64, 0x80 + n / 64 % 64, 0x80 + n % 64]
  }

  /** The scalar value that w bytes spell. */
  function Spelled(s: seq<Byte>, w: nat): int
    requires 1 <= w <= |s| && w <= 4
  {
    var b: seq<int> := s;
    if w == 1 then b[0]
    else if w == 2 then (b[0] - 0xC0) * 64 + (b[1] - 0x80)
    else if w == 3 then (b[0] - 0xE0) * 4096 + (b[1] - 0x80) * 64 + (b[2] - 0x80)
    else (b[0] - 0xF0) * 262144 + (b[1] - 0x80) * 4096 + (b[2] - 0x80) * 64 + (b[3] - 0x80)
  }

  /** The parts of a number written in base 64. */
  lemma InBase64(a: int, b: int, c: int, d: int)
    requires 0 <= a && 0 <= b < 64 && 0 <= c < 64 && 0 <= d < 64
    ensures var n := a * 262144 + b * 4096 + c * 64 + d;
      n % 64 == d && n / 64 % 64 == c && n / 4096 % 64 == b && n / 262144 == a && n / 4096 == a * 64 + b
      && n / 64 == a * 4096 + b * 64 + c
  {
  }

  lemma CharSpells(s: seq<Byte>)
    requires CharLen(s) > 0
    ensures var n := Spelled(s, CharLen(s)); n >= 0 && IsScalar(n) && Utf8(n) == s[..CharLen(s)]
  {
    var w, b: seq<int> := CharLen(s), s;
    if w == 2 {
      InBase64(0, 0, b[0] - 0xC0, b[1] - 0x80);
    } else if w == 3 {
      InBase64(0, b[0] - 0xE0, b[1] - 0x80, b[2] - 0x80);
    } else if w == 4 {
      InBase64(b[0] - 0xF0, b[1] - 0x80, b[2] - 0x80, b[3] - 0x80);
    }
  }

  lemma Utf8Shape(n: nat)
    requires IsScalar(n)
    ensures var u := Utf8(n);
      && Width(u[0]) == |u| && (|u| >= 2 ==> SecondOk(u[0], u[1]))
      && (|u| >= 3 ==> IsTail(u[2])) && (|u| >= 4 ==> IsTail(u[3]))
  {
  }

  lemma Utf8IsChar(n: nat, rest: seq<Byte>)
    requires IsScalar(n)
    ensures CharLen(Utf8(n) + rest) == |Utf8(n)|
  {
    Utf8Shape(n);
    var u := Utf8(n);
    hide Utf8, IsScalar, Width, SecondOk, IsTail;
    assert forall i :: 0 <= i < |u| ==> (u + rest)[i] == u[i];
  }

  lemma StartsWithUtf8(s: seq<Byte>, n: nat)
    requires IsScalar(n) && Utf8(n) <= s
    ensures CharLen(s) == |Utf8(n)|
  {
    var u := Utf8(n);
    hide Utf8, CharLen;
    assert u + s[|u|..] == s;
    Utf8IsChar(n, s[|u|..]);
  }

  /** A string starts with a character exactly when it starts with the encoding of a scalar value. */
  lemma CharsAreScalars(s: seq<Byte>, n: nat)
    requires IsScalar(n)
    ensures CharLen(s) > 0 <==> exists m: nat :: IsScalar(m) && Utf8(m) <= s
    ensures Utf8(n) <= s ==> CharLen(s) == |Utf8(n)|
  {
    hide Utf8, CharLen, IsScalar, Spelled;
    if CharLen(s) > 0 {
      CharSpells(s);
    }
    if m: nat :| IsScalar(m) && Utf8(m) <= s {
      StartsWithUtf8(s, m);
    }
    if Utf8(n) <= s {
      StartsWithUtf8(s, n);
    }
  }

  /** Nothing but whole characters. */
  predicate Valid(s: seq<Byte>)
    decreases |s|
  {
    s == [] || (CharLen(s) > 0 && Valid(s[CharLen(s)..]))
  }

  /** strings.ToValidUTF8 with an empty replacement. */
  function ToValid(s: seq<Byte>): (r: seq<Byte>)
    ensures |r| <= |s|
    decreases |s|
  {
    if s == [] then []
    else if CharLen(s) == 0 then ToValid(s[1..])
    else s[..CharLen(s)] + ToValid(s[CharLen(s)..])
  }

  /** An ellipsis and "(truncated)". */
  const MARKER: seq<Byte> := [0xE2, 0x80, 0xA6, 0x28, 0x74, 0x72, 0x75, 0x6E, 0x63, 0x61, 0x74, 0x65, 0x64, 0x29]

  function Truncate(s: seq<Byte>, max: nat): seq<Byte> {
    if |s| <= max then s else ToValid(s[..max]) + MARKER
  }

  /** A string within the bound is logged as it is. */
  lemma ShortStringsStay(s: seq<Byte>, max: nat)
    requires |s| <= max
    ensures Truncate(s, max) == s
  {
  }

  /** What follows a character does not matter. */
  lemma CharLenLocal(s: seq<Byte>, t: seq<Byte>)
    requires CharLen(s) > 0 && CharLen(s) <= |t| && t[..CharLen(s)] == s[..CharLen(s)]
    ensures CharLen(t) == CharLen(s)
  {
    var n := CharLen(s);
    forall i | 0 <= i < n ensures t[i] == s[i] {
      assert t[..n][i] == s[..n][i];
    }
  }

  lemma {:induction false} ValidConcat(a: seq<Byte>, b: seq<Byte>)
    requires Valid(a) && Valid(b)
    ensures Valid(a + b)
    decreases |a|
  {
    if a == [] {
      assert a + b == b;
    } else {
      var n := CharLen(a);
      assert (a + b)[..n] == a[..n];
      CharLenLocal(a, a + b);
      assert (a + b)[n..] == a[n..] + b;
      ValidConcat(a[n..], b);
    }
  }

  lemma OneChar(s: seq<Byte>)
    requires CharLen(s) > 0
    ensures Valid(s[..CharLen(s)])
  {
    var c := s[..CharLen(s)];
    assert c[..CharLen(s)] == s[..CharLen(s)];
    CharLenLocal(s, c);
    assert c[CharLen(s)..] == [];
  }

  lemma {:induction false} ToValidIsValid(s: seq<Byte>)
    ensures Valid(ToValid(s))
    decreases |s|
  {
    if s != [] {
      if CharLen(s) == 0 {
        ToValidIsValid(s[1..]);
      } else {
        ToValidIsValid(s[CharLen(s)..]);
        OneChar(s);
        ValidConcat(s[..CharLen(s)], ToValid(s[CharLen(s)..]));
      }
    }
  }

  lemma {:induction false} ToValidKeepsValid(s: seq<Byte>)
    requires Valid(s)
    ensures ToValid(s) == s
    decreases |s|
  {
    if s != [] {
      ToValidKeepsValid(s[CharLen(s)..]);
    }
  }

  /** ToValid changes exactly the invalid strings. */
  lemma ToValidFixesExactlyValid(s: seq<Byte>)
    ensures ToValid(s) == s <==> Valid(s)
  {
    ToValidIsValid(s);
    if Valid(s) {
      ToValidKeepsValid(s);
    }
  }

  /** The bytes after the first of a character start none of their own. */
  lemma {:induction false} TailsVanish(s: seq<Byte>)
    requires forall i :: 0 <= i < |s| ==> IsTail(s[i])
    ensures ToValid(s) == []
  {
    if s != [] {
      TailsVanish(s[1..]);
    }
  }

  lemma TailsOf(s: seq<Byte>, i: nat)
    requires CharLen(s) > 0 && 1 <= i < CharLen(s)
    ensures IsTail(s[i])
  {
  }

  /** A character cut short is no character, and nothing of it remains. */
  lemma CutCharVanishes(s: seq<Byte>, m: nat)
    requires m < CharLen(s)
    ensures CharLen(s[..m]) == 0 && ToValid(s[..m]) == []
  {
    if m > 0 {
      var tail := s[..m][1..];
      forall i | 0 <= i < |tail| ensures IsTail(tail[i]) {
        TailsOf(s, i + 1);
      }
      TailsVanish(tail);
    }
  }

  lemma PrefixAfterChar(s: seq<Byte>, j: nat)
    requires CharLen(s) > 0 && CharLen(s) <= j <= |s|
    ensures CharLen(s[..j]) == CharLen(s)
    ensures s[..j] == s[..CharLen(s)] + s[CharLen(s)..][..j - CharLen(s)]
    ensures s[..j][CharLen(s)..] == s[CharLen(s)..][..j - CharLen(s)]
  {
    assert s[..j][..CharLen(s)] == s[..CharLen(s)];
    CharLenLocal(s, s[..j]);
  }

  /** The position of a cut: the last character boundary within the first max bytes. */
  ghost predicate LastBoundary(s: seq<Byte>, max: nat, k: nat)
    requires max <= |s|
  {
    k <= max && Valid(s[..k]) && forall j :: k < j <= max ==> !Valid(s[..j])
  }

  lemma CutInsideChar(s: seq<Byte>, max: nat)
    requires max < CharLen(s)
    ensures LastBoundary(s, max, 0) && ToValid(s[..max]) == []
  {
    CutCharVanishes(s, max);
    forall j | 0 < j <= max ensures !Valid(s[..j]) {
      CutCharVanishes(s, j);
    }
  }

  /** A boundary past the first character is a boundary of the rest. */
  lemma BoundaryAfterChar(s: seq<Byte>, j: nat)
    requires CharLen(s) > 0 && CharLen(s) <= j <= |s|
    ensures Valid(s[..j]) <==> Valid(s[CharLen(s)..][..j - CharLen(s)])
  {
    PrefixAfterChar(s, j);
    hide CharLen;
  }

  lemma CutAfterChar(s: seq<Byte>, max: nat, m: nat)
    requires 0 < CharLen(s) <= max <= |s|
    requires var rest := s[CharLen(s)..]; LastBoundary(rest, max - CharLen(s), m) && ToValid(rest[..max - CharLen(s)]) == rest[..m]
    ensures LastBoundary(s, max, CharLen(s) + m) && ToValid(s[..max]) == s[..CharLen(s) + m]
  {
    var n := CharLen(s);
    PrefixAfterChar(s, max);
    PrefixAfterChar(s, n + m);
    BoundaryAfterChar(s, n + m);
    assert s[..max][..n] == s[..n];
    hide CharLen;
    forall j | n + m < j <= max ensures !Valid(s[..j]) {
      BoundaryAfterChar(s, j);
    }
  }

  lemma {:induction false} CutAtBoundary(s: seq<Byte>, max: nat) returns (k: nat)
    requires Valid(s) && max <= |s|
    ensures LastBoundary(s, max, k) && ToValid(s[..max]) == s[..k]
    decreases |s|
  {
    var n := CharLen(s);
    hide CharLen;
    if s == [] {
      k := 0;
    } else if max < n {
      k := 0;
      CutInsideChar(s, max);
    } else {
      var m := CutAtBoundary(s[n..], max - n);
      k := n + m;
      CutAfterChar(s, max, m);
    }
  }

  lemma BoundaryUnique(s: seq<Byte>, max: nat, k: nat, m: nat)
    requires max <= |s| && LastBoundary(s, max, k) && LastBoundary(s, max, m)
    ensures k == m
  {
    assert Valid(s[..k]) && Valid(s[..m]);
  }

  /** A valid string that is too long is cut at its last character boundary within max bytes, and marked. */
  lemma TruncatesAtLastBoundary(s: seq<Byte>, max: nat, k: nat)
    requires Valid(s) && |s| > max
    ensures LastBoundary(s, max, k) <==> (k <= max && Truncate(s, max) == s[..k] + MARKER)
  {
    var m := CutAtBoundary(s, max);
    assert |s[..m] + MARKER| == m + |MARKER|;
    if k <= max {
      assert |s[..k] + MARKER| == k + |MARKER|;
    }
    if LastBoundary(s, max, k) {
      BoundaryUnique(s, max, k, m);
    }
  }

  lemma MarkerSpells()
    ensures MARKER == Utf8(0x2026) + seq(11, i requires 0 <= i < 11 => "(truncated)"[i] as int)
  {
  }

  lemma MarkerIsValid()
    ensures Valid(MARKER)
  {
    assert CharLen(MARKER) == 3;
    var ascii := MARKER[3..];
    AsciiIsValid(ascii);
  }

  lemma {:induction false} AsciiIsValid(s: seq<Byte>)
    requires forall i :: 0 <= i < |s| ==> s[i] <= 0x7F
    ensures Valid(s)
  {
    if s != [] {
      assert CharLen(s) == 1;
      AsciiIsValid(s[1..]);
    }
  }

  /** Whatever the bytes: a cut yields valid UTF-8, no longer than max and the marker. */
  lemma CutIsValidAndBounded(s: seq<Byte>, max: nat)
    requires |s| > max
    ensures Valid(Truncate(s, max)) && |Truncate(s, max)| <= max + |MARKER|
  {
    ToValidIsValid(s[..max]);
    MarkerIsValid();
    ValidConcat(ToValid(s[..max]), MARKER);
  }
}
