/** encoding/hex, as the auth subject uses it: decoding takes either case, encoding writes lower case. */
module Hex {
  import opened Text

  type Byte = b: int | 0 <= b < 256

  function Value(c: char): (v: Option<nat>)
    ensures v.Some? ==> v.value < 16
  {
    if '0' <= c <= '9' then Some((c - '0') as nat)
    else if 'a' <= c <= 'f' then Some((c - 'a') as nat + 10)
    else if 'A' <= c <= 'F' then Some((c - 'A') as nat + 10)
    else None
  }

  function Digit(v: nat): (c: char)
    requires v < 16
    ensures Value(c) == Some(v) && LowerChar(c) == c
  {
    if v < 10 then '0' + v as char else 'a' + (v - 10) as char
  }

  function Decode(s: string): Option<seq<Byte>> {
    if s == "" then Some([])
    else if |s| == 1 then None
    else
      var high, low, rest := Value(s[0]), Value(s[1]), Decode(s[2..]);
      if high.None? || low.None? || rest.None? then None
      else Some([16 * high.value + low.value] + rest.value)
  }

  function Encode(bytes: seq<Byte>): (s: string)
    ensures |s| == 2 * |bytes|
  {
    if bytes == [] then "" else [Digit(bytes[0] / 16), Digit(bytes[0] % 16)] + Encode(bytes[1..])
  }

  lemma {:induction false} DecodeOfEncode(bytes: seq<Byte>)
    ensures Decode(Encode(bytes)) == Some(bytes)
  {
    if bytes != [] {
      DecodeOfEncode(bytes[1..]);
      assert Encode(bytes)[2..] == Encode(bytes[1..]);
      assert bytes == [bytes[0]] + bytes[1..];
    }
  }

  /** Two digits for each byte, the high one first. */
  lemma {:induction false} EncodeWrites(bytes: seq<Byte>, k: nat)
    requires k < |bytes|
    ensures Encode(bytes)[2 * k] == "0123456789abcdef"[bytes[k] / 16]
    ensures Encode(bytes)[2 * k + 1] == "0123456789abcdef"[bytes[k] % 16]
  {
    if k == 0 {
      DigitIs(bytes[0] / 16);
      DigitIs(bytes[0] % 16);
    } else {
      EncodeWrites(bytes[1..], k - 1);
    }
  }

  lemma DigitIs(v: nat)
    requires v < 16
    ensures Digit(v) == "0123456789abcdef"[v]
  {
  }

  lemma DigitOfValue(c: char)
    requires Value(c).Some?
    ensures Digit(Value(c).value) == LowerChar(c)
  {
  }

  /** Re-encoding what was decoded yields the same digits in lower case. */
  lemma {:induction false} EncodeOfDecode(s: string)
    requires Decode(s).Some?
    ensures Encode(Decode(s).value) == ToLower(s)
  {
    if s != "" {
      EncodeOfDecode(s[2..]);
      DigitOfValue(s[0]);
      DigitOfValue(s[1]);
      var bytes := Decode(s).value;
      assert bytes[0] / 16 == Value(s[0]).value && bytes[0] % 16 == Value(s[1]).value;
      assert bytes[1..] == Decode(s[2..]).value;
      assert ToLower(s) == [LowerChar(s[0]), LowerChar(s[1])] + ToLower(s[2..]);
    }
  }

  /** Decoding takes pairs of hexadecimal digits, in either case, and nothing else. */
  lemma {:induction false} DecodesHexDigits(s: string)
    ensures Decode(s).Some? <==> |s| % 2 == 0 && forall i :: 0 <= i < |s| ==> IsHexDigit(s[i])
    ensures Decode(ToLower(s)) == Decode(s)
    decreases |s|
  {
    hide IsHexDigit, Value, LowerChar;
    if |s| >= 2 {
      DecodesHexDigits(s[2..]);
      ValueOfHexDigit(s[0]);
      ValueOfHexDigit(s[1]);
      assert ToLower(s)[2..] == ToLower(s[2..]);
      assert forall i :: 2 <= i < |s| ==> s[i] == s[2..][i - 2];
    }
  }

  predicate IsHexDigit(c: char) {
    c in "0123456789abcdefABCDEF"
  }

  lemma ValueOfHexDigit(c: char)
    ensures Value(c).Some? <==> IsHexDigit(c)
    ensures Value(LowerChar(c)) == Value(c)
  {
    var digits := "0123456789abcdefABCDEF";
    if '0' <= c <= '9' {
      assert c == digits[c as int - '0' as int];
    } else if 'a' <= c <= 'f' {
      assert c == digits[c as int - 'a' as int + 10];
    } else if 'A' <= c <= 'F' {
      assert c == digits[c as int - 'A' as int + 16];
    }
  }

  /** Two decodable strings name the same bytes exactly when they differ at most in case. */
  lemma SameBytesIffSameLower(s: string, t: string)
    requires Decode(s).Some? && Decode(t).Some?
    ensures Decode(s) == Decode(t) <==> ToLower(s) == ToLower(t)
  {
    EncodeOfDecode(s);
    EncodeOfDecode(t);
    DecodeOfEncode(Decode(s).value);
    DecodeOfEncode(Decode(t).value);
  }
}
