/**
 * internal/services/account_balances_mapping.go: fixed-point amounts in int64, and the key and the
 * spendable part of each balance variant. Parsing and printing are those of stellar/go/amount.
 */
module Amounts {
  import opened Decimal
  import opened Text

  const MAX_INT64 := 0x7FFF_FFFF_FFFF_FFFF

  predicate Fits(x: int) {
    -0x8000_0000_0000_0000 <= x <= 0x7FFF_FFFF_FFFF_FFFF
  }

  /** Two's complement wrap-around of a 64-bit result. */
  function Wrap(x: int): (w: int)
    ensures Fits(w)
    ensures Fits(x) ==> w == x
    ensures w == x - 0x1_0000_0000_0000_0000 * Carry(x)
  {
    x - 0x1_0000_0000_0000_0000 * Carry(x)
  }

  function Carry(x: int): int {
    (x + 0x8000_0000_0000_0000) / 0x1_0000_0000_0000_0000
  }

  /** Two representable numbers that differ by a multiple of 2^64 are equal. */
  lemma WrapUnique(x: int, w: int, k: int)
    requires Fits(w) && w == x - 0x1_0000_0000_0000_0000 * k
    ensures Wrap(x) == w
  {
  }

  lemma WrapAdd(x: int, y: int)
    ensures Wrap(Wrap(x) + y) == Wrap(x + y)
    ensures Wrap(x - Wrap(y)) == Wrap(x - y)
  {
    WrapUnique(Wrap(x) + y, Wrap(x + y), Carry(x + y) - Carry(x));
    WrapUnique(x - Wrap(y), Wrap(x - y), Carry(x - y) + Carry(y));
  }

  /*** Amount strings ***/

  function Zeros(k: nat): (zeros: string)
    ensures |zeros| == k && forall i :: 0 <= i < k ==> zeros[i] == '0'
  {
    seq(k, _ => '0')
  }

  /** Seven decimals: further ones must be zero, missing ones are. */
  function SevenDecimals(frac: string): (r: Option<string>)
    requires AllDigits(frac)
    ensures r.Some? ==> AllDigits(r.value) && |r.value| == 7
  {
    if |frac| <= 7 then Some(frac + Zeros(7 - |frac|))
    else if forall i :: 7 <= i < |frac| ==> frac[i] == '0' then Some(frac[..7])
    else None
  }

  /** An unsigned amount in units of 10^-7: digits around at most one point, at least one digit. */
  function ParseUnsigned(s: string): Option<nat> {
    var dot := IndexOf(s, '.');
    var whole, frac := s[..dot], if dot < |s| then s[dot + 1..] else "";
    if !AllDigits(whole) || !AllDigits(frac) || (whole == "" && frac == "") then None
    else
      var seven := SevenDecimals(frac);
      if seven.None? then None else Some(NatOf(whole + seven.value))
  }

  function ParseAmount(s: string): Option<int> {
    if s != "" && s[0] == '-' then
      var u := ParseUnsigned(s[1..]);
      if u.Some? then Some(-(u.value as int)) else None
    else
      var u := ParseUnsigned(s);
      if u.Some? then Some(u.value) else None
  }

  const MAX_AMOUNT_LENGTH := 20

  /** The digits and points of an amount, without its sign. */
  function AmountLength(s: string): nat {
    if s != "" && s[0] == '-' then |s| - 1 else |s|
  }

  /** amount.ParseInt64: at most twenty digits and points behind an optional sign, and a value of 64 bits. */
  function ParseInt64(s: string): (r: Option<int>)
    ensures r.Some? ==> Fits(r.value)
  {
    var v := ParseAmount(s);
    if AmountLength(s) <= MAX_AMOUNT_LENGTH && v.Some? && Fits(v.value) then v else None
  }

  /** Twenty characters behind the sign are the most that is read. */
  lemma LengthDecides(s: string)
    ensures |s| >= 22 || (|s| == 21 && s[0] != '-') ==> ParseInt64(s) == None
    ensures |s| <= 20 || (|s| == 21 && s[0] == '-') ==>
      ParseInt64(s) == if ParseAmount(s).Some? && Fits(ParseAmount(s).value) then ParseAmount(s) else None
  {
    hide ParseAmount;
  }

  function PrintUnsigned(n: nat): string {
    assert Pow10(7) == 10_000_000;
    Digits(n / 10_000_000) + "." + FixedDigits(n % 10_000_000, 7)
  }

  /** amount.StringFromInt64 */
  function Print(v: int): string {
    if v < 0 then "-" + PrintUnsigned(-v) else PrintUnsigned(v)
  }

  lemma {:induction false} NatOfZeros(zeros: string)
    requires forall i :: 0 <= i < |zeros| ==> zeros[i] == '0'
    ensures NatOf(zeros) == 0
  {
    if zeros != "" {
      NatOfZeros(zeros[..|zeros| - 1]);
    }
  }

  /** What the digits before the point and up to seven behind it say, in units of 10^-7. */
  function Units(whole: string, frac: string): nat
    requires AllDigits(whole) && AllDigits(frac) && |frac| <= 7
  {
    NatOf(whole) * 10_000_000 + NatOf(frac) * Pow10(7 - |frac|)
  }

  lemma PaddedValue(whole: string, frac: string)
    requires AllDigits(whole) && AllDigits(frac) && |frac| <= 7
    ensures NatOf(whole + (frac + Zeros(7 - |frac|))) == Units(whole, frac)
  {
    var zeros := Zeros(7 - |frac|);
    NatOfConcat(whole, frac + zeros);
    NatOfConcat(frac, zeros);
    NatOfZeros(zeros);
    assert Pow10(7) == 10_000_000;
  }

  /** An amount without a point. */
  lemma ParsesWhole(whole: string)
    requires AllDigits(whole) && whole != ""
    ensures ParseUnsigned(whole) == Some(NatOf(whole) * 10_000_000)
  {
    assert "" + Zeros(7) == Zeros(7);
    hide ParseUnsigned, NatOf, Pow10, Units, Zeros, SevenDecimals, AllDigits;
    ParsePoint(whole, "");
    PaddedValue(whole, "");
    WholeUnits(whole);
  }

  lemma WholeUnits(whole: string)
    requires AllDigits(whole)
    ensures AllDigits("") && Units(whole, "") == NatOf(whole) * 10_000_000
  {
    assert NatOf("") == 0;
  }

  /** Digits around a point, and any number of zeros from the eighth decimal on. */
  lemma ParsesDecimals(whole: string, frac: string, tail: string)
    requires AllDigits(whole) && AllDigits(frac) && AllDigits(tail) && |frac| <= 7 && (tail != "" ==> |frac| == 7)
    requires whole != "" || frac != ""
    ensures ParseUnsigned(whole + "." + (frac + tail)) ==
            if forall i :: 0 <= i < |tail| ==> tail[i] == '0' then Some(Units(whole, frac)) else None
  {
    TailDecides(frac, tail);
    hide ParseUnsigned, SevenDecimals, NatOf, Units, Zeros, AllDigits;
    ParsePoint(whole, frac + tail);
    PaddedValue(whole, frac);
  }

  lemma ParsePoint(whole: string, decimals: string)
    requires AllDigits(whole) && AllDigits(decimals)
    ensures whole != "" || decimals != "" ==>
      ParseUnsigned(whole + "." + decimals) ==
      var seven := SevenDecimals(decimals); if seven.None? then None else Some(NatOf(whole + seven.value))
    ensures whole != "" ==> ParseUnsigned(whole) == Some(NatOf(whole + Zeros(7)))
  {
    PointAt(whole, decimals);
    assert SevenDecimals("") == Some("" + Zeros(7));
    assert "" + Zeros(7) == Zeros(7);
    hide SevenDecimals, NatOf, IndexOf;
  }

  lemma PointAt(whole: string, decimals: string)
    requires AllDigits(whole)
    ensures var s := whole + "." + decimals;
      IndexOf(s, '.') == |whole| && s[..|whole|] == whole && s[|whole| + 1..] == decimals
    ensures IndexOf(whole, '.') == |whole| && whole[..|whole|] == whole
  {
    var s := whole + "." + decimals;
    assert s[|whole|] == '.';
    IndexOfIs(s, '.', |whole|);
  }

  lemma TailDecides(frac: string, tail: string)
    requires AllDigits(frac) && AllDigits(tail) && |frac| <= 7 && (tail != "" ==> |frac| == 7)
    ensures AllDigits(frac + tail)
    ensures SevenDecimals(frac + tail) ==
            if forall i :: 0 <= i < |tail| ==> tail[i] == '0' then Some(frac + Zeros(7 - |frac|)) else None
    ensures SevenDecimals("") == Some(Zeros(7))
  {
    var s := frac + tail;
    if tail == "" {
      assert s == frac;
    } else {
      assert s[..7] == frac && frac + Zeros(0) == frac;
      assert forall i :: 7 <= i < |s| ==> s[i] == tail[i - 7];
      assert forall i :: 0 <= i < |tail| ==> tail[i] == s[i + 7];
    }
    assert "" + Zeros(7) == Zeros(7);
  }

  /** Anything else is refused. */
  lemma ParsesNothingElse(s: string)
    ensures ParseUnsigned(s).Some? ==>
      exists whole, frac :: AllDigits(whole) && AllDigits(frac) && whole + frac != "" && (s == whole || s == whole + "." + frac)
  {
    if ParseUnsigned(s).Some? {
      var dot := IndexOf(s, '.');
      var whole, frac := s[..dot], if dot < |s| then s[dot + 1..] else "";
      assert s == whole || s == whole + "." + frac;
      assert AllDigits(whole) && AllDigits(frac) && whole + frac != "";
    }
  }

  lemma UnsignedRoundTrip(n: nat)
    ensures ParseUnsigned(PrintUnsigned(n)) == Some(n)
    ensures PrintUnsigned(n) != "" && PrintUnsigned(n)[0] != '-'
  {
    assert Pow10(7) == 10_000_000;
    var whole, frac := Digits(n / 10_000_000), FixedDigits(n % 10_000_000, 7);
    ParsePoint(whole, frac);
    assert frac + Zeros(0) == frac;
    NatOfConcat(whole, frac);
    hide ParseUnsigned, Digits, FixedDigits, NatOf;
    assert PrintUnsigned(n)[0] == whole[0];
  }

  /** A printed 64-bit amount stays within the length that parsing accepts. */
  lemma PrintIsShort(v: int)
    requires Fits(v)
    ensures AmountLength(Print(v)) <= MAX_AMOUNT_LENGTH
  {
    var n: nat := if v < 0 then -v else v;
    assert n / 10_000_000 < 1_000_000_000_000;
    assert Pow10(12) == 1_000_000_000_000;
    DigitsShort(n / 10_000_000, 12);
  }

  lemma SignedRoundTrip(v: int)
    ensures ParseAmount(Print(v)) == Some(v)
  {
    UnsignedRoundTrip(if v < 0 then -v else v);
    hide ParseUnsigned, PrintUnsigned;
    if v < 0 {
      assert Print(v)[1..] == PrintUnsigned(-v);
    }
  }

  /** Printing an amount and parsing it back is the identity. */
  lemma AmountRoundTrip(v: int)
    ensures ParseAmount(Print(v)) == Some(v)
    ensures Fits(v) ==> ParseInt64(Print(v)) == Some(v)
  {
    hide ParseAmount, Print, AmountLength;
    SignedRoundTrip(v);
    if Fits(v) {
      PrintIsShort(v);
    }
  }

  lemma PrintInjective(v: int, w: int)
    ensures Print(v) == Print(w) <==> v == w
  {
    AmountRoundTrip(v);
    AmountRoundTrip(w);
  }

  /*** spendable ***/

  /** The parsed amounts, or None when one does not parse. */
  function ParseAll(amounts: seq<string>): (r: Option<seq<int>>)
    ensures r.Some? ==> |r.value| == |amounts|
  {
    if amounts == [] then Some([])
    else
      var front, last := ParseAll(amounts[..|amounts| - 1]), ParseInt64(amounts[|amounts| - 1]);
      if front.Some? && last.Some? then Some(front.value + [last.value]) else None
  }

  /** The int64 accumulator of the loop. */
  function WrappedSum(values: seq<int>): int {
    if values == [] then 0 else Wrap(WrappedSum(values[..|values| - 1]) + values[|values| - 1])
  }

  /** The mathematical sum. */
  function ExactSum(values: seq<int>): int {
    if values == [] then 0 else ExactSum(values[..|values| - 1]) + values[|values| - 1]
  }

  lemma {:induction false} WrappedSumIsWrapOfExact(values: seq<int>)
    ensures WrappedSum(values) == Wrap(ExactSum(values))
  {
    if values != [] {
      WrappedSumIsWrapOfExact(values[..|values| - 1]);
      WrapAdd(ExactSum(values[..|values| - 1]), values[|values| - 1]);
    }
  }

  function Max0(x: int): int {
    if x > 0 then x else 0
  }

  /** The int64 arithmetic: the accumulator, the difference, the clamp. */
  function Difference(bal: int, reserved: seq<int>): int {
    Max0(Wrap(bal - WrappedSum(reserved)))
  }

  lemma DifferenceIs(bal: int, reserved: seq<int>)
    ensures Difference(bal, reserved) == Max0(Wrap(bal - ExactSum(reserved)))
  {
    WrappedSumIsWrapOfExact(reserved);
    WrapAdd(bal, ExactSum(reserved));
  }

  function Spendable(balance: string, reserved: seq<string>): string {
    var bal, res := ParseInt64(balance), ParseAll(reserved);
    if bal.None? || res.None? then balance else Print(Difference(bal.value, res.value))
  }

  lemma {:induction false} UnparsableReserve(reserved: seq<string>, n: nat)
    requires n < |reserved| && ParseInt64(reserved[n]).None?
    ensures ParseAll(reserved).None?
  {
    if n < |reserved| - 1 {
      UnparsableReserve(reserved[..|reserved| - 1], n);
    }
  }

  lemma ParseAllStep(reserved: seq<string>, i: nat, values: seq<int>)
    requires i < |reserved| && ParseAll(reserved[..i]) == Some(values) && ParseInt64(reserved[i]).Some?
    ensures ParseAll(reserved[..i + 1]) == Some(values + [ParseInt64(reserved[i]).value])
  {
    assert reserved[..i + 1][..i] == reserved[..i];
  }

  lemma WrappedSumStep(values: seq<int>, v: int)
    ensures WrappedSum(values + [v]) == Wrap(WrappedSum(values) + v)
  {
    assert (values + [v])[..|values|] == values;
  }

  method SpendableLoop(balance: string, reserved: seq<string>) returns (available: string)
    ensures available == Spendable(balance, reserved)
  {
    hide Print, Wrap, ParseInt64;
    var bal := ParseInt64(balance);
    if bal.None? {
      return balance;
    }
    var res := 0;
    ghost var values: seq<int> := [];
    assert ParseAll(reserved[..0]) == Some(values) && WrappedSum(values) == 0;
    hide ParseAll, WrappedSum;
    for i := 0 to |reserved|
      invariant ParseAll(reserved[..i]) == Some(values) && res == WrappedSum(values)
    {
      var v := ParseInt64(reserved[i]);
      if v.None? {
        UnparsableReserve(reserved, i);
        return balance;
      }
      ParseAllStep(reserved, i, values);
      WrappedSumStep(values, v.value);
      values := values + [v.value];
      res := Wrap(res + v.value);
    }
    assert reserved[..|reserved|] == reserved;
    var avail := Wrap(bal.value - res);
    available := if avail > 0 then Print(avail) else Print(0);
  }

  /** Any input that does not parse falls back to the raw balance. */
  lemma UnparsableFallsBack(balance: string, reserved: seq<string>, i: nat)
    requires ParseInt64(balance).None? || (i < |reserved| && ParseInt64(reserved[i]).None?)
    ensures Spendable(balance, reserved) == balance
  {
    if i < |reserved| && ParseInt64(reserved[i]).None? {
      UnparsableReserve(reserved, i);
    }
  }

  lemma ClampedWrap(x: int)
    ensures Max0(Wrap(x)) == Max0(x) <==> Fits(x) || (x < 0 && Wrap(x) <= 0)
  {
  }

  /** When everything parses: the wrapped difference, clamped and printed. */
  lemma SpendableOfParsed(balance: string, reserved: seq<string>, b: int, values: seq<int>)
    requires ParseInt64(balance) == Some(b) && ParseAll(reserved) == Some(values)
    ensures Spendable(balance, reserved) == Print(Max0(Wrap(b - ExactSum(values))))
  {
    DifferenceIs(b, values);
  }

  /**
   * What is available is the balance less the exact sum of what is reserved, clamped at zero, exactly
   * when that difference fits 64 bits, or is so negative that wrapping leaves it non-positive.
   */
  lemma SpendableExactly(balance: string, reserved: seq<string>, b: int, values: seq<int>)
    requires ParseInt64(balance) == Some(b) && ParseAll(reserved) == Some(values)
    ensures var left := b - ExactSum(values);
      Spendable(balance, reserved) == Print(Max0(left)) <==> Fits(left) || (left < 0 && Wrap(left) <= 0)
  {
    hide *;
    var left := b - ExactSum(values);
    SpendableOfParsed(balance, reserved, b, values);
    ClampedWrap(left);
    PrintInjective(Max0(Wrap(left)), Max0(left));
  }

  /** With nothing negative, and a sum in range, what is available lies between zero and the balance. */
  lemma SpendableBounded(balance: string, reserved: seq<string>, b: int, values: seq<int>)
    requires ParseInt64(balance) == Some(b) && ParseAll(reserved) == Some(values)
    requires b >= 0 && ExactSum(values) >= 0 && Fits(b - ExactSum(values))
    ensures ParseInt64(Spendable(balance, reserved)) == Some(Max0(b - ExactSum(values)))
    ensures 0 <= Max0(b - ExactSum(values)) <= b
  {
    SpendableOfParsed(balance, reserved, b, values);
    AmountRoundTrip(Max0(b - ExactSum(values)));
  }

  lemma ParseAllOfTwo(r1: string, r2: string)
    requires ParseInt64(r1).Some? && ParseInt64(r2).Some?
    ensures ParseAll([r1, r2]) == Some([ParseInt64(r1).value, ParseInt64(r2).value])
    ensures ExactSum([ParseInt64(r1).value, ParseInt64(r2).value]) == ParseInt64(r1).value + ParseInt64(r2).value
  {
    ParseAllOfOne(r1);
    var v1, v2 := ParseInt64(r1).value, ParseInt64(r2).value;
    assert [r1, r2][..1] == [r1] && [v1, v2][..1] == [v1];
    assert [v1] + [v2] == [v1, v2];
  }

  lemma ParseAllOfOne(r: string)
    requires ParseInt64(r).Some?
    ensures ParseAll([r]) == Some([ParseInt64(r).value])
    ensures ExactSum([ParseInt64(r).value]) == ParseInt64(r).value
  {
    var v := ParseInt64(r).value;
    assert [r][..0] == [] && [v][..0] == [];
    var none: seq<int> := [];
    assert ParseAll([]) == Some(none) && none + [v] == [v];
  }

  lemma WrapTwiceLargest(largest: int, held: int)
    requires largest == MAX_INT64 && 0 <= held <= MAX_INT64 - 2
    ensures Max0(Wrap(held - (largest + largest))) == held + 2
    ensures Fits(held) && Fits(largest)
  {
    WrapUnique(held - (largest + largest), held + 2, -1);
  }

  /** Two reserves of the largest amount wrap to -2: more becomes available than the account holds. */
  lemma OverflowInflates(largest: int, held: int)
    requires largest == MAX_INT64 && 0 <= held <= MAX_INT64 - 2
    ensures Spendable(Print(held), [Print(largest), Print(largest)]) == Print(held + 2)
  {
    hide *;
    WrapTwiceLargest(largest, held);
    AmountRoundTrip(largest);
    AmountRoundTrip(held);
    ParseAllOfTwo(Print(largest), Print(largest));
    SpendableOfParsed(Print(held), [Print(largest), Print(largest)], held, [largest, largest]);
  }

  /*** mapBalance ***/

  datatype SdkBalance =
    | NativeBalance(tokenId: string, balance: string, minimum: string, selling: string, subentries: nat)
    | TrustlineBalance(tokenId: string, balance: string, code: string, issuer: string, selling: string)
    | SacBalance(tokenId: string, balance: string, code: string, issuer: string)
    | Sep41Balance(tokenId: string, balance: string, symbol: Option<string>)
    | LiquidityPoolBalance(tokenId: string, balance: string)
    | UnknownBalance(tokenId: string, balance: string)

  /** The shared base of a mapped balance; `available` is absent for a variant the SDK does not know. */
  datatype Balance = Balance(key: string, tokenId: string, total: string, available: string)

  function MapBalance(b: SdkBalance): Balance {
    match b
    case NativeBalance(id, total, minimum, selling, _) =>
      Balance("native", id, total, Spendable(total, [minimum, selling]))
    case TrustlineBalance(id, total, code, issuer, selling) =>
      Balance(code + ":" + issuer, id, total, Spendable(total, [selling]))
    case SacBalance(id, total, code, issuer) => Balance(code + ":" + issuer, id, total, total)
    case Sep41Balance(id, total, symbol) =>
      Balance((if symbol.Some? then symbol.value else "") + ":" + id, id, total, total)
    case LiquidityPoolBalance(id, total) => Balance(id + ":lp", id, total, total)
    case UnknownBalance(id, total) => Balance(id, id, total, "")
  }

  /** What the client is shown for a balance: its own id and amount, keyed as it always was. */
  predicate Shows(b: SdkBalance, m: Balance) {
    && m.total == b.balance && m.tokenId == b.tokenId
    && (b.SacBalance? || b.Sep41Balance? || b.LiquidityPoolBalance? ==> m.available == b.balance)
    && (b.NativeBalance? ==> m.key == "native")
    && (b.TrustlineBalance? || b.SacBalance? ==> m.key == b.code + ":" + b.issuer)
    && (b.Sep41Balance? && b.symbol.Some? ==> m.key == b.symbol.value + ":" + b.tokenId)
    && (b.Sep41Balance? && b.symbol.None? ==> m.key == ":" + b.tokenId)
    && (b.LiquidityPoolBalance? ==> m.key == b.tokenId + ":lp")
    && (b.UnknownBalance? ==> m.key == b.tokenId && m.available == "")
  }

  lemma EveryBalanceShows(b: SdkBalance)
    ensures Shows(b, MapBalance(b))
    ensures MapBalance(b).total == b.balance && MapBalance(b).tokenId == b.tokenId
    ensures b.SacBalance? || b.Sep41Balance? || b.LiquidityPoolBalance? ==> MapBalance(b).available == b.balance
  {
    hide Spendable;
    if b.Sep41Balance? {
      assert "" + ":" + b.tokenId == ":" + b.tokenId;
    }
  }

  /** Where liabilities lock a part, an amount that does not parse leaves the whole balance available. */
  lemma UnparsableShowsAll(b: SdkBalance)
    requires b.NativeBalance? || b.TrustlineBalance?
    requires ParseInt64(b.balance).None? || ParseInt64(b.selling).None? || (b.NativeBalance? && ParseInt64(b.minimum).None?)
    ensures MapBalance(b).available == b.balance
  {
    var reserved := if b.NativeBalance? then [b.minimum, b.selling] else [b.selling];
    var i := if b.NativeBalance? && ParseInt64(b.minimum).Some? then 1 else 0;
    UnparsableFallsBack(b.balance, reserved, i);
  }

  /** No colon inside an issuer or a contract id, none of them is "lp", and contract ids are no issuers. */
  predicate WellFormed(isContract: string -> bool, b: SdkBalance) {
    match b
    case NativeBalance(_, _, _, _, _) => true
    case TrustlineBalance(_, _, code, issuer, _) => ':' !in issuer && issuer != "lp" && !isContract(issuer)
    case SacBalance(_, _, code, issuer) => ':' !in issuer && issuer != "lp" && !isContract(issuer)
    case Sep41Balance(id, _, _) => ':' !in id && id != "lp" && isContract(id)
    case LiquidityPoolBalance(_, _) => true
    case UnknownBalance(_, _) => false
  }

  /** The same thing is held: native, a classic asset (as a trustline or through its contract), a token, a pool. */
  predicate SameAsset(b: SdkBalance, c: SdkBalance) {
    if (b.TrustlineBalance? || b.SacBalance?) && (c.TrustlineBalance? || c.SacBalance?) then
      b.code == c.code && b.issuer == c.issuer
    else if b.NativeBalance? then c.NativeBalance?
    else if b.Sep41Balance? then c.Sep41Balance? && b.tokenId == c.tokenId
    else b.LiquidityPoolBalance? && c.LiquidityPoolBalance? && b.tokenId == c.tokenId
  }

  /** The parts around the last colon are determined. */
  lemma LastColon(a: string, b: string, c: string, d: string)
    requires ':' !in b && ':' !in d && a + ":" + b == c + ":" + d
    ensures a == c && b == d
  {
    var s := a + ":" + b;
    assert s[|a|] == ':' && s[|c|] == ':';
    forall k | |a| < k < |s| ensures s[k] != ':' {
      assert s[k] == b[k - |a| - 1];
    }
    forall k | |c| < k < |s| ensures s[k] != ':' {
      assert s[k] == d[k - |c| - 1];
    }
    assert s[..|a|] == a && s[..|c|] == c && s[|a| + 1..] == b && s[|c| + 1..] == d;
  }

  /** What comes before and after the last colon of a key; None for the native one. */
  function KeyParts(b: SdkBalance): Option<(string, string)> {
    match b
    case NativeBalance(_, _, _, _, _) => None
    case TrustlineBalance(_, _, code, issuer, _) => Some((code, issuer))
    case SacBalance(_, _, code, issuer) => Some((code, issuer))
    case Sep41Balance(id, _, symbol) => Some((if symbol.Some? then symbol.value else "", id))
    case LiquidityPoolBalance(id, _) => Some((id, "lp"))
    case UnknownBalance(_, _) => None
  }

  lemma KeyIsItsParts(isContract: string -> bool, b: SdkBalance)
    requires WellFormed(isContract, b)
    ensures KeyParts(b).None? ==> b.NativeBalance? && MapBalance(b).key == "native"
    ensures KeyParts(b).Some? ==>
      MapBalance(b).key == KeyParts(b).value.0 + ":" + KeyParts(b).value.1 && ':' !in KeyParts(b).value.1
  {
    hide Spendable;
  }

  lemma NativeKeyHasNoColon(a: string, b: string)
    ensures a + ":" + b != "native"
  {
    var s := a + ":" + b;
    assert s[|a|] == ':';
    assert forall i :: 0 <= i < |"native"| ==> "native"[i] != ':';
  }

  /** Balances that are keyed alike are balances of the same asset, even where a token chose its own symbol. */
  lemma KeysDistinguishAssets(isContract: string -> bool, b: SdkBalance, c: SdkBalance)
    requires WellFormed(isContract, b) && WellFormed(isContract, c) && MapBalance(b).key == MapBalance(c).key
    ensures SameAsset(b, c)
  {
    KeyIsItsParts(isContract, b);
    KeyIsItsParts(isContract, c);
    var p, q := KeyParts(b), KeyParts(c);
    hide MapBalance;
    if p.Some? && q.Some? {
      LastColon(p.value.0, p.value.1, q.value.0, q.value.1);
    } else if p.Some? {
      NativeKeyHasNoColon(p.value.0, p.value.1);
    } else if q.Some? {
      NativeKeyHasNoColon(q.value.0, q.value.1);
    }
  }

  lemma NonNegativeOverflow(total: int, reserved: int)
    requires 0 <= total <= 0x7FFF_FFFF_FFFF_FFFF && 0 <= reserved <= 0xFFFF_FFFF_FFFF_FFFE
    ensures total - reserved < 0 && Wrap(total - reserved) <= 0 ==> Fits(total - reserved)
  {
    if !Fits(total - reserved) {
      WrapUnique(total - reserved, total - reserved + 0x1_0000_0000_0000_0000, -1);
    }
  }

  lemma SpendableOfTwo(balance: string, r1: string, r2: string, b: int, v1: int, v2: int)
    requires ParseInt64(balance) == Some(b) && ParseInt64(r1) == Some(v1) && ParseInt64(r2) == Some(v2)
    requires 0 <= b <= 0x7FFF_FFFF_FFFF_FFFF && 0 <= v1 + v2 <= 0xFFFF_FFFF_FFFF_FFFE
    ensures Spendable(balance, [r1, r2]) == Print(Max0(b - (v1 + v2))) <==> Fits(b - (v1 + v2))
  {
    hide *;
    ParseAllOfTwo(r1, r2);
    SpendableExactly(balance, [r1, r2], b, [v1, v2]);
    NonNegativeOverflow(b, v1 + v2);
  }

  lemma SpendableOfOne(balance: string, r: string, b: int, v: int)
    requires ParseInt64(balance) == Some(b) && ParseInt64(r) == Some(v)
    requires Fits(b - v)
    ensures Spendable(balance, [r]) == Print(Max0(b - v))
  {
    hide *;
    ParseAllOfOne(r);
    SpendableExactly(balance, [r], b, [v]);
  }

  /**
   * A native balance with well-formed, non-negative amounts shows the right spendable part exactly when
   * balance - minimum - selling does not go below the 64-bit range.
   */
  lemma NativeAvailable(b: SdkBalance, total: int, minimum: int, selling: int)
    requires b.NativeBalance? && ParseInt64(b.balance) == Some(total)
    requires ParseInt64(b.minimum) == Some(minimum) && ParseInt64(b.selling) == Some(selling)
    requires total >= 0 && minimum >= 0 && selling >= 0
    ensures MapBalance(b).available == Print(Max0(total - (minimum + selling))) <==> Fits(total - (minimum + selling))
  {
    SpendableOfTwo(b.balance, b.minimum, b.selling, total, minimum, selling);
  }

  /** A trustline's spendable part is always right. */
  lemma TrustlineAvailable(b: SdkBalance, total: int, selling: int)
    requires b.TrustlineBalance? && ParseInt64(b.balance) == Some(total) && ParseInt64(b.selling) == Some(selling)
    requires total >= 0 && selling >= 0
    ensures MapBalance(b).available == Print(Max0(total - selling))
  {
    assert Fits(total) && Fits(selling);
    SpendableOfOne(b.balance, b.selling, total, selling);
  }
}
