/**
 * The transactions history endpoint: parseRequest (internal/api/handlers/account_history.go), then
 * translateParams, GetAccountTransactions and toPaginationInfo (internal/services/wallet_backend.go).
 */
module History {
  import opened Amounts
  import opened Decimal
  import opened Slices
  import opened Text

  /*** Request ***/

  const UPSTREAM_MAX_LIMIT := 100

  /** The raw path value and query parameters; an absent parameter is empty. */
  datatype Query = Query(address: string, network: string, limit: string, direction: string, cursor: string,
                         since: string, until: string)

  datatype Direction = Next | Prev

  datatype Params = Params(limit: int, cursor: Option<string>, direction: Direction, since: Option<int>, until: Option<int>)

  /** The handler's page sizes, and the strkey and RFC 3339 parsers it calls. */
  datatype Handler = Handler(defaultLimit: int, maxLimit: int, validAddress: string -> bool, parseTime: string -> Option<int>)
  {
    /** NewAccountHistoryHandler succeeds. */
    predicate Valid() {
      0 < defaultLimit <= maxLimit <= UPSTREAM_MAX_LIMIT
    }
  }

  /** NewAccountHistoryHandler refuses page sizes that the upstream would not serve. */
  function NewHandler(defaultLimit: int, maxLimit: int, validAddress: string -> bool, parseTime: string -> Option<int>):
      (h: Option<Handler>)
    ensures h.Some? <==> 1 <= defaultLimit <= maxLimit <= 100
    ensures h.Some? ==> h.value == Handler(defaultLimit, maxLimit, validAddress, parseTime) && h.value.Valid()
  {
    if defaultLimit <= 0 || maxLimit <= 0 || maxLimit > UPSTREAM_MAX_LIMIT || defaultLimit > maxLimit then None
    else Some(Handler(defaultLimit, maxLimit, validAddress, parseTime))
  }

  /** strconv.Atoi */
  function Atoi(s: string): (r: Option<int>)
    ensures r.Some? ==> Fits(r.value)
  {
    var signed := s != "" && (s[0] == '-' || s[0] == '+');
    var digits := if signed then s[1..] else s;
    if digits == "" || !AllDigits(digits) then None
    else
      var v: int := if signed && s[0] == '-' then -(NatOf(digits) as int) else NatOf(digits);
      if Fits(v) then Some(v) else None
  }

  /** An optional sign and digits, whose number fits 64 bits, is that number; nothing else is read. */
  lemma AtoiReads(s: string, digits: string)
    requires digits != "" && AllDigits(digits)
    ensures var n := NatOf(digits);
      && (s == digits || s == "+" + digits ==> Atoi(s) == if n <= 0x7FFF_FFFF_FFFF_FFFF then Some(n) else None)
      && (s == "-" + digits ==> Atoi(s) == if n <= 0x8000_0000_0000_0000 then Some(-(n as int)) else None)
    ensures Atoi(s).Some? ==> exists d :: d != "" && AllDigits(d) && (s == d || s == "+" + d || s == "-" + d)
  {
    assert IsDigit(digits[0]);
    assert ("+" + digits)[1..] == digits && ("-" + digits)[1..] == digits;
    if Atoi(s).Some? {
      var d := if s[0] == '-' || s[0] == '+' then s[1..] else s;
      assert s == d || s == "+" + d || s == "-" + d;
    }
    hide NatOf;
  }

  /** int32(x) */
  function Int32(x: int): int {
    (x + 0x8000_0000) % 0x1_0000_0000 - 0x8000_0000
  }

  function ReadLimit(h: Handler, s: string): Option<int> {
    if s == "" then Some(h.defaultLimit)
    else
      var n := Atoi(s);
      if n.Some? && 1 <= n.value <= h.maxLimit && n.value <= 0x7FFF_FFFF then n else None
  }

  function ReadCursor(s: string): Option<string> {
    if s == "" then None else Some(s)
  }

  /**
   * parseRequest; None is a 400. Accepted exactly when every part that is written is well-formed and the time
   * range is not inverted, and then with what was written, or the default limit, direction and no bounds.
   */
  method ParseRequest(h: Handler, q: Query) returns (r: Option<Params>)
    requires h.Valid()
    ensures r.Some? <==>
      && h.validAddress(q.address) && q.network in {"PUBLIC", "TESTNET"} && q.direction in {"", "next", "prev"}
      && (q.limit == "" || (Atoi(q.limit).Some? && 1 <= Atoi(q.limit).value <= h.maxLimit))
      && (q.since == "" || h.parseTime(q.since).Some?) && (q.until == "" || h.parseTime(q.until).Some?)
      && (q.since != "" && q.until != "" ==> h.parseTime(q.since).value <= h.parseTime(q.until).value)
    ensures r.Some? ==>
      && r.value.limit == (if q.limit == "" then h.defaultLimit else Atoi(q.limit).value)
      && Some(r.value.limit) == ReadLimit(h, q.limit) && 1 <= r.value.limit <= h.maxLimit
      && r.value.direction == (if q.direction == "prev" then Prev else Next)
      && r.value.cursor == ReadCursor(q.cursor) == (if q.cursor == "" then None else Some(q.cursor))
      && r.value.since == (if q.since == "" then None else h.parseTime(q.since))
      && r.value.until == (if q.until == "" then None else h.parseTime(q.until))
  {
    hide Atoi;
    if !h.validAddress(q.address) || (q.network != "PUBLIC" && q.network != "TESTNET") {
      return None;
    }
    var p := Params(0, None, Next, None, None);
    var limit := h.defaultLimit;
    if q.limit != "" {
      var n := Atoi(q.limit);
      if n.None? || n.value < 1 || n.value > h.maxLimit || n.value > 0x7FFF_FFFF {
        return None;
      }
      limit := n.value;
    }
    p := p.(limit := Int32(limit));
    if q.direction == "" || q.direction == "next" {
      p := p.(direction := Next);
    } else if q.direction == "prev" {
      p := p.(direction := Prev);
    } else {
      return None;
    }
    if q.cursor != "" {
      p := p.(cursor := Some(q.cursor));
    }
    if q.since != "" {
      p := p.(since := h.parseTime(q.since));
      if p.since.None? {
        return None;
      }
    }
    if q.until != "" {
      p := p.(until := h.parseTime(q.until));
      if p.until.None? {
        return None;
      }
    }
    if p.since.Some? && p.until.Some? && p.since.value > p.until.value {
      return None;
    }
    r := Some(p);
  }

  lemma AtoiOfPrint(n: int)
    requires Fits(n)
    ensures Atoi(PrintInt(n)) == Some(n)
  {
    var digits := Digits(if n < 0 then -n else n);
    if n < 0 {
      assert PrintInt(n)[1..] == digits;
    } else {
      assert IsDigit(digits[0]);
    }
  }

  /** A limit that a client spells out is accepted exactly between 1 and the maximum, and then it is the page size. */
  lemma LimitBounds(h: Handler, n: int)
    requires h.Valid() && Fits(n)
    ensures ReadLimit(h, PrintInt(n)) == if 1 <= n <= h.maxLimit then Some(n) else None
  {
    AtoiOfPrint(n);
  }

  /*** The upstream connection ***/

  /** wbclient.Page */
  datatype Page = Page(first: Option<int>, after: Option<string>, last: Option<int>, before: Option<string>)

  function TranslateParams(p: Params): Page {
    if p.direction == Prev then Page(None, None, Some(p.limit), p.cursor) else Page(Some(p.limit), p.cursor, None, None)
  }

  datatype PageInfo = PageInfo(hasNextPage: bool, hasPreviousPage: bool, startCursor: Option<string>, endCursor: Option<string>)

  /** An edge may be null, or have a null node; both read as None. */
  datatype Connection<T> = Connection(edges: seq<Option<T>>, pageInfo: Option<PageInfo>)

  datatype PaginationInfo = PaginationInfo(hasNext: bool, hasPrevious: bool, nextCursor: Option<string>, prevCursor: Option<string>)

  function ToPaginationInfo(pi: Option<PageInfo>): PaginationInfo {
    match pi
    case None => PaginationInfo(false, false, None, None)
    case Some(i) =>
      PaginationInfo(i.hasNextPage, i.hasPreviousPage,
                     if i.hasNextPage then i.endCursor else None,
                     if i.hasPreviousPage then i.startCursor else None)
  }

  datatype Response<T> = Response(data: seq<T>, pagination: PaginationInfo)

  /** The edges that carry something, in order. */
  function NonNil<T>(edges: seq<Option<T>>): seq<T> {
    if edges == [] then []
    else NonNil(edges[..|edges| - 1]) + if edges[|edges| - 1].Some? then [edges[|edges| - 1].value] else []
  }

  /** The response to one upstream connection. */
  method BuildResponse<T>(conn: Connection<T>) returns (r: Response<T>)
    ensures r == Response(NonNil(conn.edges), ToPaginationInfo(conn.pageInfo))
    ensures conn.pageInfo.None? ==> r.pagination == PaginationInfo(false, false, None, None)
    ensures conn.pageInfo.Some? ==>
      var i, p := conn.pageInfo.value, r.pagination;
      && (p.hasNext <==> i.hasNextPage) && (p.hasPrevious <==> i.hasPreviousPage)
      && p.nextCursor == (if i.hasNextPage then i.endCursor else None)
      && p.prevCursor == (if i.hasPreviousPage then i.startCursor else None)
  {
    var items: seq<T> := [];
    for i := 0 to |conn.edges|
      invariant items == NonNil(conn.edges[..i])
    {
      assert conn.edges[..i + 1][..i] == conn.edges[..i];
      if conn.edges[i].None? {
        continue;
      }
      items := items + [conn.edges[i].value];
    }
    assert conn.edges[..|conn.edges|] == conn.edges;
    r := Response(items, ToPaginationInfo(conn.pageInfo));
  }

  /**
   * An upstream that pages a fixed list as the GraphQL Cursor Connections Specification says (sections
   * 4.4 and 4.5). `looksAround` says for which pages it bothers to look past the cursor it was given.
   */
  datatype Server<T> = Server(edges: seq<Option<T>>, cursors: seq<string>, looksAround: Page -> bool)
  {
    /** One cursor for each edge, all different; one of them may be empty, and then reads as no cursor. */
    ghost predicate Valid() {
      |cursors| == |edges| && Distinct(cursors)
    }
  }

  function Min(a: int, b: int): int {
    if a < b then a else b
  }

  function Max(a: int, b: int): int {
    if a > b then a else b
  }

  /** An unknown cursor cuts nothing off. */
  function AfterCursor<T>(s: Server<T>, c: Option<string>): (i: nat)
    requires |s.cursors| == |s.edges|
    ensures i <= |s.edges|
  {
    if c.Some? && c.value in s.cursors then FirstSeen(s.cursors, c.value) + 1 else 0
  }

  function BeforeCursor<T>(s: Server<T>, c: Option<string>): (i: nat)
    requires |s.cursors| == |s.edges|
    ensures i <= |s.edges|
  {
    if c.Some? && c.value in s.cursors then FirstSeen(s.cursors, c.value) else |s.edges|
  }

  function Window<T>(s: Server<T>, lo: nat, hi: nat, hasNext: bool, hasPrevious: bool): Connection<T>
    requires lo <= hi <= |s.edges| == |s.cursors|
  {
    Connection(s.edges[lo..hi],
               Some(PageInfo(hasNext, hasPrevious,
                             if lo < hi then Some(s.cursors[lo]) else None,
                             if lo < hi then Some(s.cursors[hi - 1]) else None)))
  }

  /** The pages TranslateParams asks for: forwards from a cursor, or backwards from one. */
  function Relay<T>(s: Server<T>, p: Params): Connection<T>
    requires |s.cursors| == |s.edges| && p.limit >= 0
  {
    var page := TranslateParams(p);
    if page.last.None? then
      var lo := AfterCursor(s, page.after);
      var first := if page.first.Some? then page.first.value else |s.edges|;
      Window(s, lo, Min(|s.edges|, lo + first), |s.edges| - lo > first,
             page.after.Some? && s.looksAround(page) && lo > 0)
    else
      var hi := BeforeCursor(s, page.before);
      Window(s, Max(0, hi - page.last.value), hi, page.before.Some? && s.looksAround(page) && hi < |s.edges|,
             hi > page.last.value)
  }

  /** The endpoint's answer to a page size, a direction, and the cursor parameter as the client sends it. */
  function Answer<T>(s: Server<T>, d: Direction, limit: int, cursor: string): Response<T>
    requires |s.cursors| == |s.edges| && limit >= 0
  {
    var conn := Relay(s, Params(limit, ReadCursor(cursor), d, None, None));
    Response(NonNil(conn.edges), ToPaginationInfo(conn.pageInfo))
  }

  /*** Following the cursors ***/

  lemma {:induction false} NonNilConcat<T>(a: seq<Option<T>>, b: seq<Option<T>>)
    ensures NonNil(a + b) == NonNil(a) + NonNil(b)
  {
    if b == [] {
      assert a + b == a;
    } else {
      var front := b[..|b| - 1];
      NonNilConcat(a, front);
      assert (a + b)[..|a + b| - 1] == a + front;
    }
  }

  /** The cursor parameter that continues after the first i edges. */
  function CursorAt<T>(s: Server<T>, i: nat): string
    requires i <= |s.cursors|
  {
    if i == 0 then "" else s.cursors[i - 1]
  }

  lemma NextPage<T>(s: Server<T>, limit: int, i: nat)
    requires s.Valid() && limit > 0 && i <= |s.edges| && (i > 0 ==> s.cursors[i - 1] != "")
    ensures var r := Answer(s, Next, limit, CursorAt(s, i)); var j := Min(|s.edges|, i + limit);
      && r.data == NonNil(s.edges[i..j])
      && (r.pagination.hasNext <==> j < |s.edges|)
      && r.pagination.nextCursor == (if j < |s.edges| then Some(CursorAt(s, j)) else None)
  {
    if i > 0 {
      FirstSeenIs(s.cursors, s.cursors[i - 1], i - 1);
      assert s.cursors[i - 1] in s.cursors;
    }
  }

  /** The client saw has_next in `r` and asked for what its next_cursor names. */
  predicate ContinuesNext<T(==)>(s: Server<T>, limit: int, r: Response<T>, next: Response<T>)
    requires |s.cursors| == |s.edges| && limit >= 0
  {
    && r.pagination.hasNext && r.pagination.nextCursor.Some?
    && next == Answer(s, Next, limit, r.pagination.nextCursor.value)
  }

  /** The answers a client gets that starts without a cursor and follows next_cursor while has_next says so. */
  ghost predicate FollowsNext<T>(s: Server<T>, limit: int, rs: seq<Response<T>>)
    requires |s.cursors| == |s.edges| && limit >= 0
  {
    && rs != [] && rs[0] == Answer(s, Next, limit, "")
    && forall k {:trigger rs[k + 1]} :: 0 <= k < |rs| - 1 ==> ContinuesNext(s, limit, rs[k], rs[k + 1])
  }

  function Collected<T>(rs: seq<Response<T>>): seq<T> {
    if rs == [] then [] else Collected(rs[..|rs| - 1]) + rs[|rs| - 1].data
  }

  lemma SliceSplits<T>(a: seq<T>, i: nat, j: nat)
    requires i <= j <= |a|
    ensures a[..j] == a[..i] + a[i..j]
  {
  }

  lemma FollowsPrefix<T>(s: Server<T>, limit: int, rs: seq<Response<T>>)
    requires |s.cursors| == |s.edges| && limit >= 0 && FollowsNext(s, limit, rs) && |rs| > 1
    ensures FollowsNext(s, limit, rs[..|rs| - 1])
    ensures ContinuesNext(s, limit, rs[|rs| - 2], rs[|rs| - 1])
  {
    hide Answer, ContinuesNext;
    var k := |rs| - 2;
    assert ContinuesNext(s, limit, rs[k], rs[k + 1]);
  }

  lemma FollowsExtend<T>(s: Server<T>, limit: int, rs: seq<Response<T>>, next: Response<T>)
    requires |s.cursors| == |s.edges| && limit >= 0 && FollowsNext(s, limit, rs)
    requires ContinuesNext(s, limit, rs[|rs| - 1], next)
    ensures FollowsNext(s, limit, rs + [next])
  {
    hide Answer, ContinuesNext;
    var more := rs + [next];
    forall k {:trigger more[k + 1]} | 0 <= k < |more| - 1 ensures ContinuesNext(s, limit, more[k], more[k + 1]) {
      if k < |rs| - 1 {
        assert more[k + 1] == rs[k + 1];
      }
    }
  }

  /** How many edges k full pages hold. */
  function OnPages(k: nat, limit: int): (n: int)
    ensures limit >= 0 ==> n >= 0
  {
    if k == 0 then 0 else OnPages(k - 1, limit) + limit
  }

  lemma {:induction false} OnPagesIsProduct(k: nat, limit: int)
    ensures OnPages(k, limit) == k * limit
  {
    if k > 0 {
      OnPagesIsProduct(k - 1, limit);
      assert k * limit == (k - 1) * limit + limit;
    }
  }

  lemma OneMorePage(k: nat, limit: int)
    ensures OnPages(k + 1, limit) == OnPages(k, limit) + limit
  {
  }

  /** Where a client is after k pages of a list of n. */
  function Reached(n: nat, limit: int, k: nat): (i: nat)
    requires limit > 0
    ensures i <= n
  {
    Min(n, OnPages(k, limit))
  }

  lemma ReachedStep(n: nat, limit: int, k: nat)
    requires limit > 0
    ensures Reached(n, limit, k + 1) == Min(n, Reached(n, limit, k) + limit)
    ensures Reached(n, limit, 0) == 0
  {
    OneMorePage(k, limit);
  }

  lemma ReachedIsPages(n: nat, limit: int, k: nat)
    requires limit > 0 && Reached(n, limit, k) < n
    ensures Reached(n, limit, k) == OnPages(k, limit)
  {
  }

  lemma ReachedIsAll(n: nat, limit: int, k: nat)
    requires limit > 0
    ensures Reached(n, limit, k) < n <==> OnPages(k, limit) < n
    ensures k == 0 || Reached(n, limit, k) < n ==> OnPages(k, limit) <= n
  {
  }

  /** The cursor that continues after k pages, if the client ever sends it, is not empty. */
  predicate CanContinue<T>(s: Server<T>, limit: int, k: nat)
    requires |s.cursors| == |s.edges|
  {
    0 < OnPages(k, limit) < |s.edges| ==> s.cursors[OnPages(k, limit) - 1] != ""
  }

  /** No page but the last ends on an empty cursor. */
  ghost predicate PagesEndWell<T>(s: Server<T>, limit: int)
    requires |s.cursors| == |s.edges|
  {
    forall k: nat :: CanContinue(s, limit, k)
  }

  /** The client has exactly the first i edges' transactions, and knows where to go on. */
  ghost predicate HasFirst<T>(s: Server<T>, data: seq<T>, last: Response<T>, i: nat)
    requires i <= |s.edges| == |s.cursors|
  {
    && data == NonNil(s.edges[..i])
    && (last.pagination.hasNext <==> i < |s.edges|)
    && last.pagination.nextCursor == (if i < |s.edges| then Some(CursorAt(s, i)) else None)
  }

  lemma PageExtends<T>(s: Server<T>, limit: int, data: seq<T>, i: nat, r: Response<T>)
    requires s.Valid() && limit > 0 && i <= |s.edges| && data == NonNil(s.edges[..i])
    requires (i > 0 ==> s.cursors[i - 1] != "") && r == Answer(s, Next, limit, CursorAt(s, i))
    ensures HasFirst(s, data + r.data, r, Min(|s.edges|, i + limit))
  {
    var j := Min(|s.edges|, i + limit);
    NextPage(s, limit, i);
    SliceSplits(s.edges, i, j);
    NonNilConcat(s.edges[..i], s.edges[i..j]);
  }

  lemma LastAnswer<T>(s: Server<T>, limit: int, rs: seq<Response<T>>)
    requires |s.cursors| == |s.edges| && limit >= 0 && FollowsNext(s, limit, rs)
    ensures rs != [] && rs[0] == Answer(s, Next, limit, CursorAt(s, 0))
    ensures |rs| > 1 ==>
      && FollowsNext(s, limit, rs[..|rs| - 1]) && rs[|rs| - 2].pagination.nextCursor.Some?
      && rs[|rs| - 2].pagination.hasNext
      && rs[|rs| - 1] == Answer(s, Next, limit, rs[|rs| - 2].pagination.nextCursor.value)
  {
    if |rs| > 1 {
      FollowsPrefix(s, limit, rs);
    }
  }

  lemma CollectedSplits<T>(rs: seq<Response<T>>)
    requires rs != []
    ensures Collected(rs) == Collected(rs[..|rs| - 1]) + rs[|rs| - 1].data
    ensures |rs| == 1 ==> Collected(rs[..|rs| - 1]) == []
  {
  }

  /** Where the page after k pages starts, its cursor parameter says so. */
  lemma NextStart<T>(s: Server<T>, limit: int, k: nat)
    requires |s.cursors| == |s.edges| && limit > 0 && PagesEndWell(s, limit)
    requires k == 0 || Reached(|s.edges|, limit, k) < |s.edges|
    ensures var i := Reached(|s.edges|, limit, k); i > 0 ==> s.cursors[i - 1] != ""
  {
    assert CanContinue(s, limit, k);
    ReachedStep(|s.edges|, limit, k);
    if k > 0 {
      ReachedIsPages(|s.edges|, limit, k);
    }
  }

  lemma NextIsFrom<T>(s: Server<T>, data: seq<T>, p: Response<T>, i: nat)
    requires i <= |s.edges| == |s.cursors| && HasFirst(s, data, p, i) && p.pagination.hasNext
    ensures i < |s.edges| && p.pagination.nextCursor == Some(CursorAt(s, i)) && data == NonNil(s.edges[..i])
  {
  }

  /** After k pages the client has the transactions on the first k pages. */
  lemma {:induction false} AfterPages<T>(s: Server<T>, limit: int, rs: seq<Response<T>>)
    requires s.Valid() && limit > 0 && PagesEndWell(s, limit) && FollowsNext(s, limit, rs)
    ensures |rs| > 1 ==> Reached(|s.edges|, limit, |rs| - 1) < |s.edges|
    ensures HasFirst(s, Collected(rs), rs[|rs| - 1], Reached(|s.edges|, limit, |rs|))
    decreases |rs|
  {
    LastAnswer(s, limit, rs);
    CollectedSplits(rs);
    var front, n := rs[..|rs| - 1], |s.edges|;
    ReachedStep(n, limit, |front|);
    NoneYet(s.edges);
    assert |s.cursors| == n;
    hide *;
    var i := Reached(n, limit, |front|);
    if |rs| > 1 {
      AfterPages(s, limit, front);
      NextIsFrom(s, Collected(front), front[|front| - 1], i);
    }
    NextStart(s, limit, |front|);
    PageExtends(s, limit, Collected(front), i, rs[|rs| - 1]);
  }

  lemma NoneYet<T>(edges: seq<Option<T>>)
    ensures NonNil(edges[..0]) == []
  {
  }

  /** Following next_cursor to the end collects every transaction exactly once, in order, in ceil(n / limit) pages. */
  lemma NextCollectsAll<T>(s: Server<T>, limit: int, rs: seq<Response<T>>)
    requires s.Valid() && limit > 0 && PagesEndWell(s, limit) && FollowsNext(s, limit, rs)
    ensures OnPages(|rs| - 1, limit) <= |s.edges|
    ensures !rs[|rs| - 1].pagination.hasNext <==> |s.edges| <= OnPages(|rs|, limit)
    ensures !rs[|rs| - 1].pagination.hasNext ==> Collected(rs) == NonNil(s.edges)
    ensures rs[|rs| - 1].pagination.hasNext ==> rs[|rs| - 1].pagination.nextCursor.Some?
  {
    AfterPages(s, limit, rs);
    ReachedIsAll(|s.edges|, limit, |rs|);
    ReachedIsAll(|s.edges|, limit, |rs| - 1);
    hide Answer, NonNil, FollowsNext, Server.Valid, Reached;
    assert s.edges[..|s.edges|] == s.edges;
  }

  lemma SomeNextAnswer<T>(s: Server<T>, limit: int, rs: seq<Response<T>>)
    requires s.Valid() && limit > 0 && FollowsNext(s, limit, rs)
    ensures |s.cursors| == |s.edges| && rs != []
  {
  }

  lemma AsksOn<T>(s: Server<T>, limit: int, last: Response<T>) returns (next: Response<T>)
    requires |s.cursors| == |s.edges| && limit > 0 && last.pagination.hasNext && last.pagination.nextCursor.Some?
    ensures ContinuesNext(s, limit, last, next)
  {
    next := Answer(s, Next, limit, last.pagination.nextCursor.value);
  }

  /** And the end is reached: every unfinished client has a next page to ask for, and fewer edges left. */
  lemma {:induction false} ClientFinishes<T>(s: Server<T>, limit: int, rs: seq<Response<T>>) returns (all: seq<Response<T>>)
    requires s.Valid() && limit > 0 && PagesEndWell(s, limit) && FollowsNext(s, limit, rs)
    ensures FollowsNext(s, limit, all) && rs <= all && !all[|all| - 1].pagination.hasNext
    decreases |s.edges| - OnPages(|rs|, limit)
  {
    hide *;
    NextCollectsAll(s, limit, rs);
    SomeNextAnswer(s, limit, rs);
    var last := rs[|rs| - 1];
    if last.pagination.hasNext {
      var next := AsksOn(s, limit, last);
      FollowsExtend(s, limit, rs, next);
      OneMorePage(|rs|, limit);
      all := ClientFinishes(s, limit, rs + [next]);
    } else {
      all := rs;
    }
  }

  /** The first page that ends on an empty cursor with more to come. */
  lemma FirstBadPage<T>(s: Server<T>, limit: int, k: nat) returns (first: nat)
    requires |s.cursors| == |s.edges| && limit > 0 && !CanContinue(s, limit, k)
    ensures 0 < first <= k && !CanContinue(s, limit, first) && forall m: nat :: m < first ==> CanContinue(s, limit, m)
  {
    if m: nat :| m < k && !CanContinue(s, limit, m) {
      first := FirstBadPage(s, limit, m);
    } else {
      first := k;
    }
  }

  /** Page m starts at position i, and it is one of the pages before the bad end. */
  predicate StartsPage(limit: int, bad: nat, m: nat, i: nat) {
    m < bad && i == OnPages(m, limit)
  }

  /** The pages before the bad end are proper ones, and say how to go on. */
  lemma RoundPage<T>(s: Server<T>, limit: int, bad: nat, m: nat, i: nat)
    requires s.Valid() && limit > 0 && StartsPage(limit, bad, m, i)
    requires !CanContinue(s, limit, bad) && forall k: nat :: k < bad ==> CanContinue(s, limit, k)
    ensures i + limit < |s.edges|
    ensures var r := Answer(s, Next, limit, CursorAt(s, i));
      r.pagination.hasNext && r.pagination.nextCursor == Some(CursorAt(s, i + limit))
  {
    assert CanContinue(s, limit, m);
    OneMorePage(m, limit);
    Grows(m + 1, bad, limit);
    hide Answer;
    NextPage(s, limit, i);
  }

  lemma RoundStep<T>(s: Server<T>, limit: int, bad: nat, p: nat, q: nat) returns (m: nat, i: nat)
    requires |s.cursors| == |s.edges| && limit > 0 && StartsPage(limit, bad, p, q) && q + limit < |s.edges|
    requires !CanContinue(s, limit, bad)
    ensures StartsPage(limit, bad, m, i) && i <= |s.edges| && CursorAt(s, i) == CursorAt(s, q + limit)
  {
    OneMorePage(p, limit);
    m, i := if p + 1 < bad then p + 1 else 0, if p + 1 < bad then q + limit else 0;
  }

  /** From there the client starts over: it goes round the pages before, and never past them. */
  lemma {:induction false} GoesRound<T>(s: Server<T>, limit: int, bad: nat, rs: seq<Response<T>>) returns (m: nat, i: nat)
    requires s.Valid() && limit > 0 && FollowsNext(s, limit, rs)
    requires bad > 0 && !CanContinue(s, limit, bad) && forall k: nat :: k < bad ==> CanContinue(s, limit, k)
    ensures StartsPage(limit, bad, m, i) && i + limit < |s.edges|
    ensures rs != [] && rs[|rs| - 1] == Answer(s, Next, limit, CursorAt(s, i))
    decreases |rs|
  {
    LastAnswer(s, limit, rs);
    FirstStarts(limit, bad);
    hide *;
    if |rs| == 1 {
      m, i := 0, 0;
    } else {
      var p, q := GoesRound(s, limit, bad, rs[..|rs| - 1]);
      RoundPage(s, limit, bad, p, q);
      m, i := RoundStep(s, limit, bad, p, q);
    }
    RoundPage(s, limit, bad, m, i);
  }

  lemma FirstStarts(limit: int, bad: nat)
    requires bad > 0
    ensures StartsPage(limit, bad, 0, 0)
  {
  }

  lemma {:induction false} Grows(a: nat, b: nat, limit: int)
    requires a <= b && limit > 0
    ensures 0 <= OnPages(a, limit) <= OnPages(b, limit)
  {
    if b == 0 {
    } else if a < b {
      Grows(a, b - 1, limit);
    } else {
      Grows(a - 1, b - 1, limit);
    }
  }

  /** A client that has everything, and is told that nothing more comes. */
  ghost predicate HasEverything<T>(s: Server<T>, limit: int, rs: seq<Response<T>>)
    requires |s.cursors| == |s.edges| && limit >= 0
  {
    FollowsNext(s, limit, rs) && !rs[|rs| - 1].pagination.hasNext && Collected(rs) == NonNil(s.edges)
  }

  /**
   * Paging works exactly when no page but the last ends on an empty cursor: then a client that follows
   * next_cursor ends with everything, otherwise it never sees an end.
   */
  lemma NextWorksExactlyWhen<T(!new)>(s: Server<T>, limit: int)
    requires s.Valid() && limit > 0
    ensures (exists rs: seq<Response<T>> :: HasEverything(s, limit, rs)) <==> PagesEndWell(s, limit)
    ensures !PagesEndWell(s, limit) ==> forall rs: seq<Response<T>> :: FollowsNext(s, limit, rs) ==> rs[|rs| - 1].pagination.hasNext
  {
    if PagesEndWell(s, limit) {
      var first := [Answer(s, Next, limit, "")];
      var rs := ClientFinishes(s, limit, first);
      NextCollectsAll(s, limit, rs);
      assert HasEverything(s, limit, rs);
    } else {
      var k: nat :| !CanContinue(s, limit, k);
      var bad := FirstBadPage(s, limit, k);
      hide Answer, Server.Valid, CanContinue;
      forall rs: seq<Response<T>> | FollowsNext(s, limit, rs) ensures rs[|rs| - 1].pagination.hasNext {
        var m, i := GoesRound(s, limit, bad, rs);
        RoundPage(s, limit, bad, m, i);
      }
    }
  }

  /*** Backwards ***/

  /** The cursor parameter for the edges before position i. */
  function CursorBefore<T>(s: Server<T>, i: nat): string
    requires i <= |s.cursors|
  {
    if i == |s.cursors| then "" else s.cursors[i]
  }

  /** That parameter says position i: it is empty only for the end of the list. */
  predicate Denotes<T>(s: Server<T>, i: nat)
    requires i <= |s.cursors|
  {
    i == |s.cursors| || s.cursors[i] != ""
  }

  lemma PrevPage<T>(s: Server<T>, limit: int, j: nat)
    requires s.Valid() && limit > 0 && j <= |s.edges| && Denotes(s, j)
    ensures var r := Answer(s, Prev, limit, CursorBefore(s, j)); var i := Max(0, j - limit);
      && r.data == NonNil(s.edges[i..j])
      && (r.pagination.hasPrevious <==> i > 0)
      && r.pagination.prevCursor == (if i > 0 then Some(CursorBefore(s, i)) else None)
  {
    if j < |s.cursors| {
      FirstSeenIs(s.cursors, s.cursors[j], j);
      assert s.cursors[j] in s.cursors;
    }
  }

  predicate ContinuesPrev<T(==)>(s: Server<T>, limit: int, r: Response<T>, next: Response<T>)
    requires |s.cursors| == |s.edges| && limit >= 0
  {
    && r.pagination.hasPrevious && r.pagination.prevCursor.Some?
    && next == Answer(s, Prev, limit, r.pagination.prevCursor.value)
  }

  /** The answers to a client that starts before position j and follows prev_cursor. */
  ghost predicate FollowsPrev<T>(s: Server<T>, limit: int, j: nat, rs: seq<Response<T>>)
    requires |s.cursors| == |s.edges| && limit >= 0 && j <= |s.edges|
  {
    && rs != [] && rs[0] == Answer(s, Prev, limit, CursorBefore(s, j))
    && forall k {:trigger rs[k + 1]} :: 0 <= k < |rs| - 1 ==> ContinuesPrev(s, limit, rs[k], rs[k + 1])
  }

  /** Earlier pages arrive later. */
  function CollectedBackwards<T>(rs: seq<Response<T>>): seq<T> {
    if rs == [] then [] else rs[|rs| - 1].data + CollectedBackwards(rs[..|rs| - 1])
  }

  lemma MiddleSplits<T>(a: seq<T>, i: nat, m: nat, j: nat)
    requires i <= m <= j <= |a|
    ensures a[i..j] == a[i..m] + a[m..j]
  {
  }

  lemma PrevFollowsPrefix<T>(s: Server<T>, limit: int, j: nat, rs: seq<Response<T>>)
    requires |s.cursors| == |s.edges| && limit >= 0 && j <= |s.edges| && FollowsPrev(s, limit, j, rs) && |rs| > 1
    ensures FollowsPrev(s, limit, j, rs[..|rs| - 1])
    ensures ContinuesPrev(s, limit, rs[|rs| - 2], rs[|rs| - 1])
  {
    hide Answer, ContinuesPrev;
    var k := |rs| - 2;
    assert ContinuesPrev(s, limit, rs[k], rs[k + 1]);
  }

  /** The client has exactly the transactions of the edges i..j, and knows how to go back. */
  ghost predicate HasFrom<T>(s: Server<T>, data: seq<T>, last: Response<T>, i: nat, j: nat)
    requires i <= j <= |s.edges| == |s.cursors|
  {
    && data == NonNil(s.edges[i..j])
    && (last.pagination.hasPrevious <==> i > 0)
    && last.pagination.prevCursor == (if i > 0 then Some(CursorBefore(s, i)) else None)
  }

  lemma PageExtendsBack<T>(s: Server<T>, limit: int, data: seq<T>, m: nat, j: nat, r: Response<T>)
    requires s.Valid() && limit > 0 && m <= j <= |s.edges| && data == NonNil(s.edges[m..j])
    requires Denotes(s, m) && r == Answer(s, Prev, limit, CursorBefore(s, m))
    ensures HasFrom(s, r.data + data, r, Max(0, m - limit), j)
  {
    var i := Max(0, m - limit);
    PrevPage(s, limit, m);
    MiddleSplits(s.edges, i, m, j);
    NonNilConcat(s.edges[i..m], s.edges[m..j]);
  }

  lemma NothingYet<T>(edges: seq<Option<T>>, j: nat)
    requires j <= |edges|
    ensures NonNil(edges[j..j]) == []
  {
  }

  lemma FirstPageBack<T>(s: Server<T>, limit: int, j: nat, r: Response<T>)
    requires s.Valid() && limit > 0 && j <= |s.edges| && Denotes(s, j) && r == Answer(s, Prev, limit, CursorBefore(s, j))
    ensures HasFrom(s, r.data + [], r, Max(0, j - limit), j)
  {
    NothingYet(s.edges, j);
    PageExtendsBack(s, limit, [], j, j, r);
  }

  lemma NextPageBack<T>(s: Server<T>, limit: int, data: seq<T>, p: Response<T>, m: nat, j: nat, r: Response<T>)
    requires s.Valid() && limit > 0 && m <= j <= |s.edges| && HasFrom(s, data, p, m, j) && ContinuesPrev(s, limit, p, r)
    requires Denotes(s, m)
    ensures HasFrom(s, r.data + data, r, Max(0, m - limit), j)
  {
    hide Answer, NonNil;
    PageExtendsBack(s, limit, data, m, j, r);
  }

  /** The cursor that continues k pages before position j, if the client ever sends it, is not empty. */
  predicate CanGoBack<T>(s: Server<T>, limit: int, j: nat, k: nat)
    requires |s.cursors| == |s.edges| && j <= |s.edges|
  {
    0 < OnPages(k, limit) < j ==> s.cursors[j - OnPages(k, limit)] != ""
  }

  ghost predicate PagesBeginWell<T>(s: Server<T>, limit: int, j: nat)
    requires |s.cursors| == |s.edges| && j <= |s.edges|
  {
    forall k: nat :: CanGoBack(s, limit, j, k)
  }

  /** The same for the first m pages only. */
  ghost predicate FirstBeginWell<T>(s: Server<T>, limit: int, j: nat, m: nat)
    requires |s.cursors| == |s.edges| && j <= |s.edges|
  {
    forall k: nat :: k < m ==> CanGoBack(s, limit, j, k)
  }

  lemma AllBeginWell<T>(s: Server<T>, limit: int, j: nat, m: nat)
    requires |s.cursors| == |s.edges| && j <= |s.edges| && PagesBeginWell(s, limit, j)
    ensures FirstBeginWell(s, limit, j, m)
  {
    hide CanGoBack;
  }

  lemma FewerBeginWell<T>(s: Server<T>, limit: int, j: nat, m: nat)
    requires |s.cursors| == |s.edges| && j <= |s.edges| && m > 0 && FirstBeginWell(s, limit, j, m)
    ensures FirstBeginWell(s, limit, j, m - 1) && CanGoBack(s, limit, j, m - 1)
  {
  }

  lemma GoingBackDenotes<T>(s: Server<T>, limit: int, j: nat, k: nat)
    requires |s.cursors| == |s.edges| && limit > 0 && j <= |s.edges| && CanGoBack(s, limit, j, k)
    requires k > 0 && Reached(j, limit, k) < j
    ensures Denotes(s, j - Reached(j, limit, k))
  {
    ReachedIsPages(j, limit, k);
    Grows(1, k, limit);
  }

  lemma SomeAnswer<T>(s: Server<T>, limit: int, j: nat, rs: seq<Response<T>>)
    requires s.Valid() && limit > 0 && j <= |s.edges| && FollowsPrev(s, limit, j, rs)
    ensures |s.cursors| == |s.edges| && rs != []
  {
  }

  lemma LastAnswerBack<T>(s: Server<T>, limit: int, j: nat, rs: seq<Response<T>>)
    requires |s.cursors| == |s.edges| && limit >= 0 && j <= |s.edges| && FollowsPrev(s, limit, j, rs)
    ensures rs != [] && rs[0] == Answer(s, Prev, limit, CursorBefore(s, j))
    ensures |rs| > 1 ==>
      FollowsPrev(s, limit, j, rs[..|rs| - 1]) && ContinuesPrev(s, limit, rs[|rs| - 2], rs[|rs| - 1])
  {
    if |rs| > 1 {
      PrevFollowsPrefix(s, limit, j, rs);
    }
  }

  lemma CollectedBackSplits<T>(rs: seq<Response<T>>)
    requires rs != []
    ensures CollectedBackwards(rs) == rs[|rs| - 1].data + CollectedBackwards(rs[..|rs| - 1])
    ensures |rs| == 1 ==> CollectedBackwards(rs[..|rs| - 1]) == []
  {
  }

  /** The pages before a cursor, one by one: after k of them the client has the transactions on them. */
  lemma {:induction false} PrevCollects<T>(s: Server<T>, limit: int, j: nat, rs: seq<Response<T>>)
    requires s.Valid() && limit > 0 && j <= |s.edges| && Denotes(s, j) && FirstBeginWell(s, limit, j, |rs|)
    requires FollowsPrev(s, limit, j, rs)
    ensures |rs| > 1 ==> Reached(j, limit, |rs| - 1) < j
    ensures HasFrom(s, CollectedBackwards(rs), rs[|rs| - 1], j - Reached(j, limit, |rs|), j)
    decreases |rs|
  {
    hide *;
    SomeAnswer(s, limit, j, rs);
    LastAnswerBack(s, limit, j, rs);
    FewerBeginWell(s, limit, j, |rs|);
    if |rs| == 1 {
      FirstCollectedBack(s, limit, j, rs);
    } else {
      var front := rs[..|rs| - 1];
      assert |front| == |rs| - 1;
      PrevCollects(s, limit, j, front);
      NextCollectedBack(s, limit, j, rs);
    }
  }

  lemma FirstCollectedBack<T>(s: Server<T>, limit: int, j: nat, rs: seq<Response<T>>)
    requires s.Valid() && limit > 0 && j <= |s.edges| && Denotes(s, j) && FollowsPrev(s, limit, j, rs) && |rs| == 1
    ensures HasFrom(s, CollectedBackwards(rs), rs[0], j - Reached(j, limit, 1), j)
  {
    LastAnswerBack(s, limit, j, rs);
    CollectedBackSplits(rs);
    BackReached(j, limit, 0);
    hide *;
    FirstPageBack(s, limit, j, rs[0]);
  }

  lemma NextCollectedBack<T>(s: Server<T>, limit: int, j: nat, rs: seq<Response<T>>)
    requires s.Valid() && limit > 0 && j <= |s.edges|
    requires FollowsPrev(s, limit, j, rs) && |rs| > 1 && CanGoBack(s, limit, j, |rs| - 1)
    requires HasFrom(s, CollectedBackwards(rs[..|rs| - 1]), rs[|rs| - 2], j - Reached(j, limit, |rs| - 1), j)
    ensures Reached(j, limit, |rs| - 1) < j
    ensures HasFrom(s, CollectedBackwards(rs), rs[|rs| - 1], j - Reached(j, limit, |rs|), j)
  {
    LastAnswerBack(s, limit, j, rs);
    CollectedBackSplits(rs);
    BackReached(j, limit, |rs| - 1);
    hide *;
    var m := j - Reached(j, limit, |rs| - 1);
    StillBack(s, limit, CollectedBackwards(rs[..|rs| - 1]), rs[|rs| - 2], m, j, rs[|rs| - 1]);
    GoingBackDenotes(s, limit, j, |rs| - 1);
    NextPageBack(s, limit, CollectedBackwards(rs[..|rs| - 1]), rs[|rs| - 2], m, j, rs[|rs| - 1]);
  }

  lemma BackReached(j: nat, limit: int, k: nat)
    requires limit > 0
    ensures Max(0, j - Reached(j, limit, k) - limit) == j - Reached(j, limit, k + 1)
    ensures k == 0 ==> Max(0, j - limit) == j - Reached(j, limit, k + 1)
  {
    hide Reached;
    ReachedStep(j, limit, k);
  }

  lemma StillBack<T>(s: Server<T>, limit: int, data: seq<T>, p: Response<T>, m: nat, j: nat, r: Response<T>)
    requires limit > 0 && m <= j <= |s.edges| == |s.cursors| && HasFrom(s, data, p, m, j) && ContinuesPrev(s, limit, p, r)
    ensures m > 0
  {
  }

  /** So a client that goes back until has_previous is false has everything before its cursor. */
  lemma PrevCollectsAll<T>(s: Server<T>, limit: int, j: nat, rs: seq<Response<T>>)
    requires s.Valid() && limit > 0 && j <= |s.edges| && Denotes(s, j) && PagesBeginWell(s, limit, j)
    requires FollowsPrev(s, limit, j, rs)
    ensures |rs| > 1 ==> OnPages(|rs| - 1, limit) < j
    ensures !rs[|rs| - 1].pagination.hasPrevious <==> j <= OnPages(|rs|, limit)
    ensures !rs[|rs| - 1].pagination.hasPrevious ==> CollectedBackwards(rs) == NonNil(s.edges[..j])
    ensures rs[|rs| - 1].pagination.hasPrevious ==> rs[|rs| - 1].pagination.prevCursor.Some?
  {
    hide *;
    SomeAnswer(s, limit, j, rs);
    AllBeginWell(s, limit, j, |rs|);
    PrevCollects(s, limit, j, rs);
    ReachedIsAll(j, limit, |rs|);
    ReachedIsAll(j, limit, |rs| - 1);
    HasFromMeans(s, CollectedBackwards(rs), rs[|rs| - 1], j - Reached(j, limit, |rs|), j);
  }

  lemma HasFromMeans<T>(s: Server<T>, data: seq<T>, last: Response<T>, i: nat, j: nat)
    requires i <= j <= |s.edges| == |s.cursors| && HasFrom(s, data, last, i, j)
    ensures last.pagination.hasPrevious <==> i > 0
    ensures i > 0 ==> last.pagination.prevCursor == Some(CursorBefore(s, i))
    ensures i == 0 ==> data == NonNil(s.edges[..j])
  {
    hide NonNil;
    assert s.edges[0..j] == s.edges[..j];
  }

  lemma PrevFollowsExtend<T>(s: Server<T>, limit: int, j: nat, rs: seq<Response<T>>, next: Response<T>)
    requires |s.cursors| == |s.edges| && limit >= 0 && j <= |s.edges| && FollowsPrev(s, limit, j, rs)
    requires ContinuesPrev(s, limit, rs[|rs| - 1], next)
    ensures FollowsPrev(s, limit, j, rs + [next])
  {
    hide Answer, ContinuesPrev;
    var more := rs + [next];
    forall k {:trigger more[k + 1]} | 0 <= k < |more| - 1 ensures ContinuesPrev(s, limit, more[k], more[k + 1]) {
      if k < |rs| - 1 {
        assert more[k + 1] == rs[k + 1];
      }
    }
  }

  lemma {:induction false} ClientGoesBack<T>(s: Server<T>, limit: int, j: nat, rs: seq<Response<T>>) returns (all: seq<Response<T>>)
    requires s.Valid() && limit > 0 && j <= |s.edges| && Denotes(s, j) && PagesBeginWell(s, limit, j)
    requires FollowsPrev(s, limit, j, rs)
    ensures FollowsPrev(s, limit, j, all) && rs <= all && !all[|all| - 1].pagination.hasPrevious
    decreases j - OnPages(|rs|, limit)
  {
    PrevCollectsAll(s, limit, j, rs);
    var last := rs[|rs| - 1];
    if last.pagination.hasPrevious {
      var next := Answer(s, Prev, limit, last.pagination.prevCursor.value);
      PrevFollowsExtend(s, limit, j, rs, next);
      hide Answer, FollowsPrev, Server.Valid, CollectedBackwards, NonNil, PagesBeginWell, OnPages;
      var more := rs + [next];
      OneMorePage(|rs|, limit);
      all := ClientGoesBack(s, limit, j, more);
    } else {
      all := rs;
    }
  }

  lemma FirstBadPageBack<T>(s: Server<T>, limit: int, j: nat, k: nat) returns (first: nat)
    requires |s.cursors| == |s.edges| && limit > 0 && j <= |s.edges| && !CanGoBack(s, limit, j, k)
    ensures 0 < first <= k && !CanGoBack(s, limit, j, first) && FirstBeginWell(s, limit, j, first)
  {
    if m: nat :| m < k && !CanGoBack(s, limit, j, m) {
      first := FirstBadPageBack(s, limit, j, m);
    } else {
      first := k;
    }
  }

  /*** An empty cursor on the way back ***/

  lemma {:induction false} CollectedConcat<T>(a: seq<Response<T>>, b: seq<Response<T>>)
    ensures CollectedBackwards(a + b) == CollectedBackwards(b) + CollectedBackwards(a)
  {
    if b == [] {
      assert a + b == a;
    } else {
      hide CollectedBackwards;
      var front, all := b[..|b| - 1], a + b;
      CollectedBackSplits(all);
      CollectedBackSplits(b);
      assert all[..|all| - 1] == a + front && all[|all| - 1] == b[|b| - 1];
      CollectedConcat(a, front);
    }
  }

  lemma PrevSplits<T>(s: Server<T>, limit: int, j: nat, front: seq<Response<T>>, back: seq<Response<T>>)
    requires |s.cursors| == |s.edges| && limit >= 0 && j <= |s.edges| && FollowsPrev(s, limit, j, front + back)
    requires front != [] && back != []
    ensures FollowsPrev(s, limit, j, front) && ContinuesPrev(s, limit, front[|front| - 1], back[0])
    ensures back[0] == Answer(s, Prev, limit, "") ==> FollowsPrev(s, limit, |s.edges|, back)
  {
    hide Answer, ContinuesPrev;
    var all, m := front + back, |front|;
    forall k {:trigger front[k + 1]} | 0 <= k < m - 1 ensures ContinuesPrev(s, limit, front[k], front[k + 1]) {
      assert ContinuesPrev(s, limit, all[k], all[k + 1]);
    }
    var last := m - 1;
    assert ContinuesPrev(s, limit, all[last], all[last + 1]);
    forall k {:trigger back[k + 1]} | 0 <= k < |back| - 1 ensures ContinuesPrev(s, limit, back[k], back[k + 1]) {
      var i := m + k;
      assert ContinuesPrev(s, limit, all[i], all[i + 1]);
    }
  }

  lemma PrevJoins<T>(s: Server<T>, limit: int, j: nat, a: seq<Response<T>>, b: seq<Response<T>>)
    requires |s.cursors| == |s.edges| && limit >= 0 && j <= |s.edges|
    requires FollowsPrev(s, limit, j, a) && FollowsPrev(s, limit, |s.edges|, b)
    requires ContinuesPrev(s, limit, a[|a| - 1], b[0])
    ensures FollowsPrev(s, limit, j, a + b)
  {
    hide Answer, ContinuesPrev;
    var all := a + b;
    forall k {:trigger all[k + 1]} | 0 <= k < |all| - 1 ensures ContinuesPrev(s, limit, all[k], all[k + 1]) {
      if k < |a| - 1 {
        assert ContinuesPrev(s, limit, a[k], a[k + 1]);
      } else if k >= |a| {
        var i := k - |a|;
        assert ContinuesPrev(s, limit, b[i], b[i + 1]);
      }
    }
  }

  /** Page `bad` before position j is the first to begin at an empty cursor. */
  ghost predicate FirstBad<T>(s: Server<T>, limit: int, j: nat, bad: nat)
    requires |s.cursors| == |s.edges| && j <= |s.edges|
  {
    bad > 0 && !CanGoBack(s, limit, j, bad) && FirstBeginWell(s, limit, j, bad)
  }

  /** Where that is. */
  function EmptyAt<T>(s: Server<T>, limit: int, j: nat, bad: nat): (e: nat)
    requires |s.cursors| == |s.edges| && j <= |s.edges| && !CanGoBack(s, limit, j, bad)
    ensures 0 < e < j && s.cursors[e] == ""
  {
    j - OnPages(bad, limit)
  }

  lemma AtBad<T>(s: Server<T>, limit: int, j: nat, bad: nat)
    requires s.Valid() && j <= |s.edges| && FirstBad(s, limit, j, bad)
    ensures |s.cursors| == |s.edges| && bad > 0 && !CanGoBack(s, limit, j, bad) && Denotes(s, |s.edges|)
  {
  }

  /** The pages up to the bad one are proper ones. */
  lemma UpToBad<T>(s: Server<T>, limit: int, j: nat, bad: nat, rs: seq<Response<T>>)
    requires s.Valid() && limit > 0 && j <= |s.edges| && Denotes(s, j) && FirstBad(s, limit, j, bad)
    requires FollowsPrev(s, limit, j, rs) && |rs| <= bad
    ensures rs[|rs| - 1].pagination.hasPrevious && rs[|rs| - 1].pagination.prevCursor.Some?
    ensures |rs| == bad ==> rs[|rs| - 1].pagination.prevCursor == Some("")
    ensures |rs| == bad ==> CollectedBackwards(rs) == NonNil(s.edges[EmptyAt(s, limit, j, bad)..j])
  {
    hide *;
    SomeAnswer(s, limit, j, rs);
    FirstBadMeans(s, limit, j, bad, |rs|);
    PrevCollects(s, limit, j, rs);
    HasFromMeans(s, CollectedBackwards(rs), rs[|rs| - 1], j - Reached(j, limit, |rs|), j);
    UpToBadCollects(s, CollectedBackwards(rs), rs[|rs| - 1], j - Reached(j, limit, |rs|), j);
  }

  lemma UpToBadCollects<T>(s: Server<T>, data: seq<T>, last: Response<T>, i: nat, j: nat)
    requires i <= j <= |s.edges| == |s.cursors| && HasFrom(s, data, last, i, j)
    ensures data == NonNil(s.edges[i..j])
  {
  }

  /** Before the bad page there is more to come, and then that page begins at the empty cursor. */
  lemma FirstBadMeans<T>(s: Server<T>, limit: int, j: nat, bad: nat, k: nat)
    requires |s.cursors| == |s.edges| && limit > 0 && j <= |s.edges| && FirstBad(s, limit, j, bad) && k <= bad
    ensures FirstBeginWell(s, limit, j, k) && Reached(j, limit, k) < j
    ensures k == bad ==> j - Reached(j, limit, k) == EmptyAt(s, limit, j, bad)
    ensures k == bad ==> CursorBefore(s, j - Reached(j, limit, k)) == ""
  {
    Grows(k, bad, limit);
  }

  /** After the bad page the client starts over from the end of the list. */
  lemma StartsOver<T>(s: Server<T>, limit: int, j: nat, bad: nat, front: seq<Response<T>>, back: seq<Response<T>>)
    requires s.Valid() && limit > 0 && j <= |s.edges| && Denotes(s, j) && FirstBad(s, limit, j, bad)
    requires FollowsPrev(s, limit, j, front + back) && |front| == bad && back != []
    ensures FollowsPrev(s, limit, |s.edges|, back)
    ensures CollectedBackwards(front + back) == CollectedBackwards(back) + NonNil(s.edges[EmptyAt(s, limit, j, bad)..j])
  {
    hide *;
    AtBad(s, limit, j, bad);
    PrevSplits(s, limit, j, front, back);
    CollectedConcat(front, back);
    UpToBad(s, limit, j, bad, front);
    ContinuesFromEnd(s, limit, front[|front| - 1], back[0]);
  }

  lemma ContinuesFromEnd<T>(s: Server<T>, limit: int, r: Response<T>, next: Response<T>)
    requires |s.cursors| == |s.edges| && limit >= 0 && ContinuesPrev(s, limit, r, next)
    requires r.pagination.prevCursor == Some("")
    ensures next == Answer(s, Prev, limit, "")
  {
    hide Answer;
  }

  /** When the way from the end of the list meets an empty cursor too, there is no end. */
  lemma {:induction false} NeverEnds<T>(s: Server<T>, limit: int, bad: nat, rs: seq<Response<T>>)
    requires s.Valid() && limit > 0 && FirstBad(s, limit, |s.edges|, bad) && FollowsPrev(s, limit, |s.edges|, rs)
    ensures rs[|rs| - 1].pagination.hasPrevious
    decreases |rs|
  {
    hide *;
    AtBad(s, limit, |s.edges|, bad);
    SomeAnswer(s, limit, |s.edges|, rs);
    if |rs| <= bad {
      UpToBad(s, limit, |s.edges|, bad, rs);
    } else {
      var back := rs[bad..];
      assert rs[..bad] + back == rs;
      StartsOver(s, limit, |s.edges|, bad, rs[..bad], back);
      NeverEnds(s, limit, bad, back);
    }
  }

  lemma BadExists<T>(s: Server<T>, limit: int, j: nat) returns (bad: nat)
    requires |s.cursors| == |s.edges| && limit > 0 && j <= |s.edges| && !PagesBeginWell(s, limit, j)
    ensures FirstBad(s, limit, j, bad)
  {
    var k: nat :| !CanGoBack(s, limit, j, k);
    bad := FirstBadPageBack(s, limit, j, k);
  }

  /** A client that has gone back until it was told that nothing comes before. */
  ghost predicate EndsBack<T>(s: Server<T>, limit: int, j: nat, rs: seq<Response<T>>)
    requires |s.cursors| == |s.edges| && limit >= 0 && j <= |s.edges|
  {
    FollowsPrev(s, limit, j, rs) && !rs[|rs| - 1].pagination.hasPrevious
  }

  lemma EndMeans<T>(s: Server<T>, limit: int, j: nat, rs: seq<Response<T>>)
    requires s.Valid() && limit > 0 && j <= |s.edges| && EndsBack(s, limit, j, rs)
    ensures |s.cursors| == |s.edges| && Denotes(s, |s.edges|)
    ensures FollowsPrev(s, limit, j, rs) && rs != [] && !rs[|rs| - 1].pagination.hasPrevious
  {
  }

  lemma IsEnd<T>(s: Server<T>, limit: int, j: nat, rs: seq<Response<T>>)
    requires |s.cursors| == |s.edges| && limit > 0 && j <= |s.edges| && FollowsPrev(s, limit, j, rs)
    requires rs != [] && !rs[|rs| - 1].pagination.hasPrevious
    ensures EndsBack(s, limit, j, rs)
  {
  }

  /** A client that meets an empty cursor and yet ends does so on the way from the end of the list. */
  lemma EndsOnTheWayFromEnd<T>(s: Server<T>, limit: int, j: nat, bad: nat, rs: seq<Response<T>>)
    requires s.Valid() && limit > 0 && j <= |s.edges| && Denotes(s, j) && FirstBad(s, limit, j, bad)
    requires EndsBack(s, limit, j, rs)
    ensures 0 < bad < |rs| && EndsBack(s, limit, |s.edges|, rs[bad..])
    ensures CollectedBackwards(rs) == CollectedBackwards(rs[bad..]) + NonNil(s.edges[EmptyAt(s, limit, j, bad)..j])
  {
    hide *;
    AtBad(s, limit, j, bad);
    EndMeans(s, limit, j, rs);
    LongerThanBad(s, limit, j, bad, rs);
    var front, back := rs[..bad], rs[bad..];
    assert front + back == rs && |front| == bad && back != [] && back[|back| - 1] == rs[|rs| - 1];
    StartsOver(s, limit, j, bad, front, back);
    IsEnd(s, limit, |s.edges|, back);
  }

  lemma LongerThanBad<T>(s: Server<T>, limit: int, j: nat, bad: nat, rs: seq<Response<T>>)
    requires s.Valid() && limit > 0 && j <= |s.edges| && Denotes(s, j) && FirstBad(s, limit, j, bad)
    requires EndsBack(s, limit, j, rs)
    ensures |rs| > bad
  {
    hide *;
    EndMeans(s, limit, j, rs);
    if |rs| <= bad {
      UpToBad(s, limit, j, bad, rs);
    }
  }

  /** There it meets none, and collects the whole list. */
  lemma CollectsAllFromEnd<T>(s: Server<T>, limit: int, rs: seq<Response<T>>)
    requires s.Valid() && limit > 0 && EndsBack(s, limit, |s.edges|, rs)
    ensures PagesBeginWell(s, limit, |s.edges|) && CollectedBackwards(rs) == NonNil(s.edges)
  {
    hide *;
    EndMeans(s, limit, |s.edges|, rs);
    assert s.edges[..|s.edges|] == s.edges;
    if !PagesBeginWell(s, limit, |s.edges|) {
      var bad := BadExists(s, limit, |s.edges|);
      NeverEnds(s, limit, bad, rs);
    }
    PrevCollectsAll(s, limit, |s.edges|, rs);
  }

  lemma PagesFromEnd<T>(s: Server<T>, limit: int, rs: seq<Response<T>>)
    requires s.Valid() && limit > 0 && EndsBack(s, limit, |s.edges|, rs)
    ensures |s.edges| <= OnPages(|rs|, limit)
  {
    hide *;
    EndMeans(s, limit, |s.edges|, rs);
    CollectsAllFromEnd(s, limit, rs);
    PrevCollectsAll(s, limit, |s.edges|, rs);
  }

  /** So it has the whole list and again what it had before. */
  lemma EndsAfterBad<T>(s: Server<T>, limit: int, j: nat, bad: nat, rs: seq<Response<T>>)
    requires s.Valid() && limit > 0 && j <= |s.edges| && Denotes(s, j) && FirstBad(s, limit, j, bad)
    requires EndsBack(s, limit, j, rs)
    ensures PagesBeginWell(s, limit, |s.edges|)
    ensures CollectedBackwards(rs) == NonNil(s.edges) + NonNil(s.edges[EmptyAt(s, limit, j, bad)..j])
  {
    hide *;
    AtBad(s, limit, j, bad);
    EndsOnTheWayFromEnd(s, limit, j, bad, rs);
    CollectsAllFromEnd(s, limit, rs[bad..]);
  }

  /** It has made more requests than there are pages before its cursor. */
  lemma EndsLate<T>(s: Server<T>, limit: int, j: nat, bad: nat, rs: seq<Response<T>>)
    requires s.Valid() && limit > 0 && j <= |s.edges| && Denotes(s, j) && FirstBad(s, limit, j, bad)
    requires EndsBack(s, limit, j, rs)
    ensures |rs| > 1 && OnPages(|rs| - 1, limit) >= j
  {
    hide *;
    AtBad(s, limit, j, bad);
    EndsOnTheWayFromEnd(s, limit, j, bad, rs);
    PagesFromEnd(s, limit, rs[bad..]);
    assert |rs[bad..]| == |rs| - bad;
    ManyRequests(|s.edges|, limit, bad, |rs|);
  }

  lemma ManyRequests(n: nat, limit: int, bad: nat, all: nat)
    requires limit > 0 && 0 < bad < all && n <= OnPages(all - bad, limit)
    ensures OnPages(all - 1, limit) >= n
  {
    Grows(all - bad, all - 1, limit);
  }

  lemma {:induction false} SomePagesBack<T>(s: Server<T>, limit: int, j: nat, bad: nat, m: nat) returns (rs: seq<Response<T>>)
    requires s.Valid() && limit > 0 && j <= |s.edges| && Denotes(s, j) && FirstBad(s, limit, j, bad) && 0 < m <= bad
    ensures FollowsPrev(s, limit, j, rs) && |rs| == m
  {
    AtBad(s, limit, j, bad);
    if m == 1 {
      rs := [Answer(s, Prev, limit, CursorBefore(s, j))];
    } else {
      hide Answer, FirstBad, Server.Valid;
      var front := SomePagesBack(s, limit, j, bad, m - 1);
      UpToBad(s, limit, j, bad, front);
      var next := Answer(s, Prev, limit, front[|front| - 1].pagination.prevCursor.value);
      PrevFollowsExtend(s, limit, j, front, next);
      rs := front + [next];
    }
  }

  lemma EndsFromCursor<T>(s: Server<T>, limit: int, j: nat) returns (rs: seq<Response<T>>)
    requires s.Valid() && limit > 0 && j <= |s.edges| && Denotes(s, j) && PagesBeginWell(s, limit, j)
    ensures EndsBack(s, limit, j, rs) && CollectedBackwards(rs) == NonNil(s.edges[..j])
    ensures |rs| > 1 ==> OnPages(|rs| - 1, limit) < j
  {
    rs := ClientGoesBack(s, limit, j, [Answer(s, Prev, limit, CursorBefore(s, j))]);
    PrevCollectsAll(s, limit, j, rs);
  }

  lemma EndsFromEnd<T>(s: Server<T>, limit: int, j: nat, bad: nat) returns (rs: seq<Response<T>>)
    requires s.Valid() && limit > 0 && j <= |s.edges| && Denotes(s, j) && FirstBad(s, limit, j, bad)
    requires PagesBeginWell(s, limit, |s.edges|)
    ensures EndsBack(s, limit, j, rs)
  {
    AtBad(s, limit, j, bad);
    var front := SomePagesBack(s, limit, j, bad, bad);
    UpToBad(s, limit, j, bad, front);
    var back := EndsFromCursor(s, limit, |s.edges|);
    assert ContinuesPrev(s, limit, front[|front| - 1], back[0]);
    hide Answer, FirstBad, Server.Valid, ContinuesPrev, PagesBeginWell;
    PrevJoins(s, limit, j, front, back);
    rs := front + back;
  }

  /**
   * Going back ends exactly when no page but the last begins at an empty cursor, be it on the way from the
   * client's own cursor, or on the way from the end of the list, where an empty cursor sends it.
   */
  lemma PrevEndsExactlyWhen<T(!new)>(s: Server<T>, limit: int, j: nat)
    requires s.Valid() && limit > 0 && j <= |s.edges| && Denotes(s, j)
    ensures (exists rs: seq<Response<T>> :: EndsBack(s, limit, j, rs)) <==>
            PagesBeginWell(s, limit, j) || PagesBeginWell(s, limit, |s.edges|)
  {
    if PagesBeginWell(s, limit, j) {
      var rs := EndsFromCursor(s, limit, j);
    } else {
      var bad := BadExists(s, limit, j);
      hide Answer, Server.Valid, FirstBad, PagesBeginWell, EndsBack;
      if PagesBeginWell(s, limit, |s.edges|) {
        var rs := EndsFromEnd(s, limit, j, bad);
      } else {
        forall rs: seq<Response<T>> | EndsBack(s, limit, j, rs) ensures false {
          EndsAfterBad(s, limit, j, bad, rs);
        }
      }
    }
  }

  /*** What the client has then ***/

  /** The empty cursor and everything behind it belong to edges without a transaction. */
  ghost predicate NothingFromEmptyCursor<T>(s: Server<T>)
    requires |s.cursors| == |s.edges|
  {
    exists e :: 0 <= e < |s.edges| && s.cursors[e] == "" && forall i :: e <= i < |s.edges| ==> s.edges[i].None?
  }

  lemma {:induction false} NonNilIsEmpty<T>(edges: seq<Option<T>>)
    ensures NonNil(edges) == [] <==> forall i :: 0 <= i < |edges| ==> edges[i].None?
  {
    if edges != [] {
      NonNilIsEmpty(edges[..|edges| - 1]);
    }
  }

  /** Everything, and again what lies between the empty cursor and j, is what lies before j only if nothing follows. */
  lemma OnceMeansNothingFollows<T>(edges: seq<Option<T>>, e: nat, j: nat)
    requires e <= j <= |edges|
    ensures NonNil(edges) + NonNil(edges[e..j]) == NonNil(edges[..j]) <==> forall i :: e <= i < |edges| ==> edges[i].None?
  {
    AllNoneFrom(edges, e);
    SplitsAround(edges, e, j);
    hide NonNil;
    SameFront(NonNil(edges[..e]), NonNil(edges[e..]), NonNil(edges[e..j]));
  }

  lemma SplitsAround<T>(edges: seq<Option<T>>, e: nat, j: nat)
    requires e <= j <= |edges|
    ensures NonNil(edges) == NonNil(edges[..e]) + NonNil(edges[e..])
    ensures NonNil(edges[..j]) == NonNil(edges[..e]) + NonNil(edges[e..j])
  {
    assert edges == edges[..e] + edges[e..] && edges[..j] == edges[..e] + edges[e..j];
    NonNilConcat(edges[..e], edges[e..]);
    NonNilConcat(edges[..e], edges[e..j]);
  }

  lemma AllNoneFrom<T>(edges: seq<Option<T>>, e: nat)
    requires e <= |edges|
    ensures NonNil(edges[e..]) == [] <==> forall i :: e <= i < |edges| ==> edges[i].None?
  {
    NonNilIsEmpty(edges[e..]);
    hide NonNil;
    assert forall i :: e <= i < |edges| ==> edges[i] == edges[e..][i - e];
  }

  lemma SameFront<T>(before: seq<T>, after: seq<T>, between: seq<T>)
    ensures before + after + between == before + between <==> after == []
  {
    if before + after + between == before + between {
      assert |before + after + between| == |before + between|;
    } else {
      assert before + [] == before;
    }
  }

  /** A client that went back to the end and has everything before position j once. */
  ghost predicate HasEverythingBefore<T>(s: Server<T>, limit: int, j: nat, rs: seq<Response<T>>)
    requires |s.cursors| == |s.edges| && limit >= 0 && j <= |s.edges|
  {
    EndsBack(s, limit, j, rs) && CollectedBackwards(rs) == NonNil(s.edges[..j])
  }

  /** The cursors being different, there is one empty cursor at most. */
  lemma TheEmptyCursor<T>(s: Server<T>, e: nat)
    requires s.Valid() && e < |s.edges| && s.cursors[e] == ""
    ensures NothingFromEmptyCursor(s) <==> forall i :: e <= i < |s.edges| ==> s.edges[i].None?
  {
  }

  /** After an empty cursor an end is of use only where no transaction is lost on the way from it. */
  lemma HasItAfterBad<T>(s: Server<T>, limit: int, j: nat, bad: nat, rs: seq<Response<T>>)
    requires s.Valid() && limit > 0 && j <= |s.edges| && Denotes(s, j) && FirstBad(s, limit, j, bad)
    requires EndsBack(s, limit, j, rs)
    ensures PagesBeginWell(s, limit, |s.edges|)
    ensures HasEverythingBefore(s, limit, j, rs) <==> NothingFromEmptyCursor(s)
  {
    EndsAfterBad(s, limit, j, bad, rs);
    var e := EmptyAt(s, limit, j, bad);
    hide Answer, FirstBad, EndsBack, PagesBeginWell, EmptyAt, NothingFromEmptyCursor, CollectedBackwards;
    OnceMeansNothingFollows(s.edges, e, j);
    TheEmptyCursor(s, e);
  }

  /**
   * Going back ends with everything before the cursor, once each, exactly when no page but the last begins at
   * an empty cursor, or when the way from the end of the list is free of it and it and all edges behind it
   * carry no transaction.
   */
  lemma PrevWorksExactlyWhen<T(!new)>(s: Server<T>, limit: int, j: nat)
    requires s.Valid() && limit > 0 && j <= |s.edges| && Denotes(s, j)
    ensures (exists rs: seq<Response<T>> :: HasEverythingBefore(s, limit, j, rs)) <==>
            PagesBeginWell(s, limit, j) || (PagesBeginWell(s, limit, |s.edges|) && NothingFromEmptyCursor(s))
  {
    if PagesBeginWell(s, limit, j) {
      var rs := EndsFromCursor(s, limit, j);
      assert HasEverythingBefore(s, limit, j, rs);
    } else {
      var bad := BadExists(s, limit, j);
      hide Answer, Server.Valid, FirstBad, PagesBeginWell, EndsBack, NothingFromEmptyCursor;
      forall rs: seq<Response<T>> | EndsBack(s, limit, j, rs)
        ensures PagesBeginWell(s, limit, |s.edges|)
        ensures HasEverythingBefore(s, limit, j, rs) <==> NothingFromEmptyCursor(s)
      {
        HasItAfterBad(s, limit, j, bad, rs);
      }
      if PagesBeginWell(s, limit, |s.edges|) {
        var rs := EndsFromEnd(s, limit, j, bad);
      }
    }
  }

  /** So where every edge carries a transaction, exactly when no page but the last begins at an empty cursor. */
  lemma PrevWorksForFullPages<T(!new)>(s: Server<T>, limit: int, j: nat)
    requires s.Valid() && limit > 0 && j <= |s.edges| && Denotes(s, j)
    requires forall i :: 0 <= i < |s.edges| ==> s.edges[i].Some?
    ensures (exists rs: seq<Response<T>> :: HasEverythingBefore(s, limit, j, rs)) <==> PagesBeginWell(s, limit, j)
  {
    PrevWorksExactlyWhen(s, limit, j);
    hide PagesBeginWell, HasEverythingBefore;
    forall e | 0 <= e < |s.edges| && s.cursors[e] == "" ensures !forall i :: e <= i < |s.edges| ==> s.edges[i].None? {
      assert s.edges[e].Some?;
    }
  }

  /** And for all lists, where the client makes no more requests than there are pages before its cursor. */
  lemma PrevWorksInPages<T(!new)>(s: Server<T>, limit: int, j: nat)
    requires s.Valid() && limit > 0 && j <= |s.edges| && Denotes(s, j)
    ensures (exists rs: seq<Response<T>> ::
               HasEverythingBefore(s, limit, j, rs) && (|rs| > 1 ==> OnPages(|rs| - 1, limit) < j)) <==>
            PagesBeginWell(s, limit, j)
  {
    if PagesBeginWell(s, limit, j) {
      var rs := EndsFromCursor(s, limit, j);
      assert HasEverythingBefore(s, limit, j, rs);
    } else {
      var bad := BadExists(s, limit, j);
      hide Answer, Server.Valid, FirstBad, PagesBeginWell;
      forall rs: seq<Response<T>> | HasEverythingBefore(s, limit, j, rs) ensures |rs| > 1 && OnPages(|rs| - 1, limit) >= j {
        EndsLate(s, limit, j, bad, rs);
      }
    }
  }

  /** A list where an empty cursor does no harm: nothing but empty edges from it on. */
  lemma NilTailForgives(s: Server<int>)
    requires s.edges == [Some(7), None, None, None] && s.cursors == ["a", "", "c", "d"]
    ensures !PagesBeginWell(s, 2, 3) && PagesBeginWell(s, 2, 4) && NothingFromEmptyCursor(s)
  {
    assert !CanGoBack(s, 2, 3, 1);
    assert s.cursors[1] == "";
    forall k: nat ensures CanGoBack(s, 2, 4, k) {
      OnPagesIsProduct(k, 2);
    }
  }
}
