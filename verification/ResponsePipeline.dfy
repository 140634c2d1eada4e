/**
 * One request through the handler wrapper of internal/api/handlers/custom.go and the middleware that
 * initMiddleware (internal/api/serve.go) chains around the mux: Recover, ResponseHeader, BodySizeLimit,
 * Logging, Metrics, outermost first.
 */
module ResponsePipeline {
  import opened ResponseWriters
  import opened Text

  /*** Handlers ***/

  datatype Op = Status(code: int) | Body(data: string) | Reset

  /** An API error carries its status; any other error becomes a 500. `rendered` is its JSON. */
  datatype HandlerError = ApiError(status: int, rendered: string) | OtherError(rendered: string)

  datatype Ending = Return | Fail(error: HandlerError) | Panic(abort: bool)

  /** What a handler does to its writer, and how it ends. */
  datatype Script = Script(ops: seq<Op>, ending: Ending)

  datatype Outcome = Normal | Panicked(abort: bool)

  function StatusOf(e: HandlerError): int {
    if e.ApiError? then e.status else 500
  }

  function Do(w: Writers, op: Op): Writers {
    Perform(w, match op
               case Status(code) => HeaderOp(code)
               case Body(data) => DataOp(data)
               case Reset => ResetOp)
  }

  function DoAll(w: Writers, ops: seq<Op>): Writers {
    if ops == [] then w else Do(DoAll(w, ops[..|ops| - 1]), ops[|ops| - 1])
  }

  /** CustomHandler: an error replaces whatever was buffered. */
  function Handled(w: Writers, s: Script): Writers {
    var after := DoAll(w, s.ops);
    match s.ending
    case Fail(e) => Append(SetStatus(after.(buf := EMPTY), StatusOf(e)), e.rendered)
    case _ => after
  }

  function HandlerOutcome(s: Script): Outcome {
    if s.ending.Panic? then Panicked(s.ending.abort) else Normal
  }

  method CustomHandler(bw: BufferedResponseWriter, s: Script) returns (o: Outcome)
    modifies bw, bw.raw
    ensures bw.State() == Handled(old(bw.State()), s) && o == HandlerOutcome(s)
  {
    for i := 0 to |s.ops|
      invariant bw.State() == DoAll(old(bw.State()), s.ops[..i])
    {
      assert s.ops[..i + 1][..i] == s.ops[..i];
      match s.ops[i] {
        case Status(code) => bw.WriteHeader(code);
        case Body(data) => bw.Write(data);
        case Reset => bw.Reset();
      }
    }
    assert s.ops[..|s.ops|] == s.ops;
    match s.ending {
      case Return => o := Normal;
      case Panic(abort) => o := Panicked(abort);
      case Fail(e) =>
        bw.Reset();
        bw.WriteHeader(StatusOf(e));
        bw.Write(e.rendered);
        o := Normal;
    }
  }

  /*** Middleware ***/

  /** The counters of internal/api/middleware/metrics.go, by status code. */
  class HttpMetrics {
    var inFlight: int
    var requestsTotal: multiset<int>

    constructor ()
      ensures inFlight == 0 && requestsTotal == multiset{}
    {
      inFlight, requestsTotal := 0, multiset{};
    }
  }

  /** Metrics: the gauge goes down on every way out, the counter up only on a normal one. */
  method Metrics(h: HttpMetrics, bw: BufferedResponseWriter, s: Script) returns (o: Outcome)
    modifies h, bw, bw.raw
    ensures bw.State() == Handled(old(bw.State()), s) && o == HandlerOutcome(s)
    ensures h.inFlight == old(h.inFlight)
    ensures h.requestsTotal == old(h.requestsTotal) + if o == Normal then multiset{bw.statusCode} else multiset{}
  {
    h.inFlight := h.inFlight + 1;
    o := CustomHandler(bw, s);
    if o == Normal {
      h.requestsTotal := h.requestsTotal + multiset{bw.statusCode};
    }
    h.inFlight := h.inFlight - 1;
  }

  /** What is out when Logging is left: nothing after a panic, else the flushed buffer. */
  function LoggedRaw(raw: Raw, s: Script): Raw {
    var w := Handled(Writers(raw, EMPTY), s);
    if s.ending.Panic? || FlushPanics(w) then w.raw else Flushed(w).raw
  }

  function LoggedOutcome(raw: Raw, s: Script): Outcome {
    if s.ending.Panic? then Panicked(s.ending.abort)
    else if FlushPanics(Handled(Writers(raw, EMPTY), s)) then Panicked(false)
    else Normal
  }

  /** The code the counter sees. */
  function RecordedCode(raw: Raw, s: Script): int {
    Handled(Writers(raw, EMPTY), s).buf.status
  }

  method Logging(h: HttpMetrics, raw: RawWriter, s: Script) returns (o: Outcome)
    modifies h, raw
    ensures raw.out == LoggedRaw(old(raw.out), s) && o == LoggedOutcome(old(raw.out), s)
    ensures h.inFlight == old(h.inFlight)
    ensures h.requestsTotal ==
            old(h.requestsTotal) + if s.ending.Panic? then multiset{} else multiset{RecordedCode(old(raw.out), s)}
  {
    var bw := new BufferedResponseWriter(raw);
    o := Metrics(h, bw, s);
    if o == Normal {
      var panicked := bw.Flush();
      if panicked {
        o := Panicked(false);
      }
    }
  }

  function Recovered(raw: Raw, o: Outcome, rendered: string): Raw {
    if o == Panicked(false) then BodySent(HeaderSent(raw, 500), rendered) else raw
  }

  /** Recover writes its 500 on the unbuffered writer; an abort panics on. */
  method Recover(h: HttpMetrics, raw: RawWriter, s: Script, rendered: string) returns (o: Outcome)
    modifies h, raw
    ensures raw.out == Recovered(LoggedRaw(old(raw.out), s), LoggedOutcome(old(raw.out), s), rendered)
    ensures o == if LoggedOutcome(old(raw.out), s) == Panicked(true) then Panicked(true) else Normal
    ensures h.inFlight == old(h.inFlight)
    ensures h.requestsTotal ==
            old(h.requestsTotal) + if s.ending.Panic? then multiset{} else multiset{RecordedCode(old(raw.out), s)}
  {
    o := Logging(h, raw, s);
    if o == Panicked(false) {
      var _ := raw.WriteHeader(500);
      raw.Write(rendered);
      o := Normal;
    }
  }

  /*** What the client receives ***/

  /** The response of a request that net/http finishes, or None for an aborted connection. */
  datatype Response = Response(status: int, body: string)

  function Received(s: Script, rendered: string): Option<Response> {
    var o := LoggedOutcome(FRESH, s);
    var raw := Recovered(LoggedRaw(FRESH, s), o, rendered);
    if o == Panicked(true) then None
    else Some(Response(if raw.status.Some? then raw.status.value else 200, raw.body))
  }

  /** A fresh connection through the whole chain. */
  method Serve(h: HttpMetrics, s: Script, rendered: string) returns (response: Option<Response>)
    modifies h
    ensures response == Received(s, rendered)
    ensures h.inFlight == old(h.inFlight)
    ensures h.requestsTotal ==
            old(h.requestsTotal) + if s.ending.Panic? then multiset{} else multiset{RecordedCode(FRESH, s)}
  {
    var raw := new RawWriter();
    var o := Recover(h, raw, s, rendered);
    if o == Panicked(true) {
      return None;
    }
    response := Some(Response(if raw.out.status.Some? then raw.out.status.value else 200, raw.out.body));
  }

  /** The status set last, and everything written, by operations without a reset. */
  function LastStatus(ops: seq<Op>): int {
    if ops == [] then 200
    else if ops[|ops| - 1].Status? then ops[|ops| - 1].code
    else LastStatus(ops[..|ops| - 1])
  }

  function Written(ops: seq<Op>): string {
    if ops == [] then ""
    else Written(ops[..|ops| - 1]) + if ops[|ops| - 1].Body? then ops[|ops| - 1].data else ""
  }

  /** What comes after the last reset. */
  function SinceReset(ops: seq<Op>): seq<Op> {
    if ops == [] || ops[|ops| - 1] == Reset then []
    else SinceReset(ops[..|ops| - 1]) + [ops[|ops| - 1]]
  }

  /** It is the longest reset-free tail. */
  lemma {:induction false} SinceResetIsLongestTail(ops: seq<Op>)
    ensures var n := |SinceReset(ops)|;
      && n <= |ops| && SinceReset(ops) == ops[|ops| - n..] && Reset !in SinceReset(ops)
      && (n < |ops| ==> ops[|ops| - n - 1] == Reset)
  {
    if ops != [] && ops[|ops| - 1] != Reset {
      SinceResetIsLongestTail(ops[..|ops| - 1]);
    }
  }

  lemma {:induction false} BufferHolds(raw: Raw, ops: seq<Op>)
    ensures DoAll(Writers(raw, EMPTY), ops) ==
            Writers(raw, Buffered(LastStatus(SinceReset(ops)), Written(SinceReset(ops)), false))
  {
    if ops != [] {
      var front, last := ops[..|ops| - 1], ops[|ops| - 1];
      BufferHolds(raw, front);
      if last != Reset {
        var tail := SinceReset(front) + [last];
        assert SinceReset(ops) == tail && tail[..|tail| - 1] == SinceReset(front);
      }
    }
  }

  /** The status and the body a script leaves in the buffer. */
  function Intended(s: Script): Response {
    match s.ending
    case Fail(e) => Response(StatusOf(e), e.rendered)
    case _ => Response(LastStatus(SinceReset(s.ops)), Written(SinceReset(s.ops)))
  }

  lemma HandledIs(s: Script)
    ensures Handled(Writers(FRESH, EMPTY), s) == Writers(FRESH, Buffered(Intended(s).status, Intended(s).body, false))
  {
    BufferHolds(FRESH, s.ops);
  }

  /** The body that may accompany a status. */
  function Permitted(status: int, body: string): string {
    if BodyAllowed(status) then body else ""
  }

  /**
   * Without a panic the client receives one status line and one body: what was written since the last
   * reset, or only the rendered error. A final status arrives as it is; an informational one is followed
   * by 200; a code that net/http refuses ends in Recover's 500.
   */
  lemma ClientReceivesIntended(s: Script, rendered: string)
    requires !s.ending.Panic?
    ensures var want := Intended(s);
      Received(s, rendered) == Some(
        if IsFinal(want.status) then Response(want.status, Permitted(want.status, want.body))
        else if IsInformational(want.status) then Response(200, want.body)
        else Response(500, rendered))
  {
    HandledIs(s);
    hide Handled, DoAll;
    assert "" + Intended(s).body == Intended(s).body;
    assert "" + rendered == rendered;
  }

  /** What goes out before that is the informational status, if the handler set one, and nothing else. */
  lemma InformationalGoesOutFirst(s: Script, rendered: string)
    ensures Recovered(LoggedRaw(FRESH, s), LoggedOutcome(FRESH, s), rendered).informational ==
            if !s.ending.Panic? && 100 <= Intended(s).status <= 199 && Intended(s).status != 101 then [Intended(s).status]
            else []
  {
    HandledIs(s);
    hide Handled, DoAll;
  }

  /**
   * An API error reaches the client, and the counter, with its own status and rendering, any other error as
   * a 500 with its rendering, whatever the handler had set or written before.
   */
  lemma ErrorsReachTheClient(ops: seq<Op>, status: int, error: string, rendered: string)
    ensures RecordedCode(FRESH, Script(ops, Fail(ApiError(status, error)))) == status
    ensures 200 <= status <= 999 ==>
      Received(Script(ops, Fail(ApiError(status, error))), rendered) ==
      Some(Response(status, if status == 204 || status == 304 then "" else error))
    ensures RecordedCode(FRESH, Script(ops, Fail(OtherError(error)))) == 500
    ensures Received(Script(ops, Fail(OtherError(error))), rendered) == Some(Response(500, error))
  {
    var own, other := Script(ops, Fail(ApiError(status, error))), Script(ops, Fail(OtherError(error)));
    HandledIs(own);
    HandledIs(other);
    ClientReceivesIntended(own, rendered);
    ClientReceivesIntended(other, rendered);
    hide Handled, Received;
  }

  /**
   * What a handler that returns has set last and written, since its last reset, reaches the client: with a
   * final status as it is, behind an informational one with 200, and not at all with a code that is none.
   */
  lemma AnswersReachTheClient(before: seq<Op>, status: int, data: string, more: string, rendered: string)
    requires before == [] || before[|before| - 1] == Reset
    ensures var s := Script(before + [Status(status), Body(data), Body(more)], Return);
      && RecordedCode(FRESH, s) == status
      && Received(s, rendered) == Some(
           if 200 <= status <= 999 then Response(status, if status == 204 || status == 304 then "" else data + more)
           else if status == 101 then Response(101, "")
           else if 100 <= status <= 199 then Response(200, data + more)
           else Response(500, rendered))
    ensures var s := Script(before + [Body(data)], Return);
      RecordedCode(FRESH, s) == 200 && Received(s, rendered) == Some(Response(200, data))
  {
    hide Handled, Received, SinceReset, Written, LastStatus;
    var one, three := before + [Body(data)], before + [Status(status), Body(data), Body(more)];
    SinceResetOf(before, [Body(data)]);
    SinceResetOf(before, [Status(status), Body(data), Body(more)]);
    WrittenOf(status, data, more);
    HandledIs(Script(one, Return));
    HandledIs(Script(three, Return));
    ClientReceivesIntended(Script(one, Return), rendered);
    ClientReceivesIntended(Script(three, Return), rendered);
  }

  lemma WrittenOf(status: int, data: string, more: string)
    ensures var ops := [Status(status), Body(data), Body(more)]; LastStatus(ops) == status && Written(ops) == data + more
    ensures LastStatus([Body(data)]) == 200 && Written([Body(data)]) == data
  {
    var one, two, ops := [Status(status)], [Status(status), Body(data)], [Status(status), Body(data), Body(more)];
    assert one[..0] == [] && two[..1] == one && ops[..2] == two;
    assert LastStatus(one) == status && Written(one) == "";
    assert LastStatus(two) == status && Written(two) == data;
    assert [Body(data)][..0] == [] && "" + data == data;
  }

  lemma {:induction false} SinceResetOf(before: seq<Op>, tail: seq<Op>)
    requires before == [] || before[|before| - 1] == Reset
    requires Reset !in tail
    ensures SinceReset(before + tail) == tail
  {
    if tail == [] {
      assert before + tail == before;
    } else {
      var front := tail[..|tail| - 1];
      SinceResetOf(before, front);
      assert (before + tail)[..|before + tail| - 1] == before + front;
      SinceResetStep(before + tail);
    }
  }

  /** After a panic the client receives Recover's 500 and nothing of the handler's, or no response at all. */
  lemma ClientReceivesRecovery(s: Script, rendered: string)
    requires s.ending.Panic?
    ensures Received(s, rendered) == if s.ending.abort then None else Some(Response(500, rendered))
  {
    HandledIs(s);
    hide Handled, DoAll;
    assert LoggedRaw(FRESH, s) == FRESH;
    assert "" + rendered == rendered;
  }

  /** The counted code is the one the client receives exactly when it is a final one. */
  lemma RecordedIsReceived(s: Script, rendered: string)
    requires !s.ending.Panic?
    ensures Received(s, rendered).Some?
    ensures RecordedCode(FRESH, s) == Intended(s).status
    ensures Received(s, rendered).value.status == RecordedCode(FRESH, s) <==> IsFinal(Intended(s).status)
  {
    HandledIs(s);
    ClientReceivesIntended(s, rendered);
  }

  /** What a handler buffered before its last reset, its error or its panic never shows. */
  lemma EarlierWritesAreInvisible(s: Script, before: seq<Op>, rendered: string)
    requires Reset in s.ops || !s.ending.Return?
    ensures Received(s.(ops := before + s.ops), rendered) == Received(s, rendered)
  {
    var t := s.(ops := before + s.ops);
    if s.ending.Panic? {
      ClientReceivesRecovery(s, rendered);
      ClientReceivesRecovery(t, rendered);
    } else {
      if s.ending.Return? {
        SinceResetIgnores(before, s.ops);
      }
      ClientReceivesIntended(s, rendered);
      ClientReceivesIntended(t, rendered);
    }
  }

  lemma SinceResetStep(ops: seq<Op>)
    requires ops != [] && ops[|ops| - 1] != Reset
    ensures SinceReset(ops) == SinceReset(ops[..|ops| - 1]) + [ops[|ops| - 1]]
  {
  }

  lemma {:induction false} SinceResetIgnores(before: seq<Op>, ops: seq<Op>)
    requires Reset in ops
    ensures SinceReset(before + ops) == SinceReset(ops)
  {
    var front, last := ops[..|ops| - 1], ops[|ops| - 1];
    var all := before + ops;
    assert all[..|all| - 1] == before + front && all[|all| - 1] == last;
    if last != Reset {
      hide SinceReset;
      assert ops == front + [last];
      SinceResetIgnores(before, front);
      SinceResetStep(all);
      SinceResetStep(ops);
    }
  }
}
