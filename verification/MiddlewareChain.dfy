/**
 * internal/api/middleware/middleware.go, and the order in which initMiddleware (internal/api/serve.go)
 * chains its layers. Here a handler is a function of what it can see and change: the writer it is given,
 * which is a buffering one exactly under Logging, and the counters.
 */
module MiddlewareChain {
  import opened ResponsePipeline
  import opened ResponseWriters
  import opened Text

  /** The first middleware outermost. */
  function Nest<H>(middlewares: seq<H -> H>, handler: H): H {
    if middlewares == [] then handler else middlewares[0](Nest(middlewares[1..], handler))
  }

  method Chain<H>(handler: H, middlewares: seq<H -> H>) returns (h: H)
    ensures h == Nest(middlewares, handler)
  {
    h := handler;
    var i := |middlewares|;
    while i > 0
      invariant 0 <= i <= |middlewares|
      invariant h == Nest(middlewares[i..], handler)
    {
      i := i - 1;
      assert middlewares[i..][1..] == middlewares[i + 1..];
      h := middlewares[i](h);
    }
  }

  /*** The layers ***/

  datatype World = World(raw: Raw, buf: Option<Buffered>, inFlight: int, requestsTotal: multiset<int>)

  type Handler = World -> (World, Outcome)

  /** The handler's operations on net/http's own writer, where there is nothing to reset. */
  function DirectlyDone(raw: Raw, ops: seq<Op>): (Raw, Outcome)
    decreases |ops|
  {
    if ops == [] then (raw, Normal)
    else
      match ops[0]
      case Status(code) =>
        if HeaderPanics(raw, code) then (raw, Panicked(false)) else DirectlyDone(HeaderSent(raw, code), ops[1..])
      case Body(data) => DirectlyDone(BodySent(raw, data), ops[1..])
      case Reset => DirectlyDone(raw, ops[1..])
  }

  function DirectlyHandled(raw: Raw, s: Script): (Raw, Outcome) {
    var (after, o) := DirectlyDone(raw, s.ops);
    if o.Panicked? || s.ending.Return? then (after, o)
    else
      match s.ending
      case Fail(e) => DirectlyDone(after, [Status(StatusOf(e)), Body(e.rendered)])
      case _ => (after, HandlerOutcome(s))
  }

  /** CustomHandler around a script. */
  function App(s: Script): Handler {
    (w: World) =>
      match w.buf
      case Some(b) =>
        var t := Handled(Writers(w.raw, b), s);
        (w.(raw := t.raw, buf := Some(t.buf)), HandlerOutcome(s))
      case None =>
        var (raw, o) := DirectlyHandled(w.raw, s);
        (w.(raw := raw), o)
  }

  /** Metrics reads the status from a buffering writer; on any other it records 200. */
  function Counted(v: World, o: Outcome): World {
    var code := if v.buf.Some? then v.buf.value.status else 200;
    v.(inFlight := v.inFlight - 1,
       requestsTotal := v.requestsTotal + if o == Normal then multiset{code} else multiset{})
  }

  function MetricsLayer(next: Handler): Handler {
    (w: World) =>
      var (v, o) := next(w.(inFlight := w.inFlight + 1));
      (Counted(v, o), o)
  }

  /** Logging hands a new buffer down and flushes it; its own writer is unbuffered. */
  function LoggingLayer(next: Handler): Handler {
    (w: World) =>
      var (v, o) := next(w.(buf := Some(EMPTY)));
      var left := v.(buf := w.buf);
      if o.Panicked? || v.buf.None? then (left, o)
      else
        var writers := Writers(v.raw, v.buf.value);
        if FlushPanics(writers) then (left, Panicked(false)) else (left.(raw := Flushed(writers).raw), Normal)
  }

  function RecoverLayer(rendered: string): Handler -> Handler {
    (next: Handler) => (w: World) =>
      var (v, o) := next(w);
      if o == Panicked(false) then (v.(raw := Recovered(v.raw, o, rendered)), Normal) else (v, o)
  }

  /** ResponseHeader and BodySizeLimit pass the writer on as it is. */
  function SameWriter(next: Handler): Handler {
    next
  }

  /** initMiddleware */
  function Layers(rendered: string): seq<Handler -> Handler> {
    [RecoverLayer(rendered), SameWriter, SameWriter, LoggingLayer, MetricsLayer]
  }

  function Fresh(inFlight: int, requestsTotal: multiset<int>): World {
    World(FRESH, None, inFlight, requestsTotal)
  }

  lemma NestCons<H>(first: H -> H, rest: seq<H -> H>, handler: H)
    ensures Nest([first] + rest, handler) == first(Nest(rest, handler))
  {
    assert ([first] + rest)[1..] == rest;
  }

  lemma NestOfFive<H>(a: H -> H, b: H -> H, c: H -> H, d: H -> H, e: H -> H, handler: H)
    ensures Nest([a, b, c, d, e], handler) == a(b(c(d(e(handler)))))
  {
    NestCons(e, [], handler);
    NestCons(d, [e], handler);
    NestCons(c, [d, e], handler);
    NestCons(b, [c, d, e], handler);
    NestCons(a, [b, c, d, e], handler);
    assert [e] + [] == [e] && [d] + [e] == [d, e] && [c] + [d, e] == [c, d, e];
    assert [b] + [c, d, e] == [b, c, d, e] && [a] + [b, c, d, e] == [a, b, c, d, e];
  }

  /** Metrics around a handler that leaves `left` counts what it finds in the buffer. */
  lemma Metered(next: Handler, w: World, left: World, o: Outcome)
    requires next(w.(inFlight := w.inFlight + 1)) == (left, o)
    ensures MetricsLayer(next)(w) == (Counted(left, o), o)
  {
    hide Counted;
  }

  lemma MeteredApp(s: Script, raw: Raw, inFlight: int, total: multiset<int>)
    ensures var t := Handled(Writers(raw, EMPTY), s);
      MetricsLayer(App(s))(World(raw, Some(EMPTY), inFlight, total)) ==
        (World(t.raw, Some(t.buf), inFlight,
               total + if s.ending.Panic? then multiset{} else multiset{t.buf.status}), HandlerOutcome(s))
  {
    var t := Handled(Writers(raw, EMPTY), s);
    hide Handled, MetricsLayer;
    Metered(App(s), World(raw, Some(EMPTY), inFlight, total), World(t.raw, Some(t.buf), inFlight + 1, total), HandlerOutcome(s));
  }

  lemma LoggedApp(s: Script, inFlight: int, total: multiset<int>)
    ensures LoggingLayer(MetricsLayer(App(s)))(Fresh(inFlight, total)) ==
      (World(LoggedRaw(FRESH, s), None, inFlight,
             total + if s.ending.Panic? then multiset{} else multiset{RecordedCode(FRESH, s)}), LoggedOutcome(FRESH, s))
  {
    MeteredApp(s, FRESH, inFlight, total);
    hide MetricsLayer, App, Handled;
  }

  /** The chain in this order is the pipeline: same response, same code counted, gauge back where it was. */
  lemma ChainIsThePipeline(s: Script, rendered: string, inFlight: int, total: multiset<int>)
    ensures var (v, o) := Nest(Layers(rendered), App(s))(Fresh(inFlight, total));
      && v.raw == Recovered(LoggedRaw(FRESH, s), LoggedOutcome(FRESH, s), rendered)
      && o == (if LoggedOutcome(FRESH, s) == Panicked(true) then Panicked(true) else Normal)
      && v.inFlight == inFlight
      && v.requestsTotal == total + if s.ending.Panic? then multiset{} else multiset{RecordedCode(FRESH, s)}
  {
    NestOfFive(RecoverLayer(rendered), SameWriter, SameWriter, LoggingLayer, MetricsLayer, App(s));
    LoggedApp(s, inFlight, total);
    hide LoggingLayer, MetricsLayer, App, Handled, LoggedRaw, LoggedOutcome, Nest, RecordedCode;
  }

  /** Logging directly around the handler leaves nothing buffered for an outer layer to see. */
  lemma UnmeteredApp(s: Script, inFlight: int, total: multiset<int>)
    ensures LoggingLayer(App(s))(Fresh(inFlight, total)) ==
      (World(LoggedRaw(FRESH, s), None, inFlight, total), LoggedOutcome(FRESH, s))
  {
    hide Handled;
  }

  lemma MeteredOutside(s: Script, inFlight: int, total: multiset<int>)
    requires LoggedOutcome(FRESH, s) == Normal
    ensures MetricsLayer(LoggingLayer(App(s)))(Fresh(inFlight, total)) ==
      (World(LoggedRaw(FRESH, s), None, inFlight, total + multiset{200}), Normal)
  {
    hide LoggingLayer, App, LoggedRaw, LoggedOutcome, MetricsLayer;
    UnmeteredApp(s, inFlight + 1, total);
    Metered(LoggingLayer(App(s)), Fresh(inFlight, total), World(LoggedRaw(FRESH, s), None, inFlight + 1, total), Normal);
  }

  lemma FinalIsNormal(s: Script)
    requires !s.ending.Panic? && IsFinal(RecordedCode(FRESH, s))
    ensures LoggedOutcome(FRESH, s) == Normal
  {
    HandledIs(s);
  }

  /**
   * And without Logging's buffer an error could not replace what was written: its rendering would follow the
   * data under the status that went out first.
   */
  lemma UnbufferedErrorsMix(data: string, status: int, error: string, world: World)
    requires 200 <= status <= 999
    ensures var (v, o) := App(Script([Body(data)], Fail(ApiError(status, error))))(world.(raw := FRESH, buf := None));
      v.raw == Raw([], Some(200), data + error) && o == Normal
    ensures var (v, o) := App(Script([Status(status), Body(data)], Return))(world.(raw := FRESH, buf := None));
      v.raw.status == Some(status) && o == Normal
  {
    assert [Body(data)][1..] == [] && [Status(status), Body(error)][1..] == [Body(error)] && [Body(error)][1..] == [];
    assert [Status(status), Body(data)][1..] == [Body(data)];
    var sent := BodySent(FRESH, data);
    assert "" + data == data;
    assert DirectlyDone(FRESH, [Body(data)]) == (sent, Normal);
    var started := HeaderSent(FRESH, status);
    assert DirectlyDone(HeaderSent(sent, status), [Body(error)]) == (BodySent(sent, error), Normal);
    assert DirectlyDone(started, [Body(data)]) == (BodySent(started, data), Normal);
    assert DirectlyDone(sent, [Status(status), Body(error)]) == (BodySent(sent, error), Normal);
    assert DirectlyDone(FRESH, [Status(status), Body(data)]) == (BodySent(started, data), Normal);
  }

  /** Nor would the handler get past a status that net/http refuses. */
  lemma UnbufferedPanics(status: int, ops: seq<Op>, ending: Ending, world: World)
    requires !(100 <= status <= 999)
    ensures App(Script([Status(status)] + ops, ending))(world.(raw := FRESH, buf := None)) ==
            (world.(raw := FRESH, buf := None), Panicked(false))
  {
    assert DirectlyDone(FRESH, [Status(status)] + ops) == (FRESH, Panicked(false));
  }

  /** With Metrics outside Logging every answered request would be counted as a 200. */
  lemma OtherOrderMiscounts(s: Script, rendered: string, inFlight: int, total: multiset<int>)
    requires !s.ending.Panic? && IsFinal(RecordedCode(FRESH, s))
    ensures var (v, o) := Nest([RecoverLayer(rendered), SameWriter, SameWriter, MetricsLayer, LoggingLayer], App(s))
                            (Fresh(inFlight, total));
      v.requestsTotal == total + multiset{200}
  {
    NestOfFive(RecoverLayer(rendered), SameWriter, SameWriter, MetricsLayer, LoggingLayer, App(s));
    FinalIsNormal(s);
    hide MetricsLayer, LoggingLayer, App, LoggedRaw, LoggedOutcome, Nest, RecordedCode, IsFinal;
    MeteredOutside(s, inFlight, total);
  }
}
