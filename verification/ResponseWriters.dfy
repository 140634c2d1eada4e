/**
 * The response writers below the handlers: net/http's own, and the buffering one of
 * internal/api/middleware/buffered_response.go. Headers other than the status are not modelled.
 */
module ResponseWriters {
  import opened Text

  /*** net/http ***/

  /** What went out on the connection: informational statuses, then at most one status, and a body. */
  datatype Raw = Raw(informational: seq<int>, status: Option<int>, body: string)

  const FRESH := Raw([], None, "")

  predicate IsInformational(code: int) {
    100 <= code <= 199 && code != 101
  }

  /** net/http panics on any other code. */
  predicate IsValid(code: int) {
    100 <= code <= 999
  }

  predicate IsFinal(code: int) {
    IsValid(code) && !IsInformational(code)
  }

  predicate BodyAllowed(code: int) {
    !(100 <= code <= 199) && code != 204 && code != 304
  }

  predicate HeaderPanics(raw: Raw, code: int) {
    raw.status.None? && !IsValid(code)
  }

  /** The first final status counts, later ones are superfluous. */
  function HeaderSent(raw: Raw, code: int): Raw
    requires !HeaderPanics(raw, code)
  {
    if raw.status.Some? then raw
    else if IsInformational(code) then raw.(informational := raw.informational + [code])
    else raw.(status := Some(code))
  }

  /** A write implies status 200; a status without body drops it. */
  function BodySent(raw: Raw, data: string): Raw {
    var sent := if raw.status.None? then raw.(status := Some(200)) else raw;
    if BodyAllowed(sent.status.value) then sent.(body := sent.body + data) else sent
  }

  class RawWriter {
    var out: Raw

    constructor ()
      ensures out == FRESH
    {
      out := FRESH;
    }

    method WriteHeader(code: int) returns (panicked: bool)
      modifies this
      ensures panicked == old(HeaderPanics(out, code))
      ensures out == if panicked then old(out) else old(HeaderSent(out, code))
    {
      if out.status.Some? {
        return false;
      }
      if code < 100 || code > 999 {
        return true;
      }
      if code <= 199 && code != 101 {
        out := out.(informational := out.informational + [code]);
      } else {
        out := out.(status := Some(code));
      }
      panicked := false;
    }

    method Write(data: string)
      modifies this
      ensures out == old(BodySent(out, data))
    {
      if out.status.None? {
        var _ := WriteHeader(200);
      }
      if BodyAllowed(out.status.value) {
        out := out.(body := out.body + data);
      }
    }
  }

  /*** The buffering writer ***/

  datatype Buffered = Buffered(status: int, body: string, written: bool)

  const EMPTY := Buffered(200, "", false)

  /** The two writers together: what is buffered, and what is out. */
  datatype Writers = Writers(raw: Raw, buf: Buffered)

  function SetStatus(w: Writers, code: int): Writers {
    if w.buf.written then w else w.(buf := w.buf.(status := code))
  }

  function Append(w: Writers, data: string): Writers {
    if w.buf.written then w.(raw := BodySent(w.raw, data)) else w.(buf := w.buf.(body := w.buf.body + data))
  }

  predicate FlushPanics(w: Writers) {
    !w.buf.written && HeaderPanics(w.raw, w.buf.status)
  }

  function Flushed(w: Writers): Writers
    requires !FlushPanics(w)
  {
    if w.buf.written then w
    else Writers(BodySent(HeaderSent(w.raw, w.buf.status), w.buf.body), w.buf.(written := true))
  }

  datatype WriterOp = HeaderOp(code: int) | DataOp(data: string) | FlushOp | ResetOp

  /** One method of the buffering writer; a flush that panics changes nothing. */
  function Perform(w: Writers, op: WriterOp): Writers {
    match op
    case HeaderOp(code) => SetStatus(w, code)
    case DataOp(data) => Append(w, data)
    case FlushOp => if FlushPanics(w) then w else Flushed(w)
    case ResetOp => w.(buf := EMPTY)
  }

  class BufferedResponseWriter {
    const raw: RawWriter
    var statusCode: int
    var buffer: string
    var written: bool

    function State(): Writers
      reads this, raw
    {
      Writers(raw.out, Buffered(statusCode, buffer, written))
    }

    constructor (raw: RawWriter)
      ensures this.raw == raw && State() == Writers(raw.out, EMPTY)
    {
      this.raw, this.statusCode, this.buffer, this.written := raw, 200, "", false;
    }

    method WriteHeader(code: int)
      modifies this
      ensures State() == SetStatus(old(State()), code) == Perform(old(State()), HeaderOp(code))
    {
      if !written {
        statusCode := code;
      }
    }

    method Write(data: string)
      modifies this, raw
      ensures State() == Append(old(State()), data) == Perform(old(State()), DataOp(data))
    {
      if !written {
        buffer := buffer + data;
      } else {
        raw.Write(data);
      }
    }

    method Flush() returns (panicked: bool)
      modifies this, raw
      ensures panicked == old(FlushPanics(State()))
      ensures State() == (if panicked then old(State()) else Flushed(old(State()))) == Perform(old(State()), FlushOp)
    {
      panicked := false;
      if !written {
        panicked := raw.WriteHeader(statusCode);
        if panicked {
          return;
        }
        raw.Write(buffer);
        written := true;
      }
    }

    method Reset()
      modifies this
      ensures State() == Writers(old(raw.out), EMPTY) == Perform(old(State()), ResetOp)
    {
      statusCode, buffer, written := 200, "", false;
    }
  }

  /** Flushing twice is flushing once. */
  lemma FlushIsIdempotent(w: Writers)
    requires !FlushPanics(w)
    ensures !FlushPanics(Flushed(w)) && Flushed(Flushed(w)) == Flushed(w)
  {
  }

  /*** Sequences of operations ***/

  function PerformAll(w: Writers, ops: seq<WriterOp>): Writers {
    if ops == [] then w else Perform(PerformAll(w, ops[..|ops| - 1]), ops[|ops| - 1])
  }

  /** `now` has all that `before` had sent: the status once there is one, the body and informational statuses as prefixes. */
  predicate Extends(before: Raw, now: Raw) {
    && before.informational <= now.informational && before.body <= now.body
    && (before.status.Some? ==> now.status == before.status && now.informational == before.informational)
  }

  lemma PerformExtends(w: Writers, op: WriterOp)
    ensures Extends(w.raw, Perform(w, op).raw)
  {
  }

  lemma ExtendsTransitive(a: Raw, b: Raw, c: Raw)
    requires Extends(a, b) && Extends(b, c)
    ensures Extends(a, c)
  {
  }

  /**
   * In any sequence of statuses, writes, flushes and resets, whatever is out stays out: at most one status
   * ever goes out, and not even a reset after a flush takes back what the client has.
   */
  lemma {:induction false} SentIsSent(w: Writers, before: seq<WriterOp>, after: seq<WriterOp>)
    ensures Extends(PerformAll(w, before).raw, PerformAll(w, before + after).raw)
    decreases |after|
  {
    if after == [] {
      assert before + after == before;
    } else {
      var front, last := after[..|after| - 1], after[|after| - 1];
      SentIsSent(w, before, front);
      assert (before + after)[..|before + after| - 1] == before + front;
      PerformExtends(PerformAll(w, before + front), last);
      hide Extends, Perform;
      ExtendsTransitive(PerformAll(w, before).raw, PerformAll(w, before + front).raw, PerformAll(w, before + after).raw);
    }
  }

  /** Everything written, in order. */
  function DataOf(ops: seq<WriterOp>): string {
    if ops == [] then ""
    else DataOf(ops[..|ops| - 1]) + if ops[|ops| - 1].DataOp? then ops[|ops| - 1].data else ""
  }

  /** After a flush writes go straight to the client, and neither a status nor another flush does anything. */
  lemma {:induction false} AfterFlush(w: Writers, ops: seq<WriterOp>)
    requires w.buf.written && w.raw.status.Some? && ResetOp !in ops
    ensures PerformAll(w, ops) ==
            w.(raw := w.raw.(body := w.raw.body + if BodyAllowed(w.raw.status.value) then DataOf(ops) else ""))
  {
    if ops != [] {
      AfterFlush(w, ops[..|ops| - 1]);
      assert ops[|ops| - 1] in ops;
    }
  }
}
