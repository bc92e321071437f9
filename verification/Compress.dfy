/**
 * The compressing response writer: it holds back the header until it knows whether the body is worth
 * compressing, and must still deliver the status and the body the handler wrote.
 *
 * A gzip stream is modelled by its chunks: packed bytes, sync marks and one end mark. The response
 * underneath follows net/http: the first final status is committed, an informational one (1xx other than
 * 101) is sent and commits nothing, and a body or a flush without a header commits 200.
 */
module Compress {

  import opened Basics
  import opened Sequences

  const GZIP_MIN_BYTES := 1024
  const OK := 200
  const PARTIAL_CONTENT := 206
  const SWITCHING_PROTOCOLS := 101

  datatype Headers = Headers(encoding: string, contentType: string, length: string, ranges: string)

  datatype Chunk = Plain(b: seq<byte>) | Packed(b: seq<byte>) | Sync | End

  /** The response underneath: committed statuses, the headers sent with the first, and the body on the wire. */
  datatype Res = Res(heads: seq<int>, sent: Headers, wire: seq<Chunk>)

  datatype Mode = Undecided | Passthrough | Gzip

  datatype State = State(res: Res, headers: Headers, buf: seq<byte>, mode: Mode, status: int, wroteHead: bool)

  predicate Informational(code: int) {
    100 <= code < 200 && code != SWITCHING_PROTOCOLS
  }

  // ---- The response underneath ----

  function SendHead(r: Res, h: Headers, code: int): Res {
    if Informational(code) then r
    else r.(heads := r.heads + [code], sent := if r.heads == [] then h else r.sent)
  }

  function Committed(r: Res, h: Headers): Res {
    if r.heads == [] then SendHead(r, h, OK) else r
  }

  function Send(r: Res, h: Headers, c: Chunk): Res {
    var t := Committed(r, h);
    t.(wire := t.wire + [c])
  }

  // ---- The writer's operations on values ----

  predicate MustPassThrough(code: int, h: Headers) {
    || code == PARTIAL_CONTENT
    || code == SWITCHING_PROTOCOLS
    || h.encoding != ""
    || "text/event-stream" <= h.contentType
    || "application/octet-stream" <= h.contentType
  }

  function HeadWritten(s: State, code: int): State {
    if s.wroteHead then s
    else
      var t := s.(status := code, wroteHead := true);
      if MustPassThrough(code, s.headers) then t.(mode := Passthrough, res := SendHead(s.res, s.headers, code)) else t
  }

  function GzipStarted(s: State): State {
    var h := s.headers.(encoding := "gzip", length := "", ranges := "");
    s.(mode := Gzip, headers := h, res := SendHead(s.res, h, s.status))
  }

  function Written(s: State, p: seq<byte>): State {
    var t := if s.wroteHead then s else HeadWritten(s, OK);
    match t.mode
    case Passthrough => t.(res := Send(t.res, t.headers, Plain(p)))
    case Gzip => t.(res := Send(t.res, t.headers, Packed(p)))
    case Undecided =>
      if |t.buf| + |p| < GZIP_MIN_BYTES then t.(buf := t.buf + p)
      else
        var g := GzipStarted(t);
        var held := if t.buf != [] then g.(res := Send(g.res, g.headers, Packed(t.buf)), buf := []) else g;
        held.(res := Send(held.res, held.headers, Packed(p)))
  }

  /** What was held back goes out plain. */
  function Settled(s: State): State {
    var t := s.(mode := Passthrough, res := SendHead(s.res, s.headers, s.status));
    if s.buf != [] then t.(res := Send(t.res, t.headers, Plain(s.buf)), buf := []) else t
  }

  function Flushed(s: State): State {
    var t := if s.mode.Undecided? && s.wroteHead then Settled(s) else s;
    var u := if t.mode.Gzip? then t.(res := Send(t.res, t.headers, Sync)) else t;
    u.(res := Committed(u.res, u.headers))
  }

  function Finished(s: State): State {
    if !s.wroteHead then s
    else match s.mode
      case Gzip => s.(res := Send(s.res, s.headers, End))
      case Passthrough => s
      case Undecided => Settled(s)
  }

  // ---- The writer ----

  /** http.ResponseWriter. */
  class Response {
    var header: Headers
    var res: Res

    constructor (h: Headers)
      ensures header == h && res == Res([], h, [])
    {
      header, res := h, Res([], h, []);
    }

    method WriteHeader(code: int)
      modifies this`res
      ensures res == SendHead(old(res), header, code)
    {
      if !Informational(code) {
        var sent := if res.heads == [] then header else res.sent;
        res := Res(res.heads + [code], sent, res.wire);
      }
    }

    method Write(c: Chunk)
      modifies this`res
      ensures res == Send(old(res), header, c)
    {
      if res.heads == [] {
        WriteHeader(OK);
      }
      res := res.(wire := res.wire + [c]);
    }

    method Flush()
      modifies this`res
      ensures res == Committed(old(res), header)
    {
      if res.heads == [] {
        WriteHeader(OK);
      }
    }
  }

  class GzipWriter {
    const rw: Response
    var buf: seq<byte>
    var mode: Mode
    var status: int
    var wroteHead: bool

    function View(): (s: State)
      reads this, rw
    {
      State(rw.res, rw.header, buf, mode, status, wroteHead)
    }

    constructor (rw: Response)
      ensures this.rw == rw && View() == State(rw.res, rw.header, [], Undecided, 0, false)
    {
      this.rw := rw;
      buf, mode, status, wroteHead := [], Undecided, 0, false;
    }

    method WriteHeader(code: int)
      modifies this, rw
      ensures View() == HeadWritten(old(View()), code)
    {
      if wroteHead {
        return;
      }
      status := code;
      wroteHead := true;
      if MustPassThrough(status, rw.header) {
        mode := Passthrough;
        rw.WriteHeader(code);
      }
    }

    method Write(p: seq<byte>) returns (n: nat)
      modifies this, rw
      ensures View() == Written(old(View()), p) && n == |p|
    {
      n := |p|;
      if !wroteHead {
        WriteHeader(OK);
      }
      match mode
      case Passthrough => rw.Write(Plain(p));
      case Gzip => rw.Write(Packed(p));
      case Undecided =>
        if |buf| + |p| < GZIP_MIN_BYTES {
          buf := buf + p;
          return;
        }
        StartGzip();
        if |buf| > 0 {
          rw.Write(Packed(buf));
          buf := [];
        }
        rw.Write(Packed(p));
    }

    method StartGzip()
      modifies this`mode, rw
      ensures View() == GzipStarted(old(View()))
    {
      mode := Gzip;
      rw.header := rw.header.(encoding := "gzip");
      rw.header := rw.header.(length := "");
      rw.header := rw.header.(ranges := "");
      rw.WriteHeader(status);
    }

    method Finish()
      modifies this, rw
      ensures View() == Finished(old(View()))
    {
      if !wroteHead {
        return;
      }
      match mode
      case Gzip => rw.Write(End);
      case Passthrough =>
      case Undecided =>
        mode := Passthrough;
        rw.WriteHeader(status);
        if |buf| > 0 {
          rw.Write(Plain(buf));
          buf := [];
        }
    }

    method Flush()
      modifies this, rw
      ensures View() == Flushed(old(View()))
    {
      if mode == Undecided && wroteHead {
        mode := Passthrough;
        rw.WriteHeader(status);
        if |buf| > 0 {
          rw.Write(Plain(buf));
          buf := [];
        }
      }
      if mode == Gzip {
        rw.Write(Sync);
      }
      rw.Flush();
    }
  }

  // ---- Runs of a handler ----

  datatype Op = Head(code: int) | Body(p: seq<byte>) | Flush

  function Apply(s: State, op: Op): State {
    match op
    case Head(code) => HeadWritten(s, code)
    case Body(p) => Written(s, p)
    case Flush => Flushed(s)
  }

  function Run(s: State, ops: seq<Op>): State
    decreases |ops|
  {
    if ops == [] then s else Run(Apply(s, ops[0]), ops[1..])
  }

  /** A whole request: the handler's calls, the deferred finish, and the server's own 200 if nothing was committed. */
  function Served(h: Headers, ops: seq<Op>): State {
    var s := Finished(Run(Opened(h, []), ops));
    s.(res := Committed(s.res, s.headers))
  }

  function DirectStep(r: Res, h: Headers, op: Op): Res {
    match op
    case Head(code) => if r.heads == [] then SendHead(r, h, code) else r
    case Body(p) => Send(r, h, Plain(p))
    case Flush => Committed(r, h)
  }

  /** The handler writing straight to the response: later final statuses are ignored. */
  function Direct(r: Res, h: Headers, ops: seq<Op>): Res
    decreases |ops|
  {
    if ops == [] then Committed(r, h) else Direct(DirectStep(r, h, ops[0]), h, ops[1..])
  }

  function Bytes(wire: seq<Chunk>): seq<byte>
    decreases |wire|
  {
    if wire == [] then []
    else (if wire[0].Plain? || wire[0].Packed? then wire[0].b else []) + Bytes(wire[1..])
  }

  predicate AllPlain(wire: seq<Chunk>) {
    forall i | 0 <= i < |wire| :: wire[i].Plain?
  }

  predicate Packing(wire: seq<Chunk>) {
    forall i | 0 <= i < |wire| :: wire[i].Packed? || wire[i].Sync?
  }

  /** A whole gzip stream: packed data, then one end mark. */
  predicate IsGzip(wire: seq<Chunk>) {
    wire != [] && wire[|wire| - 1] == End && Packing(wire[..|wire| - 1])
  }

  lemma BytesOne(c: Chunk)
    ensures Bytes([c]) == if c.Plain? || c.Packed? then c.b else []
  {
    assert [c][1..] == [] && Bytes([]) == [];
  }

  lemma {:induction false} BytesAppend(wire: seq<Chunk>, c: Chunk)
    ensures Bytes(wire + [c]) == Bytes(wire) + Bytes([c])
  {
    if wire == [] {
      assert wire + [c] == [c] && [] + Bytes([c]) == Bytes([c]);
    } else {
      BytesAppend(wire[1..], c);
      assert (wire + [c])[0] == wire[0] && (wire + [c])[1..] == wire[1..] + [c];
      var first := if wire[0].Plain? || wire[0].Packed? then wire[0].b else [];
      Assoc(first, Bytes(wire[1..]), Bytes([c]));
    }
  }

  function Payload(op: Op): seq<byte> {
    if op.Body? then op.p else []
  }

  function AllBodies(ops: seq<Op>): seq<byte>
    decreases |ops|
  {
    if ops == [] then [] else Payload(ops[0]) + AllBodies(ops[1..])
  }

  /** What is written before the first flush. */
  function UntilFlush(ops: seq<Op>): seq<byte>
    decreases |ops|
  {
    if ops == [] || ops[0].Flush? then []
    else Payload(ops[0]) + UntilFlush(ops[1..])
  }

  /** The status a wrapper that is told this first ends up delivering. */
  function FinalStatus(code: int): int {
    if Informational(code) then OK else code
  }

  /** What was committed before the handler's first status or write: nothing, or the 200 of a flush. */
  predicate Early(pre: seq<int>) {
    pre == [] || pre == [OK]
  }

  /** The headers a packed body goes out under. */
  function PackedUnder(h: Headers, pre: seq<int>): Headers {
    if pre == [] then GzipHeaders(h) else h
  }

  /** The status is fixed and so is everything sent so far: nothing, plain bytes, or packed bytes. */
  ghost predicate Inv(s: State, h: Headers, code: int, body: seq<byte>, pre: seq<int>) {
    && Early(pre) && s.wroteHead && s.status == code
    && (s.res.heads == pre || s.res.heads == pre + [FinalStatus(code)])
    && (!Informational(code) && !s.mode.Undecided? ==> s.res.heads == pre + [code])
    && (s.res.wire != [] ==> s.res.heads != [])
    && match s.mode
       case Undecided => HeldBack(s, h, code, body, pre)
       case Passthrough => SentPlain(s, h, body)
       case Gzip => SentPacked(s, h, code, body, pre)
  }

  ghost predicate HeldBack(s: State, h: Headers, code: int, body: seq<byte>, pre: seq<int>) {
    && s.res == Res(pre, h, []) && s.headers == h && s.buf == body
    && |body| < GZIP_MIN_BYTES && !MustPassThrough(code, h)
  }

  ghost predicate SentPlain(s: State, h: Headers, body: seq<byte>) {
    s.buf == [] && s.headers == h && s.res.sent == h && AllPlain(s.res.wire) && Bytes(s.res.wire) == body
  }

  ghost predicate SentPacked(s: State, h: Headers, code: int, body: seq<byte>, pre: seq<int>) {
    && s.buf == [] && s.headers == GzipHeaders(h) && !MustPassThrough(code, h)
    && (s.res.heads != [] ==> s.res.sent == PackedUnder(h, pre))
    && s.res.wire != [] && Packing(s.res.wire) && Bytes(s.res.wire) == body
  }

  function GzipHeaders(h: Headers): Headers {
    h.(encoding := "gzip", length := "", ranges := "")
  }

  lemma WrittenKeepsInv(s: State, h: Headers, code: int, body: seq<byte>, pre: seq<int>, p: seq<byte>)
    requires Inv(s, h, code, body, pre)
    ensures Inv(Written(s, p), h, code, body + p, pre)
    ensures Written(s, p).mode == if s.mode.Undecided? && |body + p| >= GZIP_MIN_BYTES then Gzip else s.mode
  {
    if s.mode.Undecided? {
      if |body + p| >= GZIP_MIN_BYTES {
        StartsPacked(s, h, code, body, pre, p);
      }
    } else {
      BytesAppend(s.res.wire, Plain(p));
      BytesAppend(s.res.wire, Packed(p));
      BytesOne(Packed(p));
      BytesOne(Plain(p));
    }
  }

  lemma StartsPacked(s: State, h: Headers, code: int, body: seq<byte>, pre: seq<int>, p: seq<byte>)
    requires Inv(s, h, code, body, pre) && s.mode.Undecided? && |body + p| >= GZIP_MIN_BYTES
    ensures Inv(Written(s, p), h, code, body + p, pre) && Written(s, p).mode.Gzip?
  {
    BytesOne(Packed(p));
    BytesOne(Packed(body));
    BytesAppend([Packed(body)], Packed(p));
    if body == [] {
      assert body + p == p;
    }
    assert [] + [Packed(p)] == [Packed(p)] && [] + [Packed(body)] == [Packed(body)];
  }

  lemma SettledKeepsInv(s: State, h: Headers, code: int, body: seq<byte>, pre: seq<int>)
    requires Inv(s, h, code, body, pre) && s.mode.Undecided?
    ensures Inv(Settled(s), h, code, body, pre) && Settled(s).mode.Passthrough?
  {
    BytesOne(Plain(s.buf));
    assert [] + [Plain(s.buf)] == [Plain(s.buf)];
  }

  lemma FlushedKeepsInv(s: State, h: Headers, code: int, body: seq<byte>, pre: seq<int>)
    requires Inv(s, h, code, body, pre)
    ensures Inv(Flushed(s), h, code, body, pre)
    ensures Flushed(s).mode == if s.mode.Undecided? then Passthrough else s.mode
  {
    if s.mode.Undecided? {
      SettledKeepsInv(s, h, code, body, pre);
    }
    BytesAppend(s.res.wire, Sync);
    assert Bytes([Sync]) == [];
  }

  /** The mode after one more call. */
  function NextMode(mode: Mode, body: seq<byte>, op: Op): Mode {
    if !mode.Undecided? then mode
    else if op.Flush? then Passthrough
    else if |body + Payload(op)| >= GZIP_MIN_BYTES then Gzip else Undecided
  }

  lemma StepKeepsInv(s: State, h: Headers, code: int, body: seq<byte>, pre: seq<int>, op: Op)
    requires Inv(s, h, code, body, pre)
    ensures Inv(Apply(s, op), h, code, body + Payload(op), pre)
    ensures Apply(s, op).mode == NextMode(s.mode, body, op)
  {
    match op
    case Head(_) => assert body + [] == body;
    case Body(p) => WrittenKeepsInv(s, h, code, body, pre, p);
    case Flush =>
      FlushedKeepsInv(s, h, code, body, pre);
      assert body + [] == body;
  }

  /** The invariant over the rest of a run; gzip is chosen exactly if enough is written before the first flush. */
  lemma {:induction false} RunKeepsInv(s: State, h: Headers, code: int, body: seq<byte>, pre: seq<int>, ops: seq<Op>)
    requires Inv(s, h, code, body, pre)
    ensures Inv(Run(s, ops), h, code, body + AllBodies(ops), pre)
    ensures Run(s, ops).mode.Gzip? <==>
      s.mode.Gzip? || (s.mode.Undecided? && |body| + |UntilFlush(ops)| >= GZIP_MIN_BYTES)
    decreases |ops|
  {
    if ops == [] {
      assert body + [] == body;
    } else {
      StepKeepsInv(s, h, code, body, pre, ops[0]);
      RunKeepsInv(Apply(s, ops[0]), h, code, body + Payload(ops[0]), pre, ops[1..]);
      Assoc(body, Payload(ops[0]), AllBodies(ops[1..]));
    }
  }

  /** The first status: the first call's, or 200 when it is a write. */
  function FirstStatus(ops: seq<Op>): int
    requires ops != []
  {
    if ops[0].Head? then ops[0].code else OK
  }

  /** A response about to see the handler's first status or write. */
  function Opened(h: Headers, pre: seq<int>): State {
    State(Res(pre, h, []), h, [], Undecided, 0, false)
  }

  lemma FirstCall(h: Headers, pre: seq<int>, ops: seq<Op>)
    requires ops != [] && !ops[0].Flush? && Early(pre)
    ensures Inv(HeadWritten(Opened(h, pre), FirstStatus(ops)), h, FirstStatus(ops), [], pre)
    ensures Run(Opened(h, pre), ops) == Run(HeadWritten(Opened(h, pre), FirstStatus(ops)), ops)
    ensures HeadWritten(Opened(h, pre), FirstStatus(ops)).mode ==
      if MustPassThrough(FirstStatus(ops), h) then Passthrough else Undecided
  {
    if ops[0].Head? {
      var s := HeadWritten(Opened(h, pre), ops[0].code);
      assert HeadWritten(s, ops[0].code) == s;
    }
  }

  /** The status the client sees. */
  function Status(pre: seq<int>, code: int): int {
    if pre == [] then FinalStatus(code) else OK
  }

  lemma FinishedIs(s: State, h: Headers, code: int, body: seq<byte>, pre: seq<int>)
    requires Inv(s, h, code, body, pre)
    ensures var f := Finished(s); var r := Committed(f.res, f.headers);
      && r.heads != [] && r.heads[0] == Status(pre, code) && (pre == [] ==> |r.heads| == 1)
      && Bytes(r.wire) == body
      && (if s.mode.Gzip? then IsGzip(r.wire) && r.sent == PackedUnder(h, pre) && h.encoding == ""
          else AllPlain(r.wire) && r.sent == h)
  {
    if s.mode.Undecided? {
      SettledKeepsInv(s, h, code, body, pre);
    }
    BytesAppend(s.res.wire, End);
    assert Bytes([End]) == [];
    assert (s.res.wire + [End])[..|s.res.wire|] == s.res.wire;
  }

  /** The body is worth compressing and nothing forbids it. */
  predicate Packs(h: Headers, ops: seq<Op>) {
    ops != [] && !MustPassThrough(FirstStatus(ops), h) && |UntilFlush(ops)| >= GZIP_MIN_BYTES
  }

  /** The invariant over a whole run. */
  lemma RunFromStart(h: Headers, pre: seq<int>, ops: seq<Op>)
    requires ops != [] && !ops[0].Flush? && Early(pre)
    ensures Inv(Run(Opened(h, pre), ops), h, FirstStatus(ops), AllBodies(ops), pre)
    ensures Run(Opened(h, pre), ops).mode.Gzip? <==> Packs(h, ops)
  {
    FirstCall(h, pre, ops);
    var s, body := HeadWritten(Opened(h, pre), FirstStatus(ops)), AllBodies(ops);
    RunKeepsInv(s, h, FirstStatus(ops), [], pre, ops);
    assert [] + body == body;
  }

  // ---- Leading flushes ----

  /** What is left after the flushes that come before any status or write. */
  function AfterFlushes(ops: seq<Op>): (rest: seq<Op>)
    ensures |rest| <= |ops| && (rest != [] ==> !rest[0].Flush?)
    decreases |ops|
  {
    if ops != [] && ops[0].Flush? then AfterFlushes(ops[1..]) else ops
  }

  /** The 200 that leading flushes commit. */
  function Flushes(ops: seq<Op>): (pre: seq<int>)
    ensures Early(pre)
  {
    if ops != [] && ops[0].Flush? then [OK] else []
  }

  lemma {:induction false} LeadingFlushes(h: Headers, pre: seq<int>, ops: seq<Op>)
    requires Early(pre)
    ensures Run(Opened(h, pre), ops) == Run(Opened(h, if Flushes(ops) != [] then [OK] else pre), AfterFlushes(ops))
    ensures AllBodies(ops) == AllBodies(AfterFlushes(ops))
    decreases |ops|
  {
    if ops != [] && ops[0].Flush? {
      assert Flushed(Opened(h, pre)) == Opened(h, [OK]);
      LeadingFlushes(h, [OK], ops[1..]);
      assert [] + AllBodies(ops[1..]) == AllBodies(ops[1..]);
    }
  }

  /**
   * Every handler, whatever it calls: the decoded body is what was written. One header is committed, or one
   * and a superfluous one after a leading flush. The body is packed exactly if nothing forbids it and enough
   * was written before the first flush after the first status or write; otherwise it is plain under the
   * handler's own headers.
   */
  lemma ResponseIsDelivered(h: Headers, ops: seq<Op>)
    ensures var r := Served(h, ops).res; var rest := AfterFlushes(ops);
      && Bytes(r.wire) == AllBodies(ops)
      && r.heads != [] && r.heads[0] == (if rest == [] then OK else Status(Flushes(ops), FirstStatus(rest)))
      && (Flushes(ops) == [] ==> |r.heads| == 1)
      && (if Packs(h, rest) then IsGzip(r.wire) && r.sent == PackedUnder(h, Flushes(ops)) && h.encoding == ""
          else AllPlain(r.wire) && r.sent == h)
  {
    var rest := AfterFlushes(ops);
    LeadingFlushes(h, [], ops);
    if rest != [] {
      RunFromStart(h, Flushes(ops), rest);
      FinishedIs(Run(Opened(h, Flushes(ops)), rest), h, FirstStatus(rest), AllBodies(rest), Flushes(ops));
    }
  }

  /** A packed body under a header that does not say so. */
  predicate Misdeclared(r: Res) {
    IsGzip(r.wire) && r.sent.encoding != "gzip"
  }

  /** It happens exactly when a flush comes first and the rest is packed. */
  lemma MisdeclaredIff(h: Headers, ops: seq<Op>)
    ensures Misdeclared(Served(h, ops).res) <==> Flushes(ops) != [] && Packs(h, AfterFlushes(ops))
  {
    ResponseIsDelivered(h, ops);
    var r := Served(h, ops).res;
    if AllPlain(r.wire) && r.wire != [] {
      assert r.wire[|r.wire| - 1].Plain?;
    }
  }

  /** The status of the direct response: the first final one, unless a write or a flush comes before it. */
  function DirectStatus(ops: seq<Op>): int
    decreases |ops|
  {
    if ops == [] || !ops[0].Head? then OK
    else if Informational(ops[0].code) then DirectStatus(ops[1..])
    else ops[0].code
  }

  lemma DirectStepIs(r: Res, h: Headers, op: Op)
    requires (r.heads != [] || r.wire == []) && AllPlain(r.wire) && |r.heads| <= 1
    ensures var t := DirectStep(r, h, op);
      && (t.heads != [] || t.wire == []) && AllPlain(t.wire)
      && t.heads == (if r.heads != [] then r.heads
                     else if op.Head? && Informational(op.code) then []
                     else [if op.Head? then op.code else OK])
      && Bytes(t.wire) == Bytes(r.wire) + Payload(op)
  {
    if op.Body? {
      BytesAppend(r.wire, Plain(op.p));
      assert Bytes([Plain(op.p)]) == op.p;
    } else {
      assert Bytes(r.wire) + [] == Bytes(r.wire);
    }
  }

  lemma {:induction false} DirectIs(r: Res, h: Headers, ops: seq<Op>)
    requires r.heads != [] || r.wire == []
    requires |r.heads| <= 1 && AllPlain(r.wire)
    ensures var d := Direct(r, h, ops);
      && d.heads == (if r.heads != [] then r.heads else [DirectStatus(ops)])
      && AllPlain(d.wire) && Bytes(d.wire) == Bytes(r.wire) + AllBodies(ops)
    decreases |ops|
  {
    if ops == [] {
      assert Bytes(r.wire) + [] == Bytes(r.wire);
    } else {
      DirectStepIs(r, h, ops[0]);
      DirectIs(DirectStep(r, h, ops[0]), h, ops[1..]);
      Assoc(Bytes(r.wire), Payload(ops[0]), AllBodies(ops[1..]));
    }
  }

  lemma {:induction false} DirectStatusAfterFlushes(ops: seq<Op>)
    ensures DirectStatus(ops) ==
      if Flushes(ops) != [] || AfterFlushes(ops) == [] then OK else DirectStatus(AfterFlushes(ops))
  {
  }

  /**
   * Against the handler writing straight to the response: the decoded body is always the same, and the
   * status is the same exactly if a flush came first, the first status is final, or the direct one is 200 anyway.
   */
  lemma SameAsDirect(h: Headers, ops: seq<Op>)
    ensures var d := Direct(Res([], h, []), h, ops); var r := Served(h, ops).res; var rest := AfterFlushes(ops);
      && Bytes(r.wire) == Bytes(d.wire)
      && r.heads != [] && d.heads != []
      && (r.heads[0] == d.heads[0] <==>
          rest == [] || Flushes(ops) != [] || !Informational(FirstStatus(rest)) || DirectStatus(rest) == OK)
  {
    ResponseIsDelivered(h, ops);
    DirectIs(Res([], h, []), h, ops);
    DirectStatusAfterFlushes(ops);
    assert Bytes([]) + AllBodies(ops) == AllBodies(ops);
  }

  /** Early hints before a 404 turn it into a 200. */
  lemma EarlyHintsLoseTheStatus(h: Headers)
    ensures var ops := [Head(103), Head(404)];
      Served(h, ops).res.heads == [200] && Direct(Res([], h, []), h, ops).heads == [404]
  {
    var ops := [Head(103), Head(404)];
    ResponseIsDelivered(h, ops);
    DirectIs(Res([], h, []), h, ops);
    assert ops[1..][0] == Head(404);
    assert DirectStatus(ops) == DirectStatus(ops[1..]) == 404;
  }

  /** For instance one flush and then a large body. */
  lemma FlushFirstBreaksTheBody(h: Headers, p: seq<byte>)
    requires !MustPassThrough(OK, h) && |p| >= GZIP_MIN_BYTES
    ensures Misdeclared(Served(h, [Flush, Body(p)]).res)
  {
    var ops := [Flush, Body(p)];
    assert ops[1..] == [Body(p)] && AfterFlushes(ops) == AfterFlushes(ops[1..]) == [Body(p)];
    assert UntilFlush([Body(p)]) == p + UntilFlush([Body(p)][1..]);
    MisdeclaredIff(h, ops);
  }

  // ---- What must not be held back ----

  /** The response as far as the handler got, written straight. */
  function DirectSoFar(r: Res, h: Headers, ops: seq<Op>): Res
    decreases |ops|
  {
    if ops == [] then r else DirectSoFar(DirectStep(r, h, ops[0]), h, ops[1..])
  }

  /** A writer that passes through does to its response what the handler would. */
  lemma {:induction false} PassedThrough(s: State, ops: seq<Op>)
    requires s.wroteHead && s.mode.Passthrough? && s.res.heads != []
    ensures Run(s, ops).res == DirectSoFar(s.res, s.headers, ops)
    decreases |ops|
  {
    if ops != [] {
      PassedThrough(Apply(s, ops[0]), ops[1..]);
    }
  }

  /**
   * A partial response, a protocol switch, an event stream, a download and a body that is already encoded reach the
   * client as if there were no writer between, at every moment, so that nothing of a live stream waits.
   */
  lemma LiveResponsesAreNotHeld(h: Headers, ops: seq<Op>)
    requires ops != [] && !ops[0].Flush? && !Informational(FirstStatus(ops))
    requires FirstStatus(ops) == 206 || FirstStatus(ops) == 101 || h.encoding != "" ||
      "text/event-stream" <= h.contentType || "application/octet-stream" <= h.contentType
    ensures Run(Opened(h, []), ops).res == DirectSoFar(Res([], h, []), h, ops)
  {
    FirstCall(h, [], ops);
    var s := HeadWritten(Opened(h, []), FirstStatus(ops));
    if ops[0].Head? {
      PassedThrough(s, ops[1..]);
    } else {
      PassedThrough(s, ops);
      assert Committed(Res([], h, []), h) == s.res;
    }
  }

  lemma {:induction false} BuffersWhileSmall(s: State, ops: seq<Op>)
    requires s.wroteHead && s.mode.Undecided? && |s.buf| + |AllBodies(ops)| < GZIP_MIN_BYTES
    requires forall i | 0 <= i < |ops| :: !ops[i].Flush?
    ensures var t := Run(s, ops); t.res == s.res && t.mode.Undecided? && t.buf == s.buf + AllBodies(ops)
    decreases |ops|
  {
    if ops == [] {
      assert s.buf + [] == s.buf;
    } else {
      assert forall i | 0 <= i < |ops[1..]| :: ops[1..][i] == ops[i + 1];
      BuffersWhileSmall(Apply(s, ops[0]), ops[1..]);
      if ops[0].Body? { Assoc(s.buf, ops[0].p, AllBodies(ops[1..])); }
    }
  }

  /** Every other response of less than a kilobyte waits until it is flushed or finished, header included. */
  lemma SmallResponsesWait(h: Headers, ops: seq<Op>)
    requires ops != [] && forall i | 0 <= i < |ops| :: !ops[i].Flush?
    requires FirstStatus(ops) != 206 && FirstStatus(ops) != 101 && h.encoding == ""
    requires !("text/event-stream" <= h.contentType) && !("application/octet-stream" <= h.contentType)
    requires |AllBodies(ops)| < 1024
    ensures Run(Opened(h, []), ops).res == Res([], h, []) && Run(Opened(h, []), ops).buf == AllBodies(ops)
  {
    FirstCall(h, [], ops);
    var s := HeadWritten(Opened(h, []), FirstStatus(ops));
    BuffersWhileSmall(s, ops);
    assert [] + AllBodies(ops) == AllBodies(ops);
  }

  /** And one that has a kilobyte or more by the first flush is packed, under a header that says so. */
  lemma LargeResponsesArePacked(h: Headers, ops: seq<Op>)
    requires ops != [] && !ops[0].Flush? && |UntilFlush(ops)| >= 1024
    requires FirstStatus(ops) != 206 && FirstStatus(ops) != 101 && h.encoding == ""
    requires !("text/event-stream" <= h.contentType) && !("application/octet-stream" <= h.contentType)
    ensures var r := Served(h, ops).res;
      && IsGzip(r.wire) && Bytes(r.wire) == AllBodies(ops)
      && r.sent == Headers("gzip", h.contentType, "", "")
  {
    ResponseIsDelivered(h, ops);
    assert AfterFlushes(ops) == ops;
  }
}
