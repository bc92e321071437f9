/** The exec wire protocol: typed frames over one byte stream. */
module ExecStream {

  import opened Basics
  import opened Sequences

  const MAX_PAYLOAD := 0x10_0000

  datatype Frame = Frame(kind: byte, payload: seq<byte>)

  /** Eof: the stream ends before a header. Short: it ends inside a frame. */
  datatype Error = Eof | Short | TooLarge(n: nat) | BadResize(n: nat)

  datatype Result<T> = Ok(value: T) | Err(error: Error)

  // ---- Big-endian numbers ----

  function BigEndian(n: nat, width: nat): (r: seq<byte>)
    ensures |r| == width
  {
    if width == 0 then [] else BigEndian(n / 256, width - 1) + [n % 256]
  }

  function FromBigEndian(b: seq<byte>): nat {
    if b == [] then 0 else 256 * FromBigEndian(b[..|b| - 1]) + b[|b| - 1]
  }

  function Power(k: nat): (p: nat)
    ensures p > 0
  {
    if k == 0 then 1 else 256 * Power(k - 1)
  }

  /** Encoding keeps the number modulo the width. */
  lemma {:induction false} DecodeNumber(n: nat, width: nat)
    requires n < Power(width)
    ensures FromBigEndian(BigEndian(n, width)) == n
  {
    if width > 0 {
      DecodeNumber(n / 256, width - 1);
      var b := BigEndian(n, width);
      assert b[..|b| - 1] == BigEndian(n / 256, width - 1);
    }
  }

  lemma {:induction false} EncodeNumber(b: seq<byte>)
    ensures FromBigEndian(b) < Power(|b|)
    ensures BigEndian(FromBigEndian(b), |b|) == b
  {
    if b != [] {
      EncodeNumber(b[..|b| - 1]);
      var n := FromBigEndian(b);
      assert n / 256 == FromBigEndian(b[..|b| - 1]) && n % 256 == b[|b| - 1];
    }
  }

  lemma Widths()
    ensures Power(2) == 0x1_0000 && Power(4) == 0x1_0000_0000
  {
    assert Power(1) == 256 && Power(3) == 0x100_0000;
  }

  // ---- Frames ----

  function Header(f: Frame): (h: seq<byte>)
    ensures |h| == 5
  {
    [f.kind] + BigEndian(|f.payload|, 4)
  }

  function Encode(f: Frame): seq<byte> {
    Header(f) + f.payload
  }

  function EncodeAll(fs: seq<Frame>): seq<byte> {
    if fs == [] then [] else Encode(fs[0]) + EncodeAll(fs[1..])
  }

  /** On the wire: the type, the payload's length as four bytes with the highest first, and the payload. */
  lemma EncodedFrameIs(f: Frame)
    ensures var n := |f.payload|;
      Encode(f) == [f.kind, n / 0x100_0000 % 256, n / 0x1_0000 % 256, n / 256 % 256, n % 256] + f.payload
  {
    var n := |f.payload|;
    BigEndianStep(n, 3);
    BigEndianStep(n / 256, 2);
    BigEndianStep(n / 256 / 256, 1);
    BigEndianStep(n / 256 / 256 / 256, 0);
    assert BigEndian(n / 256 / 256 / 256 / 256, 0) == [];
    assert n / 256 / 256 == n / 0x1_0000 && n / 256 / 256 / 256 == n / 0x100_0000;
  }

  lemma BigEndianStep(n: nat, width: nat)
    ensures BigEndian(n, width + 1) == BigEndian(n / 256, width) + [n % 256]
  {
  }

  /** One write as frames: full chunks, then the rest; an empty payload is one empty frame. */
  function Chunks(kind: byte, payload: seq<byte>): seq<Frame>
    decreases |payload|
  {
    if |payload| <= MAX_PAYLOAD then [Frame(kind, payload)]
    else [Frame(kind, payload[..MAX_PAYLOAD])] + Chunks(kind, payload[MAX_PAYLOAD..])
  }

  /** What is on a connection, and how many more bytes it takes before writing fails. */
  datatype Wire = Wire(bytes: seq<byte>, room: nat)

  predicate Fits(w: Wire, p: seq<byte>) {
    |p| <= w.room
  }

  /** A write that does not fit leaves what did. */
  function Sent(w: Wire, p: seq<byte>): Wire {
    if Fits(w, p) then Wire(w.bytes + p, w.room - |p|) else Wire(w.bytes + p[..w.room], 0)
  }

  /** Writing in two parts, the second only if the first fits, is writing the whole. */
  lemma SentJoin(w: Wire, a: seq<byte>, b: seq<byte>)
    ensures Fits(w, a + b) <==> Fits(w, a) && Fits(Sent(w, a), b)
    ensures Sent(w, a + b) == if Fits(w, a) then Sent(Sent(w, a), b) else Sent(w, a)
  {
    if !Fits(w, a) {
      assert (a + b)[..w.room] == a[..w.room];
    } else if !Fits(w, a + b) {
      assert (a + b)[..w.room] == a + b[..w.room - |a|];
      Assoc(w.bytes, a, b[..w.room - |a|]);
    } else {
      Assoc(w.bytes, a, b);
    }
  }

  class Stream {
    var bytes: seq<byte>
    var room: nat

    function View(): (w: Wire)
      reads this
    {
      Wire(bytes, room)
    }

    method Write(p: seq<byte>) returns (ok: bool)
      modifies this
      ensures ok == Fits(old(View()), p) && View() == Sent(old(View()), p)
    {
      ok := |p| <= room;
      var n := if ok then |p| else room;
      bytes, room := bytes + p[..n], room - n;
      assert ok ==> p[..n] == p;
    }

    /** io.ReadFull: all n bytes, or an error that tells an empty rest from a short one. */
    method ReadFull(n: nat) returns (r: Result<seq<byte>>)
      modifies this
      ensures |old(bytes)| >= n ==> r == Ok(old(bytes)[..n]) && bytes == old(bytes)[n..]
      ensures |old(bytes)| < n ==> r == Err(if old(bytes) == [] then Eof else Short) && bytes == []
    {
      if |bytes| >= n {
        r := Ok(bytes[..n]);
        bytes := bytes[n..];
      } else {
        r := Err(if bytes == [] then Eof else Short);
        bytes := [];
      }
    }
  }

  class Writer {
    const w: Stream

    constructor (w: Stream)
      ensures this.w == w
    {
      this.w := w;
    }

    /** The payload's frames go out, or as much of them as the connection takes. */
    method WriteFrame(t: byte, payload: seq<byte>) returns (ok: bool)
      modifies w
      ensures var all := EncodeAll(Chunks(t, payload));
        ok == Fits(old(w.View()), all) && w.View() == Sent(old(w.View()), all)
    {
      var rest := payload;
      ghost var all := EncodeAll(Chunks(t, payload));
      ok := true;
      while true
        invariant ok && Sent(w.View(), EncodeAll(Chunks(t, rest))) == Sent(old(w.View()), all)
        invariant Fits(w.View(), EncodeAll(Chunks(t, rest))) <==> Fits(old(w.View()), all)
        decreases |rest|
      {
        var chunk := if |rest| > MAX_PAYLOAD then rest[..MAX_PAYLOAD] else rest;
        FirstFrame(w.View(), t, rest);
        ok := w.Write([t] + BigEndian(|chunk|, 4));
        if !ok { return; }
        if |chunk| > 0 {
          ok := w.Write(chunk);
          if !ok { return; }
        }
        rest := rest[|chunk|..];
        if |rest| == 0 { return; }
      }
    }
  }

  /** The bytes of one write are its first frame's header, that frame's payload, and the bytes of the rest, if any. */
  lemma FirstFrame(w: Wire, t: byte, rest: seq<byte>)
    ensures var chunk := if |rest| > MAX_PAYLOAD then rest[..MAX_PAYLOAD] else rest;
      var head := [t] + BigEndian(|chunk|, 4);
      var tail := if |rest| > MAX_PAYLOAD then EncodeAll(Chunks(t, rest[MAX_PAYLOAD..])) else [];
      && var all := EncodeAll(Chunks(t, rest));
      && all == head + (chunk + tail)
      && (Fits(w, all) <==> Fits(w, head) && Fits(Sent(w, head), chunk) && Fits(Sent(Sent(w, head), chunk), tail))
      && Sent(w, all) == (if !Fits(w, head) then Sent(w, head)
                          else if !Fits(Sent(w, head), chunk) then Sent(Sent(w, head), chunk)
                          else Sent(Sent(Sent(w, head), chunk), tail))
      && (chunk == [] ==> Sent(Sent(w, head), chunk) == Sent(w, head))
  {
    var chunk := if |rest| > MAX_PAYLOAD then rest[..MAX_PAYLOAD] else rest;
    var head := [t] + BigEndian(|chunk|, 4);
    var tail := if |rest| > MAX_PAYLOAD then EncodeAll(Chunks(t, rest[MAX_PAYLOAD..])) else [];
    EncodeFirst(t, rest);
    Assoc(head, chunk, tail);
    assert head + chunk + [] == head + chunk;
    SentJoin(w, head, chunk + tail);
    SentJoin(Sent(w, head), chunk, tail);
    assert Sent(w, head).bytes + [] == Sent(w, head).bytes;
    assert forall u: Wire :: u.bytes + [] == u.bytes;
  }

  lemma EncodeFirst(t: byte, payload: seq<byte>)
    ensures |payload| > MAX_PAYLOAD ==>
      EncodeAll(Chunks(t, payload)) ==
      Encode(Frame(t, payload[..MAX_PAYLOAD])) + EncodeAll(Chunks(t, payload[MAX_PAYLOAD..]))
    ensures |payload| <= MAX_PAYLOAD ==> EncodeAll(Chunks(t, payload)) == Encode(Frame(t, payload))
  {
    if |payload| > MAX_PAYLOAD {
      assert Chunks(t, payload)[1..] == Chunks(t, payload[MAX_PAYLOAD..]);
    } else {
      assert [Frame(t, payload)][1..] == [];
    }
  }

  datatype Read = Read(frame: Frame, rest: seq<byte>)

  /** The next frame of a byte stream and what is left. */
  function Decode(s: seq<byte>): Result<Read> {
    if |s| < 5 then Err(if s == [] then Eof else Short)
    else
      var n := FromBigEndian(s[1..5]);
      if n > MAX_PAYLOAD then Err(TooLarge(n))
      else if |s| < 5 + n then Err(if |s| == 5 then Eof else Short)
      else Ok(Read(Frame(s[0], s[5..5 + n]), s[5 + n..]))
  }

  method ReadFrame(r: Stream) returns (f: Result<Frame>)
    modifies r
    ensures Decode(old(r.bytes)).Ok? ==>
      f == Ok(Decode(old(r.bytes)).value.frame) && r.bytes == Decode(old(r.bytes)).value.rest
    ensures Decode(old(r.bytes)).Err? ==> f == Err(Decode(old(r.bytes)).error)
  {
    var hdr := r.ReadFull(5);
    if hdr.Err? {
      return Err(hdr.error);
    }
    assert hdr.value[1..] == old(r.bytes)[1..5];
    var n := FromBigEndian(hdr.value[1..]);
    if n > MAX_PAYLOAD {
      return Err(TooLarge(n));
    }
    var payload: seq<byte> := [];
    if n > 0 {
      var body := r.ReadFull(n);
      if body.Err? {
        return Err(body.error);
      }
      payload := body.value;
    }
    f := Ok(Frame(hdr.value[0], payload));
    assert old(r.bytes)[5..][..n] == old(r.bytes)[5..5 + n];
    assert old(r.bytes)[5..][n..] == old(r.bytes)[5 + n..];
  }

  /** A frame within the cap is read back whole, whatever follows it. */
  lemma DecodeEncode(f: Frame, rest: seq<byte>)
    requires |f.payload| <= MAX_PAYLOAD
    ensures Decode(Encode(f) + rest) == Ok(Read(f, rest))
  {
    var s := Encode(f) + rest;
    Widths();
    DecodeNumber(|f.payload|, 4);
    assert s[1..5] == BigEndian(|f.payload|, 4);
    assert s[5..5 + |f.payload|] == f.payload && s[5 + |f.payload|..] == rest;
  }

  /** Whatever decodes is the encoding of its frame, so no other bytes carry it. */
  lemma EncodeDecode(s: seq<byte>)
    requires Decode(s).Ok?
    ensures var d := Decode(s).value; s == Encode(d.frame) + d.rest && |d.frame.payload| <= MAX_PAYLOAD
  {
    EncodeNumber(s[1..5]);
    var d := Decode(s).value;
    assert [s[0]] + s[1..5] == s[..5];
    assert s == s[..5] + s[5..5 + |d.frame.payload|] + d.rest;
  }

  function FourBytes(a: nat, b: nat, c: nat, d: nat): nat {
    0x100_0000 * a + 0x1_0000 * b + 256 * c + d
  }

  /** A header that announces more than a mebibyte is refused before anything of its payload is read. */
  lemma TooLargeIsRefused(s: seq<byte>)
    requires |s| >= 5
    ensures var n := FourBytes(s[1], s[2], s[3], s[4]);
      && (n > 1048576 ==> Decode(s) == Err(TooLarge(n)))
      && (n <= 1048576 ==> (Decode(s).Ok? <==> |s| >= 5 + n))
  {
    var b := s[1..5];
    FromFour(b);
    assert b[0] == s[1] && b[1] == s[2] && b[2] == s[3] && b[3] == s[4];
  }

  lemma FromFour(b: seq<byte>)
    requires |b| == 4
    ensures FromBigEndian(b) == FourBytes(b[0], b[1], b[2], b[3])
  {
    FromLast(b);
    FromLast(b[..3]);
    FromLast(b[..3][..2]);
    FromLast(b[..3][..2][..1]);
  }

  lemma FromLast(b: seq<byte>)
    requires b != []
    ensures var rest := FromBigEndian(b[..|b| - 1]); var last: nat := b[|b| - 1]; FromBigEndian(b) == 256 * rest + last
  {
  }

  /** Cut off inside a frame, the stream gives an error and no frame. */
  lemma TruncatedFrameFails(f: Frame, k: nat)
    requires |f.payload| <= MAX_PAYLOAD && k < |Encode(f)|
    ensures Decode(Encode(f)[..k]) == Err(if k == 0 || k == 5 then Eof else Short)
  {
    if k >= 5 {
      Widths();
      DecodeNumber(|f.payload|, 4);
      assert Encode(f)[..k][1..5] == BigEndian(|f.payload|, 4);
    }
  }

  datatype Frames = Frames(frames: seq<Frame>, end: Error)

  /** Reading frames until the first error. */
  function DecodeAll(s: seq<byte>): Frames
    decreases |s|
  {
    var d := Decode(s);
    if d.Err? then Frames([], d.error)
    else
      var more := DecodeAll(d.value.rest);
      Frames([d.value.frame] + more.frames, more.end)
  }

  predicate Capped(fs: seq<Frame>) {
    forall i | 0 <= i < |fs| :: |fs[i].payload| <= MAX_PAYLOAD
  }

  lemma DecodeNext(f: Frame, more: seq<byte>)
    requires |f.payload| <= MAX_PAYLOAD
    ensures DecodeAll(Encode(f) + more) == Frames([f] + DecodeAll(more).frames, DecodeAll(more).end)
  {
    DecodeEncode(f, more);
  }

  lemma {:induction false} DecodeEncodeAll(fs: seq<Frame>, rest: seq<byte>)
    requires Capped(fs)
    ensures DecodeAll(EncodeAll(fs) + rest) == Frames(fs + DecodeAll(rest).frames, DecodeAll(rest).end)
  {
    if fs == [] {
      assert EncodeAll(fs) + rest == rest;
    } else {
      var more := EncodeAll(fs[1..]) + rest;
      Assoc(Encode(fs[0]), EncodeAll(fs[1..]), rest);
      DecodeNext(fs[0], more);
      DecodeEncodeAll(fs[1..], rest);
      Assoc([fs[0]], fs[1..], DecodeAll(rest).frames);
      assert [fs[0]] + fs[1..] == fs;
    }
  }

  /**
   * A stream cut anywhere, as by a write that failed, reads as the j frames that are whole, none altered or
   * invented. It ends like a stream that was closed exactly if the cut is at the end of a frame or between the
   * next frame's header and its payload.
   */
  lemma {:induction false} CutStreamKeepsFrames(fs: seq<Frame>, k: nat) returns (j: nat)
    requires Capped(fs) && k <= |EncodeAll(fs)|
    ensures InFrame(fs, k, j)
    ensures DecodeAll(EncodeAll(fs)[..k]) == CutAfter(fs[..j], k - |EncodeAll(fs[..j])|)
    decreases |fs|
  {
    if fs == [] {
      assert EncodeAll(fs)[..k] == [];
      return 0;
    }
    if k < |Encode(fs[0])| {
      j := 0;
      CutInFirst(fs, k);
    } else {
      var n := CutStreamKeepsFrames(fs[1..], k - |Encode(fs[0])|);
      CutLater(fs, k);
      NextFrame(fs, k, n);
      j := n + 1;
    }
  }

  /** Byte k is at the end of the first j frames or inside the one after them. */
  predicate InFrame(fs: seq<Frame>, k: nat, j: nat) {
    j <= |fs| && |EncodeAll(fs[..j])| <= k && (j < |fs| ==> k < |EncodeAll(fs[..j + 1])|)
  }

  lemma NextFrame(fs: seq<Frame>, k: nat, n: nat)
    requires fs != [] && |Encode(fs[0])| <= k && InFrame(fs[1..], k - |Encode(fs[0])|, n)
    ensures InFrame(fs, k, n + 1) && [fs[0]] + fs[1..][..n] == fs[..n + 1]
    ensures |EncodeAll(fs[..n + 1])| == |Encode(fs[0])| + |EncodeAll(fs[1..][..n])|
  {
    EncodeTake(fs, n + 1);
    if n + 1 < |fs| { EncodeTake(fs, n + 2); }
  }

  /** What is read of a stream cut this many bytes after the end of these frames, inside the next one if at all. */
  function CutAfter(fs: seq<Frame>, more: int): Frames {
    Frames(fs, if more == 0 || more == 5 then Eof else Short)
  }

  lemma CutInFirst(fs: seq<Frame>, k: nat)
    requires fs != [] && Capped(fs) && k < |Encode(fs[0])|
    ensures InFrame(fs, k, 0) && fs[..0] == [] && DecodeAll(EncodeAll(fs)[..k]) == CutAfter([], k)
  {
    assert EncodeAll(fs)[..k] == Encode(fs[0])[..k];
    TruncatedFrameFails(fs[0], k);
    EncodeTake(fs, 1);
  }

  lemma CutLater(fs: seq<Frame>, k: nat)
    requires fs != [] && Capped(fs) && |Encode(fs[0])| <= k <= |EncodeAll(fs)|
    ensures var d := DecodeAll(EncodeAll(fs[1..])[..k - |Encode(fs[0])|]);
      DecodeAll(EncodeAll(fs)[..k]) == Frames([fs[0]] + d.frames, d.end)
  {
    var first, more := Encode(fs[0]), EncodeAll(fs[1..]);
    assert EncodeAll(fs)[..k] == first + more[..k - |first|];
    DecodeNext(fs[0], more[..k - |first|]);
  }

  lemma EncodeTake(fs: seq<Frame>, n: nat)
    requires 0 < n <= |fs|
    ensures EncodeAll(fs[..n]) == Encode(fs[0]) + EncodeAll(fs[1..][..n - 1])
  {
    assert fs[..n][0] == fs[0] && fs[..n][1..] == fs[1..][..n - 1];
  }

  // ---- Sequences of writes ----

  function Payloads(fs: seq<Frame>): seq<byte> {
    if fs == [] then [] else fs[0].payload + Payloads(fs[1..])
  }

  /** One frame for nothing, and n / MAX_PAYLOAD rounded up otherwise. */
  function FrameCount(n: nat): (c: nat)
    ensures c >= 1
  {
    if n == 0 then 1 else (n + MAX_PAYLOAD - 1) / MAX_PAYLOAD
  }

  /** One write: its own type, full chunks in order, and as many frames as that takes. */
  lemma {:induction false} ChunksAre(kind: byte, payload: seq<byte>)
    ensures var fs := Chunks(kind, payload);
      && Capped(fs) && (forall i | 0 <= i < |fs| :: fs[i].kind == kind)
      && Payloads(fs) == payload
      && |fs| == FrameCount(|payload|)
      && (forall i | 0 <= i < |fs| - 1 :: |fs[i].payload| == MAX_PAYLOAD)
    decreases |payload|
  {
    var fs := Chunks(kind, payload);
    if |payload| <= MAX_PAYLOAD {
      assert Payloads(fs) == payload + [] == payload;
    } else {
      var rest := payload[MAX_PAYLOAD..];
      ChunksAre(kind, rest);
      assert fs[1..] == Chunks(kind, rest);
      assert payload[..MAX_PAYLOAD] + rest == payload;
    }
  }

  /** The writes' frames one after another: what the stream holds after the calls. */
  function Session(writes: seq<Frame>): seq<Frame> {
    if writes == [] then [] else Chunks(writes[0].kind, writes[0].payload) + Session(writes[1..])
  }

  /** Writes one after another, until one fails: whatever fits of all their frames is on the connection. */
  method WriteAll(fw: Writer, writes: seq<Frame>) returns (ok: bool)
    modifies fw.w
    ensures var all := EncodeAll(Session(writes));
      ok == Fits(old(fw.w.View()), all) && fw.w.View() == Sent(old(fw.w.View()), all)
  {
    ghost var all := EncodeAll(Session(writes));
    var i := 0;
    ok := true;
    while i < |writes|
      invariant 0 <= i <= |writes| && ok
      invariant Sent(fw.w.View(), EncodeAll(Session(writes[i..]))) == Sent(old(fw.w.View()), all)
      invariant Fits(fw.w.View(), EncodeAll(Session(writes[i..]))) <==> Fits(old(fw.w.View()), all)
    {
      SessionFirst(fw.w.View(), writes[i..]);
      assert writes[i..][1..] == writes[i + 1..];
      ok := fw.WriteFrame(writes[i].kind, writes[i].payload);
      if !ok { return; }
      i := i + 1;
    }
    assert fw.w.View().bytes + [] == fw.w.View().bytes;
  }

  lemma SessionFirst(w: Wire, writes: seq<Frame>)
    requires writes != []
    ensures var one := EncodeAll(Chunks(writes[0].kind, writes[0].payload));
      var rest := EncodeAll(Session(writes[1..]));
      && (Fits(w, EncodeAll(Session(writes))) <==> Fits(w, one) && Fits(Sent(w, one), rest))
      && Sent(w, EncodeAll(Session(writes))) == if Fits(w, one) then Sent(Sent(w, one), rest) else Sent(w, one)
  {
    var c := Chunks(writes[0].kind, writes[0].payload);
    EncodeJoin(c, Session(writes[1..]));
    SentJoin(w, EncodeAll(c), EncodeAll(Session(writes[1..])));
  }

  lemma {:induction false} EncodeJoin(a: seq<Frame>, b: seq<Frame>)
    ensures EncodeAll(a + b) == EncodeAll(a) + EncodeAll(b)
  {
    if a == [] {
      assert a + b == b;
    } else {
      EncodeJoin(a[1..], b);
      assert (a + b)[0] == a[0] && (a + b)[1..] == a[1..] + b;
      Assoc(Encode(a[0]), EncodeAll(a[1..]), EncodeAll(b));
    }
  }

  lemma {:induction false} SessionIsCapped(writes: seq<Frame>)
    ensures Capped(Session(writes))
  {
    if writes != [] {
      ChunksAre(writes[0].kind, writes[0].payload);
      SessionIsCapped(writes[1..]);
    }
  }

  /** The bytes of one type, in order. */
  function BytesOf(kind: byte, fs: seq<Frame>): seq<byte> {
    if fs == [] then [] else (if fs[0].kind == kind then fs[0].payload else []) + BytesOf(kind, fs[1..])
  }

  lemma {:induction false} BytesOfJoin(kind: byte, a: seq<Frame>, b: seq<Frame>)
    ensures BytesOf(kind, a + b) == BytesOf(kind, a) + BytesOf(kind, b)
  {
    if a == [] {
      assert a + b == b;
    } else {
      BytesOfJoin(kind, a[1..], b);
      assert (a + b)[0] == a[0] && (a + b)[1..] == a[1..] + b;
      Assoc(if a[0].kind == kind then a[0].payload else [], BytesOf(kind, a[1..]), BytesOf(kind, b));
    }
  }

  lemma {:induction false} BytesOfSame(kind: byte, k: byte, fs: seq<Frame>)
    requires forall i | 0 <= i < |fs| :: fs[i].kind == k
    ensures BytesOf(kind, fs) == if kind == k then Payloads(fs) else []
  {
    if fs != [] {
      BytesOfSame(kind, k, fs[1..]);
    }
  }

  /** Framing splits payloads and changes no stream of bytes. */
  lemma {:induction false} SessionKeepsBytes(kind: byte, writes: seq<Frame>)
    ensures BytesOf(kind, Session(writes)) == BytesOf(kind, writes)
  {
    if writes != [] {
      var c := Chunks(writes[0].kind, writes[0].payload);
      ChunksAre(writes[0].kind, writes[0].payload);
      BytesOfSame(kind, writes[0].kind, c);
      BytesOfJoin(kind, c, Session(writes[1..]));
      SessionKeepsBytes(kind, writes[1..]);
    }
  }

  /**
   * Reading back everything a sequence of writes put on the stream gives the writes' frames and nothing else,
   * ends in a clean end of stream, and gives each type its own bytes in order.
   */
  lemma SessionRoundTrip(writes: seq<Frame>, kind: byte)
    ensures DecodeAll(EncodeAll(Session(writes))) == Frames(Session(writes), Eof)
    ensures BytesOf(kind, DecodeAll(EncodeAll(Session(writes))).frames) == BytesOf(kind, writes)
  {
    var fs := Session(writes);
    SessionIsCapped(writes);
    DecodeEncodeAll(fs, []);
    assert EncodeAll(fs) + [] == EncodeAll(fs) && fs + [] == fs;
    SessionKeepsBytes(kind, writes);
  }

  function Counts(writes: seq<Frame>): seq<nat> {
    if writes == [] then [] else [FrameCount(|writes[0].payload|)] + Counts(writes[1..])
  }

  /** Joins runs of the given lengths. */
  function Regrouped(fs: seq<Frame>, counts: seq<nat>): seq<Frame>
    decreases |counts|
  {
    if counts == [] || counts[0] == 0 || counts[0] > |fs| then []
    else [Frame(fs[0].kind, Payloads(fs[..counts[0]]))] + Regrouped(fs[counts[0]..], counts[1..])
  }

  /** Taking each write's number of frames gives the writes back. */
  lemma {:induction false} RegroupsToTheWrites(writes: seq<Frame>)
    ensures Regrouped(Session(writes), Counts(writes)) == writes
  {
    if writes != [] {
      var c := Chunks(writes[0].kind, writes[0].payload);
      ChunksAre(writes[0].kind, writes[0].payload);
      var fs, counts := Session(writes), Counts(writes);
      assert fs[..|c|] == c && fs[|c|..] == Session(writes[1..]) && counts[1..] == Counts(writes[1..]);
      RegroupsToTheWrites(writes[1..]);
      assert fs[0].kind == c[0].kind;
    }
  }

  // ---- Terminal sizes ----

  type uint16 = x: int | 0 <= x < 0x1_0000

  function ResizePayload(cols: uint16, rows: uint16): seq<byte> {
    BigEndian(cols, 2) + BigEndian(rows, 2)
  }

  datatype Size = Size(cols: nat, rows: nat)

  function DecodeResize(p: seq<byte>): Result<Size> {
    if |p| != 4 then Err(BadResize(|p|)) else Ok(Size(FromBigEndian(p[..2]), FromBigEndian(p[2..])))
  }

  /** Columns first, then rows, two bytes each with the higher first. */
  lemma ResizePayloadIs(cols: uint16, rows: uint16)
    ensures ResizePayload(cols, rows) == [cols / 256, cols % 256, rows / 256, rows % 256]
  {
    BigEndianStep(cols, 1);
    BigEndianStep(cols / 256, 0);
    BigEndianStep(rows, 1);
    BigEndianStep(rows / 256, 0);
    assert BigEndian(cols / 256 / 256, 0) == [] && BigEndian(rows / 256 / 256, 0) == [];
  }

  lemma ResizeRoundTrip(cols: uint16, rows: uint16)
    ensures DecodeResize(ResizePayload(cols, rows)) == Ok(Size(cols, rows))
  {
    Widths();
    DecodeNumber(cols, 2);
    DecodeNumber(rows, 2);
    var p := ResizePayload(cols, rows);
    assert p[..2] == BigEndian(cols, 2) && p[2..] == BigEndian(rows, 2);
  }

  /** Every four-byte payload is some size's, and no other payload decodes. */
  lemma ResizeIsOnto(p: seq<byte>)
    ensures DecodeResize(p).Ok? <==> |p| == 4
    ensures |p| == 4 ==>
      var s := DecodeResize(p).value;
      s.cols < 0x1_0000 && s.rows < 0x1_0000 && ResizePayload(s.cols, s.rows) == p
  {
    if |p| == 4 {
      Widths();
      EncodeNumber(p[..2]);
      EncodeNumber(p[2..]);
      assert p[..2] + p[2..] == p;
    }
  }
}
