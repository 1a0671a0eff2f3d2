/**
 Length-prefixed framing: a 4-byte big-endian length, then the payload.  The incremental
 decoder, what a byte stream means, and that chunking never matters.
 */
module Framing {
  import opened Basics

  type Payload = seq<Byte>

  const U32_LIMIT := 0x1_0000_0000
  const HEADER := 4

  function Header(n: nat): (h: seq<Byte>)
    requires n < U32_LIMIT
    ensures |h| == HEADER
  {
    [n / 0x100_0000, n / 0x1_0000 % 256, n / 256 % 256, n % 256]
  }

  function BigEndian(a: nat, b: nat, c: nat, d: nat): nat {
    a * 0x100_0000 + b * 0x1_0000 + c * 256 + d
  }

  function Length(h: seq<Byte>): (n: nat)
    requires |h| == HEADER
    ensures n < U32_LIMIT
  {
    BigEndian(h[0], h[1], h[2], h[3])
  }

  lemma LengthOfHeader(n: nat)
    requires n < U32_LIMIT
    ensures Length(Header(n)) == n
  {
    var top, mid, low := n / 0x100_0000, n / 0x1_0000, n / 256;
    assert n == 256 * low + n % 256;
    assert low == 256 * mid + low % 256;
    assert mid == 256 * top + mid % 256;
  }

  lemma Halves(q: nat, r: nat)
    requires r < 256
    ensures (256 * q + r) / 256 == q && (256 * q + r) % 256 == r
  {
  }

  lemma HeaderOfLength(h: seq<Byte>)
    requires |h| == HEADER
    ensures Header(Length(h)) == h
  {
    var a: nat, b: nat, c: nat, d: nat := h[0], h[1], h[2], h[3];
    var top, mid := 256 * a + b, 256 * (256 * a + b) + c;
    Halves(a, b);
    Halves(top, c);
    Halves(mid, d);
    assert Length(h) == 256 * mid + d;
    assert Length(h) / 0x1_0000 == mid / 256 && Length(h) / 0x100_0000 == top / 256;
  }

  /** Prefixes are ordered as the lengths are: at the first byte where they differ, the longer one's is greater. */
  lemma HeadersAreOrdered(m: nat, n: nat)
    requires m < n < U32_LIMIT
    ensures exists i :: 0 <= i < 4 && Header(m)[..i] == Header(n)[..i] && Header(m)[i] < Header(n)[i]
  {
    var a, b := Header(m), Header(n);
    LengthOfHeader(m);
    LengthOfHeader(n);
    hide Header;
    if a[0] != b[0] {
      assert a[..0] == b[..0] && a[0] < b[0];
    } else if a[1] != b[1] {
      assert a[..1] == b[..1] && a[1] < b[1];
    } else if a[2] != b[2] {
      assert a[..2] == b[..2] && a[2] < b[2];
    } else {
      assert a[..3] == b[..3] && a[3] < b[3];
    }
  }

  function Frame(p: Payload): seq<Byte>
    requires |p| < U32_LIMIT
  {
    Header(|p|) + p
  }

  ghost predicate Fit(max: nat, ps: seq<Payload>) {
    forall i :: 0 <= i < |ps| ==> |ps[i]| <= max
  }

  // The bytes of a list of frames.
  ghost function Wire(max: nat, ps: seq<Payload>): seq<Byte>
    requires max < U32_LIMIT && Fit(max, ps)
  {
    if ps == [] then [] else Frame(ps[0]) + Wire(max, ps[1..])
  }

  // ----- the incremental decoder -----

  datatype DecoderState = Head | Body(n: nat)

  datatype Decoded = Incomplete | Ready(payload: Payload) | TooBig

  // One decode attempt on a buffer: the answer, the next state and what stays buffered.
  function Decode(max: nat, state: DecoderState, buffer: seq<Byte>): (Decoded, DecoderState, seq<Byte>) {
    if state.Head? && |buffer| < HEADER then (Incomplete, state, buffer)
    else if state.Head? && Length(buffer[..HEADER]) > max then (TooBig, state, buffer)
    else
      var n := if state.Head? then Length(buffer[..HEADER]) else state.n;
      var body := if state.Head? then buffer[HEADER..] else buffer;
      if |body| < n then (Incomplete, Body(n), body)
      else (Ready(body[..n]), Head, body[n..])
  }

  // The bytes received and not yet returned, a consumed length prefix included.
  function Pending(state: DecoderState, buffer: seq<Byte>): seq<Byte>
    requires state.Body? ==> state.n < U32_LIMIT
  {
    if state.Head? then buffer else Header(state.n) + buffer
  }

  ghost predicate ValidState(max: nat, state: DecoderState) {
    max < U32_LIMIT && (state.Body? ==> state.n <= max)
  }

  // ----- what a whole byte stream means -----

  datatype Parsed = Parsed(frames: seq<Payload>, rest: seq<Byte>, tooBig: bool)

  function Split(max: nat, bytes: seq<Byte>): (p: Parsed)
    ensures forall i :: 0 <= i < |p.frames| ==> |p.frames[i]| <= max
    decreases bytes
  {
    if |bytes| < HEADER then Parsed([], bytes, false)
    else
      var n := Length(bytes[..HEADER]);
      if n > max then Parsed([], bytes, true)
      else if |bytes| < HEADER + n then Parsed([], bytes, false)
      else
        var later := Split(max, bytes[HEADER + n..]);
        Parsed([bytes[HEADER..HEADER + n]] + later.frames, later.rest, later.tooBig)
  }

  // A frame in front of any bytes is split off unchanged.
  lemma SplitFrame(max: nat, p: Payload, tail: seq<Byte>)
    requires max < U32_LIMIT && |p| <= max
    ensures var s := Split(max, tail);
            Split(max, Frame(p) + tail) == Parsed([p] + s.frames, s.rest, s.tooBig)
  {
    LengthOfHeader(|p|);
    var bytes := Frame(p) + tail;
    assert bytes[..HEADER] == Header(|p|);
    assert bytes[HEADER..HEADER + |p|] == p && bytes[HEADER + |p|..] == tail;
  }

  /** Splitting undoes framing: whole frames come back, then whatever follows is split on its own. */
  lemma {:induction false} SplitWire(max: nat, ps: seq<Payload>, tail: seq<Byte>)
    requires max < U32_LIMIT && Fit(max, ps)
    ensures var s := Split(max, tail);
            Split(max, Wire(max, ps) + tail) == Parsed(ps + s.frames, s.rest, s.tooBig)
  {
    hide Split, Frame;
    if ps == [] {
      assert Wire(max, ps) + tail == tail;
      assert ps + Split(max, tail).frames == Split(max, tail).frames;
    } else {
      SplitWire(max, ps[1..], tail);
      SplitFrame(max, ps[0], Wire(max, ps[1..]) + tail);
      assert Wire(max, ps) + tail == Frame(ps[0]) + (Wire(max, ps[1..]) + tail);
      assert ps + Split(max, tail).frames == [ps[0]] + (ps[1..] + Split(max, tail).frames);
    }
  }

  lemma EmptyWire(max: nat)
    requires max < U32_LIMIT
    ensures Wire(max, []) == []
  {
  }

  lemma WireCons(max: nat, p: Payload, ps: seq<Payload>)
    requires max < U32_LIMIT && Fit(max, ps) && |p| <= max
    ensures Fit(max, [p] + ps) && Wire(max, [p] + ps) == Frame(p) + Wire(max, ps)
  {
    hide Frame;
    assert ([p] + ps)[1..] == ps;
  }

  lemma {:induction false} WireConcat(max: nat, ps: seq<Payload>, qs: seq<Payload>)
    requires max < U32_LIMIT && Fit(max, ps) && Fit(max, qs)
    ensures Fit(max, ps + qs) && Wire(max, ps + qs) == Wire(max, ps) + Wire(max, qs)
  {
    hide Wire, Frame;
    if ps == [] {
      EmptyWire(max);
      assert ps + qs == qs;
    } else {
      var p, rest := ps[0], ps[1..];
      WireConcat(max, rest, qs);
      WireCons(max, p, rest + qs);
      WireCons(max, p, rest);
      assert ps == [p] + rest && ps + qs == [p] + (rest + qs);
      ConcatAssoc(Frame(p), Wire(max, rest), Wire(max, qs));
    }
  }

  lemma WireAppend(max: nat, ps: seq<Payload>, p: Payload)
    requires max < U32_LIMIT && Fit(max, ps) && |p| <= max
    ensures Fit(max, ps + [p]) && Wire(max, ps + [p]) == Wire(max, ps) + Frame(p)
  {
    hide Wire, Frame;
    WireConcat(max, ps, [p]);
    WireCons(max, p, []);
    EmptyWire(max);
    assert [p] + [] == [p] && Frame(p) + [] == Frame(p);
  }

  // Every proper prefix of one frame holds no frame and is not refused.
  lemma PartialFrameSplits(max: nat, p: Payload, cut: nat)
    requires max < U32_LIMIT && |p| <= max && cut < |Frame(p)|
    ensures Split(max, Frame(p)[..cut]) == Parsed([], Frame(p)[..cut], false)
  {
    LengthOfHeader(|p|);
    if cut >= HEADER {
      assert Frame(p)[..cut][..HEADER] == Header(|p|);
    }
  }

  /** A prefix of a framed stream yields the frames it contains whole, and nothing else. */
  lemma PrefixYieldsWholeFrames(max: nat, ps: seq<Payload>, cut: nat, k: nat)
    requires max < U32_LIMIT && Fit(max, ps) && k < |ps|
    requires |Wire(max, ps[..k])| <= cut < |Wire(max, ps[..k + 1])|
    ensures cut <= |Wire(max, ps)|
    ensures Split(max, Wire(max, ps)[..cut]).frames == ps[..k] && !Split(max, Wire(max, ps)[..cut]).tooBig
  {
    hide Split, Frame, Wire;
    WireAppend(max, ps[..k], ps[k]);
    assert ps[..k + 1] == ps[..k] + [ps[k]];
    WireConcat(max, ps[..k + 1], ps[k + 1..]);
    assert ps[..k + 1] + ps[k + 1..] == ps;
    var whole := Wire(max, ps[..k]);
    var part := Frame(ps[k])[..cut - |whole|];
    assert Wire(max, ps)[..cut] == whole + part;
    PartialFrameSplits(max, ps[k], cut - |whole|);
    SplitWire(max, ps[..k], part);
  }

  // ----- one decode attempt against the stream's meaning -----

  /**
   A decode attempt takes exactly the next frame off the pending bytes and ends between frames; or it
   keeps every pending byte, and then there is no whole frame to take.
   */
  lemma DecodeTakesNextFrame(max: nat, state: DecoderState, buffer: seq<Byte>)
    requires ValidState(max, state)
    ensures var (d, state', buffer') := Decode(max, state, buffer);
            && ValidState(max, state')
            && (d.Ready? ==> |d.payload| <= max && state' == Head
                             && Pending(state, buffer) == Frame(d.payload) + buffer')
            && (!d.Ready? ==> Pending(state', buffer') == Pending(state, buffer)
                              && Split(max, Pending(state, buffer)) == Parsed([], Pending(state, buffer), d.TooBig?))
  {
    if state.Head? {
      if |buffer| >= HEADER {
        HeaderOfLength(buffer[..HEADER]);
        assert buffer == buffer[..HEADER] + buffer[HEADER..];
        var n := Length(buffer[..HEADER]);
        if n <= max && |buffer| >= HEADER + n {
          assert buffer == Frame(buffer[HEADER..][..n]) + buffer[HEADER..][n..];
        }
      }
    } else {
      LengthOfHeader(state.n);
      var all := Pending(state, buffer);
      assert all[..HEADER] == Header(state.n);
      if |buffer| >= state.n {
        assert all == Frame(buffer[..state.n]) + buffer[state.n..];
      }
    }
  }

  // ----- any schedule of arrivals and decode attempts -----

  datatype Event = Feed(chunk: seq<Byte>) | Attempt

  datatype Progress = Progress(state: DecoderState, buffer: seq<Byte>, out: seq<Payload>, last: Decoded)

  function React(max: nat, p: Progress, e: Event): Progress {
    match e
    case Feed(chunk) => p.(buffer := p.buffer + chunk, last := Incomplete)
    case Attempt =>
      var (d, state, buffer) := Decode(max, p.state, p.buffer);
      Progress(state, buffer, if d.Ready? then p.out + [d.payload] else p.out, d)
  }

  function Play(max: nat, events: seq<Event>): Progress
    decreases events
  {
    if events == [] then Progress(Head, [], [], Incomplete)
    else React(max, Play(max, events[..|events| - 1]), events[|events| - 1])
  }

  function Fed(events: seq<Event>): seq<Byte> {
    if events == [] then []
    else
      var last := events[|events| - 1];
      Fed(events[..|events| - 1]) + if last.Feed? then last.chunk else []
  }

  lemma PendingAtHead(buffer: seq<Byte>)
    ensures Pending(Head, buffer) == buffer
  {
  }

  lemma PendingAppend(state: DecoderState, buffer: seq<Byte>, chunk: seq<Byte>)
    requires state.Body? ==> state.n < U32_LIMIT
    ensures Pending(state, buffer + chunk) == Pending(state, buffer) + chunk
  {
    if state.Body? {
      assert Header(state.n) + (buffer + chunk) == Header(state.n) + buffer + chunk;
    }
  }

  // One event keeps the byte account.
  lemma ReactKeepsAccount(max: nat, p: Progress, e: Event)
    requires ValidState(max, p.state) && Fit(max, p.out)
    ensures var q := React(max, p, e);
            && ValidState(max, q.state) && Fit(max, q.out)
            && Wire(max, q.out) + Pending(q.state, q.buffer)
               == Wire(max, p.out) + Pending(p.state, p.buffer) + if e.Feed? then e.chunk else []
  {
    hide Wire, Decode, Pending;
    match e
    case Feed(chunk) =>
      PendingAppend(p.state, p.buffer, chunk);
      ConcatAssoc(Wire(max, p.out), Pending(p.state, p.buffer), chunk);
    case Attempt => AttemptKeepsAccount(max, p);
  }

  lemma AttemptKeepsAccount(max: nat, p: Progress)
    requires ValidState(max, p.state) && Fit(max, p.out)
    ensures var q := React(max, p, Attempt);
            && ValidState(max, q.state) && Fit(max, q.out)
            && Wire(max, q.out) + Pending(q.state, q.buffer) == Wire(max, p.out) + Pending(p.state, p.buffer)
  {
    hide Frame, Split, Wire, Decode, Pending;
    DecodeTakesNextFrame(max, p.state, p.buffer);
    var (d, state, buffer) := Decode(max, p.state, p.buffer);
    if d.Ready? {
      WireAppend(max, p.out, d.payload);
      PendingAtHead(buffer);
      ConcatAssoc(Wire(max, p.out), Frame(d.payload), buffer);
    }
  }

  /** Nothing is lost, duplicated or reordered: the bytes fed are the frames returned, then the pending bytes. */
  lemma {:induction false} FedIsReturnedPlusPending(max: nat, events: seq<Event>)
    requires max < U32_LIMIT
    ensures var p := Play(max, events);
            && ValidState(max, p.state) && Fit(max, p.out)
            && Fed(events) == Wire(max, p.out) + Pending(p.state, p.buffer)
    decreases events
  {
    if events != [] {
      hide Pending, React, Wire;
      var n := |events| - 1;
      FedIsReturnedPlusPending(max, events[..n]);
      ReactKeepsAccount(max, Play(max, events[..n]), events[n]);
    }
  }

  /**
   Chunking does not matter: whatever the schedule, once an attempt finds nothing more, the frames
   returned are those of the whole byte string fed, and the decoder refuses it exactly when the whole
   string is refused.
   */
  lemma ChunkingIsInvisible(max: nat, events: seq<Event>)
    requires max < U32_LIMIT
    requires events != [] && events[|events| - 1].Attempt? && !Play(max, events).last.Ready?
    ensures var p := Play(max, events);
            && ValidState(max, p.state)
            && Split(max, Fed(events)) == Parsed(p.out, Pending(p.state, p.buffer), p.last.TooBig?)
  {
    var before, p := Play(max, events[..|events| - 1]), Play(max, events);
    FedIsReturnedPlusPending(max, events[..|events| - 1]);
    FedIsReturnedPlusPending(max, events);
    DecodeTakesNextFrame(max, before.state, before.buffer);
    SplitWire(max, p.out, Pending(p.state, p.buffer));
    assert p.out + [] == p.out;
  }

  /** Framed payloads within the limit come back exactly, with nothing left over. */
  lemma FramesSurviveAnyChunking(max: nat, ps: seq<Payload>, events: seq<Event>)
    requires max < U32_LIMIT && Fit(max, ps) && Fed(events) == Wire(max, ps)
    requires events != [] && events[|events| - 1].Attempt? && !Play(max, events).last.Ready?
    ensures Play(max, events) == Progress(Head, [], ps, Incomplete)
  {
    ChunkingIsInvisible(max, events);
    FedIsReturnedPlusPending(max, events);
    SplitWire(max, ps, []);
    assert Wire(max, ps) + [] == Wire(max, ps);
    assert ps + Split(max, []).frames == ps;
  }

  // ----- the blocking helpers -----

  // `write_frame`: refuses only what does not fit the 32-bit prefix.
  method WriteFrame(w: seq<Byte>, payload: Payload) returns (r: Result<seq<Byte>, ()>)
    ensures |payload| < U32_LIMIT ==> r == Ok(w + Frame(payload))
    ensures |payload| >= U32_LIMIT ==> r == Err(())
  {
    if |payload| >= U32_LIMIT {
      return Err(());
    }
    var out := w + Header(|payload|);
    out := out + payload;
    assert out == w + Frame(payload);
    return Ok(out);
  }

  // `read_frame`: the payload and the unread bytes; no limit but the prefix.
  function ReadFrame(r: seq<Byte>): Result<(Payload, seq<Byte>), ()> {
    if |r| < HEADER then Err(())
    else
      var n := Length(r[..HEADER]);
      if |r| - HEADER < n then Err(()) else Ok((r[HEADER..HEADER + n], r[HEADER + n..]))
  }

  /** The blocking reader takes back what either writer wrote, and agrees with the codec up to the codec's limit. */
  lemma BlockingAgreesWithCodec(max: nat, payload: Payload, tail: seq<Byte>)
    requires max < U32_LIMIT && |payload| < U32_LIMIT
    ensures ReadFrame(Frame(payload) + tail) == Ok((payload, tail))
    ensures Decode(max, Head, Frame(payload) + tail)
         == if |payload| <= max then (Ready(payload), Head, tail) else (TooBig, Head, Frame(payload) + tail)
  {
    LengthOfHeader(|payload|);
    var bytes := Frame(payload) + tail;
    assert bytes[..HEADER] == Header(|payload|);
    assert bytes[HEADER..HEADER + |payload|] == payload && bytes[HEADER + |payload|..] == tail;
    assert bytes[HEADER..][..|payload|] == payload && bytes[HEADER..][|payload|..] == tail;
  }
}
