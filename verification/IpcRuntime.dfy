/**
 The IPC v1 connection: framed readers over chunked sources, the unary-to-event handoff, and
 the server's per-connection loop.
 */
module IpcRuntime {
  import opened Basics
  import opened Framing

  datatype Failure = FrameTooBig | BytesRemaining | BadJson | UnexpectedEof

  datatype Item = Got(payload: Payload) | Failed(why: Failure) | End

  // Serialisation of one envelope type; parsing undoes rendering.
  datatype Json<!T(!new)> = Json(render: T -> Payload, parse: Payload -> Option<T>)

  ghost predicate RoundTrips<T(!new)>(json: Json<T>) {
    forall x: T :: json.parse(json.render(x)) == Some(x)
  }

  function Flat(chunks: seq<seq<Byte>>): seq<Byte> {
    if chunks == [] then [] else chunks[0] + Flat(chunks[1..])
  }

  // What reading one frame off the unread bytes of a stream gives, and the bytes left after it.
  function NextItem(max: nat, unread: seq<Byte>): (Item, seq<Byte>) {
    var s := Split(max, unread);
    if s.frames != [] then
      var size := HEADER + |s.frames[0]|;
      (Got(s.frames[0]), if |unread| >= size then unread[size..] else [])
    else if s.tooBig then (Failed(FrameTooBig), unread)
    else if |unread| == 0 || |unread| == HEADER then (End, unread)
    else (Failed(BytesRemaining), unread)
  }

  /** A framed reader: codec state, read buffer, and the chunks its source has yet to deliver before end of file. */
  class FramedRead {
    const max: nat
    var state: DecoderState
    var buffer: seq<Byte>
    var source: seq<seq<Byte>>

    ghost predicate Valid()
      reads this
    {
      ValidState(max, state)
    }

    // Everything received or still to arrive that has not been returned.
    ghost function Unread(): seq<Byte>
      requires Valid()
      reads this
    {
      Pending(state, buffer) + Flat(source)
    }

    constructor (max: nat, carry: seq<Byte>, source: seq<seq<Byte>>)
      requires max < U32_LIMIT
      ensures Valid() && this.max == max && state == Head && buffer == carry && this.source == source
      ensures Unread() == carry + Flat(source)
    {
      this.max, state, buffer, this.source := max, Head, carry, source;
    }

    /** The next frame, whatever the chunking; after one the decoder is between frames. */
    method Next() returns (item: Item)
      requires Valid()
      modifies this
      ensures Valid()
      ensures (item, Unread()) == NextItem(max, old(Unread()))
      ensures item.Got? ==> state == Head
    {
      hide Decode, Split, NextItem, Frame, Pending;
      ghost var all := Unread();
      while true
        invariant Valid() && Unread() == all
        decreases |source|
      {
        ghost var pending, state0, buffer0 := Pending(state, buffer), state, buffer;
        DecodeTakesNextFrame(max, state, buffer);
        var (d, next, rest) := Decode(max, state, buffer);
        state, buffer := next, rest;
        if d.Ready? {
          NextIsFrame(max, d.payload, buffer + Flat(source));
          PendingAtHead(buffer);
          assert all == Frame(d.payload) + (buffer + Flat(source));
          return Got(d.payload);
        } else if d.TooBig? {
          TooBigStays(max, pending, Flat(source));
          return Failed(FrameTooBig);
        } else if source == [] {
          assert Flat(source) == [] && all == pending;
          assert Decode(max, state0, buffer0) == (Incomplete, state, buffer);
          AtEndOfFile(max, state, buffer);
          assert all + [] == all;
          return if buffer == [] then End else Failed(BytesRemaining);
        }
        PendingAppend(state, buffer, source[0]);
        assert pending + Flat(source) == pending + source[0] + Flat(source[1..]);
        buffer, source := buffer + source[0], source[1..];
      }
    }

    /** Continue on the same source with a fresh codec, carrying the read buffer over but not the codec state. */
    method IntoEventStream() returns (events: FramedRead)
      requires Valid()
      ensures fresh(events) && events.Valid() && events.max == max
      ensures events.Unread() == buffer + Flat(source)
      ensures events.Unread() == Unread() <==> state == Head
    {
      events := new FramedRead(max, buffer, source);
      assert state.Body? ==> |events.Unread()| < |Unread()|;
    }
  }

  lemma NextIsFrame(max: nat, p: Payload, tail: seq<Byte>)
    requires max < U32_LIMIT && |p| <= max
    ensures NextItem(max, Frame(p) + tail) == (Got(p), tail)
  {
    SplitFrame(max, p, tail);
    assert (Frame(p) + tail)[HEADER + |p|..] == tail;
  }

  lemma TooBigStays(max: nat, pending: seq<Byte>, more: seq<Byte>)
    requires Split(max, pending) == Parsed([], pending, true)
    ensures NextItem(max, pending + more) == (Failed(FrameTooBig), pending + more)
  {
    assert (pending + more)[..HEADER] == pending[..HEADER];
  }

  // At end of file a stream cut right after a length prefix looks cleanly closed.
  lemma AtEndOfFile(max: nat, state: DecoderState, buffer: seq<Byte>)
    requires ValidState(max, state) && Split(max, Pending(state, buffer)) == Parsed([], Pending(state, buffer), false)
    requires exists s0, b0 :: Decode(max, s0, b0) == (Incomplete, state, buffer)
    ensures NextItem(max, Pending(state, buffer))
         == (if buffer == [] then End else Failed(BytesRemaining), Pending(state, buffer))
  {
  }

  /** A stream that ends inside a frame is an error, but one cut right after a length prefix looks like a clean end. */
  lemma EndInsideFrame(max: nat, p: Payload, cut: nat)
    requires max < U32_LIMIT && |p| <= max && cut < |Frame(p)|
    ensures NextItem(max, Frame(p)[..cut])
         == (if cut == 0 || cut == 4 then End else Failed(BytesRemaining), Frame(p)[..cut])
  {
    hide Split, Frame;
    PartialFrameSplits(max, p, cut);
  }

  /** A frame longer than the limit is refused. */
  lemma LongFrameIsRefused(max: nat, p: Payload, tail: seq<Byte>)
    requires max < |p| < U32_LIMIT
    ensures NextItem(max, Frame(p) + tail) == (Failed(FrameTooBig), Frame(p) + tail)
  {
    LengthOfHeader(|p|);
    assert (Frame(p) + tail)[..HEADER] == Header(|p|);
  }

  // ----- event streams -----

  datatype Event = Event(requestId: nat, kind: string, params: string)

  const KIND_CLOSED := "closed"

  predicate IsClosed(e: Event) {
    e.kind == KIND_CLOSED
  }

  ghost function Rendered<T(!new)>(json: Json<T>, xs: seq<T>): (ps: seq<Payload>)
    ensures |ps| == |xs|
  {
    seq(|xs|, i requires 0 <= i < |xs| => json.render(xs[i]))
  }

  // A stream in progress: events other than the sentinel, then the sentinel, then anything.
  ghost predicate StreamBytes(max: nat, json: Json<Event>, body: seq<Event>, last: Event, tail: seq<Byte>,
                              bytes: seq<Byte>)
    requires max < U32_LIMIT
  {
    && (forall i :: 0 <= i < |body| ==> body[i].kind != "closed")
    && last.kind == "closed"
    && Fit(max, Rendered(json, body + [last]))
    && bytes == Wire(max, Rendered(json, body + [last])) + tail
  }

  lemma WireHead<T(!new)>(max: nat, json: Json<T>, xs: seq<T>, tail: seq<Byte>)
    requires max < U32_LIMIT && xs != [] && Fit(max, Rendered(json, xs))
    ensures Fit(max, Rendered(json, xs[1..]))
    ensures NextItem(max, Wire(max, Rendered(json, xs)) + tail)
         == (Got(json.render(xs[0])), Wire(max, Rendered(json, xs[1..])) + tail)
  {
    var ps := Rendered(json, xs);
    assert ps[1..] == Rendered(json, xs[1..]);
    NextIsFrame(max, ps[0], Wire(max, ps[1..]) + tail);
    assert Wire(max, ps) + tail == Frame(ps[0]) + (Wire(max, ps[1..]) + tail);
  }

  lemma NothingRendered<T(!new)>(max: nat, json: Json<T>, tail: seq<Byte>)
    requires max < U32_LIMIT
    ensures Rendered(json, []) == [] && Wire(max, []) + tail == tail
  {
    assert Wire(max, []) == [];
  }

  /** Read events until the closing sentinel. */
  method ReadEvents(reader: FramedRead, json: Json<Event>, ghost body: seq<Event>, ghost last: Event,
                    ghost tail: seq<Byte>)
    returns (events: seq<Event>)
    requires reader.Valid() && RoundTrips(json)
    requires StreamBytes(reader.max, json, body, last, tail, reader.Unread())
    modifies reader
    ensures events == body + [last]
    ensures reader.Valid() && reader.Unread() == tail
  {
    hide NextItem, Frame, Wire, FramedRead.Unread, Rendered, Fit;
    events := [];
    ghost var all := body + [last];
    assert all[0..] == all;
    while true
      invariant reader.Valid() && |events| < |all| && events == all[..|events|]
      invariant Fit(reader.max, Rendered(json, all[|events|..]))
      invariant reader.Unread() == Wire(reader.max, Rendered(json, all[|events|..])) + tail
      decreases |all| - |events|
    {
      ghost var k := |events|;
      WireHead(reader.max, json, all[k..], tail);
      var item := reader.Next();
      var event := json.parse(item.payload).value;
      assert event == all[k] && all[k..][1..] == all[k + 1..] && all[..k + 1] == all[..k] + [all[k]];
      events := events + [event];
      if IsClosed(event) {
        assert k + 1 == |all| && all[k + 1..] == [] && all[..k + 1] == all;
        NothingRendered(reader.max, json, tail);
        return;
      }
      assert k < |body|;
    }
  }

  /**
   Read the acknowledgement, hand the connection over, and read the stream: exactly the acknowledgement
   and the events come back, in any chunking.
   */
  method CallThenStream<Resp(!new)>(reader: FramedRead, responses: Json<Resp>, json: Json<Event>,
                                    ghost ack: Resp, ghost body: seq<Event>, ghost last: Event, ghost tail: seq<Byte>)
    returns (response: Resp, events: seq<Event>)
    requires reader.Valid() && RoundTrips(responses) && RoundTrips(json) && |responses.render(ack)| <= reader.max
    requires exists stream :: StreamBytes(reader.max, json, body, last, tail, stream)
               && reader.Unread() == Frame(responses.render(ack)) + stream
    modifies reader
    ensures response == ack && events == body + [last]
  {
    ghost var stream :| StreamBytes(reader.max, json, body, last, tail, stream)
               && reader.Unread() == Frame(responses.render(ack)) + stream;
    NextIsFrame(reader.max, responses.render(ack), stream);
    var item := reader.Next();
    response := responses.parse(item.payload).value;
    var streaming := reader.IntoEventStream();
    events := ReadEvents(streaming, json, body, last, tail);
  }

  /** A handoff in the middle of a frame loses the consumed length prefix. */
  lemma HandoffMidFrameLoses(max: nat)
    requires 5 <= max < U32_LIMIT
    ensures var (d, state, buffer) := Decode(max, Head, Header(5) + [1, 2]);
            && d == Incomplete && state == Body(5)
            && Pending(state, buffer) == Header(5) + [1, 2]
            && Pending(Head, buffer) == [1, 2]
  {
    LengthOfHeader(5);
    var bytes := Header(5) + [1, 2];
    assert bytes[..HEADER] == Header(5) && bytes[HEADER..] == [1, 2];
  }

  // ----- the server's connection loop -----

  // The handler may carry state from one request to the next.
  datatype Handler<!S(!new), !Req(!new), !Resp(!new)> = Handler(start: S, handle: (S, Req) -> (S, Resp))

  // The payloads written for the requests of one connection, up to the first frame or answer that fails;
  // the flag tells whether every frame was answered.
  ghost function Answers<S(!new), Req(!new), Resp(!new)>(
      h: Handler<S, Req, Resp>, reqs: Json<Req>, resps: Json<Resp>, max: nat,
      s: S, frames: seq<Payload>): seq<Payload>
    ensures Fit(max, Answers(h, reqs, resps, max, s, frames))
    decreases frames
  {
    if frames == [] || reqs.parse(frames[0]).None? then []
    else
      var (s', resp) := h.handle(s, reqs.parse(frames[0]).value);
      if |resps.render(resp)| > max then []
      else [resps.render(resp)] + Answers(h, reqs, resps, max, s', frames[1..])
  }

  /** The first frame that is no request ends the answers. */
  lemma {:induction false} AnswersStopAtBadFrame<S(!new), Req(!new), Resp(!new)>(
      h: Handler<S, Req, Resp>, reqs: Json<Req>, resps: Json<Resp>, max: nat, s: S, frames: seq<Payload>, k: nat)
    requires k < |frames| && reqs.parse(frames[k]).None?
    ensures Answers(h, reqs, resps, max, s, frames) == Answers(h, reqs, resps, max, s, frames[..k])
    decreases k
  {
    if k > 0 && reqs.parse(frames[0]).Some? {
      assert frames[..k][1..] == frames[1..][..k - 1];
      AnswersStopAtBadFrame(h, reqs, resps, max, h.handle(s, reqs.parse(frames[0]).value).0, frames[1..], k - 1);
    }
  }

  // One request more: what the loop writes next.
  lemma AnswersUnfold<S(!new), Req(!new), Resp(!new)>(
      h: Handler<S, Req, Resp>, reqs: Json<Req>, resps: Json<Resp>, max: nat,
      s: S, frames: seq<Payload>, done: seq<Payload>)
    ensures frames == [] || reqs.parse(frames[0]).None? ==> done + Answers(h, reqs, resps, max, s, frames) == done
    ensures frames != [] && reqs.parse(frames[0]).Some? ==>
              var (s', resp) := h.handle(s, reqs.parse(frames[0]).value);
              done + Answers(h, reqs, resps, max, s, frames)
              == if |resps.render(resp)| > max then done
                 else done + [resps.render(resp)] + Answers(h, reqs, resps, max, s', frames[1..])
  {
    if frames != [] && reqs.parse(frames[0]).Some? {
      var (s', resp) := h.handle(s, reqs.parse(frames[0]).value);
      var later := Answers(h, reqs, resps, max, s', frames[1..]);
      assert done + ([resps.render(resp)] + later) == done + [resps.render(resp)] + later;
    }
  }

  /** Decode, handle and answer requests in order until the stream ends or something fails. */
  method ServeConnection<S(!new), Req(!new), Resp(!new)>(reader: FramedRead, h: Handler<S, Req, Resp>,
                                                 reqs: Json<Req>, resps: Json<Resp>, maxResponse: nat)
    returns (written: seq<Byte>)
    requires reader.Valid() && maxResponse < U32_LIMIT
    modifies reader
    ensures written == Wire(maxResponse, Answers(h, reqs, resps, maxResponse, h.start,
                                                 Split(reader.max, old(reader.Unread())).frames))
  {
    hide NextItem, Frame, Wire, FramedRead.Unread, Split, Answers;
    EmptyWire(maxResponse);
    written := [];
    var s := h.start;
    ghost var frames := Split(reader.max, reader.Unread()).frames;
    ghost var all, done: seq<Payload> := Answers(h, reqs, resps, maxResponse, s, frames), [];
    while true
      invariant reader.Valid() && frames == Split(reader.max, reader.Unread()).frames
      invariant Fit(maxResponse, done) && written == Wire(maxResponse, done)
      invariant all == done + Answers(h, reqs, resps, maxResponse, s, frames)
      decreases |frames|
    {
      RestOfSplit(reader.max, reader.Unread());
      AnswersUnfold(h, reqs, resps, maxResponse, s, frames, done);
      var item := reader.Next();
      if !item.Got? {
        return;
      }
      var req := reqs.parse(item.payload);
      if req.None? {
        return;
      }
      var (next, resp) := h.handle(s, req.value);
      var payload := resps.render(resp);
      if |payload| > maxResponse {
        return;
      }
      WireAppend(maxResponse, done, payload);
      written := written + Frame(payload);
      s, done, frames := next, done + [payload], frames[1..];
    }
  }

  // Taking the next item off a stream takes the first frame off its split.
  lemma RestOfSplit(max: nat, unread: seq<Byte>)
    ensures var (item, rest) := NextItem(max, unread);
            && (item.Got? <==> Split(max, unread).frames != [])
            && (item.Got? ==> item.payload == Split(max, unread).frames[0]
                              && Split(max, rest).frames == Split(max, unread).frames[1..])
  {
    SplitUnfold(max, unread);
    hide Split, Length;
  }

  lemma SplitUnfold(max: nat, unread: seq<Byte>)
    ensures var s := Split(max, unread);
            s.frames != [] ==>
              && HEADER + |s.frames[0]| <= |unread|
              && s.frames[1..] == Split(max, unread[HEADER + |s.frames[0]|..]).frames
  {
    hide Length;
  }
}
