/**
 One client and one server on a connection, byte by byte: in every schedule the k-th call
 gets the k-th answer, with at most one request in flight.
 */
module Exchange {
  import opened Basics
  import opened Framing
  import opened IpcRuntime

  datatype Setup<!S(!new), !Req(!new), !Resp(!new)> =
    Setup(h: Handler<S, Req, Resp>, reqs: Json<Req>, resps: Json<Resp>, maxRequest: nat, maxResponse: nat)

  // `sent` calls written, `handled` of them answered by the server, `answers` returned to the caller;
  // each side has a pipe in flight and a decoder.
  datatype Net<+S, +Resp> = Net(
    sent: nat, handled: nat, answers: seq<Resp>, state: S,
    up: seq<Byte>, server: DecoderState, serverBuffer: seq<Byte>,
    down: seq<Byte>, client: DecoderState, clientBuffer: seq<Byte>)

  datatype Step = Send | ServerRead(n: nat) | ServerDecode | ClientRead(n: nat) | ClientDecode

  function Start<S(!new), Req(!new), Resp(!new)>(u: Setup<S, Req, Resp>): Net<S, Resp> {
    Net(0, 0, [], u.h.start, [], Head, [], [], Head, [])
  }

  // The handler's state before call n, and its answer to it.
  function StateAt<S(!new), Req(!new), Resp(!new)>(u: Setup<S, Req, Resp>, calls: seq<Req>, n: nat): S
    requires n <= |calls|
  {
    if n == 0 then u.h.start else u.h.handle(StateAt(u, calls, n - 1), calls[n - 1]).0
  }

  function AnswerAt<S(!new), Req(!new), Resp(!new)>(u: Setup<S, Req, Resp>, calls: seq<Req>, n: nat): Resp
    requires n < |calls|
  {
    u.h.handle(StateAt(u, calls, n), calls[n]).1
  }

  // Serialisation round-trips, and every request and answer is within the frame limit.
  ghost predicate Workable<S(!new), Req(!new), Resp(!new)>(u: Setup<S, Req, Resp>, calls: seq<Req>) {
    && RoundTrips(u.reqs) && RoundTrips(u.resps)
    && u.maxRequest < U32_LIMIT && u.maxResponse < U32_LIMIT
    && forall n :: 0 <= n < |calls| ==>
         |u.reqs.render(calls[n])| <= u.maxRequest && |u.resps.render(AnswerAt(u, calls, n))| <= u.maxResponse
  }

  // A client writes only between calls; a read takes at least one byte; the client decodes while it waits.
  predicate Enabled<S, Req, Resp>(calls: seq<Req>, net: Net<S, Resp>, step: Step) {
    match step
    case Send => net.sent == |net.answers| < |calls|
    case ServerRead(n) => 1 <= n <= |net.up|
    case ServerDecode => true
    case ClientRead(n) => 1 <= n <= |net.down|
    case ClientDecode => net.sent > |net.answers|
  }

  // None when a decoder refuses its input or a payload does not parse or fit.
  function Next<S(!new), Req(!new), Resp(!new)>(u: Setup<S, Req, Resp>, calls: seq<Req>, net: Net<S, Resp>, step: Step)
    : Option<Net<S, Resp>>
    requires Enabled(calls, net, step)
  {
    match step
    case Send =>
      var p := u.reqs.render(calls[net.sent]);
      if |p| >= U32_LIMIT then None else Some(net.(sent := net.sent + 1, up := net.up + Frame(p)))
    case ServerRead(n) =>
      Some(net.(up := net.up[n..], serverBuffer := net.serverBuffer + net.up[..n]))
    case ClientRead(n) =>
      Some(net.(down := net.down[n..], clientBuffer := net.clientBuffer + net.down[..n]))
    case ServerDecode =>
      var (d, state, buffer) := Decode(u.maxRequest, net.server, net.serverBuffer);
      var net := net.(server := state, serverBuffer := buffer);
      (match d
       case Incomplete => Some(net)
       case TooBig => None
       case Ready(p) =>
         if u.reqs.parse(p).None? then None
         else
           var (s, resp) := u.h.handle(net.state, u.reqs.parse(p).value);
           var out := u.resps.render(resp);
           if |out| >= U32_LIMIT then None
           else Some(net.(state := s, handled := net.handled + 1, down := net.down + Frame(out))))
    case ClientDecode =>
      var (d, state, buffer) := Decode(u.maxResponse, net.client, net.clientBuffer);
      var net := net.(client := state, clientBuffer := buffer);
      match d
      case Incomplete => Some(net)
      case TooBig => None
      case Ready(p) =>
        if u.resps.parse(p).None? then None
        else Some(net.(answers := net.answers + [u.resps.parse(p).value]))
  }

  // The payloads of the answers to the calls from the k-th on.
  ghost function AnswersFrom<S(!new), Req(!new), Resp(!new)>(
      u: Setup<S, Req, Resp>, calls: seq<Req>, k: nat): (answers: seq<Payload>)
    requires k <= |calls|
    ensures |answers| == |calls| - k
    ensures forall i :: 0 <= i < |answers| ==> answers[i] == u.resps.render(AnswerAt(u, calls, k + i))
    decreases |calls| - k
  {
    if k == |calls| then [] else [u.resps.render(AnswerAt(u, calls, k))] + AnswersFrom(u, calls, k + 1)
  }

  lemma RenderedUnfold<T(!new)>(json: Json<T>, xs: seq<T>, k: nat)
    requires k < |xs|
    ensures Rendered(json, xs[k..]) == [json.render(xs[k])] + Rendered(json, xs[k + 1..])
  {
  }

  lemma {:induction false} LoopAnswersFrom<S(!new), Req(!new), Resp(!new)>(
      u: Setup<S, Req, Resp>, calls: seq<Req>, k: nat)
    requires Workable(u, calls) && k <= |calls|
    ensures Answers(u.h, u.reqs, u.resps, u.maxResponse, StateAt(u, calls, k), Rendered(u.reqs, calls[k..]))
         == AnswersFrom(u, calls, k)
    decreases |calls| - k
  {
    hide StateAt, AnswerAt, RoundTrips, Rendered;
    if k < |calls| {
      LoopAnswersFrom(u, calls, k + 1);
      RenderedUnfold(u.reqs, calls, k);
      RequestParses(u, calls, k);
      HandledNext(u, calls, k);
      var rest := Rendered(u.reqs, calls[k + 1..]);
      assert ([u.reqs.render(calls[k])] + rest)[1..] == rest;
    }
  }

  /** From the bytes of the calls the connection loop writes the rendered answers, one for each call, in order. */
  lemma LoopAnswersEachCall<S(!new), Req(!new), Resp(!new)>(u: Setup<S, Req, Resp>, calls: seq<Req>)
    requires Workable(u, calls)
    ensures Fit(u.maxRequest, Rendered(u.reqs, calls))
    ensures var frames := Split(u.maxRequest, Wire(u.maxRequest, Rendered(u.reqs, calls))).frames;
            Answers(u.h, u.reqs, u.resps, u.maxResponse, u.h.start, frames) == AnswersFrom(u, calls, 0)
  {
    var sent := Rendered(u.reqs, calls);
    SplitWire(u.maxRequest, sent, []);
    assert Wire(u.maxRequest, sent) + [] == Wire(u.maxRequest, sent) && sent + [] == sent;
    assert calls[0..] == calls && StateAt(u, calls, 0) == u.h.start;
    hide Wire, Rendered, Answers, AnswersFrom, RoundTrips;
    LoopAnswersFrom(u, calls, 0);
  }

  // The bytes of the payloads between two positions; at most one here.
  ghost function Between(p: Option<Payload>): seq<Byte>
    requires p.Some? ==> |p.value| < U32_LIMIT
  {
    if p.None? then [] else Frame(p.value)
  }

  ghost function RequestInFlight<S(!new), Req(!new), Resp(!new)>(
      u: Setup<S, Req, Resp>, calls: seq<Req>, net: Net<S, Resp>): Option<Payload> {
    if net.handled < net.sent <= |calls| then Some(u.reqs.render(calls[net.handled])) else None
  }

  ghost function AnswerInFlight<S(!new), Req(!new), Resp(!new)>(
      u: Setup<S, Req, Resp>, calls: seq<Req>, net: Net<S, Resp>): Option<Payload> {
    if |net.answers| < net.handled <= |calls| then Some(u.resps.render(AnswerAt(u, calls, |net.answers|))) else None
  }

  // Answers so far are right; the bytes on each side are those of the one message in flight, if any.
  ghost predicate Inv<S(!new), Req(!new), Resp(!new)>(u: Setup<S, Req, Resp>, calls: seq<Req>, net: Net<S, Resp>)
    requires Workable(u, calls)
  {
    && |net.answers| <= net.handled <= net.sent <= |calls| && net.sent <= |net.answers| + 1
    && net.state == StateAt(u, calls, net.handled)
    && (forall k :: 0 <= k < |net.answers| ==> net.answers[k] == AnswerAt(u, calls, k))
    && ValidState(u.maxRequest, net.server) && ValidState(u.maxResponse, net.client)
    && Pending(net.server, net.serverBuffer) + net.up == Between(RequestInFlight(u, calls, net))
    && Pending(net.client, net.clientBuffer) + net.down == Between(AnswerInFlight(u, calls, net))
  }

  // While the bytes of at most one frame are pending, an attempt either takes exactly that frame or keeps waiting.
  lemma AttemptOnOne(max: nat, state: DecoderState, buffer: seq<Byte>, pipe: seq<Byte>, p: Option<Payload>)
    requires ValidState(max, state) && (p.Some? ==> |p.value| <= max)
    requires Pending(state, buffer) + pipe == Between(p)
    ensures var (d, state', buffer') := Decode(max, state, buffer);
            && ValidState(max, state') && !d.TooBig?
            && (d.Ready? ==> p == Some(d.payload) && Pending(state', buffer') + pipe == [])
            && (d.Incomplete? ==> Pending(state', buffer') + pipe == Between(p))
            && (pipe == [] && p.Some? ==> d.Ready?)
  {
    hide Decode, Split, Frame, Pending;
    DecodeTakesNextFrame(max, state, buffer);
    var (d, state', buffer') := Decode(max, state, buffer);
    var pending := Pending(state, buffer);
    if d.Ready? {
      PendingAtHead(buffer');
      assert Between(p) == Frame(d.payload) + (buffer' + pipe);
      OneFrame(max, d.payload, buffer' + pipe, p);
    } else {
      NoFrame(max, pending, pipe, p);
    }
  }

  lemma OneFrame(max: nat, q: Payload, rest: seq<Byte>, p: Option<Payload>)
    requires max < U32_LIMIT && |q| <= max && (p.Some? ==> |p.value| <= max)
    requires Frame(q) + rest == Between(p)
    ensures p == Some(q) && rest == []
  {
    if p.Some? {
      SplitFrame(max, q, rest);
      SplitFrame(max, p.value, []);
      assert Frame(p.value) + [] == Frame(p.value);
      assert Split(max, Frame(p.value)).frames[0] == p.value;
    }
  }

  lemma NoFrame(max: nat, pending: seq<Byte>, pipe: seq<Byte>, p: Option<Payload>)
    requires max < U32_LIMIT && (p.Some? ==> |p.value| <= max)
    requires pending + pipe == Between(p) && Split(max, pending).frames == []
    ensures !Split(max, pending).tooBig
    ensures p.Some? ==> pipe != []
  {
    if p.Some? {
      SplitFrame(max, p.value, []);
      assert Frame(p.value) + [] == Frame(p.value);
      assert pending == Frame(p.value)[..|pending|];
      if |pending| < |Frame(p.value)| {
        PartialFrameSplits(max, p.value, |pending|);
      }
    }
  }

  lemma ReadKeepsBytes(state: DecoderState, buffer: seq<Byte>, pipe: seq<Byte>, n: nat)
    requires (state.Body? ==> state.n < U32_LIMIT) && n <= |pipe|
    ensures Pending(state, buffer + pipe[..n]) + pipe[n..] == Pending(state, buffer) + pipe
  {
    PendingAppend(state, buffer, pipe[..n]);
    assert pipe == pipe[..n] + pipe[n..];
  }

  /** Every enabled step succeeds and keeps the invariant. */
  lemma StepKeepsInv<S(!new), Req(!new), Resp(!new)>(
      u: Setup<S, Req, Resp>, calls: seq<Req>, net: Net<S, Resp>, step: Step)
    requires Workable(u, calls) && Inv(u, calls, net) && Enabled(calls, net, step)
    ensures Next(u, calls, net, step).Some? && Inv(u, calls, Next(u, calls, net, step).value)
  {
    hide Decode, Split, Frame, Pending, StateAt, AnswerAt, RoundTrips;
    match step
    case Send => SendKeepsInv(u, calls, net);
    case ServerRead(n) => ReadKeepsBytes(net.server, net.serverBuffer, net.up, n);
    case ClientRead(n) => ReadKeepsBytes(net.client, net.clientBuffer, net.down, n);
    case ServerDecode => ServerDecodeKeepsInv(u, calls, net);
    case ClientDecode => ClientDecodeKeepsInv(u, calls, net);
  }

  lemma SendKeepsInv<S(!new), Req(!new), Resp(!new)>(u: Setup<S, Req, Resp>, calls: seq<Req>, net: Net<S, Resp>)
    requires Workable(u, calls) && Inv(u, calls, net) && Enabled(calls, net, Send)
    ensures Next(u, calls, net, Send).Some? && Inv(u, calls, Next(u, calls, net, Send).value)
  {
    hide Decode, Split, Frame, Pending, StateAt, AnswerAt, RoundTrips;
    var p := u.reqs.render(calls[net.sent]);
    NoBytesBefore(net.server, net.serverBuffer, net.up, Frame(p));
  }

  lemma HandledNext<S(!new), Req(!new), Resp(!new)>(u: Setup<S, Req, Resp>, calls: seq<Req>, k: nat)
    requires k < |calls|
    ensures u.h.handle(StateAt(u, calls, k), calls[k]) == (StateAt(u, calls, k + 1), AnswerAt(u, calls, k))
  {
  }

  lemma RequestParses<S(!new), Req(!new), Resp(!new)>(u: Setup<S, Req, Resp>, calls: seq<Req>, k: nat)
    requires Workable(u, calls) && k < |calls|
    ensures u.reqs.parse(u.reqs.render(calls[k])) == Some(calls[k])
  {
  }

  lemma AnswerParses<S(!new), Req(!new), Resp(!new)>(u: Setup<S, Req, Resp>, calls: seq<Req>, k: nat)
    requires Workable(u, calls) && k < |calls|
    ensures u.resps.parse(u.resps.render(AnswerAt(u, calls, k))) == Some(AnswerAt(u, calls, k))
  {
  }

  lemma NoBytesBefore(state: DecoderState, buffer: seq<Byte>, pipe: seq<Byte>, more: seq<Byte>)
    requires (state.Body? ==> state.n < U32_LIMIT) && Pending(state, buffer) + pipe == []
    ensures Pending(state, buffer) + (pipe + more) == more
  {
    assert Pending(state, buffer) == [] && pipe == [];
  }

  lemma ServerDecodeKeepsInv<S(!new), Req(!new), Resp(!new)>(u: Setup<S, Req, Resp>, calls: seq<Req>, net: Net<S, Resp>)
    requires Workable(u, calls) && Inv(u, calls, net)
    ensures Next(u, calls, net, ServerDecode).Some? && Inv(u, calls, Next(u, calls, net, ServerDecode).value)
  {
    hide Decode, Split, Frame, Pending, StateAt, AnswerAt, RoundTrips;
    AttemptOnOne(u.maxRequest, net.server, net.serverBuffer, net.up, RequestInFlight(u, calls, net));
    var (d, state, buffer) := Decode(u.maxRequest, net.server, net.serverBuffer);
    if d.Ready? {
      var k := net.handled;
      RequestParses(u, calls, k);
      HandledNext(u, calls, k);
      NoBytesBefore(net.client, net.clientBuffer, net.down, Frame(u.resps.render(AnswerAt(u, calls, k))));
    }
  }

  lemma ClientDecodeKeepsInv<S(!new), Req(!new), Resp(!new)>(u: Setup<S, Req, Resp>, calls: seq<Req>, net: Net<S, Resp>)
    requires Workable(u, calls) && Inv(u, calls, net) && Enabled(calls, net, ClientDecode)
    ensures Next(u, calls, net, ClientDecode).Some? && Inv(u, calls, Next(u, calls, net, ClientDecode).value)
  {
    hide Decode, Split, Frame, Pending, StateAt, AnswerAt, RoundTrips;
    AttemptOnOne(u.maxResponse, net.client, net.clientBuffer, net.down, AnswerInFlight(u, calls, net));
    if Decode(u.maxResponse, net.client, net.clientBuffer).0.Ready? {
      AnswerParses(u, calls, |net.answers|);
    }
  }

  // The net after a schedule; None once a step fails.
  ghost function Run<S(!new), Req(!new), Resp(!new)>(
      u: Setup<S, Req, Resp>, calls: seq<Req>, net: Net<S, Resp>, schedule: seq<Step>)
    : Option<Net<S, Resp>>
    decreases schedule
  {
    if schedule == [] then Some(net)
    else
      var before := Run(u, calls, net, schedule[..|schedule| - 1]);
      var step := schedule[|schedule| - 1];
      if before.None? then None
      else if !Enabled(calls, before.value, step) then before
      else Next(u, calls, before.value, step)
  }

  /** In every schedule nothing fails, the k-th call has the k-th answer, and at most one request is in flight. */
  lemma {:induction false} AnswersArriveInOrder<S(!new), Req(!new), Resp(!new)>(
      u: Setup<S, Req, Resp>, calls: seq<Req>, schedule: seq<Step>)
    requires Workable(u, calls)
    ensures Run(u, calls, Start(u), schedule).Some?
    ensures var net := Run(u, calls, Start(u), schedule).value;
            && Inv(u, calls, net)
            && |net.answers| <= net.sent <= |net.answers| + 1
            && forall k :: 0 <= k < |net.answers| ==> net.answers[k] == AnswerAt(u, calls, k)
    decreases schedule
  {
    hide Next, Enabled, StateAt, AnswerAt, RoundTrips;
    if schedule == [] {
      StartInv(u, calls);
    } else {
      var n := |schedule| - 1;
      AnswersArriveInOrder(u, calls, schedule[..n]);
      var before := Run(u, calls, Start(u), schedule[..n]).value;
      if Enabled(calls, before, schedule[n]) {
        StepKeepsInv(u, calls, before, schedule[n]);
      }
    }
  }

  lemma StartInv<S(!new), Req(!new), Resp(!new)>(u: Setup<S, Req, Resp>, calls: seq<Req>)
    requires Workable(u, calls)
    ensures Inv(u, calls, Start(u))
  {
  }

  ghost predicate Waiting<S, Resp>(net: Net<S, Resp>) {
    net.sent > |net.answers|
  }

  /** A waiting client is never stuck: some enabled step changes the net. */
  lemma WaitingMakesProgress<S(!new), Req(!new), Resp(!new)>(u: Setup<S, Req, Resp>, calls: seq<Req>, net: Net<S, Resp>)
    requires Workable(u, calls) && Inv(u, calls, net) && Waiting(net)
    ensures exists step ::
              Enabled(calls, net, step) && Next(u, calls, net, step).Some? && Next(u, calls, net, step).value != net
  {
    hide Decode, Split, Frame, Pending, StateAt, RoundTrips;
    AttemptOnOne(u.maxRequest, net.server, net.serverBuffer, net.up, RequestInFlight(u, calls, net));
    AttemptOnOne(u.maxResponse, net.client, net.clientBuffer, net.down, AnswerInFlight(u, calls, net));
    var step := if net.up != [] then ServerRead(|net.up|)
                else if net.down != [] then ClientRead(|net.down|)
                else if net.handled < net.sent then ServerDecode
                else ClientDecode;
    assert Enabled(calls, net, step);
    StepKeepsInv(u, calls, net, step);
  }

  // How many steps that change the net a waiting client can be away from its answer.
  ghost function Rank<S(!new), Req(!new), Resp(!new)>(u: Setup<S, Req, Resp>, calls: seq<Req>, net: Net<S, Resp>): nat
    requires Workable(u, calls)
  {
    if net.handled < net.sent && net.handled < |calls|
    then |net.up| + HeadCount(net.server) + |Frame(u.resps.render(AnswerAt(u, calls, net.handled)))| + 3
    else |net.down| + HeadCount(net.client) + 1
  }

  ghost function HeadCount(state: DecoderState): nat {
    if state.Head? then 1 else 0
  }

  // A fruitless attempt changes the decoder only by consuming a length prefix.
  lemma FruitlessAttempt(max: nat, state: DecoderState, buffer: seq<Byte>)
    ensures var (d, state', buffer') := Decode(max, state, buffer);
            d.Incomplete? ==> (state', buffer') == (state, buffer) || HeadCount(state') < HeadCount(state)
  {
  }

  lemma NothingPending(state: DecoderState, buffer: seq<Byte>, pipe: seq<Byte>)
    requires (state.Body? ==> state.n < U32_LIMIT) && Pending(state, buffer) + pipe == []
    ensures state == Head && buffer == [] && pipe == []
    ensures forall max :: Decode(max, state, buffer) == (Incomplete, state, buffer)
  {
  }

  /** While a client waits, every step that changes the net answers it or lowers the rank. */
  lemma StepLowersRank<S(!new), Req(!new), Resp(!new)>(
      u: Setup<S, Req, Resp>, calls: seq<Req>, net: Net<S, Resp>, step: Step)
    requires Workable(u, calls) && Inv(u, calls, net) && Waiting(net) && Enabled(calls, net, step)
    requires Next(u, calls, net, step).Some? && Next(u, calls, net, step).value != net
    ensures var net' := Next(u, calls, net, step).value;
            || |net'.answers| == |net.answers| + 1
            || (net'.sent == net.sent && net'.answers == net.answers && Rank(u, calls, net') < Rank(u, calls, net))
  {
    hide Decode, Split, Frame, Pending, StateAt, AnswerAt, RoundTrips;
    match step
    case ServerRead(_) => ServerIsIdle(u, calls, net);
    case ClientRead(_) => ClientIsIdle(u, calls, net);
    case ServerDecode => ServerDecodeLowersRank(u, calls, net);
    case ClientDecode =>
      ClientIsIdle(u, calls, net);
      FruitlessAttempt(u.maxResponse, net.client, net.clientBuffer);
  }

  // The server has nothing to read or decode once the request is handled.
  lemma ServerIsIdle<S(!new), Req(!new), Resp(!new)>(u: Setup<S, Req, Resp>, calls: seq<Req>, net: Net<S, Resp>)
    requires Workable(u, calls) && Inv(u, calls, net)
    ensures net.handled == net.sent ==>
              && net.up == []
              && forall max :: Decode(max, net.server, net.serverBuffer) == (Incomplete, net.server, net.serverBuffer)
  {
    if net.handled == net.sent {
      NothingPending(net.server, net.serverBuffer, net.up);
    }
  }

  // Nor has the client before.
  lemma ClientIsIdle<S(!new), Req(!new), Resp(!new)>(u: Setup<S, Req, Resp>, calls: seq<Req>, net: Net<S, Resp>)
    requires Workable(u, calls) && Inv(u, calls, net)
    ensures net.handled == |net.answers| ==>
              && net.down == [] && net.client == Head
              && forall max :: Decode(max, net.client, net.clientBuffer) == (Incomplete, net.client, net.clientBuffer)
  {
    if net.handled == |net.answers| {
      NothingPending(net.client, net.clientBuffer, net.down);
    }
  }

  lemma ServerDecodeLowersRank<S(!new), Req(!new), Resp(!new)>(
      u: Setup<S, Req, Resp>, calls: seq<Req>, net: Net<S, Resp>)
    requires Workable(u, calls) && Inv(u, calls, net) && Waiting(net)
    requires Next(u, calls, net, ServerDecode).Some? && Next(u, calls, net, ServerDecode).value != net
    ensures var net' := Next(u, calls, net, ServerDecode).value;
            net'.sent == net.sent && net'.answers == net.answers && Rank(u, calls, net') < Rank(u, calls, net)
  {
    hide Decode, Split, Frame, Pending;
    ServerIsIdle(u, calls, net);
    ClientIsIdle(u, calls, net);
    FruitlessAttempt(u.maxRequest, net.server, net.serverBuffer);
    AttemptOnOne(u.maxRequest, net.server, net.serverBuffer, net.up, RequestInFlight(u, calls, net));
    var (d, state, buffer) := Decode(u.maxRequest, net.server, net.serverBuffer);
    if d.Ready? {
      assert u.reqs.parse(d.payload) == Some(calls[net.handled]);
    }
  }

  // The steps of a schedule that change the net.
  ghost function Productive<S(!new), Req(!new), Resp(!new)>(u: Setup<S, Req, Resp>, calls: seq<Req>, net: Net<S, Resp>,
                                                          schedule: seq<Step>): nat
    decreases schedule
  {
    if schedule == [] then 0
    else
      var before := schedule[..|schedule| - 1];
      Productive(u, calls, net, before) + if Run(u, calls, net, schedule) != Run(u, calls, net, before) then 1 else 0
  }

  /** In every schedule a waiting client has its answer by the time `Rank` steps have changed the net. */
  lemma CallIsAnswered<S(!new), Req(!new), Resp(!new)>(
      u: Setup<S, Req, Resp>, calls: seq<Req>, net: Net<S, Resp>, schedule: seq<Step>)
    requires Workable(u, calls) && Inv(u, calls, net) && Waiting(net)
    requires Productive(u, calls, net, schedule) >= Rank(u, calls, net)
    ensures Run(u, calls, net, schedule).Some?
    ensures var k := |net.answers|;
            && |Run(u, calls, net, schedule).value.answers| > k
            && Run(u, calls, net, schedule).value.answers[k] == AnswerAt(u, calls, k)
  {
    AnsweredOrCloser(u, calls, net, schedule);
  }

  lemma {:induction false} AnsweredOrCloser<S(!new), Req(!new), Resp(!new)>(
      u: Setup<S, Req, Resp>, calls: seq<Req>, net: Net<S, Resp>,
      schedule: seq<Step>)
    requires Workable(u, calls) && Inv(u, calls, net) && Waiting(net)
    ensures Run(u, calls, net, schedule).Some? && Inv(u, calls, Run(u, calls, net, schedule).value)
    ensures var end := Run(u, calls, net, schedule).value;
            || |end.answers| > |net.answers|
            || (end.sent == net.sent && end.answers == net.answers
                && Productive(u, calls, net, schedule) + Rank(u, calls, end) <= Rank(u, calls, net))
    decreases schedule
  {
    hide Next, Enabled, StateAt, AnswerAt, RoundTrips, Inv, Rank;
    if schedule != [] {
      var n := |schedule| - 1;
      AnsweredOrCloser(u, calls, net, schedule[..n]);
      var before := Run(u, calls, net, schedule[..n]).value;
      if Enabled(calls, before, schedule[n]) {
        StepKeepsInv(u, calls, before, schedule[n]);
        AnswersStay(u, calls, before, schedule[n]);
        if Next(u, calls, before, schedule[n]).value != before && before.answers == net.answers
          && before.sent == net.sent {
          StepLowersRank(u, calls, before, schedule[n]);
        }
      }
    }
  }

  lemma AnswersStay<S(!new), Req(!new), Resp(!new)>(
      u: Setup<S, Req, Resp>, calls: seq<Req>, net: Net<S, Resp>, step: Step)
    requires Enabled(calls, net, step) && Next(u, calls, net, step).Some?
    ensures net.answers <= Next(u, calls, net, step).value.answers
  {
  }

  /** At most the sizes of the two frames and four steps more. */
  lemma RankIsBounded<S(!new), Req(!new), Resp(!new)>(u: Setup<S, Req, Resp>, calls: seq<Req>, net: Net<S, Resp>)
    requires Workable(u, calls) && Inv(u, calls, net) && Waiting(net)
    ensures var k := |net.answers|;
            Rank(u, calls, net) <= |Frame(u.reqs.render(calls[k]))| + |Frame(u.resps.render(AnswerAt(u, calls, k)))| + 4
  {
    hide Frame, StateAt, AnswerAt, RoundTrips;
    assert |net.up| <= |Pending(net.server, net.serverBuffer) + net.up|;
    assert |net.down| <= |Pending(net.client, net.clientBuffer) + net.down|;
  }
}
