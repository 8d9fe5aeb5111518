/** The layers put together: what is called on one end, and what the other end's decoder emits. */
module Delivery {
  import opened JsText
  import EngineParser
  import TextPayload
  import Payload
  import EngineSocket
  import SocketHeader
  import SocketCodec
  import ManagerQueue

  type Frame = EngineParser.Frame
  type Received = EngineParser.Received

  /** The transport that a batch goes out on. */
  datatype Carrier = Polling | WebSocket

  /** A batch that is written: one payload on polling, one frame a packet on websocket. */
  datatype Wire = Payloaded(payload: Frame) | Framed(frames: seq<Frame>)

  function Write(carrier: Carrier, batch: seq<EngineParser.Packet>, supportsBinary: bool): Wire {
    match carrier
    case Polling => Payloaded(Payload.Encode(batch, supportsBinary))
    case WebSocket =>
      Framed(seq(|batch|, i requires 0 <= i < |batch| => EngineParser.EncodePacket(batch[i], supportsBinary, false)))
  }

  function Read(wire: Wire, number: TextPayload.ToNumber): seq<Received> {
    match wire
    case Payloaded(payload) => Payload.Decode(payload, TextPayload.NEVER, number)
    case Framed(frames) =>
      seq(|frames|, i requires 0 <= i < |frames| => EngineParser.DecodePacket(frames[i], false))
  }

  /** What is read of all batches, whichever carrier each of them has. */
  function ReadAll(carriers: seq<Carrier>, batches: seq<seq<EngineParser.Packet>>, supportsBinary: bool,
                   number: TextPayload.ToNumber): seq<Received>
    requires |carriers| == |batches|
    decreases |batches|
  {
    if batches == [] then []
    else
      var n := |batches| - 1;
      ReadAll(carriers[..n], batches[..n], supportsBinary, number)
      + Read(Write(carriers[n], batches[n], supportsBinary), number)
  }

  /** The frame of the manager that an engine packet carries, if it is a message. */
  function FrameOf(p: EngineParser.Packet): seq<SocketCodec.Message> {
    if p.ptype != EngineParser.Message then []
    else
      match p.data
      case NoData => []
      case Text(text) => [SocketCodec.TextMessage(text)]
      case Binary(bytes) => [SocketCodec.BinaryMessage(bytes)]
  }

  function FramesOf(ps: seq<EngineParser.Packet>): seq<SocketCodec.Message> {
    if ps == [] then [] else FrameOf(ps[0]) + FramesOf(ps[1..])
  }

  /** The frames that the engine hands on to the decoder. */
  function Arriving(rs: seq<Received>): seq<SocketCodec.Message> {
    if rs == [] then []
    else (if rs[0].Delivered? then FrameOf(rs[0].packet) else []) + Arriving(rs[1..])
  }

  function AllDelivered(ps: seq<EngineParser.Packet>): seq<Received> {
    seq(|ps|, i requires 0 <= i < |ps| => EngineParser.Delivered(ps[i]))
  }

  /** Messages with text or bytes carry a frame, and nothing else does. */
  lemma FrameOfSpelled(text: JsString, bytes: seq<Byte>, p: EngineParser.Packet)
    ensures FrameOf(EngineParser.Packet(EngineParser.Message, EngineParser.Text(text)))
         == [SocketCodec.TextMessage(text)]
    ensures FrameOf(EngineParser.Packet(EngineParser.Message, EngineParser.Binary(bytes)))
         == [SocketCodec.BinaryMessage(bytes)]
    ensures FrameOf(p) != [] <==> p.ptype == EngineParser.Message && p.data != EngineParser.NoData
  {
  }

  /** On polling a batch is one payload, on websocket each packet is a frame. */
  lemma WiresSpelled(batch: seq<EngineParser.Packet>, supportsBinary: bool, i: nat)
    requires i < |batch|
    ensures Write(Polling, batch, supportsBinary) == Payloaded(Payload.Encode(batch, supportsBinary))
    ensures var wire := Write(WebSocket, batch, supportsBinary);
            && wire.Framed? && |wire.frames| == |batch|
            && wire.frames[i] == EngineParser.EncodePacket(batch[i], supportsBinary, false)
  {
    hide Payload.Encode, EngineParser.EncodePacket;
  }

  // ---------- the engine's part ----------

  lemma WireRoundTrip(carrier: Carrier, batch: seq<EngineParser.Packet>, supportsBinary: bool,
                      number: TextPayload.ToNumber)
    requires NumberLaws(number) && Payload.CanFrame(batch, supportsBinary)
    requires forall p :: p in batch ==> Payload.IsClean(p)
    ensures Read(Write(carrier, batch, supportsBinary), number) == AllDelivered(batch)
  {
    hide Payload.Encode, Payload.Decode, Payload.CanFrame, Payload.IsClean, EngineParser.EncodePacket,
         EngineParser.DecodePacket, EngineParser.Arrived, EngineParser.Cleaned, NumberLaws;
    match carrier {
      case Polling =>
        Payload.CleanRoundTrip(batch, supportsBinary, number);
      case WebSocket =>
        forall i | 0 <= i < |batch|
          ensures EngineParser.DecodePacket(EngineParser.EncodePacket(batch[i], supportsBinary, false), false)
               == EngineParser.Delivered(batch[i])
        {
          EngineParser.FrameRoundTrip(batch[i], supportsBinary);
          Payload.CleanArrives(batch[i]);
        }
    }
  }

  lemma {:induction false} ReadsAll(carriers: seq<Carrier>, batches: seq<seq<EngineParser.Packet>>,
                                    supportsBinary: bool, number: TextPayload.ToNumber)
    requires |carriers| == |batches| && NumberLaws(number)
    requires forall i :: 0 <= i < |batches| ==> Payload.CanFrame(batches[i], supportsBinary)
    requires forall p :: p in EngineSocket.Flat(batches) ==> Payload.IsClean(p)
    ensures ReadAll(carriers, batches, supportsBinary, number) == AllDelivered(EngineSocket.Flat(batches))
    decreases |batches|
  {
    hide Read, Write, NumberLaws, Payload.CanFrame, Payload.IsClean;
    if batches != [] {
      var n := |batches| - 1;
      ReadsAll(carriers[..n], batches[..n], supportsBinary, number);
      WireRoundTrip(carriers[n], batches[n], supportsBinary, number);
    }
  }

  lemma {:induction false} ArrivingDelivered(ps: seq<EngineParser.Packet>)
    ensures Arriving(AllDelivered(ps)) == FramesOf(ps)
  {
    hide FrameOf;
    if ps != [] {
      ArrivingDelivered(ps[1..]);
      assert AllDelivered(ps)[1..] == AllDelivered(ps[1..]);
    }
  }

  lemma {:induction false} FramesOfSum(ps: seq<EngineParser.Packet>, qs: seq<EngineParser.Packet>)
    ensures FramesOf(ps + qs) == FramesOf(ps) + FramesOf(qs)
  {
    hide FrameOf;
    if ps == [] {
      assert ps + qs == qs;
    } else {
      FramesOfSum(ps[1..], qs);
      assert (ps + qs)[1..] == ps[1..] + qs;
      Assoc(FrameOf(ps[0]), FramesOf(ps[1..]), FramesOf(qs));
    }
  }

  /** Every packet accepted is clean, and every batch can be framed and has a carrier. */
  predicate IsSmooth(log: EngineSocket.Log, carriers: seq<Carrier>, supportsBinary: bool) {
    && |carriers| == |log.batches|
    && (forall i :: 0 <= i < |log.batches| ==> Payload.CanFrame(log.batches[i], supportsBinary))
    && (forall p :: p in log.accepted ==> Payload.IsClean(p))
  }

  /** The frames read at the other end are the first ones of those accepted, and all of them once all is written. */
  lemma FramesArrive(polling: bool, events: seq<EngineSocket.Event>, carriers: seq<Carrier>, supportsBinary: bool,
                     number: TextPayload.ToNumber)
    requires NumberLaws(number)
    ensures var log := EngineSocket.Run(EngineSocket.Start(polling), events).log;
            IsSmooth(log, carriers, supportsBinary) ==>
              var arriving := Arriving(ReadAll(carriers, log.batches, supportsBinary, number));
              && arriving <= FramesOf(log.accepted)
              && (EngineSocket.Flat(log.batches) == log.accepted ==> arriving == FramesOf(log.accepted))
  {
    hide *;
    EngineSocket.NoLossNoDuplicate(polling, events);
    var s := EngineSocket.Run(EngineSocket.Start(polling), events);
    var log, handed := s.log, EngineSocket.Flat(s.log.batches);
    var rest := if s.ready == EngineSocket.Closed then log.dropped else EngineSocket.Rest(s);
    assert handed + rest == log.accepted;
    if IsSmooth(log, carriers, supportsBinary) {
      SmoothParts(log, carriers, supportsBinary);
      assert forall p :: p in handed ==> p in handed + rest;
      ReadsAll(carriers, log.batches, supportsBinary, number);
      ArrivingDelivered(handed);
      FramesOfSum(handed, rest);
    }
  }

  lemma SmoothParts(log: EngineSocket.Log, carriers: seq<Carrier>, supportsBinary: bool)
    requires IsSmooth(log, carriers, supportsBinary)
    ensures |carriers| == |log.batches|
    ensures forall i :: 0 <= i < |log.batches| ==> Payload.CanFrame(log.batches[i], supportsBinary)
    ensures forall p :: p in log.accepted ==> Payload.IsClean(p)
  {
    hide Payload.CanFrame, Payload.IsClean;
  }

  // ---------- from the calls to the other end ----------

  lemma NumberIsLawful(js: SocketHeader.Runtime)
    requires SocketHeader.RuntimeLaws(js)
    ensures NumberLaws(js.number)
  {
  }

  lemma DoneAreCalled(m: ManagerQueue.State)
    ensures ManagerQueue.DoneCount(m) <= |m.called|
    ensures m.outstanding == [] && m.packetBuffer == [] ==> ManagerQueue.DoneCount(m) == |m.called|
  {
  }

  lemma SentPrefix(calls: seq<ManagerQueue.Call>, n: nat)
    requires n <= |calls|
    ensures |ManagerQueue.AllSent(calls)| == |calls| && |ManagerQueue.AllSent(calls[..n])| == n
    ensures forall i :: 0 <= i < n ==> ManagerQueue.AllSent(calls[..n])[i] == ManagerQueue.AllSent(calls)[i]
  {
    hide ManagerQueue.Sent;
  }

  lemma EmergingInOrder(calls: seq<ManagerQueue.Call>, n: nat)
    requires n <= |calls|
    ensures SocketCodec.AllEmerging(ManagerQueue.AllSent(calls[..n]))
         <= SocketCodec.AllEmerging(ManagerQueue.AllSent(calls))
  {
    hide SocketCodec.Emerging, ManagerQueue.Sent;
  }

  /** The manager's connection did not begin with an encoding cut short, and the engine is given its frames. */
  predicate Connects(js: SocketHeader.Runtime, m: ManagerQueue.State, log: EngineSocket.Log) {
    && !m.stale && FramesOf(log.accepted) <= m.written
    && SocketCodec.AllReadable(js, ManagerQueue.AllSent(m.called))
  }

  /** Everything called is encoded, accepted by the engine and handed over. */
  predicate IsDone(m: ManagerQueue.State, log: EngineSocket.Log) {
    !m.encoding && FramesOf(log.accepted) == m.written && EngineSocket.Flat(log.batches) == log.accepted
  }

  /** A prefix of one packet for each call, in the order of the calls; with everything done, one for every call. */
  predicate InCallOrder(m: ManagerQueue.State, emitted: Option<seq<SocketHeader.Packet>>, isDone: bool) {
    var ps := SocketCodec.AllEmerging(ManagerQueue.AllSent(m.called));
    emitted.Some? && emitted.value <= ps && (isDone ==> emitted.value == ps)
  }

  /** The first of the frames written make the decoder emit the packets of the first calls. */
  lemma EmittedInOrder(js: SocketHeader.Runtime, m: ManagerQueue.State, arriving: seq<SocketCodec.Message>,
                       state: Option<SocketCodec.Reconstructor>)
    requires SocketHeader.RuntimeLaws(js) && SocketCodec.AllReadable(js, ManagerQueue.AllSent(m.called))
    requires 0 <= ManagerQueue.DoneCount(m) <= |m.called| && arriving <= m.written
    requires m.written
          == SocketCodec.EncodeAll(js, ManagerQueue.AllSent(m.called[..ManagerQueue.DoneCount(m)]))
    ensures InCallOrder(m, SocketCodec.Run(js, state, arriving).emitted,
                        arriving == m.written && ManagerQueue.DoneCount(m) == |m.called|)
  {
    var n, rest := ManagerQueue.DoneCount(m), m.written[|arriving|..];
    var done := ManagerQueue.AllSent(m.called[..n]);
    SentPrefix(m.called, n);
    assert forall i :: 0 <= i < |done| ==> SocketCodec.IsReadable(js, done[i]);
    hide *;
    SocketCodec.StreamRun(js, state, done);
    EmergingInOrder(m.called, n);
    assert arriving + rest == m.written;
    SocketCodec.RunOfPrefix(js, state, arriving, rest);
    assert n == |m.called| ==> m.called[..n] == m.called;
  }

  /**
   * Whatever the manager and the engine are doing and whichever carriers the batches have had, on a connection that
   * did not begin with an encoding cut short: while the messages the engine accepted are the first of the frames
   * written to it, the decoder at the other end has emitted the packets of the first calls, in the order of the calls,
   * none lost, none twice and none mixed with another. Once everything is encoded, accepted and handed over, it has
   * emitted one for every call.
   */
  lemma DeliveredInCallOrder(js: SocketHeader.Runtime, calls: seq<ManagerQueue.Event>,
                             polling: bool, events: seq<EngineSocket.Event>, carriers: seq<Carrier>,
                             supportsBinary: bool, state: Option<SocketCodec.Reconstructor>)
    requires SocketHeader.RuntimeLaws(js)
    ensures var m := ManagerQueue.Run(js, ManagerQueue.INITIAL, calls);
            var log := EngineSocket.Run(EngineSocket.Start(polling), events).log;
            Connects(js, m, log) && IsSmooth(log, carriers, supportsBinary) ==>
              var arriving := Arriving(ReadAll(carriers, log.batches, supportsBinary, js.number));
              InCallOrder(m, SocketCodec.Run(js, state, arriving).emitted, IsDone(m, log))
  {
    NumberIsLawful(js);
    ManagerQueue.FramesInCallOrder(js, calls);
    FramesArrive(polling, events, carriers, supportsBinary, js.number);
    hide *;
    var m := ManagerQueue.Run(js, ManagerQueue.INITIAL, calls);
    var log := EngineSocket.Run(EngineSocket.Start(polling), events).log;
    if Connects(js, m, log) && IsSmooth(log, carriers, supportsBinary) {
      SmoothParts(log, carriers, supportsBinary);
      var arriving := Arriving(ReadAll(carriers, log.batches, supportsBinary, js.number));
      ConnectsParts(js, m, log);
      DoneAreCalled(m);
      EmittedInOrder(js, m, arriving, state);
      DoneIsSooner(m, SocketCodec.Run(js, state, arriving).emitted, IsDone(m, log),
                   arriving == m.written && ManagerQueue.DoneCount(m) == |m.called|);
    }
  }

  lemma ConnectsParts(js: SocketHeader.Runtime, m: ManagerQueue.State, log: EngineSocket.Log)
    requires Connects(js, m, log)
    ensures !m.stale && FramesOf(log.accepted) <= m.written
    ensures SocketCodec.AllReadable(js, ManagerQueue.AllSent(m.called))
    ensures IsDone(m, log) ==>
              !m.encoding && FramesOf(log.accepted) == m.written && EngineSocket.Flat(log.batches) == log.accepted
  {
    hide SocketCodec.AllReadable, ManagerQueue.AllSent, FramesOf;
  }

  lemma DoneIsSooner(m: ManagerQueue.State, emitted: Option<seq<SocketHeader.Packet>>, isDone: bool, sooner: bool)
    requires InCallOrder(m, emitted, sooner) && (isDone ==> sooner)
    ensures InCallOrder(m, emitted, isDone)
  {
  }
}
