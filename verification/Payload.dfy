/** The payload codec: text framing unless binary may be sent and is there to send. */
module Payload {
  import opened JsText
  import opened EngineParser
  import TextPayload
  import Utf8
  import BinaryPayload

  predicate HasBinary(ps: seq<Packet>) {
    exists i :: 0 <= i < |ps| && ps[i].data.Binary?
  }

  function Encode(ps: seq<Packet>, supportsBinary: bool): Frame {
    if supportsBinary && HasBinary(ps) then BinaryFrame(BinaryPayload.Encode(ps)) else TextFrame(TextPayload.Encode(ps))
  }

  function Decode(payload: Frame, stops: Received -> bool, number: TextPayload.ToNumber): seq<Received> {
    match payload
    case TextFrame(text) => TextPayload.Decode(text, stops, number)
    case BinaryFrame(bytes) => BinaryPayload.Decode(bytes)
  }

  /** Binary framing, if chosen, can spell the length of every frame. */
  predicate CanFrame(ps: seq<Packet>, supportsBinary: bool) {
    supportsBinary && HasBinary(ps) ==> BinaryPayload.AllFit(BinaryPayload.Frames(ps))
  }

  /** The payload is binary exactly when binary may be sent and some packet of the list carries binary data. */
  lemma FramingChosen(ps: seq<Packet>, supportsBinary: bool)
    ensures Encode(ps, supportsBinary).BinaryFrame? <==> supportsBinary && exists p :: p in ps && p.data.Binary?
    ensures Encode(ps, supportsBinary)
         == if Encode(ps, supportsBinary).BinaryFrame? then BinaryFrame(BinaryPayload.Encode(ps))
            else TextFrame(TextPayload.Encode(ps))
  {
    hide BinaryPayload.Encode, TextPayload.Encode;
    if p :| p in ps && p.data.Binary? {
      var i :| 0 <= i < |ps| && ps[i] == p;
      assert ps[i].data.Binary?;
    }
  }

  /** Every list of packets arrives as the framing that carries it promises, and if it cannot be framed as one error. */
  lemma RoundTrip(ps: seq<Packet>, supportsBinary: bool, stops: Received -> bool, number: TextPayload.ToNumber)
    requires NumberLaws(number)
    ensures Decode(Encode(ps, supportsBinary), stops, number)
         == if !CanFrame(ps, supportsBinary) then [ParserError]
            else if supportsBinary && HasBinary(ps) then BinaryPayload.AllCleaned(ps)
            else TextPayload.UpTo(TextPayload.AllArrived(ps), stops)
  {
    hide BinaryPayload.AllFit, BinaryPayload.Frames;
    BinaryPayload.RoundTrip(ps);
    TextPayload.RoundTrip(ps, stops, number);
  }

  /** Packets whose text is neither empty nor broken UTF-16. */
  predicate IsClean(p: Packet) {
    p.data.Text? ==> p.data.text != [] && !Utf8.HasLone(p.data.text)
  }

  lemma CleanArrives(p: Packet)
    requires IsClean(p)
    ensures Cleaned(p) == p == Arrived(p)
  {
    if p.data.Text? {
      Utf8.NoneLone(p.data.text);
    }
  }

  /** Clean packets arrive unchanged whichever framing is chosen. */
  lemma CleanRoundTrip(ps: seq<Packet>, supportsBinary: bool, number: TextPayload.ToNumber)
    requires NumberLaws(number) && CanFrame(ps, supportsBinary)
    requires forall i :: 0 <= i < |ps| ==> IsClean(ps[i])
    ensures Decode(Encode(ps, supportsBinary), TextPayload.NEVER, number)
         == seq(|ps|, i requires 0 <= i < |ps| => Delivered(ps[i]))
  {
    hide CanFrame, IsClean, Cleaned, Arrived, Encode, Decode;
    RoundTrip(ps, supportsBinary, TextPayload.NEVER, number);
    TextPayload.UpToNever(TextPayload.AllArrived(ps));
    forall i | 0 <= i < |ps| ensures Cleaned(ps[i]) == ps[i] == Arrived(ps[i]) {
      CleanArrives(ps[i]);
    }
  }
}
