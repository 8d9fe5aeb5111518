/** Engine.io packets and the two ways to frame a list of them in one message. */
module EngineParser {
  import opened JsText
  import Utf8
  import Base64

  datatype PacketType = Open | Close | Ping | Pong | Message | Upgrade | Noop

  datatype Data = NoData | Text(text: JsString) | Binary(bytes: seq<Byte>)

  datatype Packet = Packet(ptype: PacketType, data: Data)

  /** What a decoder hands on: a packet, a packet whose type code is unknown, or the parser-error packet. */
  datatype Received = Delivered(packet: Packet) | Untyped(data: Data) | ParserError

  /** An encoded packet or a whole payload: a string or a byte buffer. */
  datatype Frame = TextFrame(text: JsString) | BinaryFrame(bytes: seq<Byte>)

  const LETTER_B: Unit := 98

  function Code(t: PacketType): Byte {
    match t
    case Open => 0 case Close => 1 case Ping => 2 case Pong => 3 case Message => 4 case Upgrade => 5 case Noop => 6
  }

  function TypeOf(code: int): Option<PacketType> {
    if code == 0 then Some(Open) else if code == 1 then Some(Close) else if code == 2 then Some(Ping)
    else if code == 3 then Some(Pong) else if code == 4 then Some(Message) else if code == 5 then Some(Upgrade)
    else if code == 6 then Some(Noop) else None
  }

  function WithType(t: Option<PacketType>, data: Data): Received {
    if t.Some? then Delivered(Packet(t.value, data)) else Untyped(data)
  }

  // ---------- single packets ----------

  function EncodePacket(p: Packet, supportsBinary: bool, utf8: bool): Frame {
    match p.data
    case Binary(bytes) =>
      if supportsBinary then BinaryFrame([Code(p.ptype)] + bytes)
      else TextFrame([LETTER_B, ZERO + Code(p.ptype)] + Base64.Encode(bytes))
    case Text(text) =>
      TextFrame([ZERO + Code(p.ptype)] + if utf8 then Utf8.Encode(text, false).value else text)
    case NoData =>
      TextFrame([ZERO + Code(p.ptype)])
  }

  function DecodePacket(frame: Frame, utf8: bool): Received {
    match frame
    case TextFrame(text) =>
      if text != [] && text[0] == LETTER_B then DecodeBase64Packet(text[1..])
      else if utf8 then
        var decoded := Utf8.Decode(text, false);
        if decoded.Throws? then ParserError else DecodeTextPacket(decoded.value)
      else DecodeTextPacket(text)
    case BinaryFrame(bytes) =>
      if bytes == [] then Untyped(Binary([])) else WithType(TypeOf(bytes[0]), Binary(bytes[1..]))
  }

  function DecodeTextPacket(text: JsString): Received {
    if text == [] || TypeOf(text[0] - ZERO).None? then ParserError
    else Delivered(Packet(TypeOf(text[0] - ZERO).value, if |text| > 1 then Text(text[1..]) else NoData))
  }

  function DecodeBase64Packet(text: JsString): Received {
    if text == [] then Untyped(Binary(Base64.Decode([])))
    else WithType(TypeOf(text[0] - ZERO), Binary(Base64.Decode(text[1..])))
  }

  /** What arrives of a packet that travels as plain text: empty text becomes no data. */
  function Arrived(p: Packet): Packet {
    if p.data == Text([]) then p.(data := NoData) else p
  }

  /** What arrives of a packet that travels as UTF-8: lone surrogates are replaced as well. */
  function Cleaned(p: Packet): Packet {
    if p.data.Text? && p.data.text != [] then p.(data := Text(Utf8.Sanitized(p.data.text))) else Arrived(p)
  }

  lemma CodeRoundTrip(t: PacketType)
    ensures TypeOf(Code(t)) == Some(t) && Code(t) < 10
  {
  }

  /** The frame, spelled out: the digit of the type as a character, or as a byte in front of binary data. */
  lemma FrameSpelled(p: Packet, supportsBinary: bool)
    ensures var n := match p.ptype
                     case Open => 0 case Close => 1 case Ping => 2 case Pong => 3 case Message => 4 case Upgrade => 5
                     case Noop => 6;
            EncodePacket(p, supportsBinary, false)
            == match p.data
               case NoData => TextFrame([48 + n])
               case Text(text) => TextFrame([48 + n] + text)
               case Binary(bytes) =>
                 if supportsBinary then BinaryFrame([n] + bytes) else TextFrame([98, 48 + n] + Base64.Encode(bytes))
  {
    hide Base64.Encode;
  }

  /** What does not name a type: text without a digit from 0 to 6 in front is an error, other bytes have no type. */
  lemma UntypedFrames(u: Unit, text: JsString, byte: Byte, bytes: seq<Byte>)
    requires u != 98 && !(48 <= u <= 54) && byte > 6
    ensures DecodePacket(TextFrame([]), false) == DecodePacket(TextFrame([u] + text), false) == ParserError
    ensures DecodePacket(BinaryFrame([byte] + bytes), false) == Untyped(Binary(bytes))
    ensures DecodePacket(BinaryFrame([]), false) == Untyped(Binary([]))
    ensures DecodePacket(TextFrame([98, u] + text), false) == Untyped(Binary(Base64.Decode(text)))
  {
    hide Base64.Decode;
    assert ([98, u] + text)[1..] == [u] + text && ([u] + text)[1..] == text && ([byte] + bytes)[1..] == bytes;
  }

  lemma PlainPacketRoundTrip(p: Packet)
    ensures EncodePacket(p, false, false).TextFrame? && EncodePacket(p, false, false).text != []
    ensures DecodePacket(EncodePacket(p, false, false), false) == Delivered(Arrived(p))
  {
    hide Code, TypeOf, Base64.Encode, Base64.Decode;
    CodeRoundTrip(p.ptype);
    var frame := EncodePacket(p, false, false);
    match p.data {
      case Binary(bytes) =>
        Base64.RoundTrip(bytes);
        assert frame.text[1..] == [ZERO + Code(p.ptype)] + Base64.Encode(bytes);
        assert frame.text[1..][1..] == Base64.Encode(bytes);
      case Text(text) =>
        assert frame.text[1..] == text;
      case NoData =>
    }
  }

  /** A packet sent as a frame of its own, binary data as bytes where that is supported. */
  lemma FrameRoundTrip(p: Packet, supportsBinary: bool)
    ensures DecodePacket(EncodePacket(p, supportsBinary, false), false) == Delivered(Arrived(p))
  {
    CodeRoundTrip(p.ptype);
    PlainPacketRoundTrip(p);
    hide TypeOf, Base64.Encode, Base64.Decode;
    if p.data.Binary? && supportsBinary {
      assert EncodePacket(p, true, false).bytes[1..] == p.data.bytes;
    }
  }

  lemma Utf8PacketRoundTrip(p: Packet)
    ensures var frame := EncodePacket(p, true, true);
            && (frame.TextFrame? ==> frame.text != [] && IsByteString(frame.text))
            && (frame.BinaryFrame? ==> frame.bytes != [])
            && DecodePacket(frame, true) == Delivered(Cleaned(p))
  {
    hide Code, TypeOf, Utf8.Encode, Utf8.Decode;
    CodeRoundTrip(p.ptype);
    var frame := EncodePacket(p, true, true);
    var head: JsString := [ZERO + Code(p.ptype)];
    match p.data {
      case Binary(bytes) =>
        assert frame.bytes[1..] == bytes;
      case Text(text) =>
        Utf8Headed(head[0], text);
        assert Utf8.Sanitized(head + text)[1..] == Utf8.Sanitized(text);
      case NoData =>
        Utf8Headed(head[0], []);
        Utf8.EncodeEmpty();
        assert head + [] == head && Utf8.Sanitized([]) == [];
    }
  }

  /** A type digit in front of the text passes through the UTF-8 codec unchanged. */
  lemma Utf8Headed(digit: Unit, text: JsString)
    requires ZERO <= digit < ZERO + 10
    ensures Utf8.Encode(text, false).Ok? && IsByteString([digit] + Utf8.Encode(text, false).value)
    ensures Utf8.Decode([digit] + Utf8.Encode(text, false).value, false) == Ok([digit] + Utf8.Sanitized(text))
  {
    var s := [digit] + text;
    var cs := Utf8.Ucs2Decode(text);
    assert s[1..] == text;
    assert Utf8.Ucs2Decode(s) == [digit] + cs;
    assert Utf8.Scalars([digit] + cs) == [digit] + Utf8.Scalars(cs);
    assert ([digit] + Utf8.Scalars(cs))[1..] == Utf8.Scalars(cs);
    assert Utf8.Shortest(digit) == [digit];
    assert Utf8.Encode(s, false) == Ok([digit] + Utf8.Encode(text, false).value);
    Utf8.EncodeIsBytes(s, false);
    Utf8.LooseRoundTrip(s);
    Utf8.SanitizedAfterCut(s, 1);
    assert Utf8.Sanitized(s)[..1] == [digit];
  }
}
