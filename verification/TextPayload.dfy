/** Payloads sent as text: each packet is framed as its length in decimal, a colon, and its text. */
module TextPayload {
  import opened JsText
  import opened EngineParser

  /** The runtime's `Number` on strings. */
  type ToNumber = JsString -> JsNumber

  // ---------- encoding ----------

  function LengthHeader(message: JsString): JsString {
    ToDecimal(|message|) + [COLON] + message
  }

  function Joined(ps: seq<Packet>): JsString {
    if ps == [] then [] else LengthHeader(EncodePacket(ps[0], false, false).text) + Joined(ps[1..])
  }

  function Encode(ps: seq<Packet>): JsString {
    if ps == [] then [ZERO, COLON] else Joined(ps)
  }

  /** The payload, spelled out: each message behind its length in decimal and a colon; `0:` when there is none. */
  lemma PayloadSpelled(p: Packet, ps: seq<Packet>)
    ensures Encode([]) == [48, 58]
    ensures var message := EncodePacket(p, false, false).text;
            Encode([p] + ps) == ToDecimal(|message|) + [58] + message + if ps == [] then [] else Encode(ps)
  {
    hide EncodePacket, ToDecimal;
    assert ([p] + ps)[0] == p && ([p] + ps)[1..] == ps;
    assert Joined(ps) == if ps == [] then [] else Encode(ps);
  }

  // ---------- decoding ----------

  /**
   * The packets handed to the callback while reading `rest`, `length` being the header text read so far.
   * `stops` says for which packets the callback asks to stop.
   */
  function DecodeFrom(rest: JsString, length: JsString, stops: Received -> bool, number: ToNumber): seq<Received>
    decreases |rest|
  {
    if rest == [] then
      if length != [] then [ParserError] else []
    else if rest[0] != COLON then
      DecodeFrom(rest[1..], length + [rest[0]], stops, number)
    else if length == [] || number(length).Other? then [ParserError]
    else
      var n := number(length).n;
      if n > |rest| - 1 then [ParserError]
      else if n == 0 then DecodeFrom(rest[1..], [], stops, number)
      else
        var packet := DecodePacket(TextFrame(rest[1..1 + n]), false);
        if packet == ParserError || stops(packet) then [packet]
        else [packet] + DecodeFrom(rest[1 + n..], [], stops, number)
  }

  function Decode(payload: JsString, stops: Received -> bool, number: ToNumber): seq<Received> {
    if payload == [] then [ParserError] else DecodeFrom(payload, [], stops, number)
  }

  /** `substr(start, n)` for a natural `n`: stops at the end of the string. */
  function Substr(s: JsString, start: nat, n: nat): JsString
    requires start <= |s|
  {
    if start + n <= |s| then s[start..start + n] else s[start..]
  }

  lemma SubstrOfRest(data: JsString, i: nat, n: nat)
    requires i < |data|
    ensures |Substr(data, i + 1, n)| == n <==> n <= |data| - i - 1
    ensures n <= |data| - i - 1 ==> Substr(data, i + 1, n) == data[i..][1..1 + n]
  {
  }

  /** One turn of the reader. */
  lemma DecodeFromStep(rest: JsString, length: JsString, stops: Received -> bool, number: ToNumber)
    requires rest != []
    ensures rest[0] != COLON ==>
              DecodeFrom(rest, length, stops, number) == DecodeFrom(rest[1..], length + [rest[0]], stops, number)
    ensures rest[0] == COLON && (length == [] || number(length).Other? || number(length).n > |rest| - 1) ==>
              DecodeFrom(rest, length, stops, number) == [ParserError]
    ensures rest[0] == COLON && length != [] && number(length).Natural? && number(length).n <= |rest| - 1 ==>
              var n := number(length).n;
              var packet := DecodePacket(TextFrame(rest[1..1 + n]), false);
              DecodeFrom(rest, length, stops, number)
              == if n == 0 then DecodeFrom(rest[1..], [], stops, number)
                 else if packet == ParserError || stops(packet) then [packet]
                 else [packet] + DecodeFrom(rest[1 + n..], [], stops, number)
  {
    hide DecodePacket;
  }

  lemma NothingLeft(length: JsString, stops: Received -> bool, number: ToNumber)
    ensures DecodeFrom([], length, stops, number) == if length != [] then [ParserError] else []
  {
  }

  method DecodeLoop(data: JsString, stops: Received -> bool, number: ToNumber) returns (called: seq<Received>)
    ensures called == Decode(data, stops, number)
  {
    hide DecodePacket, DecodeFrom, Substr;
    if data == [] {
      return [ParserError];
    }
    called := [];
    var length: JsString := [];
    var i := 0;
    assert data[0..] == data;
    while i < |data|
      invariant 0 <= i <= |data|
      invariant called + DecodeFrom(data[i..], length, stops, number) == DecodeFrom(data, [], stops, number)
    {
      ghost var rest := data[i..];
      DecodeFromStep(rest, length, stops, number);
      var chr := data[i];
      if chr == COLON {
        if length == [] || number(length) == NAN {
          return called + [ParserError];
        }
        if number(length).Natural? {
          SubstrOfRest(data, i, number(length).n);
        }
        var msg := if number(length).Natural? then Substr(data, i + 1, number(length).n) else [];
        if number(length) != Natural(|msg|) {
          return called + [ParserError];
        }
        var n := |msg|;
        if |msg| > 0 {
          assert msg == rest[1..1 + n];
          var packet := DecodePacket(TextFrame(msg), false);
          if packet == ParserError {
            return called + [ParserError];
          }
          Assoc(called, [packet], DecodeFrom(rest[1 + n..], [], stops, number));
          called := called + [packet];
          if stops(packet) {
            return;
          }
        }
        assert rest[1 + n..] == data[i + n + 1..];
        i := i + n;
        length := [];
      } else {
        length := length + [chr];
        assert rest[1..] == data[i + 1..];
      }
      i := i + 1;
    }
    assert data[i..] == [];
    NothingLeft(length, stops, number);
    if length != [] {
      called := called + [ParserError];
    }
  }

  // ---------- round trip ----------

  /** The deliveries up to and including the first one that stops the callback. */
  function UpTo(rs: seq<Received>, stops: Received -> bool): seq<Received> {
    if rs == [] then [] else if stops(rs[0]) then [rs[0]] else [rs[0]] + UpTo(rs[1..], stops)
  }

  function AllArrived(ps: seq<Packet>): seq<Received> {
    seq(|ps|, i requires 0 <= i < |ps| => Delivered(Arrived(ps[i])))
  }

  /** Everything in front of the reader up to a colon is taken into the header. */
  lemma {:induction false} ReadHeader(header: JsString, rest: JsString, length: JsString, stops: Received -> bool,
                                      number: ToNumber)
    requires COLON !in header
    ensures DecodeFrom(header + rest, length, stops, number) == DecodeFrom(rest, length + header, stops, number)
  {
    var s := header + rest;
    if header == [] {
      assert s == rest && length + header == length;
    } else {
      ReadHeader(header[1..], rest, length + [header[0]], stops, number);
      assert s[1..] == header[1..] + rest;
      Assoc(length, [header[0]], header[1..]);
      assert [header[0]] + header[1..] == header;
    }
  }

  /** A header is some text without a colon that `Number` reads as the length of the message. */
  predicate IsHeader(header: JsString, n: nat, number: ToNumber) {
    header != [] && COLON !in header && number(header) == Natural(n)
  }

  lemma DecimalHeader(n: nat, number: ToNumber)
    requires NumberLaws(number)
    ensures IsHeader(ToDecimal(n), n, number)
  {
    DecimalRoundTrip(n);
    NumberOfDecimal(number, n);
  }

  /** One framed message in front of the reader is read whole and nothing after it is touched. */
  lemma ReadFrame(header: JsString, message: JsString, rest: JsString, stops: Received -> bool, number: ToNumber)
    requires IsHeader(header, |message|, number)
    ensures DecodeFrom(header + [COLON] + message + rest, [], stops, number)
         == var packet := DecodePacket(TextFrame(message), false);
            if message == [] then DecodeFrom(rest, [], stops, number)
            else if packet == ParserError || stops(packet) then [packet]
            else [packet] + DecodeFrom(rest, [], stops, number)
  {
    hide DecodePacket;
    var tail := [COLON] + message + rest;
    assert header + [COLON] + message + rest == header + tail;
    ReadHeader(header, tail, [], stops, number);
    assert [] + header == header;
    assert tail[1..1 + |message|] == message && tail[1 + |message|..] == rest;
    assert message == [] ==> tail[1..] == rest;
  }

  lemma {:induction false} JoinedRoundTrip(ps: seq<Packet>, stops: Received -> bool, number: ToNumber)
    requires NumberLaws(number)
    ensures DecodeFrom(Joined(ps), [], stops, number) == UpTo(AllArrived(ps), stops)
  {
    hide DecodePacket, EncodePacket, ToDecimal, FromDecimal, IsHeader, Arrived;
    if ps == [] {
      assert AllArrived(ps) == [];
    } else {
      PlainPacketRoundTrip(ps[0]);
      var message := EncodePacket(ps[0], false, false).text;
      DecimalHeader(|message|, number);
      ReadFrame(ToDecimal(|message|), message, Joined(ps[1..]), stops, number);
      JoinedRoundTrip(ps[1..], stops, number);
      assert AllArrived(ps)[1..] == AllArrived(ps[1..]);
      hide DecodeFrom;
    }
  }

  /** Every list of packets arrives in order, until the callback stops; text that is empty arrives as no data. */
  lemma RoundTrip(ps: seq<Packet>, stops: Received -> bool, number: ToNumber)
    requires NumberLaws(number)
    ensures Decode(Encode(ps), stops, number) == UpTo(AllArrived(ps), stops)
  {
    hide EncodePacket, DecodePacket;
    if ps == [] {
      assert AllArrived(ps) == [];
      DecimalHeader(0, number);
      ReadFrame([ZERO], [], [], stops, number);
      assert [ZERO] + [COLON] + [] + [] == [ZERO, COLON];
    } else {
      JoinedRoundTrip(ps, stops, number);
    }
  }

  /** The list arrives unchanged exactly when no packet carries empty text. */
  lemma ExactRoundTrip(ps: seq<Packet>, number: ToNumber)
    requires NumberLaws(number)
    ensures Decode(Encode(ps), NEVER, number) == seq(|ps|, i requires 0 <= i < |ps| => Delivered(ps[i]))
       <==> forall i :: 0 <= i < |ps| ==> ps[i].data != Text([])
  {
    RoundTrip(ps, NEVER, number);
    UpToNever(AllArrived(ps));
    var same := seq(|ps|, i requires 0 <= i < |ps| => Delivered(ps[i]));
    if AllArrived(ps) == same {
      forall i | 0 <= i < |ps| ensures ps[i].data != Text([]) {
        assert AllArrived(ps)[i] == same[i];
      }
    }
  }

  lemma {:induction false} UpToNever(rs: seq<Received>)
    ensures UpTo(rs, NEVER) == rs
  {
    if rs != [] {
      UpToNever(rs[1..]);
    }
  }

  // ---------- any other text ----------

  /** `payload` is made of frames, one for each message: a header, a colon, the message. */
  ghost predicate Framed(payload: JsString, messages: seq<JsString>, number: ToNumber)
    decreases |messages|
  {
    if messages == [] then payload == []
    else exists k: nat ::
           FrameAt(payload, k, messages[0], number) && Framed(payload[k + 1 + |messages[0]|..], messages[1..], number)
  }

  /** A frame with a header of `k` units stands at the front. */
  predicate FrameAt(payload: JsString, k: nat, message: JsString, number: ToNumber) {
    && k + 1 + |message| <= |payload|
    && IsHeader(payload[..k], |message|, number)
    && payload[k] == COLON && payload[k + 1..k + 1 + |message|] == message
  }

  /** The packets in the messages that are not empty. */
  function Packets(messages: seq<JsString>): seq<Received> {
    if messages == [] then []
    else if messages[0] == [] then Packets(messages[1..])
    else [DecodePacket(TextFrame(messages[0]), false)] + Packets(messages[1..])
  }

  /** Every delivery but the last is a packet that let the reading go on. */
  predicate OnlyLastEnds(called: seq<Received>, stops: Received -> bool) {
    forall i :: 0 <= i < |called| - 1 ==> called[i] != ParserError && !stops(called[i])
  }

  lemma OnlyLastEndsCons(packet: Received, called: seq<Received>, stops: Received -> bool)
    requires packet != ParserError && !stops(packet) && OnlyLastEnds(called, stops)
    ensures OnlyLastEnds([packet] + called, stops)
  {
  }

  /** An error is reported at most once, as the last delivery. */
  lemma {:induction false} AtMostOneError(rest: JsString, length: JsString, stops: Received -> bool, number: ToNumber)
    ensures OnlyLastEnds(DecodeFrom(rest, length, stops, number), stops)
    decreases |rest|
  {
    hide DecodePacket, OnlyLastEnds;
    OneDelivery(stops);
    if rest != [] {
      if rest[0] != COLON {
        AtMostOneError(rest[1..], length + [rest[0]], stops, number);
      } else if length != [] && number(length).Natural? && number(length).n <= |rest| - 1 {
        var n := number(length).n;
        AtMostOneError(rest[1 + n..], [], stops, number);
        var packet := DecodePacket(TextFrame(rest[1..1 + n]), false);
        if packet != ParserError && !stops(packet) {
          OnlyLastEndsCons(packet, DecodeFrom(rest[1 + n..], [], stops, number), stops);
        }
      }
    }
  }

  lemma OneDelivery(stops: Received -> bool)
    ensures OnlyLastEnds([], stops)
    ensures forall packet: Received {:trigger [packet]} :: OnlyLastEnds([packet], stops)
  {
  }

  lemma FramedCons(header: JsString, rest: JsString, n: nat, more: seq<JsString>, number: ToNumber)
    requires IsHeader(header, n, number) && rest != [] && rest[0] == COLON
    requires n <= |rest| - 1 && Framed(rest[1 + n..], more, number)
    ensures Framed(header + rest, [rest[1..1 + n]] + more, number)
  {
    hide IsHeader;
    var payload := header + rest;
    var messages := [rest[1..1 + n]] + more;
    assert payload[..|header|] == header && payload[|header| + 1..|header| + 1 + n] == messages[0];
    assert payload[|header| + 1 + n..] == rest[1 + n..];
    assert messages[1..] == more;
    assert FrameAt(payload, |header|, messages[0], number);
  }

  const NEVER: Received -> bool := _ => false

  /** Text that is read without an error is framed, and what is delivered are the packets of its messages. */
  lemma {:induction false} ReadWithoutError(rest: JsString, length: JsString, number: ToNumber)
      returns (messages: seq<JsString>)
    requires COLON !in length && (rest == [] ==> length == [])
    requires ParserError !in DecodeFrom(rest, length, NEVER, number)
    ensures Framed(length + rest, messages, number) && DecodeFrom(rest, length, NEVER, number) == Packets(messages)
    decreases |rest|
  {
    hide DecodePacket, Framed;
    messages := [];
    if rest == [] {
      FramedNil(number);
      assert length + rest == [];
    } else if rest[0] != COLON {
      messages := ReadWithoutError(rest[1..], length + [rest[0]], number);
      assert length + [rest[0]] + rest[1..] == length + rest;
    } else {
      var n := number(length).n;
      var more := ReadWithoutError(rest[1 + n..], [], number);
      assert [] + rest[1 + n..] == rest[1 + n..];
      FramedCons(length, rest, n, more, number);
      messages := [rest[1..1 + n]] + more;
      assert messages[1..] == more;
    }
  }

  lemma FramedNil(number: ToNumber)
    ensures Framed([], [], number)
  {
  }

  lemma FramedHead(payload: JsString, messages: seq<JsString>, number: ToNumber) returns (k: nat)
    requires Framed(payload, messages, number) && messages != []
    ensures FrameAt(payload, k, messages[0], number) && Framed(payload[k + 1 + |messages[0]|..], messages[1..], number)
  {
    k :| FrameAt(payload, k, messages[0], number) && Framed(payload[k + 1 + |messages[0]|..], messages[1..], number);
  }

  lemma {:induction false} ReadFramed(payload: JsString, messages: seq<JsString>, number: ToNumber)
    requires Framed(payload, messages, number) && ParserError !in Packets(messages)
    ensures DecodeFrom(payload, [], NEVER, number) == Packets(messages)
    decreases |messages|
  {
    hide DecodePacket, FrameAt;
    if messages == [] {
      assert payload == [];
    } else {
      var k := FramedHead(payload, messages, number);
      ReadFrameAt(payload, k, messages[0], number);
      PacketsTail(messages);
      ReadFramed(payload[k + 1 + |messages[0]|..], messages[1..], number);
      hide DecodeFrom, Framed;
    }
  }

  lemma FrameParts(payload: JsString, k: nat, message: JsString)
    requires k + 1 + |message| <= |payload| && payload[k] == COLON && payload[k + 1..k + 1 + |message|] == message
    ensures payload == payload[..k] + [COLON] + message + payload[k + 1 + |message|..]
  {
    assert payload[k..] == [COLON] + payload[k + 1..];
    assert payload[k + 1..] == message + payload[k + 1 + |message|..];
  }

  lemma PacketsTail(messages: seq<JsString>)
    requires messages != [] && ParserError !in Packets(messages)
    ensures ParserError !in Packets(messages[1..])
    ensures messages[0] != [] ==> DecodePacket(TextFrame(messages[0]), false) != ParserError
  {
    hide DecodePacket;
    var rest := Packets(messages[1..]);
    if messages[0] != [] {
      var packet := DecodePacket(TextFrame(messages[0]), false);
      assert ([packet] + rest)[0] == packet && ([packet] + rest)[1..] == rest;
    }
  }

  lemma ReadFrameAt(payload: JsString, k: nat, message: JsString, number: ToNumber)
    requires FrameAt(payload, k, message, number)
    ensures k + 1 + |message| <= |payload|
    ensures var packet := DecodePacket(TextFrame(message), false);
            var rest := DecodeFrom(payload[k + 1 + |message|..], [], NEVER, number);
            DecodeFrom(payload, [], NEVER, number)
            == if message == [] then rest else if packet == ParserError then [packet] else [packet] + rest
  {
    hide DecodePacket, IsHeader, DecodeFrom;
    var rest := payload[k + 1 + |message|..];
    FrameParts(payload, k, message);
    ReadFrame(payload[..k], message, rest, NEVER, number);
  }

  /** A text is read without an error exactly when it is a non-empty row of frames whose messages are packets. */
  lemma AcceptsExactlyFrames(payload: JsString, number: ToNumber)
    ensures ParserError !in Decode(payload, NEVER, number)
       <==> payload != [] && exists messages :: Framed(payload, messages, number) && ParserError !in Packets(messages)
  {
    hide DecodePacket;
    if ParserError !in Decode(payload, NEVER, number) {
      var messages := ReadWithoutError(payload, [], number);
      assert [] + payload == payload;
    }
    if payload != [] {
      if messages :| Framed(payload, messages, number) && ParserError !in Packets(messages) {
        ReadFramed(payload, messages, number);
      }
    }
  }
}
