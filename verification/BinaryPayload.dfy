/** Payloads sent as bytes: each packet is framed as a marker, its length as decimal digits, 255, and its bytes. */
module BinaryPayload {
  import opened JsText
  import opened EngineParser

  const END: Byte := 255

  // ---------- encoding ----------

  function FrameBytes(frame: Frame): seq<Byte> {
    match frame
    case TextFrame(text) => BytesOf(text)
    case BinaryFrame(bytes) => bytes
  }

  function DigitBytes(s: JsString): seq<Byte>
    requires IsNumeral(s)
  {
    seq(|s|, i requires 0 <= i < |s| => s[i] - ZERO)
  }

  function LengthBytes(n: nat): seq<Byte> {
    DecimalRoundTrip(n);
    DigitBytes(ToDecimal(n))
  }

  function Marked(frame: Frame): seq<Byte> {
    [if frame.TextFrame? then 0 else 1] + LengthBytes(|FrameBytes(frame)|) + [END] + FrameBytes(frame)
  }

  function Concatenated(frames: seq<Frame>): seq<Byte> {
    if frames == [] then [] else Marked(frames[0]) + Concatenated(frames[1..])
  }

  function Frames(ps: seq<Packet>): seq<Frame> {
    seq(|ps|, i requires 0 <= i < |ps| => EncodePacket(ps[i], true, true))
  }

  function Encode(ps: seq<Packet>): seq<Byte> {
    Concatenated(Frames(ps))
  }

  /** The payload, spelled out: 0 for text or 1 for bytes, the digits of the length as numbers, 255, the contents. */
  lemma PayloadSpelled(p: Packet, ps: seq<Packet>)
    ensures Encode([]) == []
    ensures var frame := EncodePacket(p, true, true);
            var contents := if frame.TextFrame? then BytesOf(frame.text) else frame.bytes;
            var digits := ToDecimal(|contents|);
            var length := seq(|digits|, i requires 0 <= i < |digits| => digits[i] as int - 48);
            Encode([p] + ps) == [if frame.TextFrame? then 0 else 1] + length + [255] + contents + Encode(ps)
  {
    hide EncodePacket, ToDecimal, BytesOf;
    var frame := EncodePacket(p, true, true);
    assert Frames([p] + ps)[0] == frame && Frames([p] + ps)[1..] == Frames(ps);
    assert Frames([]) == [];
  }

  /** The number of bytes one frame takes in the result array. */
  function FrameLength(frame: Frame): nat {
    var n := |FrameBytes(frame)|;
    |ToDecimal(n)| + n + 2
  }

  function TotalLength(frames: seq<Frame>): nat {
    if frames == [] then 0 else FrameLength(frames[0]) + TotalLength(frames[1..])
  }

  lemma {:induction false} ConcatenatedLength(frames: seq<Frame>)
    ensures |Concatenated(frames)| == TotalLength(frames)
  {
    if frames != [] {
      ConcatenatedLength(frames[1..]);
    }
  }

  /** Copies `bytes` into the result array at the cursor. */
  method Copy(resultArray: array<Byte>, bufferIndex: nat, bytes: seq<Byte>)
    requires bufferIndex + |bytes| <= resultArray.Length
    modifies resultArray
    ensures resultArray[..bufferIndex + |bytes|] == old(resultArray[..bufferIndex]) + bytes
  {
    var i := 0;
    while i < |bytes|
      invariant 0 <= i <= |bytes|
      invariant resultArray[..bufferIndex + i] == old(resultArray[..bufferIndex]) + bytes[..i]
    {
      resultArray[bufferIndex + i] := bytes[i];
      i := i + 1;
    }
    assert bytes[..i] == bytes;
  }

  /** Writes one frame at the cursor and returns the cursor after it. */
  method PutFrame(resultArray: array<Byte>, start: nat, p: Frame) returns (bufferIndex: nat)
    requires start + FrameLength(p) <= resultArray.Length
    modifies resultArray
    ensures bufferIndex == start + FrameLength(p)
    ensures resultArray[..bufferIndex] == old(resultArray[..start]) + Marked(p)
  {
    hide FrameBytes, DigitBytes;
    bufferIndex := start;
    var ab := FrameBytes(p);
    var lenStr := LengthBytes(|ab|);
    LengthBytesLength(|ab|);
    ghost var marker: Byte := if p.TextFrame? then 0 else 1;
    ghost var done := resultArray[..start];
    resultArray[bufferIndex] := if p.TextFrame? then 0 else 1;
    bufferIndex := bufferIndex + 1;
    assert resultArray[..bufferIndex] == done + [marker];
    Copy(resultArray, bufferIndex, lenStr);
    bufferIndex := bufferIndex + |lenStr|;
    assert resultArray[..bufferIndex] == done + [marker] + lenStr;
    resultArray[bufferIndex] := END;
    bufferIndex := bufferIndex + 1;
    assert resultArray[..bufferIndex] == done + [marker] + lenStr + [END];
    Copy(resultArray, bufferIndex, ab);
    bufferIndex := bufferIndex + |ab|;
    assert done + [marker] + lenStr + [END] + ab == done + ([marker] + lenStr + [END] + ab);
  }

  lemma LengthBytesLength(n: nat)
    ensures |LengthBytes(n)| == |ToDecimal(n)|
  {
  }

  method TotalLengthLoop(encodedPackets: seq<Frame>) returns (totalLength: nat)
    ensures totalLength == TotalLength(encodedPackets)
  {
    totalLength := 0;
    var k := 0;
    while k < |encodedPackets|
      invariant 0 <= k <= |encodedPackets|
      invariant totalLength + TotalLength(encodedPackets[k..]) == TotalLength(encodedPackets)
    {
      assert encodedPackets[k..][1..] == encodedPackets[k + 1..];
      var len := |FrameBytes(encodedPackets[k])|;
      totalLength := totalLength + |ToDecimal(len)| + len + 2;
      k := k + 1;
    }
  }

  method EncodeLoop(encodedPackets: seq<Frame>) returns (resultArray: array<Byte>)
    ensures fresh(resultArray) && resultArray[..] == Concatenated(encodedPackets)
  {
    hide FrameLength, Marked;
    ConcatenatedLength(encodedPackets);
    var totalLength := TotalLengthLoop(encodedPackets);
    resultArray := new Byte[totalLength](_ => 0);
    var bufferIndex: nat, k: nat := 0, 0;
    while k < |encodedPackets|
      invariant 0 <= k <= |encodedPackets| && fresh(resultArray) && resultArray.Length == totalLength
      invariant 0 <= bufferIndex && bufferIndex + TotalLength(encodedPackets[k..]) == totalLength
      invariant resultArray[..bufferIndex] + Concatenated(encodedPackets[k..]) == Concatenated(encodedPackets)
    {
      ghost var done, rest := resultArray[..bufferIndex], Concatenated(encodedPackets[k + 1..]);
      assert encodedPackets[k..][1..] == encodedPackets[k + 1..];
      bufferIndex := PutFrame(resultArray, bufferIndex, encodedPackets[k]);
      Assoc(done, Marked(encodedPackets[k]), rest);
      k := k + 1;
    }
    assert encodedPackets[k..] == [] && resultArray[..bufferIndex] == resultArray[..];
  }

  // ---------- decoding ----------

  /** The buffer slice helper: an absent, zero or not-a-number start is 0, and such an end is the length. */
  function Slice(buffer: seq<Byte>, start: nat, end: Option<nat>): seq<Byte> {
    var n := if end.None? || end.value == 0 || end.value > |buffer| then |buffer| else end.value;
    if start >= n then [] else buffer[start..n]
  }

  /**
   * Reads the length header from index `p` on: the decimal text of each element is appended until 255 is met.
   * Reading past the end appends "undefined"; more than 310 units give up.
   */
  function ReadHeader(tail: seq<Byte>, p: nat, msgLength: JsString): Option<JsString>
    decreases 311 - |msgLength|
  {
    if p < |tail| && tail[p] == END then Some(msgLength)
    else if |msgLength| > 310 then None
    else
      var text := if p < |tail| then ToDecimal(tail[p]) else UNDEFINED;
      if text == [] then None else ReadHeader(tail, p + 1, msgLength + text)
  }

  /** `parseInt` of a header, which is all digits when the header ended on 255: not a number when empty. */
  function ParseInt(s: JsString): Option<nat> {
    if s == [] || !IsNumeral(s) then None else Some(FromDecimal(s))
  }

  /** The packets of a buffer, still encoded; `None` when a header gives up. */
  function Split(buffer: seq<Byte>): Option<seq<Frame>>
    decreases |buffer|
  {
    if buffer == [] then Some([])
    else
      var header := ReadHeader(buffer, 1, []);
      if header.None? then None
      else
        var rest, length := Slice(buffer, 2 + |header.value|, None), ParseInt(header.value);
        var msg := Slice(rest, 0, length);
        Prepended([if buffer[0] == 0 then TextFrame(UnitsOf(msg)) else BinaryFrame(msg)],
                  Split(Slice(rest, if length.None? then 0 else length.value, None)))
  }

  function Prepended(done: seq<Frame>, more: Option<seq<Frame>>): Option<seq<Frame>> {
    if more.None? then None else Some(done + more.value)
  }

  function Decode(data: seq<Byte>): seq<Received> {
    var frames := Split(data);
    if frames.None? then [ParserError] else DecodeAll(frames.value)
  }

  function DecodeAll(frames: seq<Frame>): seq<Received> {
    seq(|frames|, i requires 0 <= i < |frames| => DecodePacket(frames[i], true))
  }

  method ReadHeaderLoop(tailArray: seq<Byte>) returns (r: Option<JsString>)
    ensures r == ReadHeader(tailArray, 1, [])
  {
    var msgLength, i := [], 1;
    while !(i < |tailArray| && tailArray[i] == END)
      invariant ReadHeader(tailArray, i, msgLength) == ReadHeader(tailArray, 1, [])
      decreases 311 - |msgLength|
    {
      if |msgLength| > 310 {
        return None;
      }
      if i < |tailArray| {
        DecimalRoundTrip(tailArray[i]);
      }
      msgLength := msgLength + if i < |tailArray| then ToDecimal(tailArray[i]) else UNDEFINED;
      i := i + 1;
    }
    return Some(msgLength);
  }

  method DecodeLoop(data: seq<Byte>) returns (called: seq<Received>)
    ensures called == Decode(data)
  {
    hide ReadHeader, Slice, ParseInt;
    var bufferTail, buffers: seq<Frame> := data, [];
    PrependedNil(Split(data));
    while |bufferTail| > 0
      invariant Split(data) == Prepended(buffers, Split(bufferTail))
      decreases |bufferTail|
    {
      var tailArray, isString := bufferTail, bufferTail[0] == 0;
      var header := ReadHeaderLoop(tailArray);
      if header.None? {
        return [ParserError];
      }
      var msgLength := header.value;
      bufferTail := Slice(bufferTail, 2 + |msgLength|, None);
      var length := ParseInt(msgLength);
      var msg := Slice(bufferTail, 0, length);
      var frame := if isString then TextFrame(UnitsOf(msg)) else BinaryFrame(msg);
      SliceShorter(tailArray, 2 + |msgLength|);
      SliceShorter(bufferTail, if length.None? then 0 else length.value);
      bufferTail := Slice(bufferTail, if length.None? then 0 else length.value, None);
      PrependedStep(buffers, frame, Split(bufferTail));
      buffers := buffers + [frame];
    }
    assert buffers + [] == buffers;
    called := DeliverAll(buffers);
  }

  lemma SliceShorter(buffer: seq<Byte>, start: nat)
    ensures |Slice(buffer, start, None)| <= |buffer|
    ensures start > 0 && buffer != [] ==> |Slice(buffer, start, None)| < |buffer|
  {
  }

  lemma PrependedNil(more: Option<seq<Frame>>)
    ensures Prepended([], more) == more
  {
    assert more.Some? ==> [] + more.value == more.value;
  }

  lemma PrependedStep(done: seq<Frame>, frame: Frame, more: Option<seq<Frame>>)
    ensures Prepended(done, Prepended([frame], more)) == Prepended(done + [frame], more)
  {
    if more.Some? {
      Assoc(done, [frame], more.value);
    }
  }

  method DeliverAll(buffers: seq<Frame>) returns (called: seq<Received>)
    ensures called == DecodeAll(buffers)
  {
    hide DecodePacket;
    called := [];
    var k := 0;
    while k < |buffers|
      invariant 0 <= k <= |buffers| && called == DecodeAll(buffers)[..k]
    {
      called := called + [DecodePacket(buffers[k], true)];
      k := k + 1;
    }
  }

  // ---------- round trip ----------

  /** The lengths a header can spell before it gives up. */
  predicate HeaderFits(frame: Frame) {
    |ToDecimal(|FrameBytes(frame)|)| <= 311
  }

  predicate AllFit(frames: seq<Frame>) {
    forall i :: 0 <= i < |frames| ==> HeaderFits(frames[i])
  }

  lemma NoFrames()
    ensures AllFit([])
  {
  }

  lemma AllFitCons(frames: seq<Frame>)
    requires frames != []
    ensures AllFit(frames) <==> HeaderFits(frames[0]) && AllFit(frames[1..])
  {
  }

  lemma DigitByte(u: Unit)
    requires IsDigit(u)
    ensures ToDecimal(u - ZERO) == [u]
  {
  }

  /**
   * The header reader takes each digit as itself and stops exactly on the 255 after the last one,
   * unless it has more than 311 digits to read.
   */
  lemma {:induction false} ReadDigits(tail: seq<Byte>, p: nat, before: JsString, digits: JsString)
    requires IsNumeral(digits) && |before| <= 311
    requires p + |digits| < |tail| && tail[p..p + |digits|] == DigitBytes(digits) && tail[p + |digits|] == END
    ensures ReadHeader(tail, p, before) == if |before| + |digits| <= 311 then Some(before + digits) else None
    decreases |digits|
  {
    if digits == [] {
      assert before + digits == before;
    } else {
      assert tail[p] == DigitBytes(digits)[0];
      DigitByte(digits[0]);
      if |before| <= 310 {
        assert tail[p + 1..p + |digits|] == DigitBytes(digits)[1..] == DigitBytes(digits[1..]);
        ReadDigits(tail, p + 1, before + [digits[0]], digits[1..]);
        Assoc(before, [digits[0]], digits[1..]);
        assert [digits[0]] + digits[1..] == digits;
      }
    }
  }

  lemma MarkedParts(frame: Frame, rest: seq<Byte>)
    ensures var bytes, n, buffer := FrameBytes(frame), |LengthBytes(|FrameBytes(frame)|)|, Marked(frame) + rest;
            && |buffer| > n + 1 && buffer[0] == (if frame.TextFrame? then 0 else 1)
            && buffer[1..1 + n] == LengthBytes(|bytes|) && buffer[1 + n] == END
            && buffer[2 + n..] == bytes + rest
  {
  }

  lemma MessageParts(bytes: seq<Byte>, rest: seq<Byte>)
    requires bytes != []
    ensures Slice(bytes + rest, 0, Some(|bytes|)) == bytes && Slice(bytes + rest, |bytes|, None) == rest
  {
  }

  lemma HeaderOf(frame: Frame, rest: seq<Byte>)
    ensures var digits := ToDecimal(|FrameBytes(frame)|);
            && ReadHeader(Marked(frame) + rest, 1, []) == (if HeaderFits(frame) then Some(digits) else None)
            && ParseInt(digits) == Some(|FrameBytes(frame)|)
            && Slice(Marked(frame) + rest, 2 + |digits|, None) == FrameBytes(frame) + rest
  {
    hide FrameBytes, ReadHeader, ToDecimal, FromDecimal, DigitBytes, Marked;
    var digits := ToDecimal(|FrameBytes(frame)|);
    DecimalRoundTrip(|FrameBytes(frame)|);
    LengthBytesLength(|FrameBytes(frame)|);
    MarkedParts(frame, rest);
    ReadDigits(Marked(frame) + rest, 1, [], digits);
    assert [] + digits == digits;
  }

  lemma SplitMarked(frame: Frame, rest: seq<Byte>)
    requires FrameBytes(frame) != [] && (frame.TextFrame? ==> IsByteString(frame.text))
    ensures Split(Marked(frame) + rest) == if HeaderFits(frame) then Prepended([frame], Split(rest)) else None
  {
    hide Slice, Marked, ReadHeader, ToDecimal, FromDecimal, ParseInt, HeaderFits;
    MarkedParts(frame, rest);
    HeaderOf(frame, rest);
    MessageParts(FrameBytes(frame), rest);
    assert frame.TextFrame? ==> UnitsOf(BytesOf(frame.text)) == frame.text;
  }

  lemma {:induction false} SplitConcatenated(frames: seq<Frame>)
    requires forall i :: 0 <= i < |frames| ==> FrameBytes(frames[i]) != []
    requires forall i :: 0 <= i < |frames| ==> frames[i].TextFrame? ==> IsByteString(frames[i].text)
    ensures Split(Concatenated(frames)) == if AllFit(frames) then Some(frames) else None
  {
    hide HeaderFits, AllFit, Marked, FrameBytes;
    NoFrames();
    if frames != [] {
      AllFitCons(frames);
      SplitConcatenated(frames[1..]);
      SplitMarked(frames[0], Concatenated(frames[1..]));
      hide Split;
      assert [frames[0]] + frames[1..] == frames;
    }
  }

  function AllCleaned(ps: seq<Packet>): seq<Received> {
    seq(|ps|, i requires 0 <= i < |ps| => Delivered(Cleaned(ps[i])))
  }

  /**
   * Any mix of text and binary packets arrives whole and in order, lone surrogates in text being replaced;
   * a frame too long for its header spoils the whole payload.
   */
  lemma RoundTrip(ps: seq<Packet>)
    ensures Decode(Encode(ps)) == if AllFit(Frames(ps)) then AllCleaned(ps) else [ParserError]
  {
    hide HeaderFits, AllFit, EncodePacket, DecodePacket, Cleaned;
    var frames := Frames(ps);
    forall i | 0 <= i < |ps|
      ensures FrameBytes(frames[i]) != [] && (frames[i].TextFrame? ==> IsByteString(frames[i].text))
      ensures DecodePacket(frames[i], true) == Delivered(Cleaned(ps[i]))
    {
      Utf8PacketRoundTrip(ps[i]);
    }
    SplitConcatenated(frames);
    assert DecodeAll(frames) == AllCleaned(ps);
  }

  // ---------- buffers that no encoder makes ----------

  lemma {:induction false} NeverEnds(tail: seq<Byte>, p: nat, before: JsString)
    requires forall i :: p <= i < |tail| ==> tail[i] != 255
    ensures ReadHeader(tail, p, before) == None
    decreases 311 - |before|
  {
    if |before| <= 310 {
      var text := if p < |tail| then ToDecimal(tail[p]) else UNDEFINED;
      if p < |tail| {
        DecimalRoundTrip(tail[p]);
      }
      NeverEnds(tail, p + 1, before + text);
    }
  }

  /** Without an end of the length the whole buffer is one error. */
  lemma NoEndIsError(data: seq<Byte>)
    requires data != [] && forall i :: 1 <= i < |data| ==> data[i] != 255
    ensures Decode(data) == [ParserError] && Decode([]) == []
  {
    NeverEnds(data, 1, []);
  }

  lemma NoDigits(marker: Byte, rest: seq<Byte>)
    ensures ReadHeader([marker, 255] + rest, 1, []) == Some([])
  {
  }

  lemma OneDigit(marker: Byte, n: nat, rest: seq<Byte>)
    requires n < 10
    ensures ReadHeader([marker, n, 255] + rest, 1, []) == Some([ZERO + n]) && ParseInt([ZERO + n]) == Some(n)
  {
    var data := [marker, n, 255] + rest;
    assert data[1] == n && data[2] == END && ToDecimal(n) == [ZERO + n];
    assert ReadHeader(data, 2, [ZERO + n]) == Some([ZERO + n]);
    assert [] + [ZERO + n] == [ZERO + n];
    assert ReadHeader(data, 1, []) == ReadHeader(data, 2, [ZERO + n]);
    assert [ZERO + n][..0] == [] && FromDecimal([ZERO + n]) == n;
    hide ReadHeader;
  }

  lemma SplitStep(buffer: seq<Byte>, header: JsString)
    requires buffer != [] && ReadHeader(buffer, 1, []) == Some(header)
    ensures var rest, length := Slice(buffer, 2 + |header|, None), ParseInt(header);
            var msg := Slice(rest, 0, length);
            Split(buffer)
            == Prepended([if buffer[0] == 0 then TextFrame(UnitsOf(msg)) else BinaryFrame(msg)],
                         Split(Slice(rest, if length.None? then 0 else length.value, None)))
  {
    hide ReadHeader, Slice, ParseInt, UnitsOf, Prepended;
  }

  /** Without digits, or with the length 0, the message is all that follows, and that is then read as frames too. */
  lemma NoLengthTakesAll(marker: Byte, rest: seq<Byte>)
    ensures var frame := if marker == 0 then TextFrame(UnitsOf(rest)) else BinaryFrame(rest);
            && Split([marker, 255] + rest) == Prepended([frame], Split(rest))
            && Split([marker, 0, 255] + rest) == Prepended([frame], Split(rest))
  {
    hide ReadHeader, ParseInt, UnitsOf, Split, Prepended;
    NoDigits(marker, rest);
    OneDigit(marker, 0, rest);
    NoNumber();
    SplitStep([marker, 255] + rest, []);
    SplitStep([marker, 0, 255] + rest, [ZERO]);
    assert Slice([marker, 255] + rest, 2, None) == rest && Slice([marker, 0, 255] + rest, 3, None) == rest;
    WholeSlice(rest);
  }

  lemma NoNumber()
    ensures ParseInt([]) == None
  {
  }

  lemma WholeSlice(rest: seq<Byte>)
    ensures Slice(rest, 0, None) == Slice(rest, 0, Some(0)) == rest
  {
  }

  /** A message that is cut short is as long as what is there. */
  lemma ShortMessage(marker: Byte, n: nat, rest: seq<Byte>)
    requires 0 < n < 10 && n >= |rest|
    ensures Split([marker, n, 255] + rest)
         == Some([if marker == 0 then TextFrame(UnitsOf(rest)) else BinaryFrame(rest)])
  {
    hide *;
    OneDigit(marker, n, rest);
    SplitStep([marker, n, 255] + rest, [ZERO + n]);
    SplitNothing(if marker == 0 then TextFrame(UnitsOf(rest)) else BinaryFrame(rest));
    ShortSlices(marker, n, rest);
  }

  lemma SplitNothing(frame: Frame)
    ensures Prepended([frame], Split([])) == Some([frame])
  {
    assert [frame] + [] == [frame];
  }

  lemma ShortSlices(marker: Byte, n: nat, rest: seq<Byte>)
    requires 0 < n < 10 && n >= |rest|
    ensures Slice([marker, n, 255] + rest, 3, None) == rest
    ensures Slice(rest, 0, Some(n)) == rest && Slice(rest, n, None) == []
  {
    assert ([marker, n, 255] + rest)[3..] == rest;
  }
}
