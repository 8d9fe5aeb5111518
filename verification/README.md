# Model of the scheduler's browser-side protocol stack

The scheduler's web pages talk to the server through a bundled socket.io client, and use Underscore and a calendar
widget. This project models the parts of those three scripts that carry the logic, and proves what they promise:

- the codecs: UTF-8 (`Utf8`), base64 (`Base64`), clock ids (`Yeast`), engine.io packets and payloads (`EngineParser`,
  `TextPayload`, `BinaryPayload`, `Payload`), socket.io headers, binary attachments and the stateful decoder
  (`SocketHeader`, `Attachments`, `SocketCodec`);
- the state machines: the engine.io socket with its transports and its upgrade (`EngineSocket`, `EngineProgress`,
  `EngineClosing`), the manager's packet queue (`ManagerQueue`) and its reconnecting (`Reconnection`, `Backoff`, with
  the numbers of `Doubles`), the `nextTick` queue (`NextTick`) and the asynchronous map (`AsyncMap`);
- both together, from the calls on one end to the packets emitted at the other (`Delivery`);
- Underscore's `isEqual` on cyclic graphs (`IsEqual`) and `throttle` (`Throttle`);
- the calendar page (`Calendar`, `Datepicker`).

Each module follows one pattern. Code that changes things step by step is a method or a class with the source's own
variables, proved equal to a function of its input or of its old state; the theorems are lemmas about those functions,
over all inputs or, for the state machines, over all runs. Strings are sequences of 16-bit units (`JsText`). Events that
come from outside (timers, polls, completions, replies) are the steps of a run, in any order that is possible.

The bundled socket.io script is minified onto two lines, so its members cite line 1 or 2 and name the webpack module.

## Where the code does less than it promises

Each of these is proved, with the exact condition under which the code does what it promises.

- `SocketHeader`: JSON data whose text starts with a digit is taken for an ack id, and a namespace with a comma is cut
  (`ExactRoundTrip`).
- `TextPayload`: a packet with empty text arrives without data (`ExactRoundTrip`).
- `Attachments`: user data with binaries comes back exactly when no object in it has a truthy `_placeholder` or a
  property of its own under `__proto__`, which the rebuilding loses to the prototype (`StripRestore`). A row of packets
  arrives unchanged exactly when the data of every one of a binary type can be put together again
  (`SocketCodec.StreamRoundTrip`).
- `EngineSocket`: a handshake that arrives after `close` opens the socket again, and the forced close can then drop a
  packet. `close` is final exactly when the socket is open or has nothing in its buffer (`CloseIsFinal`). A probe that
  fails while the old transport is being paused leaves `upgrading` set, and nothing is flushed any more: an open socket
  can hand over what waits, and `close` comes to its end, exactly when that has not happened
  (`EngineProgress.ProgressExact`, `EngineClosing.CloseEnds`).
- `ManagerQueue`: an encoding cut short by a cleanup still writes its packet to the next connection; order is kept
  exactly when no encoding was outstanding (`CleanupSafe`). The query of a connect packet that waits is appended twice
  (`QueryTwiceWhenWaiting`).
- `Reconnection`: calling `open` while a reconnect is under way leaves `reconnecting` set with nothing behind it. A plain
  `open` keeps the manager at work exactly when reconnecting is on and `reconnecting` was not set (`OpenRecovers`).
- `Backoff`: the exponential delay overflows to infinity, jitter then makes NaN of it, and the code waits 0 ms. With a
  ceiling from 1 to below 2^31 every delay is right exactly when there is no jitter or nothing overflows
  (`UsualDelaysRight`); with the defaults that is until attempt 1014 (`DefaultsRight`, `DefaultsStopWaiting`). Delays of
  2^31 or more wrap (`DelayWraps`). `DelaysRight` has the exact condition for all settings.
- `Yeast`: ids repeat exactly when the clock comes back to a time it has left (`DistinctIds`).
- `IsEqual`: a zero is found equal to a number on the right whose reciprocal overflows (`LeastPassesForZero`, `ZeroAgainstNumber`); on values
  without cycles nothing else misleads (`ExactOnTrees`, `OnlyTinyMisleads`). On cyclic graphs the answer depends on the
  order of the arguments: a true answer means the graphs are bisimilar, and bisimilar graphs are found equal exactly
  when the loops of the first are matched, step for step, by loops of the second (`ExactOnGraphs`).
- `Throttle`: with `leading: false` a leading call is invoked at once all the same when `wait` has passed since the
  latest run, and before any run since the first call (`InvokedAtOnce`).
- `Datepicker`: the page shows its month, and clicks select the dates shown, exactly when the year in view is not 0 to 99
  (`ShowsTheMonth`, `ClicksExact`); the page of years misses negative years that do not end in 0 or 1 (`YearOnItsPage`).

## Model
| member | source | states |
|---|---|---|
| `Utf8.Ucs2DecodeLoop` | scheduler.ui/src/main/webapp/js/socket.io.js:2 | Module 26: the loop over UTF-16 units yields the code points of the string: a high unit and the low unit after it make one, every other unit stands for itself |
| `Utf8.EncodeCodePoint` | scheduler.ui/src/main/webapp/js/socket.io.js:2 | Module 26: one code point gives its shortest UTF-8 form; a surrogate throws when strict and is written as U+FFFD otherwise |
| `Utf8.EncodeLoop` | scheduler.ui/src/main/webapp/js/socket.io.js:2 | Module 26: the encoder throws exactly when strict and some code point is a surrogate, and otherwise writes the shortest forms of all code points in order |
| `Utf8.Decoder.constructor` | scheduler.ui/src/main/webapp/js/socket.io.js:2 | Module 26: decoding starts with the cursor at the first unit |
| `Utf8.Decoder.ReadContinuationByte` | scheduler.ui/src/main/webapp/js/socket.io.js:2 | Module 26: gives the six bits at the shared cursor and moves it by one, or throws at the end or on a byte that is no continuation |
| `Utf8.Decoder.DecodeSymbol` | scheduler.ui/src/main/webapp/js/socket.io.js:2 | Module 26: reads one symbol at the cursor and moves past exactly its bytes; overlong forms, stray bytes, values above U+10FFFF and (when strict) surrogates throw; the end of the input is told apart |
| `Utf8.DecodeLoop` | scheduler.ui/src/main/webapp/js/socket.io.js:2 | Module 26: the loop over the cursor delivers the UTF-16 text of all symbols, or throws when any of them does |
| `Utf8.Ucs2EncodeLoop` | scheduler.ui/src/main/webapp/js/socket.io.js:2 | Module 26: code points above U+FFFF are written as surrogate pairs, the others as one unit |
| `Utf8.EncodeIsBytes` | scheduler.ui/src/main/webapp/js/socket.io.js:2 | Module 26: every unit the encoder writes fits a byte |
| `Utf8.SurrogatesAreLone` | scheduler.ui/src/main/webapp/js/socket.io.js:2 | Module 26: the surrogates among the decoded code points are exactly the lone units of the string, and replacing them is the same as replacing the lone units in place |
| `Utf8.SanitizedSpelled` | scheduler.ui/src/main/webapp/js/socket.io.js:2 | Module 26: replaced, by U+FFFD, are a high unit with no low one behind it and a low one with no high one before it |
| `Utf8.LooseRoundTrip` | scheduler.ui/src/main/webapp/js/socket.io.js:2 | Module 26: with `strict: false`, for every UTF-16 string, encoding never throws and decoding gives the string with each lone surrogate replaced by U+FFFD |
| `Utf8.StrictEncodeThrows` | scheduler.ui/src/main/webapp/js/socket.io.js:2 | Module 26: strict encoding throws exactly when the string has a lone surrogate |
| `Utf8.DecodeReadsBytes` | scheduler.ui/src/main/webapp/js/socket.io.js:2 | Module 26: decoding depends only on the low eight bits of each code point of a string, and of a byte string nothing is lost |
| `Utf8.StrictInverse` | scheduler.ui/src/main/webapp/js/socket.io.js:2 | Module 26: any string decodes strictly to a text if and only if the bytes read from it are the strict encoding of that text, so no overlong form is accepted |
| `Utf8.StrictAccepts` | scheduler.ui/src/main/webapp/js/socket.io.js:2 | Module 26: strict decoding accepts a string exactly when the bytes read from it follow the grammar in section 4 of RFC 3629 |
| `Utf8.LooseAccepts` | scheduler.ui/src/main/webapp/js/socket.io.js:2 | Module 26: non-strict decoding accepts a string exactly when the bytes read from it are a concatenation of shortest forms, surrogates included |
| `Base64.EncodeLoop` | scheduler.ui/src/main/webapp/js/socket.io.js:2 | Module 28: the loop over groups of three writes the padded encoding |
| `Base64.DecodeLoop` | scheduler.ui/src/main/webapp/js/socket.io.js:2 | Module 28: fills a new buffer of the computed size; writes past its end are dropped |
| `Base64.LettersRun` | scheduler.ui/src/main/webapp/js/socket.io.js:2 | Module 28: the letters are those of Table 1 of RFC 4648 with `=` as padding, and units outside it count as `A` |
| `Base64.EncodedShape` | scheduler.ui/src/main/webapp/js/socket.io.js:2 | Module 28: the text has 4·ceil(n/3) units, letters of the alphabet and then the padding of section 4 of RFC 4648, for all three residues |
| `Base64.EncodedBits` | scheduler.ui/src/main/webapp/js/socket.io.js:2 | Module 28: each group of four letters spells the same 24-bit number as the three bytes it encodes |
| `Base64.RoundTrip` | scheduler.ui/src/main/webapp/js/socket.io.js:2 | Module 28: decoding an encoding gives the bytes back, for every byte sequence |
| `Base64.DecodedLength` | scheduler.ui/src/main/webapp/js/socket.io.js:2 | Module 28: any string at all decodes to three quarters of its length, less one for each padding unit, rounded down |
| `Base64.MissingUnits` | scheduler.ui/src/main/webapp/js/socket.io.js:2 | Module 28: units missing in the last group count as `A` |
| `Yeast.EncodeLoop` | scheduler.ui/src/main/webapp/js/socket.io.js:2 | Module 32: the loop writes the base-64 numeral of every natural number |
| `Yeast.DecodeLoop` | scheduler.ui/src/main/webapp/js/socket.io.js:2 | Module 32: the loop reads the value of a numeral, and NaN for a string with any other character |
| `Yeast.DigitsRun` | scheduler.ui/src/main/webapp/js/socket.io.js:2 | Module 32: the digits run from `0` to `9`, `A` to `Z`, `a` to `z`, then `-` and `_` |
| `Yeast.NumeralDigits` | scheduler.ui/src/main/webapp/js/socket.io.js:2 | Module 32: each digit of a numeral, counted from the right, is that of the number divided by 64 as often |
| `Yeast.DigitUnits` | scheduler.ui/src/main/webapp/js/socket.io.js:2 | Module 32: the units that have a value are exactly the digits |
| `Yeast.NoLeadingZero` | scheduler.ui/src/main/webapp/js/socket.io.js:2 | Module 32: a numeral has no digit too many |
| `Yeast.DecodesNumerals` | scheduler.ui/src/main/webapp/js/socket.io.js:2 | Module 32: decoding gives a number exactly on strings of the digit alphabet |
| `Yeast.NumeralRoundTrip` | scheduler.ui/src/main/webapp/js/socket.io.js:2 | Module 32: numerals are non-empty, use only the digit alphabet (which has no dot), and decode to the number they encode |
| `Yeast.Generator.Yeast` | scheduler.ui/src/main/webapp/js/socket.io.js:2 | Module 32: the id is the clock numeral, with a dot and a counter when the clock has not moved; the counter starts again when it has |
| `Yeast.ThreeIds` | scheduler.ui/src/main/webapp/js/socket.io.js:2 | Module 32: three calls at one time give its numeral, and then the numeral with `.0` and with `.1` |
| `Yeast.RunClosedForm` | scheduler.ui/src/main/webapp/js/socket.io.js:2 | Module 32: the id of call k depends only on its clock reading and on how many calls just before it read the same time |
| `Yeast.DistinctIds` | scheduler.ui/src/main/webapp/js/socket.io.js:2 | Module 32: all ids of a run differ if and only if the clock never comes back to a time it has left |
| `Yeast.MonotoneClock` | scheduler.ui/src/main/webapp/js/socket.io.js:2 | Module 32: under a non-decreasing clock all ids of a run differ |
| `JsText.DecimalDigits` | scheduler.ui/src/main/webapp/js/socket.io.js:2 | Modules 7 and 22: each digit of a number that is printed into a string, counted from the right, is that of the number divided by ten as often |
| `JsText.NoLeadingZero` | scheduler.ui/src/main/webapp/js/socket.io.js:2 | Modules 7 and 22: a printed number has no digit too many |
| `JsText.NanText` | scheduler.ui/src/main/webapp/js/socket.io.js:1 | Module 7: NaN is printed into a string as `NaN` |
| `EngineParser.FrameSpelled` | scheduler.ui/src/main/webapp/js/socket.io.js:2 | Module 22: the frame of a packet is the digit of its type and its text, `b`, the digit and base64, or a byte for the type and the bytes |
| `EngineParser.UntypedFrames` | scheduler.ui/src/main/webapp/js/socket.io.js:2 | Module 22: text without a digit from 0 to 6 in front decodes to the error packet, other bytes to a packet without type |
| `EngineParser.PlainPacketRoundTrip` | scheduler.ui/src/main/webapp/js/socket.io.js:2 | Module 22: a packet sent as plain text, binary data as `b` and base64, decodes to itself, empty text arriving as no data |
| `EngineParser.Utf8PacketRoundTrip` | scheduler.ui/src/main/webapp/js/socket.io.js:2 | Module 22: a packet sent as UTF-8 or as bytes is byte-clean and decodes to itself, lone surrogates replaced and empty text arriving as no data |
| `EngineParser.FrameRoundTrip` | scheduler.ui/src/main/webapp/js/socket.io.js:2 | Module 22: a packet sent as a frame of its own on websocket decodes to itself, empty text arriving as no data |
| `TextPayload.PayloadSpelled` | scheduler.ui/src/main/webapp/js/socket.io.js:2 | Module 22, `encodePayload`: the payload is each message behind its length in decimal and a colon, and `0:` for no packets |
| `TextPayload.DecodeLoop` | scheduler.ui/src/main/webapp/js/socket.io.js:2 | Module 22, `decodePayload`: the loop over characters makes the deliveries of the recursive reader, whatever `Number` makes of a header, stopping where the callback asks to |
| `TextPayload.RoundTrip` | scheduler.ui/src/main/webapp/js/socket.io.js:2 | Module 22: every list of packets, the empty one and texts with digits and colons included, arrives in order up to the packet at which the callback stops |
| `TextPayload.ExactRoundTrip` | scheduler.ui/src/main/webapp/js/socket.io.js:2 | Module 22: the list arrives unchanged if and only if no packet carries empty text |
| `TextPayload.AtMostOneError` | scheduler.ui/src/main/webapp/js/socket.io.js:2 | Module 22: on any string at all, every delivery but the last is a packet that let the reading go on, so at most one error comes and it comes last |
| `TextPayload.AcceptsExactlyFrames` | scheduler.ui/src/main/webapp/js/socket.io.js:2 | Module 22: a string is read without error if and only if it is a non-empty row of frames (text without a colon that `Number` reads as the length, a colon, a message of that length) whose non-empty messages are packets |
| `BinaryPayload.PayloadSpelled` | scheduler.ui/src/main/webapp/js/socket.io.js:2 | Module 22, `encodePayloadAsArrayBuffer`: the payload is, for each packet, 0 for text or 1 for bytes, the decimal digits of the length as numbers, 255, and the contents |
| `BinaryPayload.Copy` | scheduler.ui/src/main/webapp/js/socket.io.js:2 | Module 22, `encodePayloadAsArrayBuffer`: bytes are copied behind the cursor, leaving what stands before it |
| `BinaryPayload.PutFrame` | scheduler.ui/src/main/webapp/js/socket.io.js:2 | Module 22: one frame is written at the cursor: marker, length digits, 255, contents |
| `BinaryPayload.TotalLengthLoop` | scheduler.ui/src/main/webapp/js/socket.io.js:2 | Module 22: the size of the result array is the sum of the frame lengths |
| `BinaryPayload.EncodeLoop` | scheduler.ui/src/main/webapp/js/socket.io.js:2 | Module 22: the result array is filled exactly by the frames in order |
| `BinaryPayload.ReadHeaderLoop` | scheduler.ui/src/main/webapp/js/socket.io.js:2 | Module 22, `decodePayloadAsBinary`: the header loop stops on 255, or gives up after more than 310 characters |
| `BinaryPayload.DecodeLoop` | scheduler.ui/src/main/webapp/js/socket.io.js:2 | Module 22: the loop over the buffer tail delivers the packets of all frames, or one error when a header gives up |
| `BinaryPayload.ReadDigits` | scheduler.ui/src/main/webapp/js/socket.io.js:2 | Module 22: the header loop takes each length digit as itself and stops on the 255 after the last one; beyond 311 digits it gives up |
| `BinaryPayload.SplitMarked` | scheduler.ui/src/main/webapp/js/socket.io.js:2 | Module 22: a frame at the front of a buffer is taken whole, and nothing after it is touched |
| `BinaryPayload.RoundTrip` | scheduler.ui/src/main/webapp/js/socket.io.js:2 | Module 22: every list mixing text and binary packets arrives in order, lone surrogates replaced; a frame too long for its header turns the payload into one error |
| `BinaryPayload.NoEndIsError` | scheduler.ui/src/main/webapp/js/socket.io.js:2 | Module 22, `decodePayloadAsBinary`: a buffer without an end of the length is one error |
| `BinaryPayload.NoLengthTakesAll` | scheduler.ui/src/main/webapp/js/socket.io.js:2 | Module 22, `decodePayloadAsBinary`: with no digits or the length 0, the message is all that follows, which is then read as frames once more |
| `BinaryPayload.ShortMessage` | scheduler.ui/src/main/webapp/js/socket.io.js:2 | Module 22, `decodePayloadAsBinary`: a message cut short is as long as what is there |
| `Payload.FramingChosen` | scheduler.ui/src/main/webapp/js/socket.io.js:2 | Module 22, `encodePayload`: the framing is binary if and only if binary may be sent and some packet, wherever it stands in the list, carries binary data |
| `Payload.RoundTrip` | scheduler.ui/src/main/webapp/js/socket.io.js:2 | Module 22, `encodePayload` and `decodePayload`: whichever framing is chosen, the list arrives as that framing promises, and as one error exactly when binary framing is chosen and cannot spell a length |
| `Payload.CleanRoundTrip` | scheduler.ui/src/main/webapp/js/socket.io.js:2 | Module 22: packets whose text is not empty and has no lone surrogate arrive unchanged as text always, and under binary framing when it can spell their lengths |
| `Attachments.Deconstruct` | scheduler.ui/src/main/webapp/js/socket.io.js:1 | Module 11: a value is rebuilt with numbered placeholders and its binaries are appended to the buffer list |
| `Attachments.DeconstructAll` | scheduler.ui/src/main/webapp/js/socket.io.js:1 | Module 11: the elements of an array are deconstructed in order, the numbering running on |
| `Attachments.DeconstructProperties` | scheduler.ui/src/main/webapp/js/socket.io.js:1 | Module 11: the properties of an object are deconstructed in order and assigned to a new object, which gets no property under `__proto__` |
| `Attachments.PlaceholderSpelled` | scheduler.ui/src/main/webapp/js/socket.io.js:1 | Module 11: a placeholder is an object with `_placeholder` set to true and the number under `num`, in this order |
| `Attachments.OnlyProtoIsLost` | scheduler.ui/src/main/webapp/js/socket.io.js:1 | Module 11: a property assigned to the new object stays, unless its name is `__proto__` |
| `Attachments.FalsyValues` | scheduler.ui/src/main/webapp/js/socket.io.js:1 | Module 11, `t._placeholder`: what counts as false is absent, null, false, 0 and the empty string |
| `Attachments.PropertyFound` | scheduler.ui/src/main/webapp/js/socket.io.js:1 | Module 11, `t._placeholder` and `t.num`: a property is the first one of that name, absent when there is none and on anything but an object |
| `Attachments.Reconstruct` | scheduler.ui/src/main/webapp/js/socket.io.js:1 | Module 11: placeholders are replaced by the buffers they number, at any depth |
| `Attachments.ReconstructAll` | scheduler.ui/src/main/webapp/js/socket.io.js:1 | Module 11: each element is overwritten by its restored value |
| `Attachments.BufferFound` | scheduler.ui/src/main/webapp/js/socket.io.js:1 | Module 11, `e[t.num]`: a number finds the buffer at its place, one out of range finds nothing |
| `Attachments.StripRestore` | scheduler.ui/src/main/webapp/js/socket.io.js:1 | Module 11: reconstructing a deconstructed value gives it back if and only if no object in it has a truthy `_placeholder` or a property of its own under `__proto__` |
| `Attachments.HasBinaryCounts` | scheduler.ui/src/main/webapp/js/socket.io.js:1 | Module 9: `hasBinary` holds if and only if deconstructing takes something out |
| `Attachments.StripLeavesNone` | scheduler.ui/src/main/webapp/js/socket.io.js:1 | Module 11: a deconstructed value holds no binary at any depth |
| `Attachments.PlaceholdersInOrder` | scheduler.ui/src/main/webapp/js/socket.io.js:1 | Module 11: the placeholders of a deconstructed value that comes back whole are numbered consecutively, once each, in the order they are met |
| `SocketHeader.HeaderText` | scheduler.ui/src/main/webapp/js/socket.io.js:1 | Module 7, `encodeAsString`: the text is, unit by unit, the digit of the type, for the two binary types the count and a dash, a namespace other than `/` and a comma, the ack id, the JSON data |
| `SocketHeader.DecodeLoop` | scheduler.ui/src/main/webapp/js/socket.io.js:1 | Module 7, `decodeString`: the cursor version of the decoder, with its one exception for an attachment count that `Number` does not read |
| `SocketHeader.DecodeFields` | scheduler.ui/src/main/webapp/js/socket.io.js:1 | Module 7: reads the namespace from an index on, defaulting to the root |
| `SocketHeader.DecodeIdAndData` | scheduler.ui/src/main/webapp/js/socket.io.js:1 | Module 7: reads the ack id and the JSON data from an index on; data that does not parse makes an error packet |
| `SocketHeader.UntilLoop` | scheduler.ui/src/main/webapp/js/socket.io.js:1 | Module 7: takes the units before a separator, all of them when there is none |
| `SocketHeader.NumberUnitsLoop` | scheduler.ui/src/main/webapp/js/socket.io.js:1 | Module 7: takes the longest row of characters that `Number` reads one by one: digits, and white space |
| `SocketHeader.ThrowsExactly` | scheduler.ui/src/main/webapp/js/socket.io.js:1 | Module 7, `decodeString`: on any string the decoder throws if and only if the type is binary and no dash ends a count that `Number` reads |
| `SocketHeader.ErrorPackets` | scheduler.ui/src/main/webapp/js/socket.io.js:1 | Module 7, `decodeString`: a first unit that names no type, and data that does not parse, give the packet of type 4 with `parser error` |
| `SocketHeader.IdTaken` | scheduler.ui/src/main/webapp/js/socket.io.js:1 | Module 7, `decodeString`: the ack id is read from the longest row of characters that `Number` reads one by one, as one number |
| `SocketHeader.NspToTheEnd` | scheduler.ui/src/main/webapp/js/socket.io.js:1 | Module 7, `decodeString`: a namespace without a comma behind it goes on to the end of the text |
| `SocketHeader.RoundTrip` | scheduler.ui/src/main/webapp/js/socket.io.js:1 | Module 7: decoding inverts encoding for every type, attachment count, findable namespace, ack id and data whose text does not start with a character read into the ack id; an absent namespace arrives as `/` |
| `SocketHeader.ExactRoundTrip` | scheduler.ui/src/main/webapp/js/socket.io.js:1 | Module 7: a packet as the decoder would leave it comes back unchanged if and only if its namespace starts with a slash and has no comma and its data text does not start with a character read into the ack id |
| `SocketHeader.BadNsp` | scheduler.ui/src/main/webapp/js/socket.io.js:1 | Module 7: a namespace that is empty, lacks the slash or holds a comma never comes back |
| `SocketHeader.DigitsLost` | scheduler.ui/src/main/webapp/js/socket.io.js:1 | Module 7: data text that starts with a digit is read into the ack id, so the packet never comes back |
| `SocketCodec.EncodePacket` | scheduler.ui/src/main/webapp/js/socket.io.js:1 | Modules 7 and 11, `Encoder.encode`: the frames of a packet: its header, then its binaries for a binary type |
| `SocketCodec.FirstDigit` | scheduler.ui/src/main/webapp/js/socket.io.js:1 | Modules 7 and 11: the first frame begins with the digit of the type, which is the binary one exactly for an event or ack whose data holds a binary value, and for packets given a binary type |
| `SocketCodec.Decoder.constructor` | scheduler.ui/src/main/webapp/js/socket.io.js:1 | Module 7: a decoder starts with nothing under reconstruction |
| `SocketCodec.Decoder.AddMessage` | scheduler.ui/src/main/webapp/js/socket.io.js:1 | Module 7, `Decoder.add`: what one frame emits and what it leaves under reconstruction, a binary packet with no attachments being emitted at once but left behind |
| `SocketCodec.HeaderFrame` | scheduler.ui/src/main/webapp/js/socket.io.js:1 | Module 7: the header frame of a packet that meets the conditions for reading decodes to what was put in it, data without its binaries included |
| `SocketCodec.PacketRun` | scheduler.ui/src/main/webapp/js/socket.io.js:1 | Modules 7, 9 and 11: from any decoder state, the frames of such a packet emit one packet, and the run goes on behind them |
| `SocketCodec.EmergesUnchanged` | scheduler.ui/src/main/webapp/js/socket.io.js:1 | Modules 9 and 11: that packet is the one sent if and only if, for a binary type, no object in its data has a property under `__proto__` and, with binaries, none looks like a placeholder |
| `SocketCodec.PacketRoundTrip` | scheduler.ui/src/main/webapp/js/socket.io.js:1 | Modules 7, 9 and 11: from any decoder state, the frames of a packet that meets both conditions emit that packet once and the run goes on behind them |
| `SocketCodec.StreamRun` | scheduler.ui/src/main/webapp/js/socket.io.js:1 | Modules 7, 9 and 11: all frames of a row of packets with binaries at any depth, added in order from any decoder state, emit one packet each, in order |
| `SocketCodec.StreamRoundTrip` | scheduler.ui/src/main/webapp/js/socket.io.js:1 | Modules 7, 9 and 11: they emit exactly the packets sent, EVENT and ACK with binaries arriving as their binary types, if and only if the data of every one can be put together again |
| `SocketCodec.RunOfPrefix` | scheduler.ui/src/main/webapp/js/socket.io.js:1 | Module 7: the first frames of a row emit the first of the packets that the whole row emits |
| `SocketCodec.FramesOfPacket` | scheduler.ui/src/main/webapp/js/socket.io.js:1 | Modules 7, 9 and 11: binary frames follow if and only if `hasBinary`, one for each binary, and the placeholders sent are numbered 0 to k-1 once each |
| `EngineSocket.Socket.constructor` | scheduler.ui/src/main/webapp/js/socket.io.js:1 | Module 15: a socket starts opening, on polling or on websocket, with nothing buffered |
| `EngineSocket.Socket.DoFlush` | scheduler.ui/src/main/webapp/js/socket.io.js:1 | Module 15, `flush`: hands the whole buffer to a writable transport unless closed or upgrading, and remembers how much was handed over |
| `EngineSocket.Socket.DoOnClose` | scheduler.ui/src/main/webapp/js/socket.io.js:1 | Module 15, `onClose`: closes transport and probe and empties the buffer, once |
| `EngineSocket.Socket.OnSocketClosed` | scheduler.ui/src/main/webapp/js/socket.io.js:1 | Module 15: when the socket closes, a live probe fails and releases a close that waits for it |
| `EngineSocket.Socket.DoOnDrain` | scheduler.ui/src/main/webapp/js/socket.io.js:1 | Module 15, `onDrain`: drops what was handed over, then flushes the rest or lets a waiting close go on |
| `EngineSocket.Socket.DoUpgradeEnded` | scheduler.ui/src/main/webapp/js/socket.io.js:1 | Module 15: the end of an upgrade lets a waiting close go on |
| `EngineSocket.Socket.DoPauseEnded` | scheduler.ui/src/main/webapp/js/socket.io.js:1 | Modules 15 and 20: once the old transport is paused, the switch happens unless the probe failed or the socket closed, and the buffer is flushed |
| `EngineSocket.Socket.DoSwitch` | scheduler.ui/src/main/webapp/js/socket.io.js:1 | Module 15, `setTransport`: the probe transport takes over and the upgrade packet goes out on it |
| `EngineSocket.Socket.Send` | scheduler.ui/src/main/webapp/js/socket.io.js:1 | Module 15, `sendPacket`: a packet is accepted and buffered exactly when the socket is neither closing nor closed |
| `EngineSocket.Socket.OnHandshake` | scheduler.ui/src/main/webapp/js/socket.io.js:1 | Module 15, `onHandshake`: the socket opens, flushes, and starts a probe when it may upgrade |
| `EngineSocket.Socket.OnWriteDone` | scheduler.ui/src/main/webapp/js/socket.io.js:1 | Modules 15, 20 and 34: a completed write makes the transport writable, drains, and may end a pause |
| `EngineSocket.Socket.OnPollDone` | scheduler.ui/src/main/webapp/js/socket.io.js:2 | Module 20: a completed poll may end a pause, and is followed by another poll only on an open transport |
| `EngineSocket.Socket.OnProbeReply` | scheduler.ui/src/main/webapp/js/socket.io.js:1 | Modules 15 and 20: a pong starts the pause of the old transport, waiting for the poll and the write in progress |
| `EngineSocket.Socket.OnProbeFailed` | scheduler.ui/src/main/webapp/js/socket.io.js:1 | Module 15: a failed probe is closed and lets a waiting close go on |
| `EngineSocket.Socket.DoClose` | scheduler.ui/src/main/webapp/js/socket.io.js:1 | Module 15, `close`: waits for the drain or the upgrade, or closes at once |
| `EngineSocket.Socket.OnConnectionLost` | scheduler.ui/src/main/webapp/js/socket.io.js:1 | Module 15: an error or close of the transport closes the socket |
| `EngineSocket.StepValid` | scheduler.ui/src/main/webapp/js/socket.io.js:1 | Module 15: every event keeps the flow-control invariant, among it that a writable transport has nothing in flight |
| `EngineSocket.StepEarly` | scheduler.ui/src/main/webapp/js/socket.io.js:1 | Module 15: until its handshake or its close a socket has no probe, does not upgrade and has at most one write in flight |
| `EngineSocket.NoLossNoDuplicate` | scheduler.ui/src/main/webapp/js/socket.io.js:1 | Module 15: in every run, from either transport, until the close, the batches handed to transports followed by the rest of the buffer are the packets accepted, in order, across an upgrade as well; nothing is ever sent on a transport that is not open; an open socket with a free transport holds nothing back |
| `EngineSocket.ForcedCloseHandsOverAll` | scheduler.ui/src/main/webapp/js/socket.io.js:1 | Module 15: when `close` reaches its forced close, whatever the first transport and the interleaving, every accepted packet has been handed over, unless a handshake arrived while closing |
| `EngineSocket.ClosingWaits` | scheduler.ui/src/main/webapp/js/socket.io.js:1 | Module 15: a closing socket not reopened always waits for a drain with something buffered or for an upgrade with nothing buffered |
| `EngineSocket.ReopensExactlyOnHandshake` | scheduler.ui/src/main/webapp/js/socket.io.js:1 | Module 15: a closing or closed socket becomes open again if and only if it is closing and a handshake arrives |
| `EngineSocket.NothingAcceptedAfterClose` | scheduler.ui/src/main/webapp/js/socket.io.js:1 | Module 15: after `close` no packet is accepted in any continuation without a handshake while closing |
| `EngineSocket.SwitchWithNothingInFlight` | scheduler.ui/src/main/webapp/js/socket.io.js:2 | Modules 15 and 20: the transport is replaced only while upgrading and when every write on the old one has completed |
| `EngineSocket.CloseIsFinal` | scheduler.ui/src/main/webapp/js/socket.io.js:1 | Module 15: on either first transport, at any point at which `close` can be called for the first time: whatever follows, an open socket getting no second handshake, nothing more is accepted and a forced close has handed over every accepted packet, if and only if the socket is open or its buffer is empty |
| `EngineSocket.EarlyCloseAccepts` | scheduler.ui/src/main/webapp/js/socket.io.js:1 | Module 15: from any socket not yet opened with packets in its buffer, on either transport, `close` followed by the handshake accepts one more packet |
| `EngineSocket.EarlyCloseDrops` | scheduler.ui/src/main/webapp/js/socket.io.js:1 | Modules 15 and 20: from any polling socket not yet opened with packets in its buffer, `close` followed by the handshake and an upgrade accepts one more packet and drops it |
| `EngineProgress.StepAlive` | scheduler.ui/src/main/webapp/js/socket.io.js:1 | Modules 15, 20 and 34: every event keeps that a busy transport has a write under way, and that what a pause waits for is under way as well |
| `EngineProgress.ProgressExact` | scheduler.ui/src/main/webapp/js/socket.io.js:1 | Modules 15 and 20: at any point of any run at which the socket is open and no `close` has been undone, what waits in the buffer is handed over once the transports have done their work, if and only if nothing waits or no probe has failed during its pause; in that case nothing that can happen hands it over |
| `EngineProgress.StepStalled` | scheduler.ui/src/main/webapp/js/socket.io.js:1 | Modules 15 and 20: after a probe has failed during its pause no event hands over a packet |
| `EngineProgress.FailedProbeStalls` | scheduler.ui/src/main/webapp/js/socket.io.js:1 | Modules 15 and 20: a run in which that happens to an open socket, which accepts a packet and never hands it over |
| `EngineClosing.CloseEnds` | scheduler.ui/src/main/webapp/js/socket.io.js:1 | Modules 15, 20 and 34: at any point of any run at which the socket is open and no `close` has been undone, `close` comes to its end with every accepted packet handed over once the transports have done their work, if and only if no probe has failed during its pause; in that case nothing that can happen makes it do so |
| `EngineClosing.FailureReleases` | scheduler.ui/src/main/webapp/js/socket.io.js:1 | Module 15, `waitForUpgrade`: a probe that fails releases a `close` that waits for its upgrade, and the socket closes with every accepted packet handed over |
| `EngineClosing.WrongAnswerReleases` | scheduler.ui/src/main/webapp/js/socket.io.js:1 | Module 15: a probe whose answer is not the pong releases a `close` that waits for the upgrade as well |
| `EngineClosing.StepShut` | scheduler.ui/src/main/webapp/js/socket.io.js:1 | Modules 15 and 20: every event keeps that a closed socket's transport, and a failed probe's, is not open |
| `EngineClosing.ClosedLeavesNothingOpen` | scheduler.ui/src/main/webapp/js/socket.io.js:1 | Modules 15 and 20: in every run a closed socket has left neither its own transport nor a probe's open |
| `EngineClosing.ClosingTransport` | scheduler.ui/src/main/webapp/js/socket.io.js:1 | Modules 20, 21 and 34: closing an open polling transport writes a close packet, an open or opening transport is closed, one that is pausing or paused stays |
| `EngineClosing.ClosingProbe` | scheduler.ui/src/main/webapp/js/socket.io.js:1 | Module 15: closing makes a live probe fail, which releases a `close` that waits for the upgrade |
| `EngineClosing.StartSpelled` | scheduler.ui/src/main/webapp/js/socket.io.js:1 | Modules 15 and 20: a new socket is opening, with nothing buffered or waited for, on the transport asked for |
| `EngineClosing.HandshakeSpelled` | scheduler.ui/src/main/webapp/js/socket.io.js:1 | Module 15, `onOpen`: a first handshake opens the socket, and starts a websocket probe exactly when it may upgrade from polling |
| `EngineClosing.PollSpelled` | scheduler.ui/src/main/webapp/js/socket.io.js:2 | Module 20, `onData`: after a poll another one starts if and only if the transport is open |
| `EngineClosing.OpeningSpelled` | scheduler.ui/src/main/webapp/js/socket.io.js:1 | Modules 15, 21 and 34: the transport opens free to write; the probe's opens with its ping under way, and is free once that is out |
| `EngineClosing.DrainMovesOn` | scheduler.ui/src/main/webapp/js/socket.io.js:1 | Module 15, `close`: with the buffer drained, it goes on to wait for an upgrade that is under way, and no longer for the drain |
| `EngineClosing.FaultsSpelled` | scheduler.ui/src/main/webapp/js/socket.io.js:1 | Modules 15 and 21, `send`: sending on a transport that is not open throws, the upgrade packet included |
| `EngineClosing.StepHands` | scheduler.ui/src/main/webapp/js/socket.io.js:1 | Module 15, `flush`: every event hands over nothing, or the whole buffer in one write to a transport that is open |
| `ManagerQueue.Manager.constructor` | scheduler.ui/src/main/webapp/js/socket.io.js:1 | Module 13: a manager starts with nothing being encoded and nothing buffered |
| `ManagerQueue.Manager.Send` | scheduler.ui/src/main/webapp/js/socket.io.js:1 | Module 13, `packet`: appends the query of a connect packet, then starts encoding, or buffers the packet while another is being encoded |
| `ManagerQueue.Manager.SendFromSocket` | scheduler.ui/src/main/webapp/js/socket.io.js:1 | Module 13, `packet` called from outside: the call is put on record and goes the way of `packet` |
| `ManagerQueue.Manager.ProcessPacketQueue` | scheduler.ui/src/main/webapp/js/socket.io.js:1 | Module 13, `processPacketQueue`: starts the first buffered packet when nothing is being encoded |
| `ManagerQueue.Manager.OnEncoded` | scheduler.ui/src/main/webapp/js/socket.io.js:1 | Module 13: a finished encoding writes all its frames to the engine and starts the next packet |
| `ManagerQueue.Manager.DoCleanup` | scheduler.ui/src/main/webapp/js/socket.io.js:1 | Module 13, `cleanup`: forgets the buffer and the encoding in progress, whose callback stays alive |
| `ManagerQueue.FramesInCallOrder` | scheduler.ui/src/main/webapp/js/socket.io.js:1 | Module 13: in every run, on every connection that did not begin with an encoding cut short by the cleanup before it: the frames on the engine are those of the packets in call order, never interleaved, and with nothing being encoded none is missing |
| `ManagerQueue.ReceivedInCallOrder` | scheduler.ui/src/main/webapp/js/socket.io.js:1 | Modules 7 and 13: in every run, on every such connection, the frames on the engine make the decoder at the other end, whatever it had in hand, emit one packet for each call whose turn has come, in call order, and with nothing being encoded for every call; they are the packets of the calls if and only if the data of every one can be put together again |
| `ManagerQueue.CleanupSafe` | scheduler.ui/src/main/webapp/js/socket.io.js:1 | Module 13: from any state, after a cleanup the frames written stay in call order, whatever follows up to the next cleanup, if and only if no encoding was outstanding when it happened |
| `ManagerQueue.StaleEncodingWrites` | scheduler.ui/src/main/webapp/js/socket.io.js:1 | Module 13: a run in which an encoding cut short by a cleanup writes its packet in front of, and instead of, the new one |
| `ManagerQueue.QuerySpelled` | scheduler.ui/src/main/webapp/js/socket.io.js:1 | Module 13: a connect packet with a query goes out with `?` and the query behind its namespace |
| `ManagerQueue.OneAtATime` | scheduler.ui/src/main/webapp/js/socket.io.js:1 | Module 13, `processPacketQueue`: a waiting packet is taken up only when nothing is being encoded, the first one first |
| `ManagerQueue.OthersStay` | scheduler.ui/src/main/webapp/js/socket.io.js:1 | Module 13: when one of several encodings ends, after a cleanup that cut one short, the others stay outstanding in their order |
| `ManagerQueue.QueryTwiceWhenWaiting` | scheduler.ui/src/main/webapp/js/socket.io.js:1 | Module 13: a packet is sent alike whether it waited in the buffer or not if and only if it is no connect packet with a query, which is appended twice to one that waited |
| `Delivery.FrameOfSpelled` | scheduler.ui/src/main/webapp/js/socket.io.js:1 | Module 15: messages with text or bytes are handed on to the decoder, other packets are not |
| `Delivery.WiresSpelled` | scheduler.ui/src/main/webapp/js/socket.io.js:1 | Modules 20 and 34, `write`: on polling a batch is one payload, on websocket each packet is a frame of its own |
| `Delivery.FramesArrive` | scheduler.ui/src/main/webapp/js/socket.io.js:1 | Modules 15, 20, 22 and 34: in every run of the engine, the messages read from the batches it has written, each as a payload or as frames of its own, are the first of the messages it accepted, and all of them once everything is handed over |
| `Delivery.DeliveredInCallOrder` | scheduler.ui/src/main/webapp/js/socket.io.js:1 | Modules 7, 11, 13, 15, 20, 22 and 34 together: whatever the manager and the engine are doing and whichever transports carry the batches, the decoder at the other end has emitted the packets of the first calls in call order, none lost, doubled or mixed; once everything is encoded, accepted and handed over, one for every call |
| `Reconnection.Manager.constructor` | scheduler.ui/src/main/webapp/js/socket.io.js:1 | Module 13: a manager starts closed with a fresh backoff |
| `Reconnection.Manager.RunCleanup` | scheduler.ui/src/main/webapp/js/socket.io.js:1 | Module 13, `cleanup`: destroys the subscriptions and the reconnect timer |
| `Reconnection.Manager.ResetBackoff` | scheduler.ui/src/main/webapp/js/socket.io.js:1 | Modules 13 and 41: the attempt count starts again |
| `Reconnection.Manager.TryReconnect` | scheduler.ui/src/main/webapp/js/socket.io.js:1 | Module 13, `reconnect`: schedules a timer unless one is under way, reconnecting is skipped or the attempts are used up |
| `Reconnection.Manager.OpenFor` | scheduler.ui/src/main/webapp/js/socket.io.js:1 | Module 13, `open`: opens an engine exactly when closed |
| `Reconnection.Manager.OnEngineOpened` | scheduler.ui/src/main/webapp/js/socket.io.js:1 | Module 13, `onopen` and `onreconnect`: the open connection replaces the subscriptions, and a reconnect resets the backoff |
| `Reconnection.Manager.OnEngineError` | scheduler.ui/src/main/webapp/js/socket.io.js:1 | Module 13: a failed open goes on to a reconnect according to why it was opened |
| `Reconnection.Manager.OnEngineClosed` | scheduler.ui/src/main/webapp/js/socket.io.js:1 | Module 13, `onclose`: a lost connection is cleaned up and reconnected when allowed |
| `Reconnection.Manager.OnTimerFired` | scheduler.ui/src/main/webapp/js/socket.io.js:1 | Module 13: the reconnect timer opens an engine unless reconnecting is skipped |
| `Reconnection.Manager.Disconnect` | scheduler.ui/src/main/webapp/js/socket.io.js:1 | Module 13, `close`: marks reconnecting as skipped, cleans up when opening, and resets the backoff |
| `Reconnection.StepValid` | scheduler.ui/src/main/webapp/js/socket.io.js:1 | Module 13: every event keeps the invariant on attempts, timers and the engine being opened |
| `Reconnection.AttemptsBounded` | scheduler.ui/src/main/webapp/js/socket.io.js:1 | Modules 13 and 41: in every run the attempt count stays within `reconnectionAttempts`, at most that many engines are opened by timers between resets, at most one timer is pending, and giving up means exactly the permitted number were tried |
| `Reconnection.OpensExactly` | scheduler.ui/src/main/webapp/js/socket.io.js:1 | Module 13: an engine is opened exactly by an `open` call or a reconnect timer, on a closed manager, the timer only when reconnecting is not skipped |
| `Reconnection.LostConnection` | scheduler.ui/src/main/webapp/js/socket.io.js:1 | Module 13, `onclose`: nothing is left of the lost connection, and a timer is set if and only if reconnecting is on, not skipped, not under way, and permitted |
| `Reconnection.FailedOpening` | scheduler.ui/src/main/webapp/js/socket.io.js:1 | Module 13: nothing is left of an opening that fails, and a timer is set according to why the engine was opened, each one counting an attempt |
| `Reconnection.ClosedByHand` | scheduler.ui/src/main/webapp/js/socket.io.js:1 | Module 13, `close`: the attempts start again; an opening is abandoned with its timers, while of an open connection the close event is still waited for |
| `Reconnection.ReconnectOnce` | scheduler.ui/src/main/webapp/js/socket.io.js:1 | Module 13, `reconnect`: only with none under way and reconnecting not skipped, a timer is set and an attempt counted while permitted, and otherwise the attempts start again |
| `Reconnection.FirstConnectionLost` | scheduler.ui/src/main/webapp/js/socket.io.js:1 | Module 13: a new manager whose first connection is lost tries again if and only if reconnecting is on and an attempt is permitted |
| `Reconnection.NoOpenAfterClose` | scheduler.ui/src/main/webapp/js/socket.io.js:1 | Module 13: from a closed manager that skips reconnecting, no event but an `open` call opens an engine |
| `Reconnection.CloseThenNothing` | scheduler.ui/src/main/webapp/js/socket.io.js:1 | Module 13: after `close` in any run, no timer, error or close event opens an engine until `open` is called |
| `Reconnection.OpenRecovers` | scheduler.ui/src/main/webapp/js/socket.io.js:1 | Module 13: at any point of any run at which the manager is closed: after a plain `open`, whatever happens to the connections, the manager stays at work until it has used up its attempts, if and only if reconnecting is on and `reconnecting` was not set when `open` was called |
| `Reconnection.OpenThenLost` | scheduler.ui/src/main/webapp/js/socket.io.js:1 | Module 13: a connection opened by hand and then lost is reconnected if and only if reconnecting is on, an attempt is permitted and `reconnecting` was not set before the `open` |
| `Reconnection.OpenThenFailed` | scheduler.ui/src/main/webapp/js/socket.io.js:1 | Module 13: a plain `open` that fails is tried again if and only if, besides, no attempt has been counted |
| `Reconnection.OpenLoses` | scheduler.ui/src/main/webapp/js/socket.io.js:1 | Module 13: an `open` on a closed manager leaves it with the mark and nothing behind it if and only if `reconnecting` was set |
| `Reconnection.LostForGood` | scheduler.ui/src/main/webapp/js/socket.io.js:1 | Module 13: such a manager stays so until `close` is called, and only `open` calls open an engine, at most one each |
| `Reconnection.StuckForGood` | scheduler.ui/src/main/webapp/js/socket.io.js:1 | Module 13: once its connection is gone or its opening has failed, it never changes again by itself |
| `Reconnection.OpenWhileWaitingStopsReconnecting` | scheduler.ui/src/main/webapp/js/socket.io.js:1 | Module 13: two runs in which an `open` call during the wait for a reconnect leaves the manager stuck, after a lost connection and after a failed opening |
| `Backoff.Backoff.constructor` | scheduler.ui/src/main/webapp/js/socket.io.js:2 | Module 41: the attempt count starts at 0 |
| `Backoff.Backoff.Duration` | scheduler.ui/src/main/webapp/js/socket.io.js:2 | Module 41: the delay of the n-th attempt is the exponential one, moved by jitter, capped, and cut to a signed 32-bit integer, all in doubles that overflow to infinity and turn into NaN as the code's do |
| `Backoff.Backoff.Reset` | scheduler.ui/src/main/webapp/js/socket.io.js:2 | Module 41: the attempt count starts again |
| `Doubles.PowersSpelled` | scheduler.ui/src/main/webapp/js/socket.io.js:2 | Module 41: `Math.pow` with a natural exponent is repeated multiplication |
| `Doubles.RoundedSpelled` | scheduler.ui/src/main/webapp/js/socket.io.js:2 | Module 41: results from the limit on are infinite, all others exact |
| `Doubles.MultiplySpelled` | scheduler.ui/src/main/webapp/js/socket.io.js:2 | Module 41: products of infinities and zeros, as in section 6.1.6.1 of ECMA-262 |
| `Doubles.PlusSpelled` | scheduler.ui/src/main/webapp/js/socket.io.js:2 | Module 41: sums of infinities |
| `Doubles.LeastSpelled` | scheduler.ui/src/main/webapp/js/socket.io.js:2 | Module 41: `Math.min`, NaN and infinities included |
| `Doubles.ToInt32Spelled` | scheduler.ui/src/main/webapp/js/socket.io.js:2 | Module 41: `0|x` drops the fraction and a multiple of 2^32, and gives 0 for what is not finite |
| `Backoff.JitterRange` | scheduler.ui/src/main/webapp/js/socket.io.js:2 | Module 41: in exact arithmetic, jitter moves the delay by at most its share and never below zero |
| `Backoff.JitterByDigit` | scheduler.ui/src/main/webapp/js/socket.io.js:2 | Module 41: without overflow and below the ceiling and 2^31, with a first decimal k of the random number the delay is the whole part of t less its jittered share for k even, and of t plus that share for k odd |
| `Backoff.MovedExactly` | scheduler.ui/src/main/webapp/js/socket.io.js:2 | Module 41: without overflow the jittered delay is computed exactly |
| `Backoff.MovedAfterOverflow` | scheduler.ui/src/main/webapp/js/socket.io.js:2 | Module 41: after an overflow it is infinite, or NaN when jitter shortens it |
| `Backoff.DelaysRight` | scheduler.ui/src/main/webapp/js/socket.io.js:2 | Module 41: for all settings and any number of attempts, whatever random number is drawn the delay is the jittered, capped value in whole milliseconds, if and only if a condition on settings and attempts holds: without overflow that the ceiling or the largest jittered value is below 2^31, after an overflow that there is no jitter and the ceiling survives the cut to 32 bits |
| `Backoff.UsualDelaysRight` | scheduler.ui/src/main/webapp/js/socket.io.js:2 | Module 41: with a ceiling from 1 to below 2^31 that condition is that there is no jitter or nothing overflows |
| `Backoff.DefaultsRight` | scheduler.ui/src/main/webapp/js/socket.io.js:2 | Modules 13 and 41: with the manager's default settings the delays are right if and only if fewer than 1015 attempts have been counted |
| `Backoff.DefaultsStopWaiting` | scheduler.ui/src/main/webapp/js/socket.io.js:2 | Modules 13 and 41: from attempt 1015 on, the delay is 0 ms when the first decimal of the random number is even, and 5000 ms when it is odd |
| `Backoff.DelayBounded` | scheduler.ui/src/main/webapp/js/socket.io.js:2 | Module 41: with a ceiling below 2^31 every delay lies between 0 and the ceiling, whatever overflows |
| `Backoff.DelaysGrow` | scheduler.ui/src/main/webapp/js/socket.io.js:2 | Module 41: without jitter delays never shrink from one attempt to the next, whatever overflows |
| `Backoff.DelayWraps` | scheduler.ui/src/main/webapp/js/socket.io.js:2 | Module 41: a ceiling of 2^31 gives a delay that wraps to a negative number |
| `NextTick.Process.constructor` | scheduler.ui/src/main/webapp/js/socket.io.js:1 | Module 4: nothing queued, no timer set |
| `NextTick.Process.Push` | scheduler.ui/src/main/webapp/js/socket.io.js:1 | Module 4: the first task queued while nothing drains sets a timer |
| `NextTick.Process.NextTick` | scheduler.ui/src/main/webapp/js/socket.io.js:1 | Module 4, `nextTick`: the task goes to the end of what is pending |
| `NextTick.Process.RunTask` | scheduler.ui/src/main/webapp/js/socket.io.js:1 | Module 4: a task queues its own tasks in order and may then throw |
| `NextTick.Process.RunBatch` | scheduler.ui/src/main/webapp/js/socket.io.js:1 | Module 4, the inner loop of `drainQueue`: runs the current list up to its end or the task that throws, leaving the index there |
| `NextTick.Process.DrainQueue` | scheduler.ui/src/main/webapp/js/socket.io.js:1 | Module 4, `drainQueue`: runs tasks in order, those queued meanwhile included, until none is left or one throws; with a throw the cleanup timer stays set |
| `NextTick.Process.OnDrainTimer` | scheduler.ui/src/main/webapp/js/socket.io.js:1 | Module 4: the timer drains unless an interrupted drain is waiting for its cleanup |
| `NextTick.Process.OnCleanupTimer` | scheduler.ui/src/main/webapp/js/socket.io.js:1 | Module 4, `cleanUpNextTick`: goes on after the task that threw, in front of what was queued since |
| `NextTick.DrainConserves` | scheduler.ui/src/main/webapp/js/socket.io.js:1 | Module 4: draining moves tasks from pending to run without loss or reordering, and leaves nothing unless a task threw |
| `NextTick.QueuedLast` | scheduler.ui/src/main/webapp/js/socket.io.js:1 | Module 4: a task passed to `nextTick` is queued behind everything, and not run yet |
| `NextTick.RunInOrder` | scheduler.ui/src/main/webapp/js/socket.io.js:1 | Module 4: in every run the tasks run are the first ones queued, in order, each once; while any is pending exactly one timer is set, the drain timer or, only after a task that threw, the cleanup timer, and with none pending no drain timer is set |
| `NextTick.InterruptedWaits` | scheduler.ui/src/main/webapp/js/socket.io.js:1 | Module 4: while a task that threw has its cleanup timer set, no drain timer runs anything |
| `NextTick.ThrowThenCleanup` | scheduler.ui/src/main/webapp/js/socket.io.js:1 | Module 4: a run in which the first of two tasks throws, and the cleanup timer runs the other and then what the first one queued |
| `NextTick.ThrowLosesNothing` | scheduler.ui/src/main/webapp/js/socket.io.js:1 | Module 4: what ran before a throw and what the cleanup will run make up the whole first-in first-out order |
| `NextTick.TimersKeepOrder` | scheduler.ui/src/main/webapp/js/socket.io.js:1 | Module 4: no timer changes the order in which everything will have run |
| `NextTick.EachRunsOnce` | scheduler.ui/src/main/webapp/js/socket.io.js:1 | Module 4: every queued task and every task those queue in turn runs exactly once |
| `NextTick.EverythingRuns` | scheduler.ui/src/main/webapp/js/socket.io.js:1 | Module 4: from any point of any run, once as many set timers have fired as there are tasks in the pending trees and drain timers, nothing is pending and every task, and every task those queued, has run exactly once, first in first out |
| `AsyncMap.Map.constructor` | scheduler.ui/src/main/webapp/js/socket.io.js:2 | Modules 22 and 25: an empty list calls the continuation at once, another one starts the counter |
| `AsyncMap.Map.OnComplete` | scheduler.ui/src/main/webapp/js/socket.io.js:2 | Modules 22 and 25: one completion stores its result at its index and counts down; the first error or the last completion calls the continuation, a further one is refused |
| `AsyncMap.RunTracks` | scheduler.ui/src/main/webapp/js/socket.io.js:2 | Modules 22 and 25: after any part of any completion order, the counter, the stored results and the calls made are as that part determines |
| `AsyncMap.EmptyAtOnce` | scheduler.ui/src/main/webapp/js/socket.io.js:2 | Modules 22 and 25: an empty list calls the continuation at once, with nothing, and no other list calls anything before a completion |
| `AsyncMap.CalledOnce` | scheduler.ui/src/main/webapp/js/socket.io.js:2 | Modules 22 and 25: for every completion order the continuation is called exactly once, with all results at their input index, or with the first error |
| `AsyncMap.NotBeforeLast` | scheduler.ui/src/main/webapp/js/socket.io.js:2 | Modules 22 and 25: without an error nothing is called before the last completion |
| `AsyncMap.OneTooMany` | scheduler.ui/src/main/webapp/js/socket.io.js:2 | Module 25: a completion too many is refused and calls nothing |
| `IsEqual.EqualAtomsIsMeaning` | scheduler.ui/src/main/webapp/js/underscore-min.js:6 | `S`, the branches by class: primitives, boxed primitives, dates and regular expressions are found equal exactly when they mean the same, the two zeros told apart and NaN equal to itself, invalid dates and functions only when they are the same object; but a zero on the left passes for a number of its sign so small that its reciprocal overflows |
| `IsEqual.LeastPassesForZero` | scheduler.ui/src/main/webapp/js/underscore-min.js:6 | `isEqual(0, 5e-324)` is true, and false with the arguments exchanged |
| `IsEqual.ZeroAgainstNumber` | scheduler.ui/src/main/webapp/js/underscore-min.js:6 | `S`, `0==n?1/n==1/t`: a zero is found equal to another number if and only if that has its sign and is at most the reciprocal of the limit; no other number is found equal to a zero |
| `IsEqual.Comparer.constructor` | scheduler.ui/src/main/webapp/js/underscore-min.js:6 | `isEqual` starts with both stacks empty |
| `IsEqual.Comparer.Compare` | scheduler.ui/src/main/webapp/js/underscore-min.js:6 | `S` ends on every finite graph, cyclic or not, leaves both stacks as it found them, and answers by its recursive description |
| `IsEqual.Comparer.CompareItems` | scheduler.ui/src/main/webapp/js/underscore-min.js:6 | `S`, the loop over array items, from the last to the first |
| `IsEqual.Comparer.CompareProps` | scheduler.ui/src/main/webapp/js/underscore-min.js:6 | `S`, the loop over own properties: each must be an own property of the other object, with an equal value |
| `IsEqual.CountDown` | scheduler.ui/src/main/webapp/js/underscore-min.js:6 | `S`, the second loop over keys: it answers whether the other object has exactly as many keys as were counted |
| `IsEqual.SameKeyCount` | scheduler.ui/src/main/webapp/js/underscore-min.js:6 | `S`: when all keys of one object are keys of the other, equal counts mean equal key sets, and conversely |
| `IsEqual.TrueMeansBisimilar` | scheduler.ui/src/main/webapp/js/underscore-min.js:6 | `isEqual`: on every finite graph, cyclic or not, a true answer means that the two graphs are bisimilar, values without parts being matched as the branches by class match them |
| `IsEqual.EqIsUnfolding` | scheduler.ui/src/main/webapp/js/underscore-min.js:6 | `S`: for values that no cycle is reached from, in any graph and whatever is on the stacks above them, the answer is true exactly when the trees they unfold to match |
| `IsEqual.ExactOnTrees` | scheduler.ui/src/main/webapp/js/underscore-min.js:6 | `isEqual`: for values that no cycle is reached from, in any graph, the answer is true exactly when the trees they unfold to match |
| `IsEqual.ExactWithoutTiny` | scheduler.ui/src/main/webapp/js/underscore-min.js:6 | `isEqual`: for such values, of which the second holds no number so small that its reciprocal overflows, the answer is true exactly when both unfold to the same tree |
| `IsEqual.OnlyTinyMisleads` | scheduler.ui/src/main/webapp/js/underscore-min.js:6 | `isEqual`: a tree is matched by itself alone if and only if it holds no number so small that its reciprocal overflows |
| `IsEqual.EqOfParts` | scheduler.ui/src/main/webapp/js/underscore-min.js:6 | `S`: two nodes met for the first time are found equal exactly when they are of one kind, constructor and size and all corresponding parts are found equal one level down |
| `IsEqual.ExactOnGraphs` | scheduler.ui/src/main/webapp/js/underscore-min.js:6 | `isEqual`: on every finite graph, cyclic or not, the answer is true if and only if the two values are bisimilar and every walk that comes back to a node it left on the left-hand side comes back, at the same steps, to the same node on the right-hand side |
| `IsEqual.LoopsCompareOneWay` | scheduler.ui/src/main/webapp/js/underscore-min.js:6 | `isEqual`: two bisimilar loops that are found equal in one order of the arguments and not in the other |
| `Throttle.Throttled.constructor` | scheduler.ui/src/main/webapp/js/underscore-min.js:6 | `throttle`: no call made, no timer set |
| `Throttle.Throttled.DoCall` | scheduler.ui/src/main/webapp/js/underscore-min.js:6 | `throttle`, the returned function: invokes at once when the wait is over, clearing a timer, or sets a timer when trailing runs are on; it returns the result of the latest run |
| `Throttle.Throttled.Later` | scheduler.ui/src/main/webapp/js/underscore-min.js:6 | `throttle`, the timer: invokes with the arguments of the latest call |
| `Throttle.StepValid` | scheduler.ui/src/main/webapp/js/underscore-min.js:6 | `throttle`: every call and every timer keeps the invariant about spacing, the pending timer and the calls still owed |
| `Throttle.AtMostOncePerWait` | scheduler.ui/src/main/webapp/js/underscore-min.js:6 | `throttle`: in every run under a non-decreasing clock and timers that never fire early, any two invocations are at least `wait` apart and at most one timer is pending |
| `Throttle.EveryCallCovered` | scheduler.ui/src/main/webapp/js/underscore-min.js:6 | `throttle` with trailing runs: every call is invoked at once, or a timer due within `wait` is pending that has its arguments as the latest |
| `Throttle.TimerDue` | scheduler.ui/src/main/webapp/js/underscore-min.js:6 | `throttle`: in every run a pending timer is due exactly `wait` after the latest run of the function, or before there has been one, after the first call (leading runs off) or the epoch (leading runs on) |
| `Throttle.NoTimerWithoutTrailing` | scheduler.ui/src/main/webapp/js/underscore-min.js:6 | `throttle` with `trailing: false`: in every run no timer is ever set |
| `Throttle.TimerUsesLatest` | scheduler.ui/src/main/webapp/js/underscore-min.js:6 | `throttle`: the timer runs the function with the arguments of the latest call and leaves no timer |
| `Throttle.InvokedAtOnce` | scheduler.ui/src/main/webapp/js/underscore-min.js:6 | `throttle`: in every run a call is invoked at once if and only if `wait` has passed since the latest run of the function, or before there has been one, since the first call (leading runs off) or the epoch (leading runs on) |
| `Throttle.LeadingOffStillLeads` | scheduler.ui/src/main/webapp/js/underscore-min.js:6 | `throttle` with `leading: false`: a run in which a leading call is invoked at once all the same |
| `Throttle.ReturnsLatest` | scheduler.ui/src/main/webapp/js/underscore-min.js:6 | `throttle`: in every run a call returns the result of the latest run of the function, if there has been one |
| `Calendar.MonthLengths` | scheduler.ui/src/main/webapp/js/datepicker/bootstrap-datepicker.js:378-383 | The lengths of the months, one by one, and of February in leap years and others |
| `Calendar.YearLength` | scheduler.ui/src/main/webapp/js/datepicker/bootstrap-datepicker.js:378-380 | The leap-year rule agrees with the day numbers of ECMA-262: a year has 366 days exactly when it is a leap year |
| `Calendar.NextMonthStart` | scheduler.ui/src/main/webapp/js/datepicker/bootstrap-datepicker.js:381-383 | Months of the lengths given by `getDaysInMonth` follow each other without a gap, across the new year as well |
| `Calendar.DayNumbersOrder` | scheduler.ui/src/main/webapp/js/datepicker/bootstrap-datepicker.js:206 | Comparing time values orders dates as the calendar does, and two different dates never share one |
| `Calendar.MakeDay` | scheduler.ui/src/main/webapp/js/datepicker/bootstrap-datepicker.js:195 | A day of the month beyond its month runs over into the months after or before it, as ECMA-262 computes it |
| `Calendar.SetDateIsTomorrow` | scheduler.ui/src/main/webapp/js/datepicker/bootstrap-datepicker.js:225 | Adding one to the day of the month gives the next day of the calendar, at the end of a month and of a year as well |
| `Calendar.WeekTurns` | scheduler.ui/src/main/webapp/js/datepicker/bootstrap-datepicker.js:198 | Adding days to a date turns its day of the week |
| `Calendar.WeekDays` | scheduler.ui/src/main/webapp/js/datepicker/bootstrap-datepicker.js:198 | The days of the week follow each other, 1 January 1970 being a Thursday and 31 December 2023 a Sunday |
| `Datepicker.Picker.constructor` | scheduler.ui/src/main/webapp/js/datepicker/bootstrap-datepicker.js:79-85 | The page shown first is that of the month of the starting date |
| `Datepicker.Picker.Fill` | scheduler.ui/src/main/webapp/js/datepicker/bootstrap-datepicker.js:188-252 | The three pages are brought in step with the state |
| `Datepicker.Picker.FillDays` | scheduler.ui/src/main/webapp/js/datepicker/bootstrap-datepicker.js:188-227 | The loop writes 42 cells, opening and closing a row by the day of the week, as the page describes them position by position |
| `Datepicker.Picker.FillSpans` | scheduler.ui/src/main/webapp/js/datepicker/bootstrap-datepicker.js:228-251 | The page of months highlights the month of the selected date in its own year; the loop writes the twelve years of a decade page |
| `Datepicker.Picker.SetValue` | scheduler.ui/src/main/webapp/js/datepicker/bootstrap-datepicker.js:141-150 | Shows the month of a date given from outside, and keeps page and state in step |
| `Datepicker.Picker.Click` | scheduler.ui/src/main/webapp/js/datepicker/bootstrap-datepicker.js:297-317 | A click on an enabled day cell selects the date its number and class say; a disabled cell does nothing |
| `Datepicker.Picker.Navigate` | scheduler.ui/src/main/webapp/js/datepicker/bootstrap-datepicker.js:265-275 | The arrows move the view by exactly one month, one year or ten years, and keep its day |
| `Datepicker.Picker.PickSpan` | scheduler.ui/src/main/webapp/js/datepicker/bootstrap-datepicker.js:277-296 | A click on a month or year sets just that, selects the day in view in the wider modes, and goes one mode narrower |
| `Datepicker.FirstCell` | scheduler.ui/src/main/webapp/js/datepicker/bootstrap-datepicker.js:195-198 | The grid begins on the first day of the week, one to seven days before the first of the month it is laid out around |
| `Datepicker.FirstCellFromSunday` | scheduler.ui/src/main/webapp/js/datepicker/bootstrap-datepicker.js:195-198 | Counted from 31 December 2023, a Sunday, the first cell lies as many days after a Sunday as the week starts |
| `Datepicker.NextCell` | scheduler.ui/src/main/webapp/js/datepicker/bootstrap-datepicker.js:206-226 | Neighbouring cells show neighbouring days of the Gregorian calendar |
| `Datepicker.GridMonths` | scheduler.ui/src/main/webapp/js/datepicker/bootstrap-datepicker.js:195-226 | The 42 cells are 1 to 7 days of the month before, the whole month, and 4 to 13 days of the month after |
| `Datepicker.CellsDiffer` | scheduler.ui/src/main/webapp/js/datepicker/bootstrap-datepicker.js:206-226 | No date is shown twice |
| `Datepicker.ShowsTheMonth` | scheduler.ui/src/main/webapp/js/datepicker/bootstrap-datepicker.js:188-226 | Every day of the month in view is on the grid if and only if the year is not 0 to 99, which the `Date` constructor reads as 1900 to 1999 |
| `Datepicker.AgeIsMonthOrder` | scheduler.ui/src/main/webapp/js/datepicker/bootstrap-datepicker.js:213-217 | A cell is marked old, new or neither exactly as its month lies before, after or in the month in view |
| `Datepicker.LowYearsAreAllNew` | scheduler.ui/src/main/webapp/js/datepicker/bootstrap-datepicker.js:188-226 | For the years 0 to 99 the grid shows the twentieth century and marks all 42 cells as new |
| `Datepicker.ClickHits` | scheduler.ui/src/main/webapp/js/datepicker/bootstrap-datepicker.js:297-310 | Outside the years 0 to 99, a click on any of the 42 cells selects exactly the date that the cell shows and moves the view to its month |
| `Datepicker.DayOfNoNumber` | scheduler.ui/src/main/webapp/js/datepicker/bootstrap-datepicker.js:301 | A cell without a number stands for the first day |
| `Datepicker.ClicksExact` | scheduler.ui/src/main/webapp/js/datepicker/bootstrap-datepicker.js:297-310 | Clicks select the date shown on all 42 cells if and only if the year in view is not 0 to 99 |
| `Datepicker.OneActive` | scheduler.ui/src/main/webapp/js/datepicker/bootstrap-datepicker.js:218-220 | After a click, outside the years 0 to 99, the clicked date is on the new page and the one cell highlighted is its cell |
| `Datepicker.SixRows` | scheduler.ui/src/main/webapp/js/datepicker/bootstrap-datepicker.js:207-224 | The page is six rows of seven cells, each properly opened and closed |
| `Datepicker.YearOnItsPage` | scheduler.ui/src/main/webapp/js/datepicker/bootstrap-datepicker.js:240-250 | The year in view is on the page of years if and only if it is not negative or ends in 0 or 1 |
| `Datepicker.SpansSpelled` | scheduler.ui/src/main/webapp/js/datepicker/bootstrap-datepicker.js:228-251 | The page of months highlights the month of the selected date exactly in its own year; of the twelve years the ten of the decade are inside it, and the highlighted one is that of the selected date |
| `Datepicker.MonthMoves` | scheduler.ui/src/main/webapp/js/datepicker/bootstrap-datepicker.js:265-275 | From a day up to 28, moving by months is exact and reversible |

## Left out

- SocketHeader.RoundTrip: `JSON.stringify`, `JSON.parse` and `Number` are opaque functions that meet `RuntimeLaws`; numbers in data are integers, and `toJSON` and dates are not modelled.
- TextPayload.RoundTrip: `Number` reads digits exactly; lengths, counts and ids above 2^53, which it would round, are not modelled.
- BinaryPayload.RoundTrip: the variant for `Blob` writes the same bytes and is not modelled; a browser without array buffers, where a binary arrives as a `{base64: true}` object, is not either.
- Attachments.ReconstructAll: the received value is freshly parsed, so no part of it is shared and overwriting it in place is an update of the value; getters, `toJSON`, dates and inherited enumerable properties in user data are not modelled.
- Attachments.BufferFound: `num` in data that only looks like a placeholder may be a string in the code, which then finds a buffer or a property of the list; here it finds nothing.
- EngineSocket.Socket.OnHandshake: at most one probe is started in a run; several upgrades probed at once, `onlyBinaryUpgrades`, `rememberUpgrade` and the abort of one probe by another are not modelled.
- EngineProgress.ProgressExact: for the same reason a second handshake on an open socket, which would start a second probe, is not among the ways out of a stalled upgrade.
- EngineSocket.Socket.OnConnectionLost: ping timers are among the causes of losing the connection, and pings among the packets sent; transports are values, so a handler left on a replaced transport is not modelled.
- Reconnection.Manager.OnEngineError: the connect timeout is one of the errors.
- IsEqual.Comparer.Compare: values wrapped by `_(...)`, objects of other built-in classes, and own properties that are not enumerable.
- IsEqual.TrueMeansBisimilar: the converse fails on cyclic graphs, as `IsEqual.LoopsCompareOneWay` shows; `IsEqual.ExactOnGraphs` has the exact condition.
- Backoff.Backoff.Duration: overflow to infinity and NaN are modelled, the rounding of finite results is not.
- IsEqual.EqualAtomsIsMeaning: numbers are exact; holes of a sparse array are its undefined elements, as `S` reads them.
- Delivery.DeliveredInCallOrder: the other end is taken to read with the parsers and the decoder of this script; the packets that a transport adds by itself, on closing and upgrading, carry no frame.
- Datepicker.Picker.Fill: dates are civil dates, without time zones and daylight saving, of any year, where a runtime has none beyond 100,000,000 days from 1970; `onRender` is taken to answer only whether a day is disabled. `parseDate` and `formatDate` are not modelled.
- Throttle.Throttled.DoCall: the receiver and the arguments of a call are one value, and what a run returns is told by naming the run.
- EngineSocket.CloseIsFinal: that the server of an open socket sends no second handshake is assumed, and an earlier `close` undone by a handshake is excluded.
- Event handlers of users are separate later steps; a handler that calls back in the middle of a step is not modelled.
- Real sockets, XMLHttpRequest, JSONP, Blob, FileReader and the DOM: a transport is its send, drain, poll, error and close events.
- Native `btoa` is taken to be the encoder of module 28.
- URL and query parsing, debug output and the `ms` parser of the socket.io script; the socket.io `Socket` object of module 37 above the manager.
- Underscore's other functions, the other scripts of the web pages, and the Java classes: user interface, beans and library plumbing without an algorithm of their own.
