/** The text form of a socket.io packet: type, attachment count, namespace, ack id and JSON data. */
module SocketHeader {
  import opened JsText
  import opened Attachments

  datatype PacketType = CONNECT | DISCONNECT | EVENT | ACK | ERROR | BINARY_EVENT | BINARY_ACK

  /** A packet; `None` stands for a field that is absent. */
  datatype Packet = Packet(
    ptype: PacketType,
    attachments: Option<JsNumber>,
    nsp: Option<JsString>,
    id: Option<JsNumber>,
    data: Option<Value>)

  const DASH: Unit := 45
  const SLASH: Unit := 47
  const COMMA: Unit := 44
  const ROOT: JsString := [SLASH]
  // "parser error"
  const PARSER_ERROR: JsString := [112, 97, 114, 115, 101, 114, 32, 101, 114, 114, 111, 114]

  const ERROR_PACKET := Packet(ERROR, None, None, None, Some(Str(PARSER_ERROR)))

  /** The runtime's JSON functions, and its reading of strings as numbers. */
  datatype Runtime = Runtime(
    stringify: Value -> JsString,
    parse: JsString -> Option<Value>,
    number: JsString -> JsNumber)

  /** A single unit that `Number` reads: a digit, or white space. */
  predicate IsNumberUnit(js: Runtime, u: Unit) {
    js.number([u]) != NAN
  }

  /** The text of an array index: objects list such keys first, in ascending order. */
  predicate IsIndex(key: JsString) {
    key != [] && IsNumeral(key) && (key[0] == ZERO ==> |key| == 1) && FromDecimal(key) < 0xFFFF_FFFF
  }

  predicate Precedes(key: JsString, later: JsString) {
    key != later && (IsIndex(later) ==> IsIndex(key) && FromDecimal(key) < FromDecimal(later))
  }

  /** Keys that differ, in the order in which an object lists them. */
  predicate IsEnumeration(keys: seq<JsString>) {
    forall i, j :: 0 <= i < j < |keys| ==> Precedes(keys[i], keys[j])
  }

  /** A value that JSON can carry: no binary and no undefined part; each key with a value, as an object lists them. */
  predicate IsJson(v: Value) {
    match v
    case Undefined => false
    case Binary(_) => false
    case Arr(items) => forall i :: 0 <= i < |items| ==> IsJson(items[i])
    case Obj(keys, values) =>
      |keys| == |values| && IsEnumeration(keys) && forall i :: 0 <= i < |values| ==> IsJson(values[i])
    case _ => true
  }

  /**
   * What is used of RFC 8259: printing inverts; a text never starts with a slash or with white space, and one that
   * starts with a digit is an integer without leading zeros.
   */
  ghost predicate RuntimeLaws(js: Runtime) {
    && NumberLaws(js.number)
    && (forall v :: IsJson(v) ==> js.parse(js.stringify(v)) == Some(v))
    && (forall v :: js.stringify(v) != [] && js.stringify(v)[0] != SLASH)
    && (forall v :: IsNumberUnit(js, js.stringify(v)[0]) ==> IsNumeral(js.stringify(v)))
    && (forall v :: js.stringify(v)[0] == ZERO ==> js.stringify(v) == [ZERO])
  }

  function Code(t: PacketType): nat {
    match t
    case CONNECT => 0 case DISCONNECT => 1 case EVENT => 2 case ACK => 3 case ERROR => 4
    case BINARY_EVENT => 5 case BINARY_ACK => 6
  }

  function TypeOf(code: JsNumber): Option<PacketType> {
    if code == Natural(0) then Some(CONNECT) else if code == Natural(1) then Some(DISCONNECT)
    else if code == Natural(2) then Some(EVENT) else if code == Natural(3) then Some(ACK)
    else if code == Natural(4) then Some(ERROR) else if code == Natural(5) then Some(BINARY_EVENT)
    else if code == Natural(6) then Some(BINARY_ACK) else None
  }

  predicate IsBinaryType(t: PacketType) {
    t == BINARY_EVENT || t == BINARY_ACK
  }

  // ---------- encoding ----------

  function AttachmentsText(p: Packet): JsString {
    if !IsBinaryType(p.ptype) then []
    else (if p.attachments.Some? then NumberText(p.attachments.value) else UNDEFINED) + [DASH]
  }

  function NspText(p: Packet): JsString {
    if p.nsp.None? || p.nsp.value == [] || p.nsp.value == ROOT then [] else p.nsp.value + [COMMA]
  }

  function IdText(p: Packet): JsString {
    if p.id.None? then [] else NumberText(p.id.value)
  }

  function DataText(js: Runtime, p: Packet): JsString {
    if p.data.None? || p.data == Some(Null) then [] else js.stringify(p.data.value)
  }

  function Encode(js: Runtime, p: Packet): JsString {
    [ZERO + Code(p.ptype)] + (AttachmentsText(p) + (NspText(p) + (IdText(p) + DataText(js, p))))
  }

  lemma FieldTexts(js: Runtime, p: Packet)
    ensures NspText(p) == if p.nsp.None? || p.nsp.value in {[], [47]} then [] else p.nsp.value + [44]
    ensures IdText(p) == if p.id.None? then [] else NumberText(p.id.value)
    ensures DataText(js, p) == if p.data.None? || p.data.value == Null then [] else js.stringify(p.data.value)
    ensures p.ptype in {BINARY_EVENT, BINARY_ACK} ==>
              AttachmentsText(p) == (if p.attachments.Some? then NumberText(p.attachments.value)
                                     else [117, 110, 100, 101, 102, 105, 110, 101, 100]) + [45]
    ensures p.ptype !in {BINARY_EVENT, BINARY_ACK} ==> AttachmentsText(p) == []
  {
    hide NumberText;
  }

  /**
   * The text, spelled out: the digit of the type, for the two binary types the number of attachments and a dash, a
   * namespace other than the root and a comma, the ack id, the data.
   */
  lemma HeaderText(js: Runtime, p: Packet)
    ensures var count := if p.attachments.Some? then NumberText(p.attachments.value)
                         else [117, 110, 100, 101, 102, 105, 110, 101, 100];
            var nsp := if p.nsp.None? || p.nsp.value in {[], [47]} then [] else p.nsp.value + [44];
            var id := if p.id.None? then [] else NumberText(p.id.value);
            var rest := nsp + (id + if p.data.None? || p.data.value == Null then [] else js.stringify(p.data.value));
            && (p.ptype == CONNECT ==> Encode(js, p) == [48] + rest)
            && (p.ptype == DISCONNECT ==> Encode(js, p) == [49] + rest)
            && (p.ptype == EVENT ==> Encode(js, p) == [50] + rest)
            && (p.ptype == ACK ==> Encode(js, p) == [51] + rest)
            && (p.ptype == ERROR ==> Encode(js, p) == [52] + rest)
            && (p.ptype == BINARY_EVENT ==> Encode(js, p) == [53] + (count + [45] + rest))
            && (p.ptype == BINARY_ACK ==> Encode(js, p) == [54] + (count + [45] + rest))
  {
    FieldTexts(js, p);
    hide NumberText, NspText, IdText, DataText, AttachmentsText;
    var rest := NspText(p) + (IdText(p) + DataText(js, p));
    assert [] + rest == rest;
    if p.ptype in {BINARY_EVENT, BINARY_ACK} {
      var count := AttachmentsText(p)[..|AttachmentsText(p)| - 1];
      Assoc(count, [45], rest);
    }
  }

  // ---------- decoding ----------

  /** The units before the first `u`, all of them when there is none. */
  function Until(s: JsString, u: Unit): JsString {
    if s == [] || s[0] == u then [] else [s[0]] + Until(s[1..], u)
  }

  lemma {:induction false} UntilShorter(s: JsString, u: Unit)
    ensures Until(s, u) <= s
    ensures |Until(s, u)| < |s| ==> s[|Until(s, u)|] == u
  {
    if s != [] && s[0] != u {
      UntilShorter(s[1..], u);
    }
  }

  /** The longest row of units at the front that `Number` reads one by one. */
  function NumberUnits(js: Runtime, s: JsString): JsString {
    if s == [] || !IsNumberUnit(js, s[0]) then [] else [s[0]] + NumberUnits(js, s[1..])
  }

  function Drop(s: JsString, n: nat): JsString {
    if n <= |s| then s[n..] else []
  }

  /** Decodes a text frame; the only exception thrown is for an attachment count that is not a number. */
  function Decode(js: Runtime, s: JsString): Result<Packet> {
    var t := if s == [] then Some(CONNECT) else TypeOf(js.number([s[0]]));
    if t.None? then Ok(ERROR_PACKET)
    else if IsBinaryType(t.value) then
      var count := Until(Drop(s, 1), DASH);
      if js.number(count) == NAN || |count| + 1 >= |s| then Throws
      else Ok(DecodeNsp(js, Drop(s, |count| + 2), Packet(t.value, Some(js.number(count)), None, None, None)))
    else Ok(DecodeNsp(js, Drop(s, 1), Packet(t.value, None, None, None, None)))
  }

  function DecodeNsp(js: Runtime, s: JsString, p: Packet): Packet {
    if s != [] && s[0] == SLASH then
      var nsp := Until(s, COMMA);
      DecodeId(js, Drop(s, |nsp| + 1), p.(nsp := Some(nsp)))
    else DecodeId(js, s, p.(nsp := Some(ROOT)))
  }

  function DecodeId(js: Runtime, s: JsString, p: Packet): Packet {
    var id := NumberUnits(js, s);
    if id == [] then DecodeData(js, s, p) else DecodeData(js, Drop(s, |id|), p.(id := Some(js.number(id))))
  }

  function DecodeData(js: Runtime, s: JsString, p: Packet): Packet {
    if s == [] then p
    else
      var data := js.parse(s);
      if data.None? then ERROR_PACKET else p.(data := data)
  }

  /** Which strings make the decoder throw: a binary type whose count is not ended by a dash, or is no number. */
  lemma ThrowsExactly(js: Runtime, s: JsString)
    ensures Decode(js, s).Throws?
       <==> && s != [] && js.number([s[0]]) in {Natural(5), Natural(6)}
            && forall k :: 1 <= k < |s| && s[k] == 45 && 45 !in s[1..k] ==> js.number(s[1..k]) == NAN
  {
    hide DecodeNsp;
    if s != [] {
      var rest := s[1..];
      UntilShorter(rest, DASH);
      var n := |Until(rest, DASH)|;
      UntilLacks(rest, DASH);
      assert s[1..n + 1] == rest[..n] == Until(rest, DASH);
      forall k | 1 <= k < |s| && s[k] == 45 && 45 !in s[1..k] ensures k == n + 1 {
        assert s[1..k] == rest[..k - 1];
        FirstOfUnit(rest, k - 1, DASH);
      }
    }
  }

  lemma {:induction false} FirstOfUnit(s: JsString, k: nat, u: Unit)
    requires k < |s| && s[k] == u && u !in s[..k]
    ensures |Until(s, u)| == k
  {
    if k > 0 {
      assert s[0] in s[..k];
      assert s[..k][1..] == s[1..][..k - 1];
      FirstOfUnit(s[1..], k - 1, u);
    }
  }

  lemma {:induction false} UntilLacks(s: JsString, u: Unit)
    ensures u !in Until(s, u)
  {
    if s != [] && s[0] != u {
      UntilLacks(s[1..], u);
    }
  }

  /** What stands where the ack id is read: the longest row of units that `Number` reads one by one, as one number. */
  lemma {:induction false} IdTaken(js: Runtime, units: JsString, rest: JsString, p: Packet)
    requires forall i :: 0 <= i < |units| ==> js.number([units[i]]) != NAN
    requires rest == [] || js.number([rest[0]]) == NAN
    ensures NumberUnits(js, units + rest) == units
    ensures units != [] ==> DecodeId(js, units, p) == p.(id := Some(js.number(units)))
  {
    if units == [] {
      assert units + rest == rest;
    } else {
      assert (units + rest)[1..] == units[1..] + rest;
      IdTaken(js, units[1..], rest, p);
      IdTaken(js, units[1..], [], p);
      assert units[1..] + [] == units[1..];
    }
  }

  /** A namespace without a comma behind it goes on to the end of the text. */
  lemma NspToTheEnd(js: Runtime, u: Unit, nsp: JsString)
    requires nsp != [] && nsp[0] == 47 && 44 !in nsp && js.number([u]) in {Natural(0), Natural(1), Natural(2)}
    requires js.number([]) == Natural(0)
    ensures Decode(js, [u] + nsp)
         == Ok(Packet(if js.number([u]) == Natural(0) then CONNECT
                      else if js.number([u]) == Natural(1) then DISCONNECT else EVENT,
                      None, Some(nsp), None, None))
  {
    UntilWhole(nsp, COMMA);
    assert ([u] + nsp)[1..] == nsp;
  }

  lemma {:induction false} UntilWhole(s: JsString, u: Unit)
    requires u !in s
    ensures Until(s, u) == s
  {
    if s != [] {
      UntilWhole(s[1..], u);
    }
  }

  /** The error packet: for a first unit that names no type, and for data that does not parse. */
  lemma ErrorPackets(js: Runtime, u: Unit, rest: JsString)
    ensures var error := Packet(ERROR, None, None, None,
                                Some(Str([112, 97, 114, 115, 101, 114, 32, 101, 114, 114, 111, 114])));
            && ((forall n :: 0 <= n <= 6 ==> js.number([u]) != Natural(n)) ==> Decode(js, [u] + rest) == Ok(error))
            && ((exists n :: 0 <= n <= 4 && js.number([u]) == Natural(n))
                && rest != [] && rest[0] != 47 && js.number([rest[0]]) == NAN && js.parse(rest) == None ==>
                  Decode(js, [u] + rest) == Ok(error))
  {
    assert ([u] + rest)[1..] == rest;
    hide Until;
  }

  method DecodeLoop(js: Runtime, str: JsString) returns (r: Result<Packet>)
    ensures r == Decode(js, str)
  {
    hide Until, DecodeNsp;
    var t := if str == [] then Some(CONNECT) else TypeOf(js.number([str[0]]));
    if t.None? {
      return Ok(ERROR_PACKET);
    }
    var p := Packet(t.value, None, None, None, None);
    var i := 1;
    if IsBinaryType(t.value) {
      var buf := UntilLoop(str, i, DASH);
      i := i + |buf|;
      if js.number(buf) == NAN || i >= |str| {
        return Throws;
      }
      p := p.(attachments := Some(js.number(buf)));
      i := i + 1;
    }
    p := DecodeFields(js, str, i, p);
    return Ok(p);
  }

  /** Reads the namespace, and then the rest, from index `start` on. */
  method DecodeFields(js: Runtime, str: JsString, start: nat, counted: Packet) returns (p: Packet)
    ensures p == DecodeNsp(js, Drop(str, start), counted)
  {
    hide Until, DecodeId;
    var i := start;
    if i < |str| && str[i] == SLASH {
      var nsp := UntilLoop(str, i, COMMA);
      p := counted.(nsp := Some(nsp));
      i := i + |nsp| + 1;
    } else {
      p := counted.(nsp := Some(ROOT));
    }
    p := DecodeIdAndData(js, str, i, p);
  }

  method DecodeIdAndData(js: Runtime, str: JsString, start: nat, named: Packet) returns (p: Packet)
    ensures p == DecodeId(js, Drop(str, start), named)
  {
    hide NumberUnits;
    var i := start;
    p := named;
    NoNumberUnits(js, Drop(str, i));
    if i < |str| && IsNumberUnit(js, str[i]) {
      var id := NumberUnitsLoop(js, str, i);
      p := p.(id := Some(js.number(id)));
      i := i + |id|;
    }
    if i < |str| {
      var data := js.parse(str[i..]);
      p := if data.None? then ERROR_PACKET else p.(data := data);
    }
  }

  lemma NoNumberUnits(js: Runtime, s: JsString)
    ensures NumberUnits(js, s) == [] <==> s == [] || !IsNumberUnit(js, s[0])
  {
  }

  method UntilLoop(str: JsString, start: nat, u: Unit) returns (taken: JsString)
    ensures taken == Until(Drop(str, start), u)
  {
    hide Until, Drop;
    taken := [];
    var i := start;
    while i < |str| && str[i] != u
      invariant start <= i && (i <= |str| || i == start)
      invariant taken + Until(Drop(str, i), u) == Until(Drop(str, start), u)
    {
      UntilStep(str, i, u);
      Assoc(taken, [str[i]], Until(Drop(str, i + 1), u));
      taken := taken + [str[i]];
      i := i + 1;
    }
    UntilStep(str, i, u);
    assert taken + [] == taken;
  }

  lemma UntilStep(str: JsString, i: nat, u: Unit)
    ensures Until(Drop(str, i), u) == if i < |str| && str[i] != u then [str[i]] + Until(Drop(str, i + 1), u) else []
  {
    assert i < |str| ==> Drop(str, i)[1..] == Drop(str, i + 1);
  }

  method NumberUnitsLoop(js: Runtime, str: JsString, start: nat) returns (taken: JsString)
    requires start < |str| && IsNumberUnit(js, str[start])
    ensures taken == NumberUnits(js, Drop(str, start)) && taken != []
  {
    hide NumberUnits, Drop, IsNumberUnit;
    taken := [];
    var i := start;
    while i < |str| && IsNumberUnit(js, str[i])
      invariant start <= i <= |str| && (i > start ==> taken != [])
      invariant taken + NumberUnits(js, Drop(str, i)) == NumberUnits(js, Drop(str, start))
    {
      NumberUnitsStep(js, str, i);
      Assoc(taken, [str[i]], NumberUnits(js, Drop(str, i + 1)));
      taken := taken + [str[i]];
      i := i + 1;
    }
    NumberUnitsStep(js, str, i);
    assert taken + [] == taken;
  }

  lemma NumberUnitsStep(js: Runtime, str: JsString, i: nat)
    ensures NumberUnits(js, Drop(str, i))
         == if i < |str| && IsNumberUnit(js, str[i]) then [str[i]] + NumberUnits(js, Drop(str, i + 1)) else []
  {
    assert i < |str| ==> Drop(str, i)[1..] == Drop(str, i + 1);
  }

  // ---------- reading back each field ----------

  lemma {:induction false} UntilFound(before: JsString, u: Unit, rest: JsString)
    requires u !in before
    ensures Until(before + [u] + rest, u) == before
  {
    var s := before + [u] + rest;
    if before != [] {
      UntilFound(before[1..], u, rest);
      assert s[1..] == before[1..] + [u] + rest;
    }
  }

  lemma DigitIsNumberUnit(js: Runtime, u: Unit)
    requires NumberLaws(js.number) && IsDigit(u)
    ensures IsNumberUnit(js, u) && js.number([u]) == Natural(u - ZERO)
  {
    assert FromDecimal([u]) == FromDecimal([]) * 10 + (u - ZERO);
  }

  lemma {:induction false} DigitsFound(js: Runtime, digits: JsString, rest: JsString)
    requires NumberLaws(js.number) && IsNumeral(digits)
    ensures NumberUnits(js, digits + rest) == digits + NumberUnits(js, rest)
  {
    hide IsNumberUnit;
    var s := digits + rest;
    if digits == [] {
      assert s == rest;
    } else {
      DigitIsNumberUnit(js, digits[0]);
      DigitsFound(js, digits[1..], rest);
      assert s[1..] == digits[1..] + rest;
    }
  }

  lemma NspRead(js: Runtime, p: Packet, nsp: JsString, rest: JsString)
    requires nsp != [] && nsp[0] == SLASH && COMMA !in nsp
    ensures DecodeNsp(js, nsp + [COMMA] + rest, p) == DecodeId(js, rest, p.(nsp := Some(nsp)))
  {
    UntilFound(nsp, COMMA, rest);
    assert Drop(nsp + [COMMA] + rest, |nsp| + 1) == rest;
  }

  /** The numbers in a packet are natural ones, and a binary type comes with a count. */
  predicate IsCounted(p: Packet) {
    && (IsBinaryType(p.ptype) ==> p.attachments.Some? && p.attachments.value.Natural?)
    && (p.id.Some? ==> p.id.value.Natural?)
  }

  lemma TypeOfCode(js: Runtime, t: PacketType)
    requires NumberLaws(js.number)
    ensures TypeOf(js.number([ZERO + Code(t)])) == Some(t)
  {
    DigitIsNumberUnit(js, ZERO + Code(t));
  }

  /** Past the type and the attachment count, decoding goes on at the namespace. */
  lemma TypeRead(js: Runtime, p: Packet, rest: JsString)
    requires NumberLaws(js.number) && IsCounted(p)
    ensures Decode(js, [ZERO + Code(p.ptype)] + (AttachmentsText(p) + rest)) == Ok(DecodeNsp(js, rest, Base(p)))
  {
    TypeOfCode(js, p.ptype);
    hide DecodeNsp, TypeOf, Code, Until, NumberLaws;
    var text := AttachmentsText(p) + rest;
    var s := [ZERO + Code(p.ptype)] + text;
    assert Drop(s, 1) == text;
    if IsBinaryType(p.ptype) {
      CountRead(js, ZERO + Code(p.ptype), p.attachments.value.n, rest);
      hide ToDecimal;
      assert text == ToDecimal(p.attachments.value.n) + [DASH] + rest;
    } else {
      assert text == rest;
    }
  }

  /** The attachment count is found in front of the dash. */
  lemma CountRead(js: Runtime, digit: Unit, n: nat, rest: JsString)
    requires NumberLaws(js.number)
    ensures var count, s := ToDecimal(n), [digit] + (ToDecimal(n) + [DASH] + rest);
            && Until(Drop(s, 1), DASH) == count && js.number(count) == Natural(n)
            && |count| + 1 < |s| && Drop(s, |count| + 2) == rest
  {
    var count := ToDecimal(n);
    hide ToDecimal, FromDecimal, NumberLaws, Until;
    DecimalRoundTrip(n);
    NumberOfDecimal(js.number, n);
    assert DASH !in count by {
      assert forall i :: 0 <= i < |count| ==> IsDigit(count[i]);
    }
    hide IsNumeral;
    UntilFound(count, DASH, rest);
    var tail := count + [DASH] + rest;
    assert ([digit] + tail)[1..] == tail && ([digit] + tail)[|count| + 2..] == rest;
  }

  function Base(p: Packet): Packet {
    Packet(p.ptype, if IsBinaryType(p.ptype) then p.attachments else None, None, None, None)
  }

  lemma IdRead(js: Runtime, p: Packet, id: Option<nat>, rest: JsString)
    requires NumberLaws(js.number) && (rest == [] || !IsNumberUnit(js, rest[0]))
    ensures DecodeId(js, (if id.None? then [] else ToDecimal(id.value)) + rest, p)
         == DecodeData(js, rest, if id.None? then p else p.(id := Some(Natural(id.value))))
  {
    hide DecodeData, ToDecimal, IsNumberUnit;
    NoNumberUnits(js, rest);
    if id.None? {
      assert [] + rest == rest;
    } else {
      var digits := ToDecimal(id.value);
      DecimalRoundTrip(id.value);
      NumberOfDecimal(js.number, id.value);
      DigitsFound(js, digits, rest);
      assert digits + [] == digits;
      assert Drop(digits + rest, |digits|) == rest;
    }
  }

  // ---------- round trip ----------

  /** A namespace the decoder can find: the root one, or one that starts with a slash and has no comma. */
  predicate IsNsp(nsp: JsString) {
    nsp != [] && nsp[0] == SLASH && COMMA !in nsp
  }

  /** The data's JSON text does not begin with a unit that would be read as part of an ack id. */
  predicate DataStandsApart(js: Runtime, p: Packet) {
    DataText(js, p) == [] || !IsNumberUnit(js, DataText(js, p)[0])
  }

  function IdNumber(p: Packet): Option<nat>
    requires IsCounted(p)
  {
    if p.id.None? then None else Some(p.id.value.n)
  }

  /** What the decoder makes of a well-formed packet. */
  function Normal(p: Packet): Packet {
    Base(p).(nsp := if p.nsp.None? || p.nsp == Some([]) then Some(ROOT) else p.nsp, id := p.id,
             data := if p.data == Some(Null) then None else p.data)
  }

  /** After the header, the namespace field is read back; an omitted one needs the rest not to start with a slash. */
  lemma NspTextRead(js: Runtime, p: Packet, rest: JsString, base: Packet)
    requires p.nsp.Some? && p.nsp.value != [] ==> IsNsp(p.nsp.value)
    requires rest == [] || rest[0] != SLASH
    ensures DecodeNsp(js, NspText(p) + rest, base) == DecodeId(js, rest, base.(nsp := Normal(p).nsp))
  {
    hide DecodeId;
    if NspText(p) == [] {
      assert NspText(p) + rest == rest;
    } else {
      NspRead(js, base, p.nsp.value, rest);
    }
  }

  lemma NoSlashAhead(js: Runtime, p: Packet)
    requires RuntimeLaws(js) && IsCounted(p)
    ensures var rest := IdText(p) + DataText(js, p); rest == [] || rest[0] != SLASH
  {
    if p.id.Some? {
      DecimalRoundTrip(p.id.value.n);
    }
  }

  lemma DecodeToId(js: Runtime, p: Packet)
    requires RuntimeLaws(js) && IsCounted(p)
    requires p.nsp.Some? && p.nsp.value != [] ==> IsNsp(p.nsp.value)
    ensures Decode(js, Encode(js, p))
         == Ok(DecodeId(js, IdText(p) + DataText(js, p), Base(p).(nsp := Normal(p).nsp)))
  {
    hide Decode, DecodeNsp, DecodeId, AttachmentsText, NspText, IdText, DataText;
    var rest := IdText(p) + DataText(js, p);
    NoSlashAhead(js, p);
    TypeRead(js, p, NspText(p) + rest);
    NspTextRead(js, p, rest, Base(p));
  }

  /** Decoding inverts encoding for every packet with a findable namespace and data that stands apart. */
  lemma RoundTrip(js: Runtime, p: Packet)
    requires RuntimeLaws(js) && IsCounted(p)
    requires p.nsp.Some? && p.nsp.value != [] ==> IsNsp(p.nsp.value)
    requires p.data.Some? ==> IsJson(p.data.value)
    requires DataStandsApart(js, p)
    ensures Decode(js, Encode(js, p)) == Ok(Normal(p))
  {
    hide Decode, Encode, DecodeId;
    DecodeToId(js, p);
    IdRead(js, Base(p).(nsp := Normal(p).nsp), IdNumber(p), DataText(js, p));
  }

  /** A packet with every field as the decoder would leave it. */
  predicate IsCanonical(p: Packet) {
    && IsCounted(p) && (p.attachments.Some? <==> IsBinaryType(p.ptype)) && p.nsp.Some?
    && (p.data.Some? ==> IsJson(p.data.value) && p.data.value != Null)
  }

  lemma {:induction false} UntilOmits(s: JsString, u: Unit)
    ensures u !in Until(s, u)
  {
    if s != [] && s[0] != u {
      UntilOmits(s[1..], u);
    }
  }

  lemma NspOfDecoded(js: Runtime, s: JsString, p: Packet)
    ensures var nsp := DecodeNsp(js, s, p).nsp;
            || nsp == None
            || nsp == Some(if s != [] && s[0] == SLASH then Until(s, COMMA) else ROOT)
  {
    hide Until, NumberUnits;
  }

  /** A namespace that is empty, lacks the slash or holds a comma does not come back. */
  lemma BadNsp(js: Runtime, p: Packet)
    requires NumberLaws(js.number) && IsCanonical(p) && !IsNsp(p.nsp.value)
    ensures Decode(js, Encode(js, p)) != Ok(p)
  {
    hide Decode, DecodeNsp, AttachmentsText, IdText, DataText;
    var rest := IdText(p) + DataText(js, p);
    var s, nsp := NspText(p) + rest, p.nsp.value;
    TypeRead(js, p, s);
    NspOfDecoded(js, s, Base(p));
    UntilOmits(s, COMMA);
    if nsp != [] && nsp[0] != SLASH {
      assert s[0] == nsp[0];
    }
  }

  lemma {:induction false} NumeralGrows(a: JsString, more: JsString)
    requires IsNumeral(a) && IsNumeral(more) && more != []
    ensures FromDecimal(a + more) >= FromDecimal(a) * 10 + (more[0] - ZERO)
    decreases |more|
  {
    var s, n := a + more, |more| - 1;
    assert s[..|s| - 1] == a + more[..n];
    if n > 0 {
      NumeralGrows(a, more[..n]);
    } else {
      assert a + more[..n] == a;
    }
  }

  /** Data whose text begins with a digit loses it to the ack id. */
  lemma DigitsLost(js: Runtime, p: Packet)
    requires RuntimeLaws(js) && IsCanonical(p) && IsNsp(p.nsp.value) && !DataStandsApart(js, p)
    ensures Decode(js, Encode(js, p)) != Ok(p)
  {
    hide Decode, Encode, IsNsp, AttachmentsText, NspText, IsNumberUnit, IsJson;
    DecodeToId(js, p);
    var text, id := DataText(js, p), IdText(p);
    assert IsNumeral(text);
    if p.id.Some? {
      DecimalRoundTrip(p.id.value.n);
    }
    hide RuntimeLaws, DataText, IdText, ToDecimal;
    AllDigitsTaken(js, id, text, Base(p).(nsp := Normal(p).nsp));
    NumeralGrows(id, text);
  }

  /** An ack id in front of data that is all digits takes the data in, and leaves none. */
  lemma AllDigitsTaken(js: Runtime, id: JsString, text: JsString, p: Packet)
    requires NumberLaws(js.number) && IsNumeral(id) && IsNumeral(text) && text != []
    ensures IsNumeral(id + text) && DecodeId(js, id + text, p) == p.(id := Some(Natural(FromDecimal(id + text))))
  {
    hide FromDecimal, IsNumberUnit;
    DigitsFound(js, id + text, []);
    assert id + text + [] == id + text;
    assert Drop(id + text, |id + text|) == [];
  }

  /** A canonical packet comes back unchanged exactly when its namespace can be found and its data stands apart. */
  lemma ExactRoundTrip(js: Runtime, p: Packet)
    requires RuntimeLaws(js) && IsCanonical(p)
    ensures Decode(js, Encode(js, p)) == Ok(p) <==> IsNsp(p.nsp.value) && DataStandsApart(js, p)
  {
    hide Decode, Encode, DataStandsApart;
    if !IsNsp(p.nsp.value) {
      BadNsp(js, p);
    } else if !DataStandsApart(js, p) {
      DigitsLost(js, p);
    } else {
      RoundTrip(js, p);
      assert Normal(p) == p;
    }
  }
}
