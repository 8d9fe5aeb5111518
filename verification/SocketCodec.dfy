/** The socket.io encoder and the stateful decoder: one text frame a packet, then one binary frame an attachment. */
module SocketCodec {
  import opened JsText
  import opened Attachments
  import opened SocketHeader

  datatype Message = TextMessage(text: JsString) | BinaryMessage(bytes: seq<Byte>)

  // ---------- encoder ----------

  function EncodedType(p: Packet): PacketType {
    if p.data.Some? && HasBinary(p.data.value) then
      if p.ptype == EVENT then BINARY_EVENT else if p.ptype == ACK then BINARY_ACK else p.ptype
    else p.ptype
  }

  function DataBuffers(p: Packet): seq<seq<Byte>> {
    if p.data.Some? then Buffers(p.data.value) else []
  }

  /** The packet whose header is sent: for a binary type, the data without its binary parts, which are counted. */
  function Outgoing(p: Packet): Packet {
    var t := EncodedType(p);
    if IsBinaryType(t) then
      p.(ptype := t, attachments := Some(Natural(|DataBuffers(p)|)),
         data := if p.data.Some? then Some(Strip(p.data.value, 0)) else None)
    else p
  }

  function BinaryMessages(buffers: seq<seq<Byte>>): seq<Message> {
    seq(|buffers|, i requires 0 <= i < |buffers| => BinaryMessage(buffers[i]))
  }

  function Encode(js: Runtime, p: Packet): seq<Message> {
    [TextMessage(SocketHeader.Encode(js, Outgoing(p)))]
    + if IsBinaryType(EncodedType(p)) then BinaryMessages(DataBuffers(p)) else []
  }

  method EncodePacket(js: Runtime, obj: Packet) returns (frames: seq<Message>)
    ensures frames == Encode(js, obj)
  {
    hide SocketHeader.Encode, HasBinary, Strip, Buffers, BinaryMessages;
    var p := obj.(ptype := EncodedType(obj));
    if IsBinaryType(p.ptype) {
      var buffers := [];
      if p.data.Some? {
        var pack;
        pack, buffers := Deconstruct(p.data.value, []);
        assert [] + Buffers(p.data.value) == Buffers(p.data.value);
        p := p.(data := Some(pack));
      }
      p := p.(attachments := Some(Natural(|buffers|)));
      frames := [TextMessage(SocketHeader.Encode(js, p))] + BinaryMessages(buffers);
    } else {
      frames := [TextMessage(SocketHeader.Encode(js, p))];
    }
  }

  // ---------- decoder ----------

  /** A packet being put together, with the binary frames received for it. */
  datatype Reconstructor = Reconstructor(packet: Packet, buffers: seq<seq<Byte>>)

  datatype Outcome = Emitted(packet: Packet) | Silent | Threw

  function Rebuilt(r: Reconstructor): Packet {
    r.packet.(attachments := None,
              data := if r.packet.data.Some? then Some(Restore(r.packet.data.value, r.buffers)) else None)
  }

  function Add(js: Runtime, state: Option<Reconstructor>, message: Message): (Outcome, Option<Reconstructor>) {
    match message
    case TextMessage(text) =>
      var decoded := SocketHeader.Decode(js, text);
      if decoded.Throws? then (Threw, state)
      else if !IsBinaryType(decoded.value.ptype) then (Emitted(decoded.value), state)
      else (if decoded.value.attachments == Some(Natural(0)) then Emitted(decoded.value) else Silent,
            Some(Reconstructor(decoded.value, [])))
    case BinaryMessage(bytes) =>
      if state.None? then (Threw, state)
      else
        var r := state.value.(buffers := state.value.buffers + [bytes]);
        if Some(Natural(|r.buffers|)) == r.packet.attachments then (Emitted(Rebuilt(r)), None) else (Silent, Some(r))
  }

  class Decoder {
    var reconstructor: Option<Reconstructor>

    constructor ()
      ensures reconstructor == None
    {
      reconstructor := None;
    }

    method AddMessage(js: Runtime, obj: Message) returns (outcome: Outcome)
      modifies this
      ensures (outcome, reconstructor) == Add(js, old(reconstructor), obj)
    {
      match obj
      case TextMessage(text) =>
        var decoded := SocketHeader.DecodeLoop(js, text);
        if decoded.Throws? {
          return Threw;
        }
        var packet := decoded.value;
        if IsBinaryType(packet.ptype) {
          reconstructor := Some(Reconstructor(packet, []));
          if packet.attachments == Some(Natural(0)) {
            return Emitted(packet);
          }
          return Silent;
        }
        return Emitted(packet);
      case BinaryMessage(bytes) =>
        if reconstructor.None? {
          return Threw;
        }
        var r := reconstructor.value.(buffers := reconstructor.value.buffers + [bytes]);
        reconstructor := Some(r);
        if Some(Natural(|r.buffers|)) == r.packet.attachments {
          var packet := r.packet.(attachments := None);
          if packet.data.Some? {
            var data := Reconstruct(packet.data.value, r.buffers);
            packet := packet.(data := Some(data));
          }
          reconstructor := None;
          return Emitted(packet);
        }
        return Silent;
    }
  }

  /** The packets emitted in a run, or `None` once a frame throws; and the reconstructor at the end. */
  datatype Result = Result(emitted: Option<seq<Packet>>, state: Option<Reconstructor>)

  /** A run that emits `p` and goes on as `rest`. */
  function After(p: Packet, rest: Result): Result {
    if rest.emitted.None? then rest else rest.(emitted := Some([p] + rest.emitted.value))
  }

  function Run(js: Runtime, state: Option<Reconstructor>, messages: seq<Message>): Result
    decreases |messages|
  {
    if messages == [] then Result(Some([]), state)
    else
      var (outcome, next) := Add(js, state, messages[0]);
      match outcome
      case Threw => Result(None, next)
      case Silent => Run(js, next, messages[1..])
      case Emitted(p) => After(p, Run(js, next, messages[1..]))
  }

  function EncodeAll(js: Runtime, ps: seq<Packet>): seq<Message> {
    if ps == [] then [] else Encode(js, ps[0]) + EncodeAll(js, ps[1..])
  }

  // ---------- round trip ----------

  /** A value that can be sent: JSON but for its binary parts. */
  predicate IsSendable(v: Value) {
    match v
    case Undefined => false
    case Arr(items) => forall i :: 0 <= i < |items| ==> IsSendable(items[i])
    case Obj(keys, values) =>
      |keys| == |values| && IsEnumeration(keys) && forall i :: 0 <= i < |values| ==> IsSendable(values[i])
    case _ => true
  }

  /** What the decoder needs of a packet to read its frames, each condition visible to the sender. */
  predicate IsReadable(js: Runtime, p: Packet) {
    && (p.nsp.Some? && p.nsp.value != [] ==> IsNsp(p.nsp.value))
    && (p.data.Some? ==> IsSendable(p.data.value)) && (p.id.Some? ==> p.id.value.Natural?)
    && (p.data.Some? && HasBinary(p.data.value) ==> p.ptype in {EVENT, ACK, BINARY_EVENT, BINARY_ACK})
    && DataStandsApart(js, Outgoing(p))
  }

  /** What it needs besides to put the data together again. */
  predicate IsRestorable(p: Packet) {
    p.data.Some? && IsBinaryType(EncodedType(p)) ==>
      LacksProto(p.data.value) && (HasBinary(p.data.value) ==> IsPlain(p.data.value))
  }

  predicate IsWellFormed(js: Runtime, p: Packet) {
    IsReadable(js, p) && IsRestorable(p)
  }

  /** The packet as the receiver should see it: the binary type, the root namespace spelled out, null data absent. */
  function Received(p: Packet): Packet {
    Packet(EncodedType(p),
           if IsBinaryType(EncodedType(p)) && DataBuffers(p) == [] then Some(Natural(0)) else None,
           if p.nsp.None? || p.nsp == Some([]) then Some(ROOT) else p.nsp,
           p.id,
           if p.data == Some(Null) then None else p.data)
  }

  /** The packet as it does see it: data of a binary type has been taken apart and put together again. */
  function Emerging(p: Packet): Packet {
    if p.data.None? || p.data == Some(Null) || !IsBinaryType(EncodedType(p)) then Received(p)
    else
      var stripped := Strip(p.data.value, 0);
      Received(p).(data := Some(if DataBuffers(p) == [] then stripped else Restore(stripped, DataBuffers(p))))
  }

  lemma EnumerationTail(keys: seq<JsString>)
    requires IsEnumeration(keys) && keys != []
    ensures IsEnumeration(keys[1..]) && forall key :: key in keys[1..] ==> Precedes(keys[0], key)
  {
    hide Precedes;
    var rest := keys[1..];
    assert forall i :: 0 <= i < |rest| ==> rest[i] == keys[i + 1];
  }

  lemma EnumerationCons(key: JsString, keys: seq<JsString>)
    requires IsEnumeration(keys) && forall k :: k in keys ==> Precedes(key, k)
    ensures IsEnumeration([key] + keys)
  {
    hide Precedes;
    var all := [key] + keys;
    assert forall i :: 0 < i < |all| ==> all[i] == keys[i - 1];
  }

  /** Leaving out properties keeps the keys of an object in order. */
  lemma {:induction false} KeptEnumeration(keys: seq<JsString>)
    requires IsEnumeration(keys)
    ensures IsEnumeration(Kept(keys, keys))
  {
    hide Precedes, IsEnumeration;
    if keys != [] {
      EnumerationTail(keys);
      KeptEnumeration(keys[1..]);
      KeptKeys(keys[1..]);
      var kept := Kept(keys[1..], keys[1..]);
      assert Kept(keys, keys) == if keys[0] == PROTO then kept else [keys[0]] + kept;
      if keys[0] != PROTO {
        EnumerationCons(keys[0], kept);
      }
    } else {
      EnumerationNone();
    }
  }

  lemma EnumerationNone()
    ensures IsEnumeration([])
  {
  }

  lemma {:induction false} KeptAllJson(keys: seq<JsString>, vs: seq<Value>)
    requires forall i :: 0 <= i < |vs| ==> IsJson(vs[i])
    ensures forall i :: 0 <= i < |Kept(keys, vs)| ==> IsJson(Kept(keys, vs)[i])
    decreases |vs|
  {
    hide IsJson;
    if vs != [] {
      KeptAllJson(Tail(keys), vs[1..]);
    }
  }

  lemma {:induction false} KeptLength<T>(keys: seq<JsString>, parts: seq<T>)
    requires |keys| == |parts|
    ensures |Kept(keys, keys)| == |Kept(keys, parts)|
  {
    if keys != [] {
      KeptLength(keys[1..], parts[1..]);
    }
  }

  lemma PlaceholderIsJson(n: nat)
    ensures IsJson(Placeholder(n))
  {
    var p := Placeholder(n);
    assert forall i :: 0 <= i < |p.values| ==> IsJson(p.values[i]);
    assert !IsDigit(PLACEHOLDER[0]) && !IsDigit(NUM[0]) && PLACEHOLDER[0] != NUM[0];
    assert Precedes(p.keys[0], p.keys[1]);
  }

  lemma {:induction false} StrippedIsJson(v: Value, n: nat)
    requires IsSendable(v)
    ensures IsJson(Strip(v, n))
  {
    match v {
      case Binary(_) =>
        PlaceholderIsJson(n);
      case Arr(items) =>
        StrippedAllJson(items, n);
      case Obj(keys, values) =>
        StrippedAllJson(values, n);
        KeptEnumeration(keys);
        KeptAllJson(keys, StripAll(values, n));
        KeptLength(keys, StripAll(values, n));
        hide Kept, StripAll, IsEnumeration;
      case _ =>
    }
  }

  lemma {:induction false} StrippedAllJson(vs: seq<Value>, n: nat)
    requires forall i :: 0 <= i < |vs| ==> IsSendable(vs[i])
    ensures |StripAll(vs, n)| == |vs| && forall i :: 0 <= i < |vs| ==> IsJson(StripAll(vs, n)[i])
  {
    if vs != [] {
      StrippedIsJson(vs[0], n);
      StrippedAllJson(vs[1..], n + |Buffers(vs[0])|);
    }
  }

  lemma {:induction false} JsonWithoutBinary(v: Value)
    requires IsSendable(v) && !HasBinary(v)
    ensures IsJson(v)
  {
    match v {
      case Arr(items) =>
        forall i | 0 <= i < |items| ensures IsJson(items[i]) {
          JsonWithoutBinary(items[i]);
        }
      case Obj(keys, values) =>
        forall i | 0 <= i < |values| ensures IsJson(values[i]) {
          JsonWithoutBinary(values[i]);
        }
      case _ =>
    }
  }

  /** With nothing to take out, building a value anew keeps it exactly when it has no property under `__proto__`. */
  lemma {:induction false} StripNothing(v: Value, n: nat)
    requires Buffers(v) == []
    ensures Strip(v, n) == v <==> LacksProto(v)
  {
    match v {
      case Arr(items) =>
        StripNothingAll(items, n);
      case Obj(keys, values) =>
        StripNothingAll(values, n);
        KeptKeys(keys);
        if PROTO !in keys {
          KeptWithoutProto(keys, StripAll(values, n));
        }
      case _ =>
    }
  }

  lemma {:induction false} StripNothingAll(vs: seq<Value>, n: nat)
    requires AllBuffers(vs) == []
    ensures StripAll(vs, n) == vs <==> forall i :: 0 <= i < |vs| ==> LacksProto(vs[i])
  {
    if vs != [] {
      assert |Buffers(vs[0])| + |AllBuffers(vs[1..])| == |AllBuffers(vs)|;
      StripNothing(vs[0], n);
      StripNothingAll(vs[1..], n);
      PartsStep(vs, n);
      hide LacksProto, Strip, StripAll, Buffers, AllBuffers;
      assert vs == [vs[0]] + vs[1..];
      assert forall i :: 0 < i < |vs| ==> vs[i] == vs[1..][i - 1];
    }
  }

  /** The header frame of a readable packet decodes to what was put in it. */
  lemma HeaderFrame(js: Runtime, p: Packet)
    requires RuntimeLaws(js) && IsReadable(js, p)
    ensures SocketHeader.Decode(js, SocketHeader.Encode(js, Outgoing(p))) == Ok(Normal(Outgoing(p)))
  {
    hide SocketHeader.Decode, SocketHeader.Encode, RuntimeLaws, DataStandsApart, IsNsp;
    var out := Outgoing(p);
    if p.data.Some? {
      StrippedIsJson(p.data.value, 0);
      if !HasBinary(p.data.value) {
        JsonWithoutBinary(p.data.value);
      }
    }
    RoundTrip(js, out);
  }

  /** Binary frames fill the reconstructor one after another, and the last one emits the packet. */
  lemma {:induction false} FillBuffers(js: Runtime, r: Reconstructor, buffers: seq<seq<Byte>>, rest: seq<Message>)
    requires buffers != [] && r.packet.attachments == Some(Natural(|r.buffers| + |buffers|))
    ensures Run(js, Some(r), BinaryMessages(buffers) + rest)
         == After(Rebuilt(r.(buffers := r.buffers + buffers)), Run(js, None, rest))
    decreases |buffers|
  {
    hide Rebuilt;
    var messages := BinaryMessages(buffers) + rest;
    var next := r.(buffers := r.buffers + [buffers[0]]);
    assert messages[0] == BinaryMessage(buffers[0]);
    assert messages[1..] == BinaryMessages(buffers[1..]) + rest;
    if |buffers| == 1 {
      assert buffers == [buffers[0]] && messages[1..] == rest;
    } else {
      FillBuffers(js, next, buffers[1..], rest);
      assert next.buffers + buffers[1..] == r.buffers + buffers;
    }
  }

  /** What the decoder has in hand once the header is read is what it will emit. */
  lemma EmergingParts(js: Runtime, p: Packet)
    requires IsReadable(js, p)
    ensures var packet, buffers := Normal(Outgoing(p)), DataBuffers(p);
            && packet.ptype == EncodedType(p)
            && (IsBinaryType(EncodedType(p)) ==> packet.attachments == Some(Natural(|buffers|)))
            && (!IsBinaryType(EncodedType(p)) || buffers == [] ==> packet == Emerging(p))
            && (IsBinaryType(EncodedType(p)) && buffers != [] ==>
                  Rebuilt(Reconstructor(packet, buffers)) == Emerging(p))
  {
    hide Restore, DataStandsApart, IsNsp, IsSendable, HasBinary;
    if p.data.Some? {
      HasBinaryCounts(p.data.value);
      StripIsNull(p.data.value, 0);
    }
    hide Strip, Buffers;
  }

  lemma StripIsNull(v: Value, n: nat)
    ensures Strip(v, n) == Null <==> v == Null
    ensures v == Null ==> Buffers(v) == []
  {
  }

  /** The frames of one packet emit one packet, whatever was being put together before. */
  lemma PacketRun(js: Runtime, p: Packet, state: Option<Reconstructor>, rest: seq<Message>)
      returns (next: Option<Reconstructor>)
    requires RuntimeLaws(js) && IsReadable(js, p)
    ensures Run(js, state, Encode(js, p) + rest) == After(Emerging(p), Run(js, next, rest))
  {
    hide SocketHeader.Decode, SocketHeader.Encode, RuntimeLaws, IsReadable, Normal, Outgoing, Rebuilt, Emerging;
    var packet, buffers := Normal(Outgoing(p)), DataBuffers(p);
    HeaderFrame(js, p);
    EmergingParts(js, p);
    var messages := Encode(js, p) + rest;
    var tail := (if IsBinaryType(EncodedType(p)) then BinaryMessages(buffers) else []) + rest;
    assert messages[0] == TextMessage(SocketHeader.Encode(js, Outgoing(p))) && messages[1..] == tail;
    if !IsBinaryType(EncodedType(p)) {
      next := state;
      assert tail == rest;
    } else if buffers == [] {
      next := Some(Reconstructor(packet, []));
      assert tail == rest;
    } else {
      next := None;
      FillBuffers(js, Reconstructor(packet, []), buffers, rest);
      assert [] + buffers == buffers;
    }
  }

  /** It is the packet that was sent exactly when its data can be put together again. */
  lemma EmergesUnchanged(p: Packet)
    ensures Emerging(p) == Received(p) <==> IsRestorable(p)
  {
    hide Restore;
    if p.data.Some? {
      var v := p.data.value;
      HasBinaryCounts(v);
      if Buffers(v) == [] {
        StripNothing(v, 0);
      } else {
        assert Buffers(v)[0..|Buffers(v)|] == Buffers(v);
        StripRestore(v, 0, Buffers(v));
      }
      hide Strip, Buffers, HasBinary, IsPlain, LacksProto;
    }
  }

  /** The frames of one well-formed packet emit it, once, whatever was being put together before. */
  lemma PacketRoundTrip(js: Runtime, p: Packet, state: Option<Reconstructor>, rest: seq<Message>)
      returns (next: Option<Reconstructor>)
    requires RuntimeLaws(js) && IsWellFormed(js, p)
    ensures Run(js, state, Encode(js, p) + rest) == After(Received(p), Run(js, next, rest))
  {
    EmergesUnchanged(p);
    next := PacketRun(js, p, state, rest);
    hide Run, Encode, RuntimeLaws, IsReadable, IsRestorable, Emerging, Received;
  }

  lemma EmptyRun(js: Runtime, state: Option<Reconstructor>)
    ensures Run(js, state, []) == Result(Some([]), state)
  {
  }

  function AllReceived(ps: seq<Packet>): seq<Packet> {
    seq(|ps|, i requires 0 <= i < |ps| => Received(ps[i]))
  }

  function AllEmerging(ps: seq<Packet>): seq<Packet> {
    seq(|ps|, i requires 0 <= i < |ps| => Emerging(ps[i]))
  }

  /** All frames of a row of readable packets, added in order, emit one packet each, from any state of the decoder. */
  lemma {:induction false} StreamRun(js: Runtime, state: Option<Reconstructor>, ps: seq<Packet>)
    requires RuntimeLaws(js) && forall i :: 0 <= i < |ps| ==> IsReadable(js, ps[i])
    ensures Run(js, state, EncodeAll(js, ps)).emitted == Some(AllEmerging(ps))
    decreases |ps|
  {
    hide Encode, Run, IsReadable, RuntimeLaws, Emerging;
    EmptyRun(js, state);
    if ps == [] {
      assert AllEmerging(ps) == [];
    } else {
      var next := PacketRun(js, ps[0], state, EncodeAll(js, ps[1..]));
      StreamRun(js, next, ps[1..]);
      assert AllEmerging(ps) == [Emerging(ps[0])] + AllEmerging(ps[1..]);
    }
  }

  /** The first frames of a row emit the first packets of what the whole row emits. */
  lemma {:induction false} RunOfPrefix(js: Runtime, state: Option<Reconstructor>, first: seq<Message>,
                                       rest: seq<Message>)
    requires Run(js, state, first + rest).emitted.Some?
    ensures Run(js, state, first).emitted.Some?
    ensures Run(js, state, first).emitted.value <= Run(js, state, first + rest).emitted.value
    decreases |first|
  {
    hide Add;
    if first != [] {
      assert (first + rest)[0] == first[0] && (first + rest)[1..] == first[1..] + rest;
      RunOfPrefix(js, Add(js, state, first[0]).1, first[1..], rest);
    }
  }

  lemma SameAll(ps: seq<Packet>)
    ensures AllEmerging(ps) == AllReceived(ps) <==> forall i :: 0 <= i < |ps| ==> Emerging(ps[i]) == Received(ps[i])
  {
    hide Emerging, Received;
    var emerging, received := AllEmerging(ps), AllReceived(ps);
    assert forall i :: 0 <= i < |ps| ==> emerging[i] == Emerging(ps[i]) && received[i] == Received(ps[i]);
    if forall i :: 0 <= i < |ps| ==> Emerging(ps[i]) == Received(ps[i]) {
      assert forall i :: 0 <= i < |ps| ==> emerging[i] == received[i];
      assert emerging == received;
    }
  }

  predicate AllReadable(js: Runtime, ps: seq<Packet>) {
    forall i :: 0 <= i < |ps| ==> IsReadable(js, ps[i])
  }

  predicate AllRestorable(ps: seq<Packet>) {
    forall i :: 0 <= i < |ps| ==> IsRestorable(ps[i])
  }

  /** All frames of the packets emit the packets as the receiver should see them. */
  predicate Arrive(js: Runtime, state: Option<Reconstructor>, ps: seq<Packet>) {
    Run(js, state, EncodeAll(js, ps)).emitted == Some(AllReceived(ps))
  }

  /** They emit exactly the packets sent exactly when the data of every one can be put together again. */
  lemma StreamRoundTrip(js: Runtime, state: Option<Reconstructor>, ps: seq<Packet>)
    requires RuntimeLaws(js) && AllReadable(js, ps)
    ensures Arrive(js, state, ps) <==> AllRestorable(ps)
  {
    hide Run, EncodeAll, IsReadable, IsRestorable, RuntimeLaws, Emerging, Received, AllEmerging, AllReceived;
    StreamRun(js, state, ps);
    SameAll(ps);
    forall i | 0 <= i < |ps| ensures Emerging(ps[i]) == Received(ps[i]) <==> IsRestorable(ps[i]) {
      EmergesUnchanged(ps[i]);
    }
  }

  /** The digit that the first frame begins with: a binary type exactly for an event or an ack with binary values. */
  lemma FirstDigit(js: Runtime, p: Packet)
    ensures Encode(js, p) != [] && Encode(js, p)[0].TextMessage? && Encode(js, p)[0].text != []
    ensures var hasBinary := p.data.Some? && Buffers(p.data.value) != [];
            Encode(js, p)[0].text[0]
            == match p.ptype
               case CONNECT => 48 case DISCONNECT => 49
               case EVENT => if hasBinary then 53 else 50
               case ACK => if hasBinary then 54 else 51
               case ERROR => 52 case BINARY_EVENT => 53 case BINARY_ACK => 54
  {
    hide Strip, HasBinary, Buffers, NspText, IdText, DataText, AttachmentsText;
    if p.data.Some? {
      HasBinaryCounts(p.data.value);
    }
  }

  /** What a packet puts on the wire: its placeholders are numbered 0, 1, ... once each, and binary frames follow
      exactly when the data holds binary values. */
  lemma FramesOfPacket(js: Runtime, p: Packet)
    requires IsWellFormed(js, p) && p.data.Some? && IsPlain(p.data.value)
    ensures |Encode(js, p)| == 1 + |Buffers(p.data.value)|
    ensures |Encode(js, p)| > 1 <==> HasBinary(p.data.value)
    ensures Numbers(Outgoing(p).data.value) == Count(0, |Encode(js, p)| - 1)
    ensures !HasBinary(Outgoing(p).data.value)
  {
    hide SocketHeader.Encode, Strip, Numbers, Count, DataStandsApart, IsNsp, IsSendable, Buffers, HasBinary, IsPlain,
         LacksProto;
    var v := p.data.value;
    HasBinaryCounts(v);
    if IsBinaryType(EncodedType(p)) {
      PlaceholdersInOrder(v, 0);
      StripLeavesNone(v, 0);
      HasBinaryCounts(Strip(v, 0));
    } else {
      PlainHasNoNumbers(v);
      CountNone(0);
    }
  }
}
