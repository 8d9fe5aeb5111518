/** The manager's outgoing side: one packet is encoded at a time, the others wait in a buffer. */
module ManagerQueue {
  import opened JsText
  import opened SocketCodec
  import SocketHeader

  type Packet = SocketHeader.Packet
  type Runtime = SocketHeader.Runtime

  const QUESTION_MARK: Unit := 63

  /** A packet handed to `packet`, with the query that a connect packet carries; an empty one stands for none. */
  datatype Request = Request(packet: Packet, query: JsString)

  /** Each pass through `packet` appends the query to the namespace of a connect packet. */
  function Queried(r: Request): Request {
    if r.query == [] || r.packet.ptype != SocketHeader.CONNECT then r
    else
      var nsp := if r.packet.nsp.Some? then r.packet.nsp.value else UNDEFINED;
      r.(packet := r.packet.(nsp := Some(nsp + [QUESTION_MARK] + r.query)))
  }

  /** One call of `packet` from outside, and whether it found another packet being encoded. */
  datatype Call = Call(request: Request, waited: bool)

  /** The packet that is encoded for a call: one that waited passes through `packet` twice. */
  function Sent(c: Call): Packet {
    if c.waited then Queried(Queried(c.request)).packet else Queried(c.request).packet
  }

  function AllSent(cs: seq<Call>): seq<Packet> {
    seq(|cs|, i requires 0 <= i < |cs| => Sent(cs[i]))
  }

  /**
   * `outstanding` are the packets whose encoding has been started and not finished; `called` and `written` are the
   * calls of `packet` and the frames written to the engine since the last cleanup; `stale` says that this cleanup
   * happened while an encoding was outstanding.
   */
  datatype State = State(
    encoding: bool,
    packetBuffer: seq<Request>,
    outstanding: seq<Packet>,
    called: seq<Call>,
    written: seq<Message>,
    stale: bool)

  const INITIAL := State(false, [], [], [], [], false)

  datatype Event = SendPacket(r: Request) | EncodingDone(k: nat) | Cleanup

  function Submit(s: State, r: Request): State {
    if s.encoding then s.(packetBuffer := s.packetBuffer + [Queried(r)])
    else s.(encoding := true, outstanding := s.outstanding + [Queried(r).packet])
  }

  function Process(s: State): State {
    if s.packetBuffer != [] && !s.encoding then
      Submit(s.(packetBuffer := s.packetBuffer[1..]), s.packetBuffer[0])
    else s
  }

  function Without(ps: seq<Packet>, k: nat): seq<Packet>
    requires k < |ps|
  {
    ps[..k] + ps[k + 1..]
  }

  function Finish(js: Runtime, s: State, k: nat): State
    requires k < |s.outstanding|
  {
    Process(s.(encoding := false, outstanding := Without(s.outstanding, k),
               written := s.written + Encode(js, s.outstanding[k])))
  }

  /** One event; finishing an encoding that is not outstanding does nothing. */
  function Next(js: Runtime, s: State, e: Event): State {
    match e
    case SendPacket(r) => Submit(s.(called := s.called + [Call(r, s.encoding)]), r)
    case EncodingDone(k) => if k < |s.outstanding| then Finish(js, s, k) else s
    case Cleanup => State(false, [], s.outstanding, [], [], s.outstanding != [])
  }

  function Run(js: Runtime, s: State, events: seq<Event>): State
    decreases |events|
  {
    if events == [] then s else Run(js, Next(js, s, events[0]), events[1..])
  }

  /** The manager's fields; the callbacks of the encoder and the engine's frames are kept beside them. */
  class Manager {
    var encoding: bool
    var packetBuffer: seq<Request>
    var outstanding: seq<Packet>
    var engine: seq<Message>
    ghost var called: seq<Call>
    ghost var stale: bool

    ghost function View(): State
      reads this
    {
      State(encoding, packetBuffer, outstanding, called, engine, stale)
    }

    constructor ()
      ensures View() == INITIAL
    {
      encoding, packetBuffer, outstanding, engine := false, [], [], [];
      called, stale := [], false;
    }

    method Send(r: Request)
      modifies this
      ensures View() == Submit(old(View()), r)
    {
      var t := r;
      if t.query != [] && t.packet.ptype == SocketHeader.CONNECT {
        var nsp := if t.packet.nsp.Some? then t.packet.nsp.value else UNDEFINED;
        t := t.(packet := t.packet.(nsp := Some(nsp + [QUESTION_MARK] + t.query)));
      }
      if encoding {
        packetBuffer := packetBuffer + [t];
      } else {
        encoding := true;
        outstanding := outstanding + [t.packet];
      }
    }

    /** A call from outside, which is put on record. */
    method SendFromSocket(js: Runtime, r: Request)
      modifies this
      ensures View() == Next(js, old(View()), SendPacket(r))
    {
      called := called + [Call(r, encoding)];
      Send(r);
    }

    method ProcessPacketQueue()
      modifies this
      ensures View() == Process(old(View()))
    {
      if |packetBuffer| > 0 && !encoding {
        var pack := packetBuffer[0];
        packetBuffer := packetBuffer[1..];
        Send(pack);
      }
    }

    method OnEncoded(js: Runtime, k: nat)
      requires k < |outstanding|
      modifies this
      ensures View() == Finish(js, old(View()), k)
    {
      var encodedPackets := Encode(js, outstanding[k]);
      ghost var before := engine;
      outstanding := outstanding[..k] + outstanding[k + 1..];
      var i := 0;
      while i < |encodedPackets|
        invariant 0 <= i <= |encodedPackets|
        invariant engine == before + encodedPackets[..i]
        invariant outstanding == Without(old(outstanding), k) && packetBuffer == old(packetBuffer)
        invariant encoding == old(encoding) && called == old(called) && stale == old(stale)
      {
        engine := engine + [encodedPackets[i]];
        i := i + 1;
      }
      assert encodedPackets[..i] == encodedPackets;
      encoding := false;
      ProcessPacketQueue();
    }

    method DoCleanup(js: Runtime)
      modifies this
      ensures View() == Next(js, old(View()), Cleanup)
    {
      stale := outstanding != [];
      packetBuffer, encoding := [], false;
      called, engine := [], [];
    }
  }

  /** What is sent for a connect packet with a query: a question mark and the query behind its namespace. */
  lemma QuerySpelled(r: Request)
    requires r.packet.ptype == SocketHeader.CONNECT && r.query != []
    ensures Sent(Call(r, false))
         == r.packet.(nsp := Some((if r.packet.nsp.Some? then r.packet.nsp.value
                                   else [117, 110, 100, 101, 102, 105, 110, 101, 100]) + [63] + r.query))
  {
  }

  /** A waiting packet is taken up only when nothing is being encoded, the first one first. */
  lemma OneAtATime(s: State)
    ensures s.encoding ==> Process(s) == s
    ensures !s.encoding && s.packetBuffer != [] ==>
              && Process(s).encoding && Process(s).packetBuffer == s.packetBuffer[1..]
              && Process(s).outstanding == s.outstanding + [Queried(s.packetBuffer[0]).packet]
  {
    hide Queried;
  }

  /** When one of several encodings ends, the others stay outstanding, in their order. */
  lemma OthersStay(ps: seq<Packet>, k: nat, i: nat)
    requires k < |ps| && i < |ps| - 1
    ensures |Without(ps, k)| == |ps| - 1
    ensures Without(ps, k)[i] == if i < k then ps[i] else ps[i + 1]
  {
  }

  // ---------- order ----------

  lemma {:induction false} EncodeAllAppend(js: Runtime, ps: seq<Packet>, qs: seq<Packet>)
    ensures EncodeAll(js, ps + qs) == EncodeAll(js, ps) + EncodeAll(js, qs)
  {
    hide Encode;
    if ps == [] {
      assert ps + qs == qs;
    } else {
      EncodeAllAppend(js, ps[1..], qs);
      assert (ps + qs)[1..] == ps[1..] + qs;
      Assoc(Encode(js, ps[0]), EncodeAll(js, ps[1..]), EncodeAll(js, qs));
    }
  }

  lemma EncodeAllOne(js: Runtime, p: Packet)
    ensures EncodeAll(js, [p]) == Encode(js, p)
  {
  }

  lemma EncodeAllNone(js: Runtime)
    ensures EncodeAll(js, []) == []
  {
  }

  lemma AllSentAppend(cs: seq<Call>, c: Call)
    ensures AllSent(cs + [c]) == AllSent(cs) + [Sent(c)]
  {
  }

  /** The calls whose packets are written: all but the one being encoded and the ones in the buffer. */
  function DoneCount(s: State): int {
    |s.called| - |s.outstanding| - |s.packetBuffer|
  }

  /** Call `i` waits in the buffer, having passed through `packet` once. */
  predicate Buffered(s: State, i: int)
    requires 0 <= i < |s.packetBuffer| <= |s.called|
  {
    var c := s.called[|s.called| - |s.packetBuffer| + i];
    c.waited && s.packetBuffer[i] == Queried(c.request)
  }

  /**
   * The frames written are those of the first calls, whole and in order; the next call is the one being encoded,
   * if any, and the others are in the buffer.
   */
  predicate InOrder(js: Runtime, s: State) {
    && |s.outstanding| == (if s.encoding then 1 else 0)
    && (!s.encoding ==> s.packetBuffer == [])
    && 0 <= DoneCount(s)
    && (s.encoding ==> s.outstanding[0] == Sent(s.called[DoneCount(s)]))
    && (forall i :: 0 <= i < |s.packetBuffer| ==> Buffered(s, i))
    && s.written == EncodeAll(js, AllSent(s.called[..DoneCount(s)]))
  }

  lemma FinishInOrder(js: Runtime, s: State, k: nat)
    requires InOrder(js, s) && k < |s.outstanding|
    ensures InOrder(js, Finish(js, s, k))
  {
    hide Encode, EncodeAll, AllSent, Queried;
    var s', n := Finish(js, s, k), DoneCount(s);
    assert Without(s.outstanding, k) == [];
    assert s.called[..n + 1] == s.called[..n] + [s.called[n]];
    AllSentAppend(s.called[..n], s.called[n]);
    EncodeAllAppend(js, AllSent(s.called[..n]), [Sent(s.called[n])]);
    EncodeAllOne(js, Sent(s.called[n]));
    if s.packetBuffer != [] {
      assert Buffered(s, 0);
      forall i | 0 <= i < |s'.packetBuffer| ensures Buffered(s', i) {
        assert Buffered(s, i + 1);
      }
    }
  }

  lemma SendInOrder(js: Runtime, s: State, r: Request)
    requires InOrder(js, s)
    ensures InOrder(js, Next(js, s, SendPacket(r)))
  {
    hide Encode, EncodeAll, AllSent, Queried;
    var s', n := Next(js, s, SendPacket(r)), DoneCount(s);
    assert s'.called[..n] == s.called[..n];
    forall i | 0 <= i < |s'.packetBuffer| ensures Buffered(s', i) {
      assert i < |s.packetBuffer| ==> Buffered(s, i);
    }
  }

  lemma NextInOrder(js: Runtime, s: State, e: Event)
    requires s.stale || InOrder(js, s)
    ensures Next(js, s, e).stale || InOrder(js, Next(js, s, e))
  {
    hide InOrder, Finish;
    match e {
      case SendPacket(r) =>
        if !s.stale {
          SendInOrder(js, s, r);
        }
      case EncodingDone(k) =>
        if !s.stale && k < |s.outstanding| {
          FinishInOrder(js, s, k);
        }
        FinishKeepsStale(js, s, k);
      case Cleanup =>
        StartInOrder(js);
    }
  }

  lemma FinishKeepsStale(js: Runtime, s: State, k: nat)
    ensures k < |s.outstanding| ==> Finish(js, s, k).stale == s.stale
  {
  }

  lemma StartInOrder(js: Runtime)
    ensures InOrder(js, INITIAL)
  {
    EncodeAllNone(js);
    assert AllSent([]) == [];
  }

  lemma {:induction false} RunInOrder(js: Runtime, s: State, events: seq<Event>)
    requires s.stale || InOrder(js, s)
    ensures Run(js, s, events).stale || InOrder(js, Run(js, s, events))
    decreases |events|
  {
    hide InOrder, Next;
    if events != [] {
      NextInOrder(js, s, events[0]);
      RunInOrder(js, Next(js, s, events[0]), events[1..]);
    }
  }

  /**
   * In every run, on every connection that did not begin with an encoding cut short: the frames on the engine are
   * those of the packets in the order `packet` was called, never interleaved, and what is missing is the one being
   * encoded and the buffer; with nothing being encoded, nothing is missing.
   */
  lemma FramesInCallOrder(js: Runtime, events: seq<Event>)
    ensures var s := Run(js, INITIAL, events);
            !s.stale ==>
              && 0 <= DoneCount(s) && s.written == EncodeAll(js, AllSent(s.called[..DoneCount(s)]))
              && |s.outstanding| <= 1
              && (!s.encoding ==>
                    s.outstanding == [] && s.packetBuffer == [] && s.written == EncodeAll(js, AllSent(s.called)))
  {
    StartInOrder(js);
    RunInOrder(js, INITIAL, events);
    hide Run, Encode, EncodeAll, AllSent;
    var s := Run(js, INITIAL, events);
    assert !s.stale && !s.encoding ==> s.called[..DoneCount(s)] == s.called;
  }

  /**
   * From the calls to the other end: on such a connection, whatever the decoder there had in hand, the frames on the
   * engine make it emit one packet for each call whose turn has come, in the order of the calls; with nothing being
   * encoded that is every call. They are the packets of the calls exactly when the data of every one can be put
   * together again.
   */
  lemma ReceivedInCallOrder(js: Runtime, events: seq<Event>, state: Option<Reconstructor>)
    requires SocketHeader.RuntimeLaws(js)
    ensures var s := Run(js, INITIAL, events);
            !s.stale ==>
              && 0 <= DoneCount(s) <= |s.called| && (!s.encoding ==> DoneCount(s) == |s.called|)
              && var ps := AllSent(s.called[..DoneCount(s)]);
                 AllReadable(js, ps) ==>
                   var emitted := SocketCodec.Run(js, state, s.written).emitted;
                   emitted == Some(AllEmerging(ps)) && (emitted == Some(AllReceived(ps)) <==> AllRestorable(ps))
  {
    FramesInCallOrder(js, events);
    hide Run, INITIAL, EncodeAll, AllSent, SocketCodec.Run, AllEmerging, AllReceived, SocketHeader.RuntimeLaws;
    hide IsReadable, AllRestorable;
    var s := Run(js, INITIAL, events);
    if !s.stale {
      var ps := AllSent(s.called[..DoneCount(s)]);
      if AllReadable(js, ps) {
        StreamRun(js, state, ps);
        StreamRoundTrip(js, state, ps);
      }
    }
  }

  predicate NoCleanup(events: seq<Event>) {
    forall i :: 0 <= i < |events| ==> !events[i].Cleanup?
  }

  /** What the engine has been given is the beginning of what was asked for since the last cleanup. */
  predicate WrittenInOrder(js: Runtime, s: State) {
    s.written <= EncodeAll(js, AllSent(s.called))
  }

  lemma {:induction false} StaysFresh(js: Runtime, s: State, events: seq<Event>)
    requires !s.stale && NoCleanup(events)
    ensures !Run(js, s, events).stale
    decreases |events|
  {
    hide Encode;
    if events != [] {
      assert !events[0].Cleanup?;
      StaysFresh(js, Next(js, s, events[0]), events[1..]);
    }
  }

  lemma InOrderIsPrefix(js: Runtime, s: State)
    requires InOrder(js, s)
    ensures WrittenInOrder(js, s)
  {
    hide Encode, EncodeAll;
    var n := DoneCount(s);
    EncodeAllAppend(js, AllSent(s.called[..n]), AllSent(s.called[n..]));
    assert AllSent(s.called[..n]) + AllSent(s.called[n..]) == AllSent(s.called);
  }

  lemma StaleBreaks(js: Runtime, clean: State)
    requires clean == State(false, [], clean.outstanding, [], [], true) && clean.outstanding != []
    ensures exists after :: NoCleanup(after) && !WrittenInOrder(js, Run(js, clean, after))
  {
    hide Encode;
    var done := [EncodingDone(0)];
    assert Run(js, clean, done) == Next(js, clean, EncodingDone(0));
    FramesNotEmpty(js, clean.outstanding[0]);
    EncodeAllNone(js);
    assert AllSent([]) == [];
    assert NoCleanup(done) && !WrittenInOrder(js, Run(js, clean, done));
  }

  lemma FreshKeeps(js: Runtime, after: seq<Event>)
    requires NoCleanup(after)
    ensures WrittenInOrder(js, Run(js, INITIAL, after))
  {
    StartInOrder(js);
    hide InOrder, WrittenInOrder, Run;
    StaysFresh(js, INITIAL, after);
    RunInOrder(js, INITIAL, after);
    InOrderIsPrefix(js, Run(js, INITIAL, after));
  }

  /**
   * Whatever came before, a cleanup keeps the frames of the new connection in order, whatever follows, exactly when
   * no encoding was outstanding at the time.
   */
  lemma CleanupSafe(js: Runtime, s: State)
    ensures (forall after :: NoCleanup(after) ==> WrittenInOrder(js, Run(js, Next(js, s, Cleanup), after)))
            <==> s.outstanding == []
  {
    hide Run, WrittenInOrder, NoCleanup;
    var clean := Next(js, s, Cleanup);
    if s.outstanding != [] {
      StaleBreaks(js, clean);
    } else {
      assert clean == INITIAL;
      forall after | NoCleanup(after) ensures WrittenInOrder(js, Run(js, clean, after)) {
        FreshKeeps(js, after);
      }
    }
  }

  lemma FramesNotEmpty(js: Runtime, p: Packet)
    ensures Encode(js, p) != []
  {
  }

  /** After a cleanup, the encoding it cut short still writes its packet to the new connection. */
  lemma StaleEncodingWrites(js: Runtime, r: Request, q: Request)
    ensures var s := Run(js, INITIAL, [SendPacket(r), Cleanup, SendPacket(q), EncodingDone(0)]);
            s.called == [Call(q, false)] && s.written == Encode(js, Queried(r).packet) && s.stale
  {
    hide Encode, Queried;
    var s1 := Next(js, INITIAL, SendPacket(r));
    var s2 := Next(js, s1, Cleanup);
    var s3 := Next(js, s2, SendPacket(q));
    assert s3.outstanding == [Queried(r).packet, Queried(q).packet];
    var events := [SendPacket(r), Cleanup, SendPacket(q), EncodingDone(0)];
    assert events[1..] == [Cleanup, SendPacket(q), EncodingDone(0)];
    assert events[1..][1..] == [SendPacket(q), EncodingDone(0)] && events[1..][1..][1..] == [EncodingDone(0)];
    assert [EncodingDone(0)][1..] == [];
    assert Run(js, s3, [EncodingDone(0)]) == Next(js, s3, EncodingDone(0));
    assert Run(js, s2, [SendPacket(q), EncodingDone(0)]) == Run(js, s3, [EncodingDone(0)]);
    assert Run(js, s1, [Cleanup, SendPacket(q), EncodingDone(0)]) == Run(js, s2, [SendPacket(q), EncodingDone(0)]);
  }

  /** A packet is sent alike whether it waited or not exactly when it is no connect packet with a query. */
  lemma QueryTwiceWhenWaiting(r: Request)
    ensures Sent(Call(r, true)) == Sent(Call(r, false)) <==> r.query == [] || r.packet.ptype != SocketHeader.CONNECT
  {
    if r.query != [] && r.packet.ptype == SocketHeader.CONNECT {
      var once, twice := Sent(Call(r, false)).nsp.value, Sent(Call(r, true)).nsp.value;
      assert |twice| == |once| + 1 + |r.query|;
    }
  }
}
