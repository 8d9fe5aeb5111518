/**
 * The engine.io socket: packets are buffered, flushed in batches to the current transport, and moved from polling
 * to websocket by a probe that pauses the old transport first.
 */
module EngineSocket {
  import opened JsText
  import EngineParser

  type Packet = EngineParser.Packet

  datatype ReadyState = Opening | Open | Closing | Closed

  datatype TransportState = TOpening | TOpen | TPausing | TPaused | TClosed

  /** A transport; `pending` counts the writes whose completion has not been reported yet. */
  datatype Transport = Transport(isPolling: bool, ready: TransportState, writable: bool, polling: bool, pending: nat)

  const NEW_POLLING := Transport(true, TOpening, false, true, 0)
  const NEW_WEBSOCKET := Transport(false, TOpening, false, false, 0)

  /** How far an upgrade probe has come; `Dead` is the `failed` flag. */
  datatype Phase = Connecting | AwaitingPong | Answered | Pausing | Dead

  datatype Probe = Probe(transport: Transport, phase: Phase)

  /** What happened so far: packets accepted, batches handed to a transport, packets dropped when closing. */
  datatype Log = Log(
    accepted: seq<Packet>,
    batches: seq<seq<Packet>>,
    dropped: seq<Packet>,
    forced: bool,     // the socket was closed by the last step of `close`
    reopened: bool,   // a handshake arrived while the socket was closing
    fault: bool)      // something was sent on a transport that is not open, which throws

  datatype State = State(
    ready: ReadyState,
    writeBuffer: seq<Packet>,
    prevBufferLen: nat,
    upgrading: bool,
    transport: Transport,
    pausePoll: bool,       // `pause` waits for the poll in progress
    pauseDrain: bool,      // `pause` waits for the write in progress
    probe: Option<Probe>,
    closeOnDrain: bool,    // `close` waits for the buffer to drain
    closeOnUpgrade: bool,  // `close` waits for the upgrade to end
    log: Log)

  /** A new socket on the first of the transports it may use. */
  function Start(polling: bool): State {
    State(Opening, [], 0, false, if polling then NEW_POLLING else NEW_WEBSOCKET, false, false, None, false, false,
          Log([], [], [], false, false, false))
  }

  datatype Event =
    | SendPacket(packet: Packet)
    | TransportOpened
    | Handshake(canUpgrade: bool)
    | WriteDone
    | PollDone
    | ProbeOpened
    | ProbeReply(isPong: bool)
    | ProbeFailed
    | ProbeWriteDone
    | Close
    | ConnectionLost

  function Flat(batches: seq<seq<Packet>>): seq<Packet> {
    if batches == [] then [] else Flat(batches[..|batches| - 1]) + batches[|batches| - 1]
  }

  // ---------- the steps of the source, as functions of the state ----------

  function Written(t: Transport): Transport {
    t.(writable := false, pending := t.pending + 1)
  }

  /** Closing writes a close packet on an open polling transport; one that is pausing or paused stays as it is. */
  function ClosedTransport(t: Transport): Transport {
    if t.ready == TOpen && t.isPolling then Written(t).(ready := TClosed)
    else if t.ready == TOpen || t.ready == TOpening then t.(ready := TClosed)
    else t
  }

  function Flush(s: State): State {
    if s.ready != Closed && s.transport.writable && !s.upgrading && s.writeBuffer != [] then
      if s.transport.ready != TOpen then s.(log := s.log.(fault := true))
      else s.(transport := Written(s.transport), prevBufferLen := |s.writeBuffer|,
              log := s.log.(batches := s.log.batches + [s.writeBuffer]))
    else s
  }

  function OnClose(s: State, forced: bool): State {
    if s.ready == Closed then s
    else
      var alive := s.probe.Some? && s.probe.value.phase != Dead;
      s.(ready := Closed, transport := ClosedTransport(s.transport), pausePoll := false, pauseDrain := false,
         probe := if alive then Some(Probe(ClosedTransport(s.probe.value.transport), Dead)) else s.probe,
         closeOnUpgrade := s.closeOnUpgrade && !alive,
         writeBuffer := [], prevBufferLen := 0,
         log := s.log.(dropped := Rest(s), forced := forced))
  }

  /** The buffered packets that no transport has been given. */
  function Rest(s: State): seq<Packet> {
    if s.prevBufferLen <= |s.writeBuffer| then s.writeBuffer[s.prevBufferLen..] else []
  }

  function OnDrain(s: State): State {
    var s' := s.(writeBuffer := Rest(s), prevBufferLen := 0);
    if s'.writeBuffer != [] then Flush(s')
    else if !s'.closeOnDrain then s'
    else if s'.upgrading then s'.(closeOnDrain := false, closeOnUpgrade := true)
    else OnClose(s'.(closeOnDrain := false), true)
  }

  /** The `upgrade` and `upgradeError` events release a `close` that waits for the upgrade. */
  function UpgradeEnded(s: State): State {
    if s.closeOnUpgrade then OnClose(s.(closeOnUpgrade := false), true) else s
  }

  /** The probe's transport takes over and the upgrade packet is sent on it. */
  function Switched(s: State): State
    requires s.probe.Some?
  {
    var u := s.probe.value.transport;
    s.(transport := if u.ready == TOpen then Written(u) else u, pausePoll := false, pauseDrain := false,
       probe := None, log := s.log.(fault := s.log.fault || u.ready != TOpen))
  }

  function PauseEnded(s: State): State
    requires s.probe.Some?
  {
    var s := s.(transport := s.transport.(ready := TPaused));
    if s.probe.value.phase == Dead || s.ready == Closed then s
    else Flush(UpgradeEnded(Switched(s)).(upgrading := false))
  }

  function Pause(s: State): State
    requires s.probe.Some?
  {
    var t := s.transport.(ready := TPausing);
    if t.polling || !t.writable then s.(transport := t, pausePoll := t.polling, pauseDrain := !t.writable)
    else PauseEnded(s.(transport := t))
  }

  function ProbeEnds(s: State): State
    requires s.probe.Some?
  {
    UpgradeEnded(s.(probe := Some(Probe(ClosedTransport(s.probe.value.transport), Dead))))
  }

  /** Which events can happen: completions need something pending; the first poll opens the transport before it ends. */
  predicate Enabled(s: State, e: Event) {
    match e
    case TransportOpened => s.transport.ready == TOpening
    case Handshake(_) => s.transport.ready != TOpening
    case WriteDone => s.transport.pending > 0
    case PollDone => s.transport.isPolling && s.transport.polling && s.transport.ready !in {TOpening, TClosed}
    case ProbeOpened => s.probe.Some? && s.probe.value.phase == Connecting && s.probe.value.transport.ready == TOpening
    case ProbeReply(_) => s.probe.Some? && s.probe.value.phase == AwaitingPong
    case ProbeFailed => s.probe.Some? && s.probe.value.phase != Dead
    case ProbeWriteDone => s.probe.Some? && s.probe.value.transport.pending > 0
    case _ => true
  }

  function OnOpen(s: State, canUpgrade: bool): State {
    var s' := Flush(s.(ready := ReadyState.Open, log := s.log.(reopened := s.log.reopened || s.ready == Closing)));
    if canUpgrade && s'.ready == ReadyState.Open && s'.transport.isPolling && s'.probe.None? then
      s'.(probe := Some(Probe(NEW_WEBSOCKET, Connecting)))
    else s'
  }

  function AfterWrite(s: State): State
    requires s.transport.pending > 0
  {
    var s' := s.(transport := s.transport.(pending := s.transport.pending - 1, writable := true));
    if s.ready == Closed then s'
    else
      var d := OnDrain(s');
      if s.pauseDrain && !d.pausePoll && d.probe.Some? then PauseEnded(d.(pauseDrain := false))
      else d.(pauseDrain := false)
  }

  function AfterPoll(s: State): State {
    var s' := s.(transport := s.transport.(polling := false));
    var p := if s'.pausePoll && !s'.pauseDrain && s'.probe.Some? then PauseEnded(s'.(pausePoll := false))
             else s'.(pausePoll := false);
    if s.transport.ready == TOpen then p.(transport := p.transport.(polling := true)) else p
  }

  function Step(s: State, e: Event): State
    requires Enabled(s, e)
  {
    match e
    case SendPacket(packet) =>
      if s.ready == Closing || s.ready == Closed then s
      else Flush(s.(writeBuffer := s.writeBuffer + [packet], log := s.log.(accepted := s.log.accepted + [packet])))
    case TransportOpened => s.(transport := s.transport.(ready := TOpen, writable := true))
    case Handshake(canUpgrade) => if s.ready == Closed then s else OnOpen(s, canUpgrade)
    case WriteDone => AfterWrite(s)
    case PollDone => AfterPoll(s)
    case ProbeOpened =>
      var t := s.probe.value.transport.(ready := TOpen, writable := true);
      s.(probe := Some(Probe(Written(t), AwaitingPong)))
    case ProbeReply(isPong) =>
      if isPong then Pause(s.(upgrading := true, probe := Some(s.probe.value.(phase := Pausing))))
      else UpgradeEnded(s.(probe := Some(s.probe.value.(phase := Answered))))
    case ProbeFailed => ProbeEnds(s)
    case ProbeWriteDone =>
      var t := s.probe.value.transport;
      s.(probe := Some(s.probe.value.(transport := t.(pending := t.pending - 1, writable := true))))
    case Close =>
      if s.ready != Opening && s.ready != ReadyState.Open then s
      else if s.writeBuffer != [] then s.(ready := Closing, closeOnDrain := true)
      else if s.upgrading then s.(ready := Closing, closeOnUpgrade := true)
      else OnClose(s.(ready := Closing), true)
    case ConnectionLost => OnClose(s, false)
  }

  // ---------- invariants ----------

  /** Every accepted packet is in exactly one place, in order: handed over, still waiting, or dropped at the close. */
  predicate Conserved(s: State) {
    && s.prevBufferLen <= |s.writeBuffer|
    && (s.ready == Closed ==> s.writeBuffer == [])
    && Flat(s.log.batches) + (if s.ready == Closed then s.log.dropped else Rest(s)) == s.log.accepted
  }

  /** The flow control between the buffer, the transport and the probe. */
  predicate Controlled(s: State) {
    var t := s.transport;
    && !s.log.fault
    && (s.ready != Closed ==>
          && (t.writable ==> s.prevBufferLen == 0)
          && (t.writable && !s.upgrading ==> t.ready == TOpen)
          && (t.ready == TOpening ==> s.prevBufferLen == 0 && !t.writable && t.pending == 0)
          && (s.ready == ReadyState.Open ==>
                t.ready != TOpening && (t.writable && !s.upgrading ==> s.writeBuffer == []))
          && (t.ready == TPausing || t.ready == TPaused ==> s.upgrading)
          && (t.ready == TPausing && !s.pauseDrain ==> s.prevBufferLen == 0)
          && (t.ready == TPaused ==> s.prevBufferLen == 0)
          && t.ready != TClosed
          && (t.isPolling ==> t.pending <= 1 && (t.writable ==> t.pending == 0))
          && (t.isPolling && t.ready == TPausing && !s.pauseDrain ==> t.pending == 0))
    && (s.pausePoll || s.pauseDrain ==> s.ready != Closed && t.ready == TPausing && s.probe.Some?)
    && (s.upgrading && s.ready != Closed ==> s.probe.Some? && s.probe.value.phase in {Pausing, Dead})
    && (s.probe.Some? ==>
          && !s.probe.value.transport.isPolling
          && (s.probe.value.phase != Dead ==> s.ready != Closed && t.isPolling)
          && (s.probe.value.phase in {AwaitingPong, Pausing} ==> s.probe.value.transport.ready == TOpen)
          && (s.probe.value.phase == Pausing ==> s.upgrading && t.ready == TPausing)
          && (s.probe.value.phase !in {Pausing, Dead} ==> !s.upgrading))
  }

  /** A socket that is closing and has not been opened again waits for what it says, and drops nothing by itself. */
  predicate ClosesClean(s: State) {
    && (s.closeOnUpgrade && s.ready != Closed && !s.log.reopened ==> s.ready == Closing && s.writeBuffer == [])
    && (s.closeOnDrain && s.ready != Closed && !s.log.reopened ==> s.ready == Closing)
    && (s.log.forced && !s.log.reopened ==> s.log.dropped == [])
    && (s.log.forced ==> s.ready == Closed)
  }

  predicate Waits(s: State) {
    s.ready == Closing && !s.log.reopened ==>
      (s.closeOnDrain && s.writeBuffer != []) || (s.closeOnUpgrade && s.upgrading)
  }

  predicate Valid(s: State) {
    Conserved(s) && Controlled(s) && ClosesClean(s) && Waits(s)
  }

  lemma FlatAppend(batches: seq<seq<Packet>>, batch: seq<Packet>)
    ensures Flat(batches + [batch]) == Flat(batches) + batch
  {
    assert (batches + [batch])[..|batches|] == batches;
  }

  // ---------- what steps leave alone ----------

  /** Nothing is accepted or reopened, the state stays or becomes closed, and a closed socket's log stays. */
  predicate Follows(s: State, s': State) {
    && s'.log.accepted == s.log.accepted && s'.log.reopened == s.log.reopened
    && (s'.ready == s.ready || s'.ready == Closed) && (s.ready == Closed ==> s'.log == s.log)
  }

  lemma FlushFollows(s: State)
    ensures Follows(s, Flush(s)) && Flush(s).ready == s.ready
  {
  }

  lemma OnCloseFollows(s: State, forced: bool)
    ensures Follows(s, OnClose(s, forced))
  {
    hide ClosedTransport, Rest;
  }

  lemma UpgradeEndedFollows(s: State)
    ensures Follows(s, UpgradeEnded(s))
  {
    hide OnClose;
    OnCloseFollows(s.(closeOnUpgrade := false), true);
  }

  lemma PauseEndedFollows(s: State)
    requires s.probe.Some?
    ensures Follows(s, PauseEnded(s))
  {
    hide Flush, UpgradeEnded;
    var switched := Switched(s.(transport := s.transport.(ready := TPaused)));
    UpgradeEndedFollows(switched);
    FlushFollows(UpgradeEnded(switched).(upgrading := false));
  }

  lemma OnDrainFollows(s: State)
    ensures Follows(s, OnDrain(s))
  {
    hide Flush, OnClose, Rest;
    var s' := s.(writeBuffer := Rest(s), prevBufferLen := 0);
    FlushFollows(s');
    OnCloseFollows(s'.(closeOnDrain := false), true);
  }

  lemma AfterWriteFollows(s: State)
    requires s.transport.pending > 0
    ensures Follows(s, AfterWrite(s))
  {
    hide PauseEnded, OnDrain;
    var s' := s.(transport := s.transport.(pending := s.transport.pending - 1, writable := true));
    OnDrainFollows(s');
    if OnDrain(s').probe.Some? {
      PauseEndedFollows(OnDrain(s').(pauseDrain := false));
    }
  }

  lemma AfterPollFollows(s: State)
    ensures Follows(s, AfterPoll(s))
  {
    hide PauseEnded;
    var s' := s.(transport := s.transport.(polling := false), pausePoll := false);
    if s'.probe.Some? {
      PauseEndedFollows(s');
    }
  }

  lemma PauseFollows(s: State)
    requires s.probe.Some?
    ensures Follows(s, Pause(s))
  {
    hide PauseEnded;
    PauseEndedFollows(s.(transport := s.transport.(ready := TPausing)));
  }

  lemma ReplyFollows(s: State, isPong: bool)
    requires Enabled(s, ProbeReply(isPong))
    ensures Follows(s, Step(s, ProbeReply(isPong)))
  {
    hide Pause, UpgradeEnded;
    PauseFollows(s.(upgrading := true, probe := Some(s.probe.value.(phase := Pausing))));
    UpgradeEndedFollows(s.(probe := Some(s.probe.value.(phase := Answered))));
  }

  lemma ProbeFailedFollows(s: State)
    requires Enabled(s, ProbeFailed)
    ensures Follows(s, Step(s, ProbeFailed))
  {
    hide UpgradeEnded, ClosedTransport;
    UpgradeEndedFollows(s.(probe := Some(Probe(ClosedTransport(s.probe.value.transport), Dead))));
  }

  lemma StepFollows(s: State, e: Event)
    requires Enabled(s, e) && !e.SendPacket? && !e.Handshake? && !e.Close?
    ensures Follows(s, Step(s, e))
  {
    if e.WriteDone? {
      AfterWriteFollows(s);
    } else if e.PollDone? {
      AfterPollFollows(s);
    } else if e.ProbeReply? {
      ReplyFollows(s, e.isPong);
    } else if e.ProbeFailed? {
      ProbeFailedFollows(s);
    } else if e.ConnectionLost? {
      OnCloseFollows(s, false);
    } else {
      TransportEventKind(s, e);
    }
    hide AfterWrite, AfterPoll, Pause, UpgradeEnded, OnClose, Follows;
  }

  // ---------- every step keeps the invariants ----------

  /** Everything `Flush` needs, whatever is in the buffer. */
  predicate Flushable(s: State) {
    s.transport.ready != TOpening && Controlled(s.(writeBuffer := []))
  }

  lemma ConservedSame(s: State, s': State)
    requires Conserved(s) && s'.writeBuffer == s.writeBuffer && s'.prevBufferLen == s.prevBufferLen
    requires s'.ready == s.ready && s'.log == s.log
    ensures Conserved(s')
  {
    hide Flat;
  }

  lemma FlushConserved(s: State)
    requires Conserved(s) && (s.transport.writable ==> s.prevBufferLen == 0 || s.ready == Closed)
    ensures Conserved(Flush(s))
  {
    FlatAppend(s.log.batches, s.writeBuffer);
    hide Flat;
    if s.ready != Closed && s.transport.writable && !s.upgrading && s.writeBuffer != [] && s.transport.ready == TOpen {
      assert Rest(s) == s.writeBuffer && Rest(Flush(s)) == [];
      assert Flat(Flush(s).log.batches) == Flat(s.log.batches) + s.writeBuffer;
      assert Flat(Flush(s).log.batches) + [] == Flat(Flush(s).log.batches);
    }
  }

  lemma FlushControlled(s: State)
    requires Controlled(s) || Flushable(s)
    ensures Controlled(Flush(s))
  {
  }

  lemma FlushCloses(s: State)
    requires ClosesClean(s) && Waits(s)
    ensures ClosesClean(Flush(s)) && Waits(Flush(s))
  {
  }

  /** Flushing with nothing in flight hands over the whole buffer, and keeps everything in place. */
  lemma FlushValid(s: State)
    requires Conserved(s) && ClosesClean(s) && Waits(s) && (Controlled(s) || Flushable(s))
    ensures Valid(Flush(s))
  {
    FlushControlled(s);
    FlushCloses(s);
    FreeWhenWritable(s);
    FlushConserved(s);
    hide Conserved, Controlled, Flushable, ClosesClean, Waits, Flush;
  }

  lemma FreeWhenWritable(s: State)
    requires Controlled(s) || Flushable(s)
    ensures s.transport.writable ==> s.prevBufferLen == 0 || s.ready == Closed
  {
  }

  lemma OnCloseConserved(s: State, forced: bool)
    requires Conserved(s)
    ensures Conserved(OnClose(s, forced))
  {
    hide Flat, ClosedTransport;
  }

  lemma OnCloseControlled(s: State, forced: bool)
    requires Controlled(s)
    ensures Controlled(OnClose(s, forced))
  {
    hide Rest;
  }

  lemma OnCloseCloses(s: State, forced: bool)
    requires ClosesClean(s) && (forced && !s.log.reopened ==> s.writeBuffer == [])
    ensures ClosesClean(OnClose(s, forced)) && Waits(OnClose(s, forced)) && OnClose(s, forced).ready == Closed
  {
    hide ClosedTransport;
  }

  lemma OnCloseValid(s: State, forced: bool)
    requires Conserved(s) && Controlled(s) && ClosesClean(s)
    requires forced && !s.log.reopened ==> s.writeBuffer == []
    ensures Valid(OnClose(s, forced)) && OnClose(s, forced).ready == Closed
  {
    hide Conserved, Controlled, ClosesClean, Waits, OnClose;
    OnCloseConserved(s, forced);
    OnCloseControlled(s, forced);
    OnCloseCloses(s, forced);
  }

  lemma UpgradeEndedValid(s: State)
    requires Valid(s)
    ensures Valid(UpgradeEnded(s))
  {
    if s.closeOnUpgrade && s.ready != Closed {
      OnCloseValid(s.(closeOnUpgrade := false), true);
      hide Flat, OnClose;
    }
  }

  /** A probe's transport in the place of a paused one that has nothing in flight. */
  lemma SwitchedValid(s: State)
    requires Valid(s) && s.ready != Closed && s.probe.Some? && s.probe.value.phase != Dead
    requires s.transport.ready == TPausing && !s.pausePoll && !s.pauseDrain
    ensures Conserved(Switched(s)) && ClosesClean(Switched(s)) && Waits(Switched(s))
    ensures Controlled(Switched(s).(upgrading := false)) && Switched(s).transport.ready != TOpening
    ensures Switched(s).prevBufferLen == 0 && !Switched(s).transport.writable && Switched(s).ready == s.ready
  {
    hide Flat;
  }

  lemma EndAfterSwitch(s: State)
    requires Conserved(s) && ClosesClean(s) && Waits(s)
    requires Controlled(s.(upgrading := false)) && s.transport.ready != TOpening
    ensures Valid(UpgradeEnded(s).(upgrading := false))
  {
    var s' := s.(upgrading := false);
    EndCommutes(s);
    if s.closeOnUpgrade && s.ready != Closed {
      OnCloseValid(s'.(closeOnUpgrade := false), true);
    }
    hide Flat, OnClose;
  }

  lemma EndCommutes(s: State)
    ensures UpgradeEnded(s).(upgrading := false) == UpgradeEnded(s.(upgrading := false))
  {
    hide ClosedTransport;
  }

  /** The pause is over: nothing is in flight on the old transport, so the switch can happen. */
  lemma PauseEndedValid(s: State)
    requires Valid(s) && s.ready != Closed && s.probe.Some? && s.transport.ready == TPausing
    requires !s.pausePoll && !s.pauseDrain
    ensures Valid(PauseEnded(s))
  {
    if s.probe.value.phase != Dead {
      SwitchedValid(s);
      EndAfterSwitch(Switched(s));
      var ended := UpgradeEnded(Switched(s)).(upgrading := false);
      FlushValid(ended);
      hide Flush, UpgradeEnded, Conserved, Controlled, ClosesClean, Waits;
    }
  }

  lemma PauseValid(s: State)
    requires Valid(s) && s.ready != Closed && s.probe.Some? && s.probe.value.phase == AwaitingPong
    ensures Valid(Pause(s.(upgrading := true, probe := Some(s.probe.value.(phase := Pausing)))))
  {
    hide PauseEnded, Flat;
    var s' := s.(upgrading := true, probe := Some(s.probe.value.(phase := Pausing)));
    var t := s'.transport.(ready := TPausing);
    if !(t.polling || !t.writable) {
      PauseEndedValid(s'.(transport := t));
    }
  }

  /** The part of the buffer that was handed over is gone; what is left can be flushed. */
  lemma DrainedValid(s: State)
    requires Conserved(s) && ClosesClean(s)
    ensures var s' := s.(writeBuffer := Rest(s), prevBufferLen := 0); Conserved(s') && Rest(s') == Rest(s)
    ensures ClosesClean(s.(writeBuffer := Rest(s), prevBufferLen := 0))
  {
    hide Flat;
  }

  lemma OnDrainValid(s: State)
    requires Conserved(s) && ClosesClean(s) && Waits(s) && s.ready != Closed
    requires Flushable(s.(prevBufferLen := 0))
    ensures Valid(OnDrain(s))
  {
    var s' := s.(writeBuffer := Rest(s), prevBufferLen := 0);
    DrainedValid(s);
    assert Flushable(s');
    hide Conserved, Rest, Flush, OnClose;
    if s'.writeBuffer != [] {
      FlushValid(s');
    } else if s'.closeOnDrain && !s'.upgrading {
      OnCloseValid(s'.(closeOnDrain := false), true);
    } else {
      EmptyValid(s');
    }
  }

  /** A drained buffer with nobody waiting for it, or with a close that goes on to wait for the upgrade. */
  lemma EmptyValid(s: State)
    requires Conserved(s) && ClosesClean(s) && s.writeBuffer == [] && Flushable(s) && s.ready != Closed
    requires s.closeOnDrain ==> s.upgrading
    requires s.ready == Closing && !s.log.reopened ==> s.closeOnDrain || (s.closeOnUpgrade && s.upgrading)
    ensures Valid(if s.closeOnDrain then s.(closeOnDrain := false, closeOnUpgrade := true) else s)
  {
    hide Flat;
  }

  lemma OnDrainKeeps(s: State)
    ensures OnDrain(s).ready != Closed ==>
              && (OnDrain(s).transport == s.transport || OnDrain(s).transport == Written(s.transport))
              && OnDrain(s).probe == s.probe
              && OnDrain(s).pausePoll == s.pausePoll && OnDrain(s).pauseDrain == s.pauseDrain
              && OnDrain(s).upgrading == s.upgrading && (s.upgrading ==> OnDrain(s).transport == s.transport)
    ensures OnDrain(s).transport.isPolling == s.transport.isPolling
    ensures s.upgrading ==> OnDrain(s).ready == s.ready && OnDrain(s).probe == s.probe
  {
    hide Rest, Flush, OnClose;
    var s' := s.(writeBuffer := Rest(s), prevBufferLen := 0);
    FlushKeeps(s');
    OnCloseReady(s'.(closeOnDrain := false), true);
    CloseKeepsKind(s'.(closeOnDrain := false), true);
  }

  lemma FlushKeeps(s: State)
    ensures var s' := Flush(s);
            && s'.ready == s.ready && s'.probe == s.probe && s'.upgrading == s.upgrading
            && s'.pausePoll == s.pausePoll && s'.pauseDrain == s.pauseDrain
            && s'.transport.isPolling == s.transport.isPolling
            && (s'.transport == s.transport || (s'.transport == Written(s.transport) && !s.upgrading))
  {
  }

  lemma OnCloseReady(s: State, forced: bool)
    ensures OnClose(s, forced).ready == Closed
  {
  }

  lemma CloseKeepsKind(s: State, forced: bool)
    ensures OnClose(s, forced).transport.isPolling == s.transport.isPolling
    ensures UpgradeEnded(s).transport.isPolling == s.transport.isPolling
  {
  }

  lemma WriteCompleted(s: State)
    requires Valid(s) && s.transport.pending > 0 && s.ready != Closed
    ensures var s' := s.(transport := s.transport.(pending := s.transport.pending - 1, writable := true));
            Conserved(s') && ClosesClean(s') && Waits(s') && Flushable(s'.(prevBufferLen := 0))
  {
    hide Flat;
  }

  lemma DrainWaitOver(s: State)
    requires Valid(s)
    requires s.ready != Closed && s.transport.ready == TPausing ==>
               s.prevBufferLen == 0 && (s.transport.isPolling ==> s.transport.pending == 0)
    ensures Valid(s.(pauseDrain := false))
  {
    ConservedSame(s, s.(pauseDrain := false));
    hide Conserved;
  }

  lemma AfterWriteValid(s: State)
    requires Valid(s) && s.transport.pending > 0
    ensures Valid(AfterWrite(s))
  {
    var s' := s.(transport := s.transport.(pending := s.transport.pending - 1, writable := true));
    if s.ready == Closed {
      ClosedWrite(s);
    } else {
      WriteCompleted(s);
      OnDrainValid(s');
      OnDrainKeeps(s');
      WritePending(s);
      var d := OnDrain(s');
      hide PauseEnded, OnDrain, Conserved, ClosesClean, Waits;
      DrainWaitOver(d);
      if s.pauseDrain && !d.pausePoll && d.probe.Some? {
        PauseWaiting(s);
        PauseEndedValid(d.(pauseDrain := false));
      }
    }
  }

  lemma ClosedWrite(s: State)
    requires Valid(s) && s.transport.pending > 0 && s.ready == Closed
    ensures Valid(AfterWrite(s))
  {
    hide Flat;
  }

  lemma PauseWaiting(s: State)
    requires Controlled(s) && s.pauseDrain
    ensures s.ready != Closed && s.transport.ready == TPausing && s.upgrading && s.probe.Some?
  {
  }

  lemma WritePending(s: State)
    requires Controlled(s) && s.ready != Closed
    ensures s.transport.ready == TPausing ==> s.upgrading && (s.transport.isPolling ==> s.transport.pending <= 1)
  {
  }

  /** No invariant speaks of the poll in progress. */
  lemma PollingIsFree(s: State, polling: bool)
    requires Valid(s)
    ensures Valid(s.(transport := s.transport.(polling := polling)))
  {
    ConservedSame(s, s.(transport := s.transport.(polling := polling)));
    hide Conserved;
  }

  lemma PollWaitOver(s: State)
    requires Valid(s)
    ensures Valid(s.(pausePoll := false))
  {
    ConservedSame(s, s.(pausePoll := false));
    hide Conserved;
  }

  lemma AfterPollValid(s: State)
    requires Valid(s) && Enabled(s, PollDone)
    ensures Valid(AfterPoll(s))
  {
    var s' := s.(transport := s.transport.(polling := false));
    var over := s'.(pausePoll := false);
    PollingIsFree(s, false);
    PollWaitOver(s');
    PollWaiting(s);
    hide PauseEnded, Conserved, Controlled, ClosesClean, Waits, Valid;
    if s'.pausePoll && !s'.pauseDrain && s'.probe.Some? {
      PauseEndedValid(over);
      PollingIsFree(PauseEnded(over), true);
    }
    PollingIsFree(over, true);
  }

  lemma PollWaiting(s: State)
    requires Valid(s)
    ensures s.pausePoll ==> s.ready != Closed && s.transport.ready == TPausing
  {
  }

  lemma SendValid(s: State, packet: Packet)
    requires Valid(s)
    ensures Valid(Step(s, SendPacket(packet)))
  {
    if s.ready == Opening || s.ready == ReadyState.Open {
      var s' := s.(writeBuffer := s.writeBuffer + [packet], log := s.log.(accepted := s.log.accepted + [packet]));
      AppendConserved(s, packet);
      AppendControlled(s, packet);
      hide Conserved, Controlled, Flushable, Flush;
      FlushValid(s');
    }
  }

  lemma AppendConserved(s: State, packet: Packet)
    requires Conserved(s) && s.ready != Closed
    ensures Conserved(s.(writeBuffer := s.writeBuffer + [packet], log := s.log.(accepted := s.log.accepted + [packet])))
  {
    hide Flat;
    assert Rest(s.(writeBuffer := s.writeBuffer + [packet])) == Rest(s) + [packet];
    Assoc(Flat(s.log.batches), Rest(s), [packet]);
  }

  lemma AppendControlled(s: State, packet: Packet)
    requires Controlled(s) && (s.ready == Opening || s.ready == ReadyState.Open)
    ensures var s' := s.(writeBuffer := s.writeBuffer + [packet], log := s.log.(accepted := s.log.accepted + [packet]));
            Controlled(s') || Flushable(s')
  {
  }

  lemma ClosingValid(s: State)
    requires Valid(s) && (s.ready == Opening || s.ready == ReadyState.Open)
    ensures var s' := s.(ready := Closing); Conserved(s') && Controlled(s') && ClosesClean(s')
  {
    hide Flat;
  }

  lemma ClosingWaitsValid(s: State)
    requires Conserved(s) && Controlled(s) && ClosesClean(s) && s.ready == Closing
    ensures s.writeBuffer != [] ==> Valid(s.(closeOnDrain := true))
    ensures s.writeBuffer == [] && s.upgrading ==> Valid(s.(closeOnUpgrade := true))
  {
    hide Flat;
  }

  lemma CloseValid(s: State)
    requires Valid(s)
    ensures Valid(Step(s, Close))
  {
    if s.ready == Opening || s.ready == ReadyState.Open {
      var s' := s.(ready := Closing);
      ClosingValid(s);
      ClosingWaitsValid(s');
      if s.writeBuffer == [] && !s.upgrading {
        OnCloseValid(s', true);
      }
    }
    hide OnClose, Conserved, Controlled, ClosesClean, Waits, Valid;
  }

  lemma HandshakeValid(s: State, canUpgrade: bool)
    requires Valid(s) && Enabled(s, Handshake(canUpgrade))
    ensures Valid(Step(s, Handshake(canUpgrade)))
  {
    if s.ready != Closed {
      var s' := s.(ready := ReadyState.Open, log := s.log.(reopened := s.log.reopened || s.ready == Closing));
      OpenedValid(s);
      FlushValid(s');
      FlushKeeps(s');
      hide Conserved, Controlled, ClosesClean, Waits, Flush, Flushable;
      if canUpgrade && Flush(s').transport.isPolling && Flush(s').probe.None? {
        ProbeStarts(Flush(s'));
      }
    }
  }

  lemma OpenedValid(s: State)
    requires Valid(s) && s.ready != Closed && s.transport.ready != TOpening
    ensures var s' := s.(ready := ReadyState.Open, log := s.log.(reopened := s.log.reopened || s.ready == Closing));
            Conserved(s') && ClosesClean(s') && Waits(s') && Flushable(s')
  {
    hide Flat;
  }

  lemma ProbeStarts(s: State)
    requires Valid(s) && s.ready == ReadyState.Open && s.transport.isPolling && s.probe.None?
    ensures Valid(s.(probe := Some(Probe(NEW_WEBSOCKET, Connecting))))
  {
    ConservedSame(s, s.(probe := Some(Probe(NEW_WEBSOCKET, Connecting))));
    hide Conserved;
  }

  lemma ReplyValid(s: State, isPong: bool)
    requires Valid(s) && Enabled(s, ProbeReply(isPong))
    ensures Valid(Step(s, ProbeReply(isPong)))
  {
    hide Flat, Pause, UpgradeEnded;
    if isPong {
      PauseValid(s);
    } else {
      UpgradeEndedValid(s.(probe := Some(s.probe.value.(phase := Answered))));
    }
  }

  lemma ProbeFailedValid(s: State)
    requires Valid(s) && Enabled(s, ProbeFailed)
    ensures Valid(Step(s, ProbeFailed))
  {
    hide Flat, UpgradeEnded;
    UpgradeEndedValid(s.(probe := Some(Probe(ClosedTransport(s.probe.value.transport), Dead))));
  }

  lemma TransportOpenedValid(s: State)
    requires Valid(s) && Enabled(s, TransportOpened)
    ensures Valid(Step(s, TransportOpened))
  {
    ConservedSame(s, Step(s, TransportOpened));
    hide Conserved;
  }

  lemma ProbeOpenedValid(s: State)
    requires Valid(s) && Enabled(s, ProbeOpened)
    ensures Valid(Step(s, ProbeOpened))
  {
    ConservedSame(s, Step(s, ProbeOpened));
    hide Conserved;
  }

  lemma ProbeWriteValid(s: State)
    requires Valid(s) && Enabled(s, ProbeWriteDone)
    ensures Valid(Step(s, ProbeWriteDone))
  {
    ConservedSame(s, Step(s, ProbeWriteDone));
    hide Conserved;
  }

  /** Every event keeps the invariants. */
  lemma StepValid(s: State, e: Event)
    requires Valid(s) && Enabled(s, e)
    ensures Valid(Step(s, e))
  {
    match e {
      case SendPacket(packet) => SendValid(s, packet);
      case Handshake(canUpgrade) => HandshakeValid(s, canUpgrade);
      case WriteDone => AfterWriteValid(s);
      case PollDone => AfterPollValid(s);
      case ProbeReply(isPong) => ReplyValid(s, isPong);
      case ProbeFailed => ProbeFailedValid(s);
      case Close => CloseValid(s);
      case ConnectionLost => OnCloseValid(s, false);
      case TransportOpened => TransportOpenedValid(s);
      case ProbeOpened => ProbeOpenedValid(s);
      case ProbeWriteDone => ProbeWriteValid(s);
    }
    hide Conserved, Controlled, ClosesClean, Waits, Flush, AfterWrite, AfterPoll, Pause, OnClose, UpgradeEnded;
  }

  // ---------- whole runs ----------

  function Next(s: State, e: Event): State {
    if Enabled(s, e) then Step(s, e) else s
  }

  function Run(s: State, events: seq<Event>): State
    decreases |events|
  {
    if events == [] then s else Run(Next(s, events[0]), events[1..])
  }

  lemma {:induction false} RunValid(s: State, events: seq<Event>)
    requires Valid(s)
    ensures Valid(Run(s, events))
    decreases |events|
  {
    if events != [] {
      if Enabled(s, events[0]) {
        StepValid(s, events[0]);
      }
      RunValid(Next(s, events[0]), events[1..]);
    }
  }

  /**
   * In every run: until the close, the batches handed over followed by the rest of the buffer are the packets
   * accepted, in order; after it, what is missing is what the close dropped. Nothing is ever sent on a transport that
   * is not open, and an open socket with a free transport holds nothing back.
   */
  lemma NoLossNoDuplicate(polling: bool, events: seq<Event>)
    ensures var s := Run(Start(polling), events);
            && Flat(s.log.batches) + (if s.ready == Closed then s.log.dropped else Rest(s)) == s.log.accepted
            && !s.log.fault
            && (s.ready != Closed && s.transport.writable ==> s.prevBufferLen == 0)
            && (s.ready == ReadyState.Open && s.transport.writable && !s.upgrading ==>
                  Flat(s.log.batches) == s.log.accepted)
  {
    RunValid(Start(polling), events);
    var s := Run(Start(polling), events);
    assert Flat(s.log.batches) + [] == Flat(s.log.batches);
  }

  /**
   * Whatever the interleaving, when the last step of `close` closes the socket every accepted packet has been handed
   * over, provided no handshake arrived while the socket was closing.
   */
  lemma ForcedCloseHandsOverAll(polling: bool, events: seq<Event>)
    ensures var log := Run(Start(polling), events).log;
            log.forced && !log.reopened ==> Flat(log.batches) == log.accepted
  {
    RunValid(Start(polling), events);
    var s := Run(Start(polling), events);
    assert Flat(s.log.batches) + [] == Flat(s.log.batches);
  }

  /** A closing socket that no handshake has reopened always waits for a drain or for an upgrade, never for nothing. */
  lemma ClosingWaits(polling: bool, events: seq<Event>)
    ensures var s := Run(Start(polling), events);
            s.ready == Closing && !s.log.reopened ==>
              (s.closeOnDrain && s.writeBuffer != []) || (s.closeOnUpgrade && s.upgrading && s.writeBuffer == [])
  {
    RunValid(Start(polling), events);
  }

  predicate IsClosing(s: State) {
    s.ready == Closing || s.ready == Closed
  }

  lemma SendFollows(s: State, packet: Packet)
    ensures IsClosing(s) ==> Step(s, SendPacket(packet)) == s
    ensures var s' := Step(s, SendPacket(packet)); s'.ready == s.ready && s'.log.reopened == s.log.reopened
  {
    hide Flush;
    FlushFollows(s.(writeBuffer := s.writeBuffer + [packet], log := s.log.(accepted := s.log.accepted + [packet])));
  }

  lemma HandshakeFollows(s: State, canUpgrade: bool)
    requires Enabled(s, Handshake(canUpgrade))
    ensures var s' := Step(s, Handshake(canUpgrade));
            if s.ready == Closed then s' == s
            else && s'.ready == ReadyState.Open && s'.log.accepted == s.log.accepted
                 && s'.log.reopened == (s.log.reopened || s.ready == Closing)
  {
    hide Flush;
    FlushFollows(s.(ready := ReadyState.Open, log := s.log.(reopened := s.log.reopened || s.ready == Closing)));
  }

  lemma CloseFollows(s: State)
    ensures IsClosing(s) ==> Step(s, Close) == s
    ensures IsClosing(Step(s, Close)) && Step(s, Close).log.accepted == s.log.accepted
    ensures Step(s, Close).log.reopened == s.log.reopened
  {
    hide OnClose;
    OnCloseFollows(s.(ready := Closing), true);
    OnCloseReady(s.(ready := Closing), true);
  }

  /** Only a handshake makes a closing socket open again, and nothing makes a closed one. */
  lemma ReopensExactlyOnHandshake(s: State, e: Event)
    requires Enabled(s, e) && IsClosing(s)
    ensures Step(s, e).ready in {ReadyState.Opening, ReadyState.Open} <==> s.ready == Closing && e.Handshake?
    ensures Step(s, e).log.reopened <==> s.log.reopened || (s.ready == Closing && e.Handshake?)
    ensures Step(s, e).log.accepted == s.log.accepted
  {
    if e.SendPacket? {
      SendFollows(s, e.packet);
    } else if e.Handshake? {
      HandshakeFollows(s, e.canUpgrade);
    } else if e.Close? {
      CloseFollows(s);
    } else {
      StepFollows(s, e);
    }
    hide Step;
  }

  /** After `close` nothing is accepted any more, provided no handshake arrives while the socket is closing. */
  lemma {:induction false} NothingAcceptedAfterClose(s: State, events: seq<Event>)
    requires Valid(s) && (s.ready == Closing || s.ready == Closed) && !s.log.reopened
    requires !Run(s, events).log.reopened
    ensures Run(s, events).log.accepted == s.log.accepted
    ensures Run(s, events).ready == Closing || Run(s, events).ready == Closed
    decreases |events|
  {
    if events != [] {
      var e := events[0];
      if Enabled(s, e) {
        ReopensExactlyOnHandshake(s, e);
        StepValid(s, e);
        if Step(s, e).log.reopened {
          StaysReopened(Step(s, e), events[1..]);
          assert false;
        }
      }
      NothingAcceptedAfterClose(Next(s, e), events[1..]);
    }
  }

  lemma {:induction false} StaysReopened(s: State, events: seq<Event>)
    requires Valid(s) && s.log.reopened
    ensures Run(s, events).log.reopened
    decreases |events|
  {
    if events != [] {
      if Enabled(s, events[0]) {
        StepValid(s, events[0]);
        StepKeepsReopened(s, events[0]);
      }
      StaysReopened(Next(s, events[0]), events[1..]);
    }
  }

  lemma StepKeepsReopened(s: State, e: Event)
    requires Enabled(s, e) && s.log.reopened
    ensures Step(s, e).log.reopened
  {
    if e.SendPacket? {
      SendFollows(s, e.packet);
    } else if e.Handshake? {
      HandshakeFollows(s, e.canUpgrade);
    } else if e.Close? {
      CloseFollows(s);
    } else {
      StepFollows(s, e);
    }
    hide Step;
  }

  lemma SendKind(s: State, packet: Packet)
    ensures Step(s, SendPacket(packet)).transport.isPolling == s.transport.isPolling
  {
    hide Flush;
    FlushKeeps(s.(writeBuffer := s.writeBuffer + [packet], log := s.log.(accepted := s.log.accepted + [packet])));
  }

  lemma HandshakeKind(s: State, canUpgrade: bool)
    requires Enabled(s, Handshake(canUpgrade))
    ensures Step(s, Handshake(canUpgrade)).transport.isPolling == s.transport.isPolling
  {
    hide Flush;
    FlushKeeps(s.(ready := ReadyState.Open, log := s.log.(reopened := s.log.reopened || s.ready == Closing)));
  }

  lemma ClosingKind(s: State, e: Event)
    requires Enabled(s, e) && (e.Close? || e.ConnectionLost? || e.ProbeFailed?)
    ensures Step(s, e).transport.isPolling == s.transport.isPolling
  {
    hide OnClose, UpgradeEnded, ClosedTransport;
    if e.Close? {
      CloseKeepsKind(s.(ready := Closing), true);
    } else if e.ConnectionLost? {
      CloseKeepsKind(s, false);
    } else {
      CloseKeepsKind(s.(probe := Some(Probe(ClosedTransport(s.probe.value.transport), Dead))), false);
    }
  }

  lemma NoSwitch(s: State, e: Event)
    requires Enabled(s, e) && !e.WriteDone? && !e.PollDone? && !e.ProbeReply?
    ensures Step(s, e).transport.isPolling == s.transport.isPolling
  {
    if e.SendPacket? {
      SendKind(s, e.packet);
    } else if e.Handshake? {
      HandshakeKind(s, e.canUpgrade);
    } else if e.Close? || e.ConnectionLost? || e.ProbeFailed? {
      ClosingKind(s, e);
    } else {
      TransportEventKind(s, e);
    }
    hide Step;
  }

  lemma TransportEventKind(s: State, e: Event)
    requires Enabled(s, e) && (e.TransportOpened? || e.ProbeOpened? || e.ProbeWriteDone?)
    ensures Step(s, e).transport.isPolling == s.transport.isPolling && Follows(s, Step(s, e))
  {
  }

  /** The transport is replaced only while upgrading, when every write on the old one has completed. */
  lemma SwitchWithNothingInFlight(s: State, e: Event)
    requires Valid(s) && Enabled(s, e) && Step(s, e).transport.isPolling != s.transport.isPolling
    ensures s.transport.isPolling && s.ready != Closed && (s.upgrading || e == ProbeReply(true))
    ensures (s.transport.pending == 0 && s.prevBufferLen == 0) || (e == WriteDone && s.transport.pending == 1)
  {
    if e.WriteDone? {
      SwitchAfterWrite(s);
    } else if e.PollDone? {
      SwitchAfterPoll(s);
    } else if e.ProbeReply? {
      SwitchOnPause(s, e.isPong);
    } else {
      NoSwitch(s, e);
    }
    hide Step, Valid;
  }

  lemma SwitchAfterWrite(s: State)
    requires Valid(s) && s.transport.pending > 0 && AfterWrite(s).transport.isPolling != s.transport.isPolling
    ensures s.transport.isPolling && s.ready != Closed && s.upgrading && s.transport.pending == 1
  {
    hide PauseEnded, OnDrain, Conserved, ClosesClean, Waits;
    var s' := s.(transport := s.transport.(pending := s.transport.pending - 1, writable := true));
    OnDrainKeeps(s');
    if OnDrain(s').probe.Some? {
      PauseEndedKind(OnDrain(s').(pauseDrain := false));
    }
  }

  lemma PauseEndedKind(s: State)
    requires s.probe.Some?
    ensures PauseEnded(s).transport.isPolling != s.transport.isPolling ==> s.probe.value.phase != Dead
  {
    hide Flush;
  }

  lemma SwitchAfterPoll(s: State)
    requires Valid(s) && Enabled(s, PollDone) && AfterPoll(s).transport.isPolling != s.transport.isPolling
    ensures s.ready != Closed && s.upgrading && s.transport.pending == 0 && s.prevBufferLen == 0
  {
    hide Flat, PauseEnded;
  }

  lemma SwitchOnPause(s: State, isPong: bool)
    requires Valid(s) && Enabled(s, ProbeReply(isPong))
    requires Step(s, ProbeReply(isPong)).transport.isPolling != s.transport.isPolling
    ensures isPong && s.transport.isPolling && s.ready != Closed && s.transport.pending == 0 && s.prevBufferLen == 0
  {
    hide Flat, PauseEnded;
  }

  // ---------- when `close` is final ----------

  /** A socket that has not had its handshake: nothing to upgrade to yet, at most one write in flight. */
  predicate IsEarly(s: State) {
    var t := s.transport;
    && t.polling == t.isPolling && (t.ready == TOpening || t.ready == TOpen)
    && (t.ready == TOpen ==> t.pending == if t.writable then 0 else 1)
    && s.probe.None? && !s.upgrading && !s.pausePoll && !s.pauseDrain
  }

  lemma FlushEarly(s: State)
    requires IsEarly(s) && Controlled(s.(writeBuffer := []))
    ensures IsEarly(Flush(s))
  {
  }

  lemma SendEarly(s: State, packet: Packet)
    requires Controlled(s) && s.ready == Opening && IsEarly(s)
    ensures IsEarly(Step(s, SendPacket(packet)))
  {
    hide Flush;
    var s' := s.(writeBuffer := s.writeBuffer + [packet], log := s.log.(accepted := s.log.accepted + [packet]));
    assert Controlled(s'.(writeBuffer := []));
    FlushEarly(s');
  }

  lemma WriteEarly(s: State)
    requires Valid(s) && s.transport.pending > 0 && s.ready == Opening && IsEarly(s)
    ensures AfterWrite(s).ready != Closed ==> IsEarly(AfterWrite(s))
  {
    var s' := s.(transport := s.transport.(pending := s.transport.pending - 1, writable := true));
    WriteCompleted(s);
    assert IsEarly(s') && Controlled(s'.(writeBuffer := [], prevBufferLen := 0));
    OnDrainEarly(s');
    hide Conserved, Controlled, ClosesClean, Waits, OnDrain, PauseEnded;
  }

  lemma OnDrainEarly(s: State)
    requires IsEarly(s) && Controlled(s.(writeBuffer := [], prevBufferLen := 0))
    ensures OnDrain(s).ready != Closed ==> IsEarly(OnDrain(s))
  {
    hide Flush, Rest;
    var s' := s.(writeBuffer := Rest(s), prevBufferLen := 0);
    assert s'.(writeBuffer := []) == s.(writeBuffer := [], prevBufferLen := 0);
    FlushEarly(s');
    OnCloseReady(s'.(closeOnDrain := false), true);
    hide OnClose, IsEarly, Controlled;
  }

  lemma OtherEarly(s: State, e: Event)
    requires Valid(s) && Enabled(s, e) && s.ready == Opening && IsEarly(s)
    requires !e.SendPacket? && !e.Handshake? && !e.Close?
    ensures Step(s, e).ready != Closed ==> IsEarly(Step(s, e))
  {
    hide AfterWrite, OnClose, PauseEnded, Conserved, ClosesClean, Waits;
    match e {
      case WriteDone => WriteEarly(s);
      case ConnectionLost => OnCloseReady(s, false);
      case _ =>
    }
  }

  /** A socket is early until its handshake or its close. */
  lemma StepEarly(s: State, e: Event)
    requires Valid(s) && Enabled(s, e) && (s.ready == Opening ==> IsEarly(s))
    ensures Step(s, e).ready == Opening ==> s.ready == Opening && IsEarly(Step(s, e))
  {
    if e.SendPacket? {
      SendFollows(s, e.packet);
      if s.ready == Opening {
        SendEarly(s, e.packet);
      }
    } else if e.Handshake? {
      HandshakeFollows(s, e.canUpgrade);
    } else if e.Close? {
      CloseFollows(s);
    } else {
      StepFollows(s, e);
      if s.ready == Opening {
        OtherEarly(s, e);
      }
    }
    hide Step, IsEarly, Valid;
  }

  lemma {:induction false} RunEarly(s: State, events: seq<Event>)
    requires Valid(s) && (s.ready == Opening ==> IsEarly(s))
    ensures Valid(Run(s, events)) && (Run(s, events).ready == Opening ==> IsEarly(Run(s, events)))
    decreases |events|
  {
    hide Valid, IsEarly, Step;
    if events != [] {
      if Enabled(s, events[0]) {
        StepEarly(s, events[0]);
        StepValid(s, events[0]);
      }
      RunEarly(Next(s, events[0]), events[1..]);
    }
  }

  /** A closed socket stays as it was closed. */
  lemma {:induction false} StaysClosed(s: State, events: seq<Event>)
    requires s.ready == Closed
    ensures Run(s, events).ready == Closed && Run(s, events).log == s.log
    decreases |events|
  {
    hide Step;
    if events != [] {
      if Enabled(s, events[0]) {
        StepClosed(s, events[0]);
      }
      StaysClosed(Next(s, events[0]), events[1..]);
    }
  }

  lemma StepClosed(s: State, e: Event)
    requires s.ready == Closed && Enabled(s, e)
    ensures Step(s, e).ready == Closed && Step(s, e).log == s.log
  {
    if e.SendPacket? {
      SendFollows(s, e.packet);
    } else if e.Handshake? {
      HandshakeFollows(s, e.canUpgrade);
    } else if e.Close? {
      CloseFollows(s);
    } else {
      StepFollows(s, e);
    }
    hide Step;
  }

  predicate NoHandshake(events: seq<Event>) {
    forall i :: 0 <= i < |events| ==> !events[i].Handshake?
  }

  lemma {:induction false} StaysUnopened(s: State, events: seq<Event>)
    requires Valid(s) && IsClosing(s) && !s.log.reopened && NoHandshake(events)
    ensures !Run(s, events).log.reopened
    decreases |events|
  {
    hide Valid, Step;
    if events != [] {
      assert !events[0].Handshake?;
      if Enabled(s, events[0]) {
        ReopensExactlyOnHandshake(s, events[0]);
        StepValid(s, events[0]);
      }
      StaysUnopened(Next(s, events[0]), events[1..]);
    }
  }

  /** What `close` promises: nothing more is accepted, and a forced close has handed over all that was. */
  predicate ClosedFor(s: State, s': State) {
    s'.log.accepted == s.log.accepted && (s'.log.forced ==> Flat(s'.log.batches) == s'.log.accepted)
  }

  lemma CloseWhenOpen(s: State, after: seq<Event>)
    requires Valid(s) && s.ready == ReadyState.Open && !s.log.reopened && NoHandshake(after)
    ensures ClosedFor(s, Run(Next(s, Close), after))
  {
    CloseFollows(s);
    StepValid(s, Close);
    var closing := Next(s, Close);
    hide Run, Next, Step;
    StaysUnopened(closing, after);
    NothingAcceptedAfterClose(closing, after);
    RunValid(closing, after);
    ForcedIsConserved(Run(closing, after));
  }

  lemma ForcedIsConserved(s: State)
    requires Valid(s) && !s.log.reopened
    ensures s.log.forced ==> Flat(s.log.batches) == s.log.accepted
  {
    assert Flat(s.log.batches) + [] == Flat(s.log.batches);
  }

  lemma CloseWhenEmpty(s: State, after: seq<Event>)
    requires Valid(s) && s.ready == Opening && IsEarly(s) && !s.log.reopened && s.writeBuffer == []
    ensures ClosedFor(s, Run(Next(s, Close), after))
  {
    var closed := Next(s, Close);
    assert closed == OnClose(s.(ready := Closing), true);
    assert closed.ready == Closed && closed.log == s.log.(dropped := [], forced := true);
    StaysClosed(closed, after);
    assert Flat(s.log.batches) + [] == Flat(s.log.batches);
  }

  lemma RunCons(s: State, e: Event, rest: seq<Event>)
    ensures Run(s, [e] + rest) == Run(Next(s, e), rest)
  {
    assert ([e] + rest)[1..] == rest;
  }

  /** Open again after a close that still waits for the drain, with everything in the buffer on its way. */
  predicate IsInFlight(s: State) {
    && s.ready == ReadyState.Open && s.writeBuffer != [] && s.prevBufferLen == |s.writeBuffer| && !s.upgrading
    && s.transport == Transport(true, TOpen, false, true, 1) && !s.pausePoll && !s.pauseDrain
    && s.probe == Some(Probe(NEW_WEBSOCKET, Connecting)) && s.closeOnDrain && !s.closeOnUpgrade
  }

  /** A close before the handshake, with packets in the buffer, is undone by the handshake. */
  lemma HandshakeUndoes(s: State, rest: seq<Event>) returns (events: seq<Event>, last: State)
    requires Valid(s) && s.ready == Opening && IsEarly(s) && !s.log.reopened && s.writeBuffer != []
    requires s.transport.isPolling
    ensures IsInFlight(last) && Run(Next(s, Close), events + rest) == Run(last, rest)
    ensures last.log.accepted == s.log.accepted
  {
    var s1 := s.(ready := Closing, closeOnDrain := true);
    assert Next(s, Close) == s1;
    if s.transport.ready == TOpening {
      var s2 := s1.(transport := Transport(true, TOpen, true, true, 0));
      assert Next(s1, TransportOpened) == s2;
      last := Undone(s2);
      events := [TransportOpened] + [Handshake(true)];
      assert events + rest == [TransportOpened] + ([Handshake(true)] + rest);
      hide Run, Next, Valid, IsEarly;
      RunCons(s1, TransportOpened, [Handshake(true)] + rest);
      RunCons(s2, Handshake(true), rest);
    } else {
      last := Undone(s1);
      events := [Handshake(true)];
      hide Run;
      RunCons(s1, Handshake(true), rest);
      if last.prevBufferLen < |last.writeBuffer| {
        var flushed := Refilled(last);
        events := [Handshake(true)] + [WriteDone];
        assert events + rest == [Handshake(true)] + ([WriteDone] + rest);
        RunCons(s1, Handshake(true), [WriteDone] + rest);
        RunCons(last, WriteDone, rest);
        last := flushed;
      }
    }
  }

  /** In flight but for what is behind the batch under way. */
  predicate IsPartlyInFlight(s: State) {
    s.prevBufferLen <= |s.writeBuffer| && IsInFlight(s.(prevBufferLen := |s.writeBuffer|))
  }

  lemma Undone(s: State) returns (last: State)
    requires s.ready == Closing && s.closeOnDrain && !s.closeOnUpgrade && s.writeBuffer != []
    requires IsEarly(s) && s.transport.isPolling && s.transport.ready == TOpen
    requires s.transport.pending == (if s.transport.writable then 0 else 1)
    requires s.prevBufferLen <= |s.writeBuffer|
    ensures last == Next(s, Handshake(true)) && IsPartlyInFlight(last) && last.log.accepted == s.log.accepted
    ensures s.transport.writable ==> IsInFlight(last)
  {
    last := Next(s, Handshake(true));
  }

  lemma Refilled(s: State) returns (last: State)
    requires IsPartlyInFlight(s) && s.prevBufferLen < |s.writeBuffer|
    ensures last == Next(s, WriteDone) && IsInFlight(last) && last.log.accepted == s.log.accepted
  {
    last := Next(s, WriteDone);
  }

  /** From there an upgrade starts, the batch drains, one more packet is accepted, and the switch drops it. */
  lemma UpgradeDrops(s: State, q: Packet)
    requires IsInFlight(s)
    ensures var events := [ProbeOpened] + ([ProbeReply(true)] + ([WriteDone] + ([SendPacket(q)] + [PollDone])));
            var log := Run(s, events).log;
            log.forced && log.dropped == [q] && log.accepted == s.log.accepted + [q]
  {
    var ws := Transport(false, TOpen, false, false, 1);
    var s1 := s.(probe := Some(Probe(ws, AwaitingPong)));
    assert Next(s, ProbeOpened) == s1;
    var s2 := s1.(upgrading := true, probe := Some(Probe(ws, Pausing)), transport := s1.transport.(ready := TPausing),
                  pausePoll := true, pauseDrain := true);
    assert Next(s1, ProbeReply(true)) == s2;
    var s3 := s2.(transport := Transport(true, TPausing, true, true, 0), pauseDrain := false, writeBuffer := [],
                  prevBufferLen := 0, closeOnDrain := false, closeOnUpgrade := true);
    assert Next(s2, WriteDone) == s3;
    var s4 := s3.(writeBuffer := [q], log := s3.log.(accepted := s3.log.accepted + [q]));
    assert Next(s3, SendPacket(q)) == s4;
    LastPollDrops(s4, q);
    hide Run, Next, Valid, IsInFlight;
    RunCons(s, ProbeOpened, [ProbeReply(true)] + ([WriteDone] + ([SendPacket(q)] + [PollDone])));
    RunCons(s1, ProbeReply(true), [WriteDone] + ([SendPacket(q)] + [PollDone]));
    RunCons(s2, WriteDone, [SendPacket(q)] + [PollDone]);
    RunCons(s3, SendPacket(q), [PollDone]);
  }

  lemma LastPollDrops(s: State, q: Packet)
    requires s.ready == ReadyState.Open && s.writeBuffer == [q] && s.prevBufferLen == 0
    requires s.upgrading && s.closeOnUpgrade
    requires s.transport == Transport(true, TPausing, true, true, 0) && s.pausePoll && !s.pauseDrain
    requires s.probe == Some(Probe(Transport(false, TOpen, false, false, 1), Pausing))
    ensures var log := Run(s, [PollDone]).log; log.forced && log.dropped == [q] && log.accepted == s.log.accepted
  {
    assert Run(s, [PollDone]) == Next(s, PollDone);
    assert Rest(s) == [q];
  }

  /** A close before the handshake, with packets in the buffer: a run that accepts and then drops a packet. */
  lemma EarlyCloseDrops(s: State, q: Packet) returns (after: seq<Event>)
    requires Valid(s) && s.ready == Opening && IsEarly(s) && !s.log.reopened && s.writeBuffer != []
    requires s.transport.isPolling
    ensures var log := Run(Next(s, Close), after).log;
            log.forced && log.dropped == [q] && log.accepted == s.log.accepted + [q]
    ensures !ClosedFor(s, Run(Next(s, Close), after))
  {
    var upgrade := [ProbeOpened] + ([ProbeReply(true)] + ([WriteDone] + ([SendPacket(q)] + [PollDone])));
    var events, last := HandshakeUndoes(s, upgrade);
    after := events + upgrade;
    hide Run, Next, Valid, IsEarly;
    UpgradeDrops(last, q);
  }

  lemma MoreIsNotClosed(s: State, s': State, q: Packet)
    requires s'.log.accepted == s.log.accepted + [q]
    ensures !ClosedFor(s, s')
  {
    assert |s'.log.accepted| == |s.log.accepted| + 1;
  }

  lemma OpenAccepts(s: State, q: Packet)
    requires s.ready == ReadyState.Open
    ensures Next(s, SendPacket(q)).log.accepted == s.log.accepted + [q]
  {
    hide Flush;
    FlushFollows(s.(writeBuffer := s.writeBuffer + [q], log := s.log.(accepted := s.log.accepted + [q])));
  }

  lemma HandshakeOpens(s: State)
    requires s.ready == Closing && s.transport.ready != TOpening
    ensures Next(s, Handshake(false)).ready == ReadyState.Open
    ensures Next(s, Handshake(false)).log.accepted == s.log.accepted
  {
    HandshakeFollows(s, false);
    hide Step;
  }

  lemma OpenedOnHandshake(s: State, q: Packet)
    requires s.ready == Closing && s.transport.ready != TOpening
    ensures Run(s, [Handshake(false)] + [SendPacket(q)]).log.accepted == s.log.accepted + [q]
  {
    var s' := Next(s, Handshake(false));
    HandshakeOpens(s);
    OpenAccepts(s', q);
    assert Run(s', [SendPacket(q)]) == Next(s', SendPacket(q));
    RunCons(s, Handshake(false), [SendPacket(q)]);
    hide Run, Next;
  }

  /** On any transport, a close before the handshake, with packets in the buffer, is followed by one more packet. */
  lemma EarlyCloseAccepts(s: State, q: Packet) returns (after: seq<Event>)
    requires s.ready == Opening && IsEarly(s) && s.writeBuffer != []
    ensures Run(Next(s, Close), after).log.accepted == s.log.accepted + [q]
  {
    var s1 := s.(ready := Closing, closeOnDrain := true);
    assert Next(s, Close) == s1;
    after := [Handshake(false)] + [SendPacket(q)];
    if s.transport.ready == TOpening {
      var s2 := s1.(transport := s1.transport.(ready := TOpen, writable := true));
      assert Next(s1, TransportOpened) == s2;
      hide Run, Next;
      RunCons(s1, TransportOpened, after);
      OpenedOnHandshake(s2, q);
      after := [TransportOpened] + after;
    } else {
      OpenedOnHandshake(s1, q);
    }
    hide Run, Next;
  }

  /**
   * At any point of any run at which `close` can be called and no earlier one has been undone: whatever happens next,
   * an open socket's server sending no second handshake, nothing more is accepted and a forced close has handed over
   * everything, exactly when the socket is open or has nothing in its buffer.
   */
  lemma CloseIsFinal(polling: bool, before: seq<Event>)
    requires var s := Run(Start(polling), before); s.ready in {Opening, ReadyState.Open} && !s.log.reopened
    ensures var s := Run(Start(polling), before);
            (forall after :: (s.ready == ReadyState.Open ==> NoHandshake(after)) ==>
               ClosedFor(s, Run(Next(s, Close), after)))
            <==> s.ready == ReadyState.Open || s.writeBuffer == []
  {
    RunEarly(Start(polling), before);
    hide Run, Next, Valid, IsEarly, ClosedFor, NoHandshake;
    var s := Run(Start(polling), before);
    if s.ready == ReadyState.Open {
      forall after | NoHandshake(after) ensures ClosedFor(s, Run(Next(s, Close), after)) {
        CloseWhenOpen(s, after);
      }
    } else if s.writeBuffer == [] {
      forall after ensures ClosedFor(s, Run(Next(s, Close), after)) {
        CloseWhenEmpty(s, after);
      }
    } else {
      var q := EngineParser.Packet(EngineParser.Noop, EngineParser.NoData);
      var after := EarlyCloseAccepts(s, q);
      MoreIsNotClosed(s, Run(Next(s, Close), after), q);
    }
  }

  // ---------- the socket object ----------

  /** The socket with its fields, its current transport, and the listeners that `pause` and `close` leave behind. */
  class Socket {
    var readyState: ReadyState
    var writeBuffer: seq<Packet>
    var prevBufferLen: nat
    var upgrading: bool
    var transport: Transport
    var pausePoll: bool
    var pauseDrain: bool
    var probe: Option<Probe>
    var closeOnDrain: bool
    var closeOnUpgrade: bool
    ghost var log: Log

    ghost function View(): State
      reads this
    {
      State(readyState, writeBuffer, prevBufferLen, upgrading, transport, pausePoll, pauseDrain, probe,
            closeOnDrain, closeOnUpgrade, log)
    }

    constructor (polling: bool)
      ensures View() == Start(polling)
    {
      readyState, writeBuffer, prevBufferLen, upgrading := Opening, [], 0, false;
      transport := if polling then NEW_POLLING else NEW_WEBSOCKET;
      pausePoll, pauseDrain, probe := false, false, None;
      closeOnDrain, closeOnUpgrade := false, false;
      log := Log([], [], [], false, false, false);
    }

    method DoFlush()
      modifies this
      ensures View() == Flush(old(View()))
    {
      if readyState != Closed && transport.writable && !upgrading && |writeBuffer| > 0 {
        if transport.ready != TOpen {
          log := log.(fault := true);
          return;
        }
        transport := transport.(writable := false, pending := transport.pending + 1);
        log := log.(batches := log.batches + [writeBuffer]);
        prevBufferLen := |writeBuffer|;
      }
    }

    /** The probe's listener for the `close` event: a live probe fails, which releases a close that waits for it. */
    method OnSocketClosed()
      modifies `probe, `closeOnUpgrade
      ensures if old(probe).Some? && old(probe).value.phase != Dead
              then probe == Some(Probe(ClosedTransport(old(probe).value.transport), Dead)) && !closeOnUpgrade
              else probe == old(probe) && closeOnUpgrade == old(closeOnUpgrade)
    {
      if probe.Some? && probe.value.phase != Dead {
        probe, closeOnUpgrade := Some(Probe(ClosedTransport(probe.value.transport), Dead)), false;
      }
    }

    method DoOnClose(ghost forced: bool)
      modifies this
      ensures View() == OnClose(old(View()), forced)
    {
      hide ClosedTransport, Rest;
      if readyState != Closed {
        ghost var rest := Rest(View());
        transport, pausePoll, pauseDrain, readyState := ClosedTransport(transport), false, false, Closed;
        OnSocketClosed();
        writeBuffer, prevBufferLen, log := [], 0, log.(dropped := rest, forced := forced);
      }
    }

    method DoOnDrain()
      modifies this
      ensures View() == OnDrain(old(View()))
    {
      hide Flush, OnClose;
      writeBuffer := if prevBufferLen <= |writeBuffer| then writeBuffer[prevBufferLen..] else [];
      prevBufferLen := 0;
      if |writeBuffer| > 0 {
        DoFlush();
      } else if closeOnDrain {
        closeOnDrain := false;
        if upgrading {
          closeOnUpgrade := true;
        } else {
          DoOnClose(true);
        }
      }
    }

    method DoUpgradeEnded()
      modifies this
      ensures View() == UpgradeEnded(old(View()))
    {
      hide OnClose;
      if closeOnUpgrade {
        closeOnUpgrade := false;
        DoOnClose(true);
      }
    }

    method DoPauseEnded()
      requires probe.Some?
      modifies this
      ensures View() == PauseEnded(old(View()))
    {
      hide Flush, UpgradeEnded;
      transport := transport.(ready := TPaused);
      if probe.value.phase != Dead && readyState != Closed {
        ghost var paused := View();
        DoSwitch();
        DoUpgradeEnded();
        upgrading := false;
        assert View() == UpgradeEnded(Switched(paused)).(upgrading := false);
        DoFlush();
      }
    }

    method DoSwitch()
      requires probe.Some?
      modifies this
      ensures View() == Switched(old(View()))
    {
      var u := probe.value.transport;
      transport, pausePoll, pauseDrain := u, false, false;
      if u.ready == TOpen {
        transport := Written(u);
      } else {
        log := log.(fault := true);
      }
      probe := None;
    }

    method Send(packet: Packet)
      modifies this
      ensures View() == Step(old(View()), SendPacket(packet))
    {
      hide Flush;
      if readyState != Closing && readyState != Closed {
        log := log.(accepted := log.accepted + [packet]);
        writeBuffer := writeBuffer + [packet];
        DoFlush();
      }
    }

    method OnHandshake(canUpgrade: bool)
      requires transport.ready != TOpening
      modifies this
      ensures View() == Step(old(View()), Handshake(canUpgrade))
    {
      hide Flush;
      if readyState != Closed {
        log := log.(reopened := log.reopened || readyState == Closing);
        readyState := ReadyState.Open;
        DoFlush();
        if canUpgrade && readyState == ReadyState.Open && transport.isPolling && probe.None? {
          probe := Some(Probe(NEW_WEBSOCKET, Connecting));
        }
      }
    }

    method OnWriteDone()
      requires transport.pending > 0
      modifies this
      ensures View() == Step(old(View()), WriteDone)
    {
      hide OnDrain, PauseEnded;
      transport := transport.(pending := transport.pending - 1, writable := true);
      if readyState != Closed {
        var waiting := pauseDrain;
        DoOnDrain();
        pauseDrain := false;
        if waiting && !pausePoll && probe.Some? {
          DoPauseEnded();
        }
      }
    }

    method OnPollDone()
      requires transport.isPolling && transport.polling && transport.ready !in {TOpening, TClosed}
      modifies this
      ensures View() == Step(old(View()), PollDone)
    {
      hide PauseEnded;
      var pollAgain, waiting := transport.ready == TOpen, pausePoll;
      transport := transport.(polling := false);
      pausePoll := false;
      if waiting && !pauseDrain && probe.Some? {
        DoPauseEnded();
      }
      if pollAgain {
        transport := transport.(polling := true);
      }
    }

    method OnProbeReply(isPong: bool)
      requires probe.Some? && probe.value.phase == AwaitingPong
      modifies this
      ensures View() == Step(old(View()), ProbeReply(isPong))
    {
      hide PauseEnded, UpgradeEnded;
      if isPong {
        upgrading := true;
        probe := Some(probe.value.(phase := Pausing));
        transport := transport.(ready := TPausing);
        if transport.polling || !transport.writable {
          pausePoll, pauseDrain := transport.polling, !transport.writable;
        } else {
          DoPauseEnded();
        }
      } else {
        probe := Some(probe.value.(phase := Answered));
        DoUpgradeEnded();
      }
    }

    method OnProbeFailed()
      requires probe.Some? && probe.value.phase != Dead
      modifies this
      ensures View() == Step(old(View()), ProbeFailed)
    {
      hide UpgradeEnded;
      probe := Some(Probe(ClosedTransport(probe.value.transport), Dead));
      DoUpgradeEnded();
    }

    method DoClose()
      modifies this
      ensures View() == Step(old(View()), Close)
    {
      hide OnClose;
      if readyState == Opening || readyState == ReadyState.Open {
        readyState := Closing;
        if |writeBuffer| > 0 {
          closeOnDrain := true;
        } else if upgrading {
          closeOnUpgrade := true;
        } else {
          DoOnClose(true);
        }
      }
    }

    method OnConnectionLost()
      modifies this
      ensures View() == Step(old(View()), ConnectionLost)
    {
      hide OnClose;
      DoOnClose(false);
    }
  }
}
