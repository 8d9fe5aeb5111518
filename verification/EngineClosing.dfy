/** What `close` comes to on an open engine.io socket, and what is left of a closed one. */
module EngineClosing {
  import opened JsText
  import opened EngineSocket
  import opened EngineProgress

  /** Closed by the last step of `close`, with every packet accepted handed over. */
  predicate IsClosedClean(s: State) {
    s.ready == Closed && s.log.forced && IsHandedOver(s)
  }

  /** Closing, with a write under way or an upgrade that goes on. */
  predicate IsShutting(s: State) {
    && Valid(s) && IsAlive(s) && s.ready == Closing && !s.log.reopened && !IsStalled(s)
    && s.transport.ready != TOpening && (!s.upgrading ==> !s.transport.writable)
  }

  lemma ForcedIsClean(s: State)
    requires Valid(s) && s.ready == Closed && s.log.forced && !s.log.reopened
    ensures IsClosedClean(s)
  {
    ForcedIsConserved(s);
  }

  /** `close` on an open socket closes it at once or leaves something to wait for. */
  lemma CloseStarts(s: State)
    requires IsOpen(s) && !IsStalled(s)
    ensures IsShutting(Next(s, Close)) || IsClosedClean(Next(s, Close))
    ensures Next(s, Close).log.accepted == s.log.accepted
  {
    StepValid(s, Close);
    StepAlive(s, Close);
    CloseFollows(s);
    if !s.upgrading {
      FreeIsEmpty(s);
    }
    hide Conserved, OnClose, IsHandedOver;
    var s' := Next(s, Close);
    OnCloseForces(s.(ready := Closing));
    if s'.ready == Closed {
      ForcedIsClean(s');
    }
  }

  lemma OnCloseForces(s: State)
    requires s.ready != Closed
    ensures OnClose(s, true).ready == Closed && OnClose(s, true).log.forced
    ensures OnClose(s, true).log.reopened == s.log.reopened
  {
    hide ClosedTransport, Rest;
  }

  // ---------- no upgrade under way ----------

  lemma ShuttingParts(s: State)
    requires IsShutting(s)
    ensures Valid(s) && IsAlive(s) && s.ready == Closing && !s.log.reopened
    ensures !s.upgrading ==>
              && s.transport.ready == TOpen && s.transport.pending > 0 && s.writeBuffer != [] && s.closeOnDrain
              && !s.closeOnUpgrade && !s.pauseDrain
    ensures s.upgrading ==>
              && s.transport.ready == TPausing && s.probe.Some? && s.probe.value.phase == Pausing
              && (s.pausePoll || s.pauseDrain) && (s.pausePoll ==> s.transport.polling && s.transport.isPolling)
              && (s.pauseDrain ==> s.transport.pending > 0)
              && (s.closeOnUpgrade || (s.closeOnDrain && s.writeBuffer != []))
  {
    hide Conserved;
  }

  /** The write under way completes: the rest of the buffer goes out next, or nothing is left and the socket closes. */
  lemma ShutWrite(s: State)
    requires IsShutting(s) && !s.upgrading
    ensures Enabled(s, WriteDone)
    ensures var s' := Step(s, WriteDone);
            if Rest(s) == [] then IsClosedClean(s') else IsShutting(s') && !s'.upgrading && Rest(s') == []
  {
    ShuttingParts(s);
    Completed(s, WriteDone);
    hide Valid, IsAlive, OnClose, PauseEnded, IsHandedOver;
    var s' := Step(s, WriteDone);
    var t := s.transport.(pending := s.transport.pending - 1, writable := true);
    if Rest(s) == [] {
      var drained := s.(transport := t, writeBuffer := [], prevBufferLen := 0, closeOnDrain := false);
      OnCloseForces(drained);
      ForcedIsClean(s');
    }
  }

  // ---------- an upgrade that goes on ----------

  /** The end of the pause closes the socket if nothing is left, and otherwise goes back to the buffer. */
  lemma PauseShuts(s: State)
    requires s.probe.Some? && s.probe.value.phase != Dead && s.ready == Closing
    ensures var s' := PauseEnded(s);
            && s'.log.reopened == s.log.reopened && !s'.upgrading
            && if s.closeOnUpgrade then s'.ready == Closed && s'.log.forced
               else && s'.ready == Closing && s'.probe == None
                    && (s.probe.value.transport.ready == TOpen ==>
                          s'.transport.ready == TOpen && !s'.transport.writable)
  {
    hide OnClose;
    var switched := Switched(s.(transport := s.transport.(ready := TPaused)));
    OnCloseForces(switched.(closeOnUpgrade := false));
  }

  lemma PollShuts(s: State)
    requires IsShutting(s) && s.upgrading && !s.pauseDrain
    ensures Enabled(s, PollDone)
    ensures var s' := Step(s, PollDone); IsClosedClean(s') || (IsShutting(s') && !s'.upgrading)
  {
    ShuttingParts(s);
    ProbeIsOpen(s);
    Completed(s, PollDone);
    hide Valid, IsAlive, PauseEnded, IsHandedOver;
    var s' := Step(s, PollDone);
    PauseShuts(s.(transport := s.transport.(polling := false), pausePoll := false));
    if s'.ready == Closed {
      ForcedIsClean(s');
    }
  }

  lemma ProbeIsOpen(s: State)
    requires Valid(s) && s.probe.Some? && s.probe.value.phase == Pausing
    ensures s.probe.value.transport.ready == TOpen
  {
    hide Conserved;
  }

  lemma DrainShuts(s: State)
    requires IsShutting(s) && s.upgrading && s.pauseDrain
    ensures Enabled(s, WriteDone)
    ensures var s' := Step(s, WriteDone);
            if s.pausePoll then IsShutting(s') && s'.upgrading && !s'.pauseDrain
            else IsClosedClean(s') || (IsShutting(s') && !s'.upgrading)
  {
    ShuttingParts(s);
    ProbeIsOpen(s);
    Completed(s, WriteDone);
    hide Valid, IsAlive, PauseEnded, IsHandedOver, Rest, OnClose;
    var s' := Step(s, WriteDone);
    var d := OnDrain(s.(transport := s.transport.(pending := s.transport.pending - 1, writable := true)));
    assert d.ready == Closing && d.probe == s.probe && d.upgrading && d.transport.ready == TPausing;
    if !s.pausePoll {
      PauseShuts(d.(pauseDrain := false));
      if s'.ready == Closed {
        ForcedIsClean(s');
      }
    }
  }

  lemma Shuts(s: State) returns (after: seq<Event>)
    requires IsShutting(s) && !s.upgrading
    ensures AreCompletions(after) && IsClosedClean(Run(s, after))
  {
    hide IsShutting, IsClosedClean, Step, Rest;
    ShutWrite(s);
    var s' := Next(s, WriteDone);
    if Rest(s) == [] {
      after := [WriteDone];
      RunOne(s, WriteDone);
    } else {
      ShutWrite(s');
      after := [WriteDone] + [WriteDone];
      RunCons(s, WriteDone, [WriteDone]);
      RunOne(s', WriteDone);
    }
  }

  lemma PauseThenShuts(s: State, e: Event) returns (after: seq<Event>)
    requires e == WriteDone || e == PollDone
    requires var s' := Next(s, e); IsClosedClean(s') || (IsShutting(s') && !s'.upgrading)
    ensures AreCompletions(after) && IsClosedClean(Run(s, after))
  {
    hide IsShutting, IsClosedClean, Next;
    var s' := Next(s, e);
    RunOne(s, e);
    if IsClosedClean(s') {
      after := [e];
    } else {
      var rest := Shuts(s');
      after := [e] + rest;
      hide Run;
      RunCons(s, e, rest);
    }
  }

  lemma UpgradeShuts(s: State) returns (after: seq<Event>)
    requires IsShutting(s) && s.upgrading
    ensures AreCompletions(after) && IsClosedClean(Run(s, after))
  {
    ShuttingParts(s);
    hide IsShutting, IsClosedClean, Step, Run;
    if !s.pauseDrain {
      PollShuts(s);
      after := PauseThenShuts(s, PollDone);
    } else {
      DrainShuts(s);
      if s.pausePoll {
        var s' := Next(s, WriteDone);
        PollShuts(s');
        var rest := PauseThenShuts(s', PollDone);
        after := [WriteDone] + rest;
        RunCons(s, WriteDone, rest);
      } else {
        after := PauseThenShuts(s, WriteDone);
      }
    }
  }

  /** A probe that fails releases a `close` that waits for its upgrade, and the socket closes with nothing left. */
  lemma FailureReleases(s: State)
    requires Valid(s) && s.ready == Closing && s.closeOnUpgrade && !s.log.reopened && Enabled(s, ProbeFailed)
    ensures IsClosedClean(Step(s, ProbeFailed))
  {
    StepValid(s, ProbeFailed);
    StepFollows(s, ProbeFailed);
    OnCloseForces(s.(probe := Some(Probe(ClosedTransport(s.probe.value.transport), Dead)), closeOnUpgrade := false));
    hide Valid, OnClose, IsClosedClean;
    ForcedIsClean(Step(s, ProbeFailed));
  }

  /** So does a probe whose answer is not the pong. */
  lemma WrongAnswerReleases(s: State)
    requires s.ready != Closed && s.closeOnUpgrade && Enabled(s, ProbeReply(false))
    ensures Step(s, ProbeReply(false)).ready == Closed && Step(s, ProbeReply(false)).log.forced
    ensures Step(s, ProbeReply(false)).probe.value.phase == Dead
  {
    hide ClosedTransport, Rest;
  }

  // ---------- the theorem ----------

  lemma CloseCompletes(s: State) returns (after: seq<Event>)
    requires IsOpen(s) && !IsStalled(s)
    ensures AreCompletions(after) && IsClosedClean(Run(Next(s, Close), after))
  {
    hide IsShutting, IsClosedClean, Run, IsOpen, Next;
    CloseStarts(s);
    var s' := Next(s, Close);
    if IsClosedClean(s') {
      after := [];
      RunNone(s');
    } else if s'.upgrading {
      after := UpgradeShuts(s');
    } else {
      after := Shuts(s');
    }
  }

  lemma RunNone(s: State)
    ensures Run(s, []) == s
  {
  }

  lemma StalledNeverCloses(s: State, after: seq<Event>)
    requires IsOpen(s) && IsStalled(s)
    ensures !IsClosedClean(Run(Next(s, Close), after))
  {
    StepStalled(s, Close);
    RunStalled(Next(s, Close), after);
    hide Run, Step, Conserved, Controlled;
  }

  /**
   * At any point of any run at which the socket is open and no `close` has been undone: `close` comes to its end, with
   * every packet accepted handed over, once the transports have done their work, exactly when no probe has failed
   * during its pause; in that case nothing that can happen makes it do so.
   */
  lemma CloseEnds(polling: bool, before: seq<Event>)
    requires var s := Run(Start(polling), before); s.ready == ReadyState.Open && !s.log.reopened
    ensures var s := Run(Start(polling), before);
            && ((exists after :: AreCompletions(after) && IsClosedClean(Run(Next(s, Close), after))) <==> !IsStalled(s))
            && ((exists after :: IsClosedClean(Run(Next(s, Close), after))) <==> !IsStalled(s))
  {
    StartIsAlive(polling);
    RunAlive(Start(polling), before);
    var s := Run(Start(polling), before);
    assert IsOpen(s);
    hide Run, IsOpen, IsStalled, IsClosedClean, Next;
    if !IsStalled(s) {
      var after := CloseCompletes(s);
    } else {
      forall after ensures !IsClosedClean(Run(Next(s, Close), after)) {
        StalledNeverCloses(s, after);
      }
    }
  }

  // ---------- what is left of a closed socket ----------

  /** A closed socket's transport is closed, or was being paused, and so is that of a failed probe; none is open. */
  predicate IsShut(s: State) {
    && (s.ready == Closed ==> s.transport.ready in {TClosed, TPausing, TPaused})
    && (s.probe.Some? ==>
          && (s.ready == Closed ==> s.probe.value.phase == Dead)
          && (s.probe.value.phase == Dead ==> s.probe.value.transport.ready == TClosed)
          && (s.probe.value.phase != Dead ==> s.probe.value.transport.ready in {TOpening, TOpen}))
  }

  lemma OnCloseShut(s: State, forced: bool)
    requires IsShut(s)
    ensures IsShut(OnClose(s, forced))
  {
    hide Rest;
  }

  lemma UpgradeEndedShut(s: State)
    requires IsShut(s)
    ensures IsShut(UpgradeEnded(s))
  {
    hide OnClose;
    OnCloseShut(s.(closeOnUpgrade := false), true);
  }

  lemma FlushShut(s: State)
    requires IsShut(s)
    ensures IsShut(Flush(s))
  {
  }

  lemma OnDrainShut(s: State)
    requires IsShut(s)
    ensures IsShut(OnDrain(s))
  {
    hide Flush, OnClose, Rest;
    var s' := s.(writeBuffer := Rest(s), prevBufferLen := 0);
    FlushShut(s');
    OnCloseShut(s'.(closeOnDrain := false), true);
  }

  lemma PauseEndedShut(s: State)
    requires IsShut(s) && s.probe.Some?
    ensures IsShut(PauseEnded(s))
  {
    hide Flush, UpgradeEnded;
    var switched := Switched(s.(transport := s.transport.(ready := TPaused)));
    if s.probe.value.phase != Dead && s.ready != Closed {
      UpgradeEndedShut(switched);
      FlushShut(UpgradeEnded(switched).(upgrading := false));
    }
  }

  lemma CompletionShut(s: State, e: Event)
    requires IsShut(s) && Enabled(s, e) && (e == WriteDone || e == PollDone)
    ensures IsShut(Step(s, e))
  {
    hide OnDrain, PauseEnded;
    if e == PollDone {
      var s' := s.(transport := s.transport.(polling := false), pausePoll := false);
      if s'.probe.Some? {
        PauseEndedShut(s');
      }
    } else {
      var s' := s.(transport := s.transport.(pending := s.transport.pending - 1, writable := true));
      OnDrainShut(s');
      if OnDrain(s').probe.Some? {
        PauseEndedShut(OnDrain(s').(pauseDrain := false));
      }
    }
  }

  lemma ReplyShut(s: State, isPong: bool)
    requires IsShut(s) && Enabled(s, ProbeReply(isPong))
    ensures IsShut(Step(s, ProbeReply(isPong)))
  {
    hide PauseEnded, UpgradeEnded;
    if isPong {
      PauseEndedShut(s.(upgrading := true, probe := Some(s.probe.value.(phase := Pausing)),
                        transport := s.transport.(ready := TPausing)));
    } else {
      UpgradeEndedShut(s.(probe := Some(s.probe.value.(phase := Answered))));
    }
  }

  lemma CallShut(s: State, e: Event)
    requires IsShut(s) && Enabled(s, e) && (e.SendPacket? || e.Handshake? || e.Close? || e.ConnectionLost?)
    ensures IsShut(Step(s, e))
  {
    hide Flush, OnClose;
    match e {
      case SendPacket(packet) =>
        FlushShut(s.(writeBuffer := s.writeBuffer + [packet], log := s.log.(accepted := s.log.accepted + [packet])));
      case Handshake(_) =>
        var s' := s.(ready := ReadyState.Open, log := s.log.(reopened := s.log.reopened || s.ready == Closing));
        FlushShut(s');
        FlushKeeps(s');
      case Close => OnCloseShut(s.(ready := Closing), true);
      case _ => OnCloseShut(s, false);
    }
  }

  lemma ProbeEventShut(s: State, e: Event)
    requires Valid(s) && IsShut(s) && Enabled(s, e)
    requires e.TransportOpened? || e.ProbeOpened? || e.ProbeWriteDone? || e.ProbeFailed?
    ensures IsShut(Step(s, e))
  {
    hide UpgradeEnded, Conserved, ClosesClean, Waits;
    if e.ProbeFailed? {
      UpgradeEndedShut(s.(probe := Some(Probe(ClosedTransport(s.probe.value.transport), Dead))));
    }
  }

  lemma StepShut(s: State, e: Event)
    requires Valid(s) && IsShut(s) && Enabled(s, e)
    ensures IsShut(Step(s, e))
  {
    match e {
      case WriteDone => CompletionShut(s, e);
      case PollDone => CompletionShut(s, e);
      case ProbeReply(isPong) => ReplyShut(s, isPong);
      case SendPacket(_) => CallShut(s, e);
      case Handshake(_) => CallShut(s, e);
      case Close => CallShut(s, e);
      case ConnectionLost => CallShut(s, e);
      case _ => ProbeEventShut(s, e);
    }
    hide IsShut, Flush, AfterWrite, AfterPoll, Pause, OnClose, UpgradeEnded, Valid;
  }

  lemma {:induction false} RunShut(s: State, events: seq<Event>)
    requires Valid(s) && IsShut(s)
    ensures IsShut(Run(s, events))
    decreases |events|
  {
    hide Valid, IsShut, Step;
    if events != [] {
      if Enabled(s, events[0]) {
        StepValid(s, events[0]);
        StepShut(s, events[0]);
      }
      RunShut(Next(s, events[0]), events[1..]);
    }
  }

  /** In every run a closed socket has left no transport open, neither its own nor a probe's. */
  lemma ClosedLeavesNothingOpen(polling: bool, events: seq<Event>)
    ensures var s := Run(Start(polling), events);
            s.ready == Closed ==>
              && s.transport.ready in {TClosed, TPausing, TPaused}
              && (s.probe.Some? ==> s.probe.value.phase == Dead && s.probe.value.transport.ready == TClosed)
  {
    StartIsAlive(polling);
    RunShut(Start(polling), events);
  }

  /** Closing an open polling transport writes a close packet; an open websocket or one still opening just closes. */
  lemma ClosingTransport(s: State)
    requires s.ready != Closed
    ensures var t, t' := s.transport, Next(s, ConnectionLost).transport;
            && t'.isPolling == t.isPolling && t'.polling == t.polling
            && (t.ready == TOpen && t.isPolling ==>
                  t'.ready == TClosed && t'.pending == t.pending + 1 && !t'.writable)
            && (t.ready == TOpening || (t.ready == TOpen && !t.isPolling) ==>
                  t'.ready == TClosed && t'.pending == t.pending && t'.writable == t.writable)
            && (t.ready in {TPausing, TPaused, TClosed} ==> t' == t)
  {
    hide Rest;
  }

  /** Closing makes a live probe fail, which releases a `close` that waits for the upgrade; a failed one stays. */
  lemma ClosingProbe(s: State)
    requires s.ready != Closed
    ensures var s' := Next(s, ConnectionLost);
            if s.probe.Some? && s.probe.value.phase != Dead
            then s'.probe.Some? && s'.probe.value.phase == Dead && !s'.closeOnUpgrade
            else s'.probe == s.probe && s'.closeOnUpgrade == s.closeOnUpgrade
  {
    hide Rest;
  }

  // ---------- single events ----------

  /** A new socket is opening on the transport asked for, which polls from the beginning if it is polling. */
  lemma StartSpelled(polling: bool)
    ensures var s, t := Start(polling), Start(polling).transport;
            && s.ready == Opening && s.writeBuffer == [] && s.prevBufferLen == 0 && !s.upgrading && s.probe == None
            && !s.closeOnDrain && !s.closeOnUpgrade && !s.pausePoll && !s.pauseDrain
            && t.isPolling == t.polling == polling && t.ready == TOpening && !t.writable && t.pending == 0
            && s.log == Log([], [], [], false, false, false)
  {
  }

  /** A first handshake opens the socket, and starts a probe exactly when it may upgrade from polling. */
  lemma HandshakeSpelled(s: State, canUpgrade: bool)
    requires Enabled(s, Handshake(canUpgrade)) && s.ready != Closed && s.probe == None
    ensures var s' := Step(s, Handshake(canUpgrade));
            && s'.ready == ReadyState.Open
            && s'.probe == if canUpgrade && s.transport.isPolling
                           then Some(Probe(Transport(false, TOpening, false, false, 0), Connecting)) else None
  {
    hide Flush;
    FlushKeeps(s.(ready := ReadyState.Open, log := s.log.(reopened := s.log.reopened || s.ready == Closing)));
  }

  /** After a poll another one starts exactly when the transport is open. */
  lemma PollSpelled(s: State)
    requires Enabled(s, PollDone) && (s.probe.Some? ==> !s.probe.value.transport.polling)
    ensures Step(s, PollDone).transport.polling <==> s.transport.ready == TOpen
  {
    hide Rest;
    if s.probe.Some? {
      PauseEndedPolls(s.(transport := s.transport.(polling := false), pausePoll := false));
    }
    hide PauseEnded;
  }

  lemma PauseEndedPolls(s: State)
    requires s.probe.Some? && !s.transport.polling && !s.probe.value.transport.polling
    ensures !PauseEnded(s).transport.polling
  {
    hide Rest;
  }

  /** The transport opens free to write; the probe's opens with its ping under way, and is free once that is out. */
  lemma OpeningSpelled(s: State, e: Event)
    requires Enabled(s, e)
    ensures e == TransportOpened ==>
              Step(s, e).transport.ready == TOpen && Step(s, e).transport.writable
              && Step(s, e).transport.pending == s.transport.pending
    ensures e == ProbeOpened ==>
              var p, u := s.probe.value, Step(s, e).probe.value;
              u.phase == AwaitingPong && u.transport.ready == TOpen && !u.transport.writable
              && u.transport.pending == p.transport.pending + 1
    ensures e == ProbeWriteDone ==>
              var p, u := s.probe.value, Step(s, e).probe.value;
              u.phase == p.phase && u.transport.ready == p.transport.ready && u.transport.writable
              && u.transport.pending == p.transport.pending - 1
  {
  }

  /** With the buffer drained, a `close` that waited for that goes on to wait for an upgrade that is under way. */
  lemma DrainMovesOn(s: State)
    requires s.ready == Closing && s.closeOnDrain && s.upgrading && Rest(s) == []
    ensures var s' := OnDrain(s); s'.ready == Closing && !s'.closeOnDrain && s'.closeOnUpgrade && s'.writeBuffer == []
  {
  }

  /** Sending on a transport that is not open throws; the switch leaves no pause behind. */
  lemma FaultsSpelled(s: State)
    ensures s.ready != Closed && s.transport.writable && !s.upgrading && s.writeBuffer != [] ==>
              s.transport.ready == TOpen || (Flush(s).log.fault && Flush(s).log.batches == s.log.batches)
    ensures s.probe.Some? ==>
              var u, s' := s.probe.value.transport, Switched(s);
              && (s'.log.fault <==> s.log.fault || u.ready != TOpen) && !s'.pausePoll && !s'.pauseDrain
              && s'.probe == None
              && s'.transport == if u.ready != TOpen then u else u.(writable := false, pending := u.pending + 1)
  {
  }

  // ---------- what is handed over, and to what ----------

  /** A batch that a step hands over: all that waits, in one write, to a transport that is open and was free. */
  predicate HandsWell(s: State, s': State) {
    s'.log.batches == s.log.batches
    || (&& s'.log.batches == s.log.batches + [s'.writeBuffer] && s'.writeBuffer != []
        && s'.prevBufferLen == |s'.writeBuffer|
        && s'.transport.ready == TOpen && !s'.transport.writable && s'.transport.pending > 0)
  }

  lemma FlushHands(s: State)
    ensures HandsWell(s, Flush(s))
  {
  }

  lemma OnCloseHands(s: State, forced: bool)
    ensures OnClose(s, forced).log.batches == s.log.batches && UpgradeEnded(s).log.batches == s.log.batches
  {
    hide Rest, ClosedTransport;
  }

  lemma OnDrainHands(s: State)
    ensures HandsWell(s, OnDrain(s)) && (s.upgrading ==> OnDrain(s).log.batches == s.log.batches)
  {
    hide Rest, OnClose;
    var s' := s.(writeBuffer := Rest(s), prevBufferLen := 0);
    FlushHands(s');
    OnCloseHands(s'.(closeOnDrain := false), true);
    hide HandsWell;
  }

  lemma PauseEndedHands(s: State)
    requires s.probe.Some?
    ensures HandsWell(s, PauseEnded(s))
  {
    hide Flush, UpgradeEnded;
    var switched := Switched(s.(transport := s.transport.(ready := TPaused)));
    OnCloseHands(switched, true);
    FlushHands(UpgradeEnded(switched).(upgrading := false));
  }

  lemma AfterWriteHands(s: State)
    requires Valid(s) && s.transport.pending > 0
    ensures HandsWell(s, AfterWrite(s))
  {
    hide PauseEnded, OnDrain, Conserved, ClosesClean, Waits;
    var s' := s.(transport := s.transport.(pending := s.transport.pending - 1, writable := true));
    var d := OnDrain(s');
    OnDrainHands(s');
    if d.probe.Some? {
      PauseEndedHands(d.(pauseDrain := false));
    }
  }

  lemma AfterPollHands(s: State)
    requires Enabled(s, PollDone)
    ensures HandsWell(s, AfterPoll(s))
  {
    hide PauseEnded;
    var s' := s.(transport := s.transport.(polling := false), pausePoll := false);
    if s'.probe.Some? {
      PauseEndedHands(s');
    }
  }

  lemma ReplyHands(s: State, isPong: bool)
    requires Enabled(s, ProbeReply(isPong))
    ensures HandsWell(s, Step(s, ProbeReply(isPong)))
  {
    hide PauseEnded, UpgradeEnded;
    if isPong {
      PauseEndedHands(s.(upgrading := true, probe := Some(s.probe.value.(phase := Pausing)),
                         transport := s.transport.(ready := TPausing)));
    } else {
      OnCloseHands(s.(probe := Some(s.probe.value.(phase := Answered))), true);
    }
  }

  lemma SendHands(s: State, packet: Packet)
    ensures HandsWell(s, Step(s, SendPacket(packet)))
  {
    hide Flush;
    FlushHands(s.(writeBuffer := s.writeBuffer + [packet], log := s.log.(accepted := s.log.accepted + [packet])));
  }

  lemma SameBatches(s: State, s0: State, f: State, probe: Option<Probe>)
    requires s0.log.batches == s.log.batches && HandsWell(s0, f)
    ensures HandsWell(s, f) && HandsWell(s, f.(probe := probe))
  {
  }

  lemma HandshakeHands(s: State, canUpgrade: bool)
    requires Enabled(s, Handshake(canUpgrade))
    ensures HandsWell(s, Step(s, Handshake(canUpgrade)))
  {
    var s' := s.(ready := ReadyState.Open, log := s.log.(reopened := s.log.reopened || s.ready == Closing));
    assert HandsWell(s, s);
    hide Flush, HandsWell;
    FlushHands(s');
    SameBatches(s, s', Flush(s'), Some(Probe(NEW_WEBSOCKET, Connecting)));
  }

  lemma ClosingHands(s: State, e: Event)
    requires Enabled(s, e) && (e.Close? || e.ConnectionLost? || e.ProbeFailed?)
    ensures HandsWell(s, Step(s, e))
  {
    hide OnClose, UpgradeEnded, ClosedTransport;
    if e.ProbeFailed? {
      OnCloseHands(s.(probe := Some(Probe(ClosedTransport(s.probe.value.transport), Dead))), true);
    } else if e.ConnectionLost? {
      OnCloseHands(s, false);
    } else {
      OnCloseHands(s.(ready := Closing), true);
    }
  }

  lemma ProbeEventHands(s: State, e: Event)
    requires Enabled(s, e) && (e.TransportOpened? || e.ProbeOpened? || e.ProbeWriteDone?)
    ensures HandsWell(s, Step(s, e))
  {
  }

  /** Every step hands over nothing, or the whole buffer in one write to a transport that is open. */
  lemma StepHands(s: State, e: Event)
    requires Valid(s) && Enabled(s, e)
    ensures HandsWell(s, Step(s, e))
  {
    match e {
      case SendPacket(packet) => SendHands(s, packet);
      case Handshake(canUpgrade) => HandshakeHands(s, canUpgrade);
      case WriteDone => AfterWriteHands(s);
      case PollDone => AfterPollHands(s);
      case ProbeReply(isPong) => ReplyHands(s, isPong);
      case Close => ClosingHands(s, e);
      case ConnectionLost => ClosingHands(s, e);
      case ProbeFailed => ClosingHands(s, e);
      case _ => ProbeEventHands(s, e);
    }
    hide HandsWell, Valid, Flush, AfterWrite, AfterPoll, Pause, OnClose, UpgradeEnded;
  }
}
