/** Progress of the engine.io socket: when packets that wait can still be handed over, and when they never will. */
module EngineProgress {
  import opened JsText
  import opened EngineSocket

  /** The probe failed while the old transport was being paused. */
  predicate IsStalled(s: State) {
    s.upgrading && s.probe.Some? && s.probe.value.phase == Dead
  }

  /** A busy transport has a write under way, and what a pause waits for is under way as well. */
  predicate IsAlive(s: State) {
    var t := s.transport;
    s.ready != Closed ==>
      && (t.ready == TOpen && !t.writable ==> t.pending > 0)
      && (s.probe.Some? ==> t.ready != TOpening)
      && (s.pauseDrain ==> t.pending > 0)
      && (s.pausePoll ==> t.polling && t.isPolling)
      && (s.probe.Some? && s.probe.value.phase == Pausing ==> s.pausePoll || s.pauseDrain)
  }

  /** The events by which transports do their work. */
  predicate AreCompletions(events: seq<Event>) {
    forall i :: 0 <= i < |events| ==> events[i] == WriteDone || events[i] == PollDone
  }

  predicate IsHandedOver(s: State) {
    Flat(s.log.batches) == s.log.accepted
  }

  // ---------- every step keeps what progress needs ----------

  lemma FlushAlive(s: State)
    requires IsAlive(s)
    ensures IsAlive(Flush(s))
  {
  }

  lemma UpgradeEndedAlive(s: State)
    requires IsAlive(s)
    ensures IsAlive(UpgradeEnded(s))
  {
    hide OnClose;
    OnCloseReady(s.(closeOnUpgrade := false), true);
  }

  lemma PauseEndedAlive(s: State)
    requires s.probe.Some? && !s.pausePoll && !s.pauseDrain && s.ready != Closed
    ensures IsAlive(PauseEnded(s))
  {
    hide Flush, OnClose;
    if s.probe.value.phase != Dead {
      var switched := Switched(s.(transport := s.transport.(ready := TPaused)));
      assert IsAlive(switched);
      UpgradeEndedAlive(switched);
      FlushAlive(UpgradeEnded(switched).(upgrading := false));
    }
  }

  lemma AfterWriteAlive(s: State)
    requires Valid(s) && IsAlive(s) && s.transport.pending > 0
    ensures IsAlive(AfterWrite(s))
  {
    hide PauseEnded, OnDrain, Conserved, ClosesClean, Waits;
    var s' := s.(transport := s.transport.(pending := s.transport.pending - 1, writable := true));
    if s.ready != Closed {
      var d := OnDrain(s');
      OnDrainKeeps(s');
      if s.pauseDrain && !d.pausePoll && d.probe.Some? && d.ready != Closed {
        PauseEndedAlive(d.(pauseDrain := false));
      }
    }
  }

  lemma AfterPollAlive(s: State)
    requires Valid(s) && IsAlive(s) && Enabled(s, PollDone)
    ensures IsAlive(AfterPoll(s))
  {
    hide PauseEnded, Conserved, ClosesClean, Waits;
    var s' := s.(transport := s.transport.(polling := false), pausePoll := false);
    if s.pausePoll && !s.pauseDrain && s.probe.Some? {
      PauseEndedAlive(s');
    }
  }

  lemma PauseAlive(s: State)
    requires s.probe.Some? && !s.pausePoll && !s.pauseDrain && s.ready != Closed && s.transport.isPolling
    requires s.transport.ready == TOpen && (!s.transport.writable ==> s.transport.pending > 0)
    ensures IsAlive(Pause(s))
  {
    hide PauseEnded;
    PauseEndedAlive(s.(transport := s.transport.(ready := TPausing)));
  }

  lemma HandshakeAlive(s: State, canUpgrade: bool)
    requires IsAlive(s) && Enabled(s, Handshake(canUpgrade))
    ensures IsAlive(Step(s, Handshake(canUpgrade)))
  {
    hide Flush;
    var s' := s.(ready := ReadyState.Open, log := s.log.(reopened := s.log.reopened || s.ready == Closing));
    if s.ready != Closed {
      FlushAlive(s');
      FlushKeeps(s');
    }
  }

  lemma ReplyAlive(s: State, isPong: bool)
    requires Valid(s) && IsAlive(s) && Enabled(s, ProbeReply(isPong))
    ensures IsAlive(Step(s, ProbeReply(isPong)))
  {
    hide Pause, UpgradeEnded, Conserved, ClosesClean, Waits;
    if isPong {
      PauseAlive(s.(upgrading := true, probe := Some(s.probe.value.(phase := Pausing))));
    } else {
      UpgradeEndedAlive(s.(probe := Some(s.probe.value.(phase := Answered))));
    }
  }

  lemma ClosingAlive(s: State, e: Event)
    requires IsAlive(s) && Enabled(s, e) && (e.Close? || e.ConnectionLost? || e.ProbeFailed?)
    ensures IsAlive(Step(s, e))
  {
    hide OnClose, UpgradeEnded, ClosedTransport;
    if e.ProbeFailed? {
      UpgradeEndedAlive(s.(probe := Some(Probe(ClosedTransport(s.probe.value.transport), Dead))));
    } else if e.ConnectionLost? {
      OnCloseReady(s, false);
    } else {
      OnCloseReady(s.(ready := Closing), true);
    }
  }

  lemma TransportEventAlive(s: State, e: Event)
    requires IsAlive(s) && Enabled(s, e) && (e.TransportOpened? || e.ProbeOpened? || e.ProbeWriteDone?)
    ensures IsAlive(Step(s, e))
  {
  }

  lemma SendAlive(s: State, packet: Packet)
    requires IsAlive(s)
    ensures IsAlive(Step(s, SendPacket(packet)))
  {
    hide Flush;
    FlushAlive(s.(writeBuffer := s.writeBuffer + [packet], log := s.log.(accepted := s.log.accepted + [packet])));
  }

  lemma StepAlive(s: State, e: Event)
    requires Valid(s) && IsAlive(s) && Enabled(s, e)
    ensures IsAlive(Step(s, e))
  {
    match e {
      case SendPacket(packet) => SendAlive(s, packet);
      case Handshake(canUpgrade) => HandshakeAlive(s, canUpgrade);
      case WriteDone => AfterWriteAlive(s);
      case PollDone => AfterPollAlive(s);
      case ProbeReply(isPong) => ReplyAlive(s, isPong);
      case Close => ClosingAlive(s, e);
      case ConnectionLost => ClosingAlive(s, e);
      case ProbeFailed => ClosingAlive(s, e);
      case _ => TransportEventAlive(s, e);
    }
    hide IsAlive, Valid, Flush, AfterWrite, AfterPoll, Pause, OnClose, UpgradeEnded;
  }

  lemma {:induction false} RunAlive(s: State, events: seq<Event>)
    requires Valid(s) && IsAlive(s)
    ensures Valid(Run(s, events)) && IsAlive(Run(s, events))
    decreases |events|
  {
    hide Valid, IsAlive, Step;
    if events != [] {
      if Enabled(s, events[0]) {
        StepValid(s, events[0]);
        StepAlive(s, events[0]);
      }
      RunAlive(Next(s, events[0]), events[1..]);
    }
  }

  // ---------- an upgrade that goes on ends, and the buffer is handed over ----------

  /** Open, with no `close` undone by a handshake. */
  predicate IsOpen(s: State) {
    Valid(s) && IsAlive(s) && s.ready == ReadyState.Open && !s.log.reopened
  }

  predicate IsPausing(s: State) {
    IsOpen(s) && s.upgrading && s.probe.Some? && s.probe.value.phase == Pausing
  }

  /** A completion leaves the log alone but for the batches. */
  lemma Completed(s: State, e: Event)
    requires Valid(s) && IsAlive(s) && Enabled(s, e) && (e == WriteDone || e == PollDone)
    ensures Valid(Step(s, e)) && IsAlive(Step(s, e)) && Step(s, e).log.reopened == s.log.reopened
    ensures Step(s, e).log.accepted == s.log.accepted
  {
    hide Valid, IsAlive, Step;
    StepValid(s, e);
    StepAlive(s, e);
    StepFollows(s, e);
  }

  lemma PauseSwitches(s: State)
    requires s.probe.Some? && s.probe.value.phase != Dead && s.ready == ReadyState.Open && !s.closeOnUpgrade
    ensures PauseEnded(s).ready == ReadyState.Open && !PauseEnded(s).upgrading
  {
    hide Flush;
    var ended := UpgradeEnded(Switched(s.(transport := s.transport.(ready := TPaused)))).(upgrading := false);
    FlushKeeps(ended);
  }

  /** The end of the poll that a pause waits for is the end of the pause, and the switch. */
  lemma PollEndsPause(s: State)
    requires IsPausing(s) && !s.pauseDrain
    ensures Enabled(s, PollDone) && IsOpen(Step(s, PollDone)) && !Step(s, PollDone).upgrading
    ensures Step(s, PollDone).log.accepted == s.log.accepted
  {
    PausingParts(s);
    hide IsPausing, IsAlive, Valid, PauseEnded;
    Completed(s, PollDone);
    PauseSwitches(s.(transport := s.transport.(polling := false), pausePoll := false));
  }

  lemma PausingParts(s: State)
    requires IsPausing(s)
    ensures s.transport.ready == TPausing && !s.closeOnUpgrade && !s.closeOnDrain && (s.pausePoll || s.pauseDrain)
    ensures s.pausePoll ==> s.transport.polling && s.transport.isPolling
    ensures s.pauseDrain ==> s.transport.pending > 0
    ensures IsOpen(s) && s.upgrading && s.probe.Some? && s.probe.value.phase == Pausing
    ensures Valid(s) && IsAlive(s) && s.ready == ReadyState.Open && !s.log.reopened
  {
    hide Conserved;
  }

  /** The end of the write that a pause waits for ends the pause, unless it waits for a poll as well. */
  lemma DrainEndsPause(s: State)
    requires IsPausing(s) && s.pauseDrain
    ensures Enabled(s, WriteDone) && Step(s, WriteDone).log.accepted == s.log.accepted
    ensures var s' := Step(s, WriteDone);
            if s.pausePoll then IsPausing(s') && !s'.pauseDrain else IsOpen(s') && !s'.upgrading
  {
    PausingParts(s);
    hide IsPausing, IsAlive, Valid, PauseEnded, Rest;
    Completed(s, WriteDone);
    var d := OnDrain(s.(transport := s.transport.(pending := s.transport.pending - 1, writable := true)));
    assert d.ready == ReadyState.Open && d.probe == s.probe && d.upgrading && !d.closeOnUpgrade;
    if !s.pausePoll {
      PauseSwitches(d.(pauseDrain := false));
    }
  }

  lemma PauseEnds(s: State) returns (after: seq<Event>, last: State)
    requires IsPausing(s)
    ensures AreCompletions(after) && Run(s, after) == last && IsOpen(last) && !last.upgrading
    ensures last.log.accepted == s.log.accepted
  {
    PausingParts(s);
    hide IsPausing, IsOpen, Step;
    if !s.pauseDrain {
      PollEndsPause(s);
      after, last := [PollDone], Next(s, PollDone);
      RunOne(s, PollDone);
    } else {
      DrainEndsPause(s);
      var s' := Next(s, WriteDone);
      if s.pausePoll {
        PollEndsPause(s');
        after, last := [WriteDone] + [PollDone], Next(s', PollDone);
        RunCons(s, WriteDone, [PollDone]);
        RunOne(s', PollDone);
      } else {
        after, last := [WriteDone], s';
        RunOne(s, WriteDone);
      }
    }
  }

  lemma RunOne(s: State, e: Event)
    ensures Run(s, [e]) == Next(s, e)
  {
  }

  /** With no upgrade under way, the end of the write under way hands over the whole buffer. */
  lemma WriteHandsOver(s: State)
    requires IsOpen(s) && !s.upgrading && Rest(s) != []
    ensures Enabled(s, WriteDone) && Step(s, WriteDone).log.accepted == s.log.accepted
    ensures IsHandedOver(Step(s, WriteDone))
  {
    FreeIsEmpty(s);
    Completed(s, WriteDone);
    hide PauseEnded, Conserved, Flat;
    var s' := Step(s, WriteDone);
    assert s'.ready == ReadyState.Open && Rest(s') == [];
    RestIsAll(s');
  }

  lemma FreeIsEmpty(s: State)
    requires IsOpen(s) && !s.upgrading
    ensures s.transport.ready == TOpen && !s.pauseDrain && !s.closeOnDrain
    ensures Rest(s) != [] ==> !s.transport.writable && s.transport.pending > 0
  {
    hide Flat;
  }

  lemma RestIsAll(s: State)
    requires Conserved(s) && s.ready != Closed
    ensures IsHandedOver(s) <==> Rest(s) == []
  {
    hide Rest;
    if Rest(s) == [] {
      assert Flat(s.log.batches) + [] == Flat(s.log.batches);
    }
  }

  lemma {:induction false} CompletionsAppend(s: State, first: seq<Event>, rest: seq<Event>)
    ensures Run(s, first + rest) == Run(Run(s, first), rest)
    decreases |first|
  {
    hide Step;
    if first == [] {
      assert first + rest == rest;
    } else {
      assert (first + rest)[1..] == first[1..] + rest;
      CompletionsAppend(Next(s, first[0]), first[1..], rest);
    }
  }

  lemma HandsOver(s: State) returns (after: seq<Event>)
    requires IsOpen(s) && !s.upgrading
    ensures AreCompletions(after) && IsHandedOver(Run(s, after)) && Run(s, after).log.accepted == s.log.accepted
  {
    if Rest(s) == [] {
      after := [];
      RestIsAll(s);
      assert Run(s, after) == s;
    } else {
      hide IsOpen, Step, Rest;
      WriteHandsOver(s);
      after := [WriteDone];
      RunOne(s, WriteDone);
    }
  }

  lemma CanHandOver(s: State) returns (after: seq<Event>)
    requires IsOpen(s) && !IsStalled(s)
    ensures AreCompletions(after) && IsHandedOver(Run(s, after)) && Run(s, after).log.accepted == s.log.accepted
  {
    if !s.upgrading {
      after := HandsOver(s);
    } else {
      UpgradingIsPausing(s);
      hide IsOpen, IsPausing, Run;
      var first, last := PauseEnds(s);
      var rest := HandsOver(last);
      after := first + rest;
      CompletionsAppend(s, first, rest);
    }
  }

  lemma UpgradingIsPausing(s: State)
    requires IsOpen(s) && !IsStalled(s) && s.upgrading
    ensures IsPausing(s)
  {
  }

  // ---------- a stalled socket hands over nothing more ----------

  predicate StaysStalled(s: State, s': State) {
    && s'.log.batches == s.log.batches && |s'.log.accepted| >= |s.log.accepted| && (s'.log.forced ==> s.log.forced)
    && IsStuck(s')
  }

  predicate IsStuck(s: State) {
    s.ready == Closed || IsStalled(s)
  }

  lemma FlushStalled(s: State)
    requires IsStuck(s)
    ensures Flush(s) == s
  {
  }

  lemma OnCloseStalled(s: State, forced: bool)
    requires IsStuck(s) && (forced ==> s.ready == Closed)
    ensures StaysStalled(s, OnClose(s, forced)) && (s.ready == Closed ==> StaysStalled(s, UpgradeEnded(s)))
  {
    hide Rest, ClosedTransport;
  }

  lemma OnDrainStalled(s: State)
    requires IsStalled(s)
    ensures StaysStalled(s, OnDrain(s)) && IsStalled(OnDrain(s))
  {
    hide Rest, Flush, OnClose;
    FlushStalled(s.(writeBuffer := Rest(s), prevBufferLen := 0));
  }

  lemma PauseEndedStalled(s: State)
    requires IsStuck(s) && s.probe.Some?
    ensures StaysStalled(s, PauseEnded(s))
  {
    hide Flush, UpgradeEnded;
  }

  lemma AfterWriteStalled(s: State)
    requires IsStuck(s) && s.transport.pending > 0
    ensures StaysStalled(s, AfterWrite(s))
  {
    hide OnDrain, PauseEnded;
    var s' := s.(transport := s.transport.(pending := s.transport.pending - 1, writable := true));
    if s.ready != Closed {
      OnDrainStalled(s');
      PauseEndedStalled(OnDrain(s').(pauseDrain := false));
    }
  }

  lemma TransportIsFree(s: State, s': State, t: Transport)
    requires StaysStalled(s, s')
    ensures StaysStalled(s, s'.(transport := t))
  {
  }

  lemma AfterPollStalled(s: State)
    requires IsStuck(s)
    ensures StaysStalled(s, AfterPoll(s))
  {
    var s' := s.(transport := s.transport.(polling := false));
    var over := s'.(pausePoll := false);
    assert IsStuck(over) && StaysStalled(s, over);
    if over.probe.Some? {
      PauseEndedStalled(over);
    }
    hide PauseEnded, IsStuck;
    var p := if s'.pausePoll && !s'.pauseDrain && s'.probe.Some? then PauseEnded(over) else over;
    assert StaysStalled(s, p);
    hide StaysStalled;
    TransportIsFree(s, p, p.transport.(polling := true));
  }

  lemma ReplyStalled(s: State, isPong: bool)
    requires Enabled(s, ProbeReply(isPong)) && IsStuck(s)
    ensures StaysStalled(s, Step(s, ProbeReply(isPong)))
  {
    hide OnClose, UpgradeEnded, PauseEnded;
    if isPong {
      PauseEndedStalled(s.(upgrading := true, probe := Some(s.probe.value.(phase := Pausing)),
                           transport := s.transport.(ready := TPausing)));
    } else {
      OnCloseStalled(s.(probe := Some(s.probe.value.(phase := Answered))), true);
    }
  }

  lemma SendStalled(s: State, packet: Packet)
    requires IsStuck(s)
    ensures StaysStalled(s, Step(s, SendPacket(packet)))
  {
    hide Flush;
    FlushStalled(s.(writeBuffer := s.writeBuffer + [packet], log := s.log.(accepted := s.log.accepted + [packet])));
  }

  lemma HandshakeStalled(s: State, canUpgrade: bool)
    requires Enabled(s, Handshake(canUpgrade)) && IsStuck(s)
    ensures StaysStalled(s, Step(s, Handshake(canUpgrade)))
  {
    if s.ready != Closed {
      var s' := s.(ready := ReadyState.Open, log := s.log.(reopened := s.log.reopened || s.ready == Closing));
      FlushStalled(s');
      hide Flush;
      assert s'.probe.Some? && StaysStalled(s, s');
      assert OnOpen(s, canUpgrade) == s';
    }
    hide Flush;
  }

  lemma ClosingStalled(s: State, e: Event)
    requires Enabled(s, e) && (e.Close? || e.ConnectionLost? || e.ProbeFailed?) && IsStuck(s)
    ensures StaysStalled(s, Step(s, e))
  {
    hide OnClose, UpgradeEnded, ClosedTransport;
    if e.ProbeFailed? {
      OnCloseStalled(s.(probe := Some(Probe(ClosedTransport(s.probe.value.transport), Dead))), true);
    } else if e.ConnectionLost? {
      OnCloseStalled(s, false);
    }
  }

  lemma TransportEventStalled(s: State, e: Event)
    requires Enabled(s, e) && (e.TransportOpened? || e.ProbeOpened? || e.ProbeWriteDone?) && IsStuck(s)
    ensures StaysStalled(s, Step(s, e))
  {
  }

  /** Whatever happens to a stalled socket, nothing is handed over. */
  lemma StepStalled(s: State, e: Event)
    requires Enabled(s, e) && IsStuck(s)
    ensures StaysStalled(s, Step(s, e))
  {
    match e {
      case SendPacket(packet) => SendStalled(s, packet);
      case Handshake(canUpgrade) => HandshakeStalled(s, canUpgrade);
      case WriteDone => AfterWriteStalled(s);
      case PollDone => AfterPollStalled(s);
      case ProbeReply(isPong) => ReplyStalled(s, isPong);
      case Close => ClosingStalled(s, e);
      case ConnectionLost => ClosingStalled(s, e);
      case ProbeFailed => ClosingStalled(s, e);
      case _ => TransportEventStalled(s, e);
    }
    hide StaysStalled, IsStuck, Flush, AfterWrite, AfterPoll, Pause, OnClose, UpgradeEnded;
  }

  lemma {:induction false} RunStalled(s: State, events: seq<Event>)
    requires IsStuck(s)
    ensures StaysStalled(s, Run(s, events))
    decreases |events|
  {
    hide Step, IsStalled;
    if events != [] {
      if Enabled(s, events[0]) {
        StepStalled(s, events[0]);
      }
      RunStalled(Next(s, events[0]), events[1..]);
    }
  }

  lemma NeverHandedOver(s: State, after: seq<Event>)
    requires Conserved(s) && s.ready == ReadyState.Open && IsStalled(s) && !IsHandedOver(s)
    ensures !IsHandedOver(Run(s, after))
  {
    RunStalled(s, after);
    hide Run;
    assert Flat(s.log.batches) + Rest(s) == s.log.accepted;
    if Rest(s) == [] {
      RestIsAll(s);
      assert false;
    }
  }

  lemma StartIsAlive(polling: bool)
    ensures Valid(Start(polling)) && IsAlive(Start(polling))
  {
  }

  /**
   * At any point of any run at which the socket is open and no `close` has been undone: what waits in the buffer is
   * handed over once the transports have done their work, exactly when nothing waits or no probe has failed during
   * its pause; in that case nothing that can happen hands it over.
   */
  lemma ProgressExact(polling: bool, before: seq<Event>)
    requires var s := Run(Start(polling), before); s.ready == ReadyState.Open && !s.log.reopened
    ensures var s := Run(Start(polling), before);
            && ((exists after :: AreCompletions(after) && IsHandedOver(Run(s, after)))
                <==> IsHandedOver(s) || !IsStalled(s))
            && ((exists after :: IsHandedOver(Run(s, after))) <==> IsHandedOver(s) || !IsStalled(s))
  {
    StartIsAlive(polling);
    RunAlive(Start(polling), before);
    var s := Run(Start(polling), before);
    ValidIsConserved(s);
    assert IsOpen(s);
    assert Run(s, []) == s;
    hide Run, IsOpen, IsStalled, IsHandedOver, Conserved, Valid;
    if !IsStalled(s) {
      var after := CanHandOver(s);
    } else if !IsHandedOver(s) {
      forall after ensures !IsHandedOver(Run(s, after)) {
        NeverHandedOver(s, after);
      }
    } else {
      assert AreCompletions([]) && IsHandedOver(Run(s, []));
    }
  }

  lemma ValidIsConserved(s: State)
    requires Valid(s)
    ensures Conserved(s)
  {
  }

  /** The socket after a probe that failed while the poll in progress held up the pause. */
  function Failed(): State {
    Start(true).(ready := ReadyState.Open, upgrading := true, pausePoll := true,
                 transport := Transport(true, TPausing, true, true, 0),
                 probe := Some(Probe(Transport(false, TClosed, false, false, 1), Dead)))
  }

  lemma ReachesFailed(rest: seq<Event>)
    ensures Run(Start(true), [TransportOpened] + ([Handshake(true)] + ([ProbeOpened] + ([ProbeReply(true)]
                             + ([ProbeFailed] + rest))))) == Run(Failed(), rest)
  {
    var s1 := Start(true).(transport := Transport(true, TOpen, true, true, 0));
    assert Next(Start(true), TransportOpened) == s1;
    var s2 := s1.(ready := ReadyState.Open, probe := Some(Probe(NEW_WEBSOCKET, Connecting)));
    assert Next(s1, Handshake(true)) == s2;
    var s3 := s2.(probe := Some(Probe(Transport(false, TOpen, false, false, 1), AwaitingPong)));
    assert Next(s2, ProbeOpened) == s3;
    var s4 := s3.(upgrading := true, probe := Some(s3.probe.value.(phase := Pausing)), pausePoll := true,
                  transport := Transport(true, TPausing, true, true, 0));
    assert Next(s3, ProbeReply(true)) == s4;
    assert Next(s4, ProbeFailed) == Failed();
    hide Run, Next, Failed, Start;
    RunCons(Start(true), TransportOpened, [Handshake(true)] + ([ProbeOpened] + ([ProbeReply(true)]
                                                              + ([ProbeFailed] + rest))));
    RunCons(s1, Handshake(true), [ProbeOpened] + ([ProbeReply(true)] + ([ProbeFailed] + rest)));
    RunCons(s2, ProbeOpened, [ProbeReply(true)] + ([ProbeFailed] + rest));
    RunCons(s3, ProbeReply(true), [ProbeFailed] + rest);
    RunCons(s4, ProbeFailed, rest);
  }

  /** A run in which the probe fails during the pause: what is sent then is never handed over. */
  lemma FailedProbeStalls(q: Packet)
    ensures var s := Run(Start(true), [TransportOpened] + ([Handshake(true)] + ([ProbeOpened] + ([ProbeReply(true)]
                                      + ([ProbeFailed] + [SendPacket(q)])))));
            && s.ready == ReadyState.Open && IsStalled(s) && s.log.accepted == [q]
            && forall after :: !IsHandedOver(Run(s, after))
  {
    ReachesFailed([SendPacket(q)]);
    RunOne(Failed(), SendPacket(q));
    var s := Failed().(writeBuffer := [q], log := Failed().log.(accepted := [q]));
    assert Next(Failed(), SendPacket(q)) == s;
    assert Conserved(s) && !IsHandedOver(s);
    hide Run, Next;
    forall after ensures !IsHandedOver(Run(s, after)) {
      NeverHandedOver(s, after);
    }
  }
}
