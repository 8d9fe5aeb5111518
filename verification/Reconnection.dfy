/** The manager's connection: opening, closing, and reconnecting after a delay that backs off. */
module Reconnection {
  import opened JsText

  datatype ReadyState = Closed | Opening | Open

  /** Why the engine is being opened: a plain `open`, one with a callback, or a reconnect timer. */
  datatype Reason = Plain | WithCallback | Reconnect

  /** Fixed options: whether to reconnect, and how often; `None` is no limit. */
  datatype Options = Options(reconnection: bool, maxAttempts: Option<nat>)

  /**
   * `opening` is the subscription to the engine being opened, `closing` counts subscriptions to the close of an opened
   * engine, `timers` the reconnect timers that have not fired. The last three fields are history: engines opened in
   * all, engines opened by a timer since the backoff was reset, and how many of those there had been on giving up
   * since the last `open` call.
   */
  datatype State = State(
    ready: ReadyState,
    skipReconnect: bool,
    reconnecting: bool,
    attempts: nat,
    opening: Option<Reason>,
    closing: nat,
    timers: nat,
    opens: nat,
    tried: nat,
    gaveUpAfter: Option<nat>)

  const INITIAL := State(Closed, false, false, 0, None, 0, 0, 0, 0, None)

  datatype Event = OpenCall(withCallback: bool) | EngineOpened | EngineError | EngineClosed | TimerFired | CloseCall

  predicate Exhausted(o: Options, attempts: nat) {
    o.maxAttempts.Some? && attempts >= o.maxAttempts.value
  }

  function Cleanup(s: State): State {
    s.(opening := None, closing := 0, timers := 0)
  }

  function Reset(s: State): State {
    s.(attempts := 0, tried := 0)
  }

  function StartReconnect(o: Options, s: State): State {
    if s.reconnecting || s.skipReconnect then s
    else if Exhausted(o, s.attempts) then Reset(s).(gaveUpAfter := Some(s.tried))
    else s.(attempts := s.attempts + 1, reconnecting := true, timers := s.timers + 1)
  }

  function DoOpen(s: State, reason: Reason): State {
    if s.ready != Closed then s
    else s.(ready := Opening, skipReconnect := false, opening := Some(reason), opens := s.opens + 1,
            tried := if reason == Reconnect then s.tried + 1 else s.tried,
            gaveUpAfter := if reason == Reconnect then s.gaveUpAfter else None)
  }

  predicate Enabled(s: State, e: Event) {
    match e
    case EngineOpened => s.opening.Some?
    case EngineError => s.opening.Some?
    case EngineClosed => s.closing > 0
    case TimerFired => s.timers > 0
    case _ => true
  }

  function OnError(o: Options, s: State): State
    requires s.opening.Some?
  {
    var s' := Cleanup(s).(ready := Closed);
    match s.opening.value
    case Plain => if !s'.reconnecting && o.reconnection && s'.attempts == 0 then StartReconnect(o, s') else s'
    case WithCallback => s'
    case Reconnect => StartReconnect(o, s'.(reconnecting := false))
  }

  function OnOpened(s: State): State
    requires s.opening.Some?
  {
    var s' := Cleanup(s).(ready := Open, closing := 1);
    if s.opening.value == Reconnect then Reset(s').(reconnecting := false) else s'
  }

  function OnClosed(o: Options, s: State): State {
    var s' := Reset(Cleanup(s)).(ready := Closed);
    if o.reconnection && !s.skipReconnect then StartReconnect(o, s') else s'
  }

  function OnTimer(s: State): State
    requires s.timers > 0
  {
    var s' := s.(timers := s.timers - 1);
    if s.skipReconnect then s' else DoOpen(s', Reconnect)
  }

  function DoClose(s: State): State {
    var s' := s.(skipReconnect := true, reconnecting := false);
    Reset(if s.ready == Opening then Cleanup(s') else s').(ready := Closed)
  }

  function Step(o: Options, s: State, e: Event): State
    requires Enabled(s, e)
  {
    match e
    case OpenCall(withCallback) => DoOpen(s, if withCallback then WithCallback else Plain)
    case EngineOpened => OnOpened(s)
    case EngineError => OnError(o, s)
    case EngineClosed => OnClosed(o, s)
    case TimerFired => OnTimer(s)
    case CloseCall => DoClose(s)
  }

  function Next(o: Options, s: State, e: Event): State {
    if Enabled(s, e) then Step(o, s, e) else s
  }

  function Run(o: Options, s: State, events: seq<Event>): State
    decreases |events|
  {
    if events == [] then s else Run(o, Next(o, s, events[0]), events[1..])
  }

  // ---------- the manager object ----------

  class Manager {
    const options: Options
    var readyState: ReadyState
    var skipReconnect: bool
    var reconnecting: bool
    var attempts: nat
    var opening: Option<Reason>
    var closing: nat
    var timers: nat
    ghost var opens: nat
    ghost var tried: nat
    ghost var gaveUpAfter: Option<nat>

    ghost function View(): State
      reads this
    {
      State(readyState, skipReconnect, reconnecting, attempts, opening, closing, timers, opens, tried, gaveUpAfter)
    }

    constructor (o: Options)
      ensures View() == INITIAL && options == o
    {
      options := o;
      readyState, skipReconnect, reconnecting, attempts := Closed, false, false, 0;
      opening, closing, timers := None, 0, 0;
      opens, tried, gaveUpAfter := 0, 0, None;
    }

    method RunCleanup()
      modifies this
      ensures View() == Cleanup(old(View()))
    {
      opening, closing, timers := None, 0, 0;
    }

    method ResetBackoff()
      modifies this
      ensures View() == Reset(old(View()))
    {
      attempts := 0;
      tried := 0;
    }

    method TryReconnect()
      modifies this
      ensures View() == StartReconnect(options, old(View()))
    {
      if reconnecting || skipReconnect {
        return;
      }
      if options.maxAttempts.Some? && attempts >= options.maxAttempts.value {
        gaveUpAfter := Some(tried);
        ResetBackoff();
        reconnecting := false;
      } else {
        attempts := attempts + 1;
        reconnecting := true;
        timers := timers + 1;
      }
    }

    method OpenFor(reason: Reason)
      modifies this
      ensures View() == DoOpen(old(View()), reason)
    {
      if readyState == Closed {
        readyState, skipReconnect, opening := Opening, false, Some(reason);
        opens := opens + 1;
        tried := if reason == Reconnect then tried + 1 else tried;
        gaveUpAfter := if reason == Reconnect then gaveUpAfter else None;
      }
    }

    method OnEngineOpened()
      requires opening.Some?
      modifies this
      ensures View() == Step(options, old(View()), EngineOpened)
    {
      var reason := opening.value;
      RunCleanup();
      readyState, closing := Open, 1;
      if reason == Reconnect {
        reconnecting := false;
        ResetBackoff();
      }
    }

    method OnEngineError()
      requires opening.Some?
      modifies this
      ensures View() == Step(options, old(View()), EngineError)
    {
      var reason := opening.value;
      RunCleanup();
      readyState := Closed;
      match reason
      case Plain =>
        if !reconnecting && options.reconnection && attempts == 0 {
          TryReconnect();
        }
      case WithCallback =>
      case Reconnect =>
        reconnecting := false;
        TryReconnect();
    }

    method OnEngineClosed()
      requires closing > 0
      modifies this
      ensures View() == Step(options, old(View()), EngineClosed)
    {
      RunCleanup();
      ResetBackoff();
      readyState := Closed;
      if options.reconnection && !skipReconnect {
        TryReconnect();
      }
    }

    method OnTimerFired()
      requires timers > 0
      modifies this
      ensures View() == Step(options, old(View()), TimerFired)
    {
      timers := timers - 1;
      if !skipReconnect {
        OpenFor(Reconnect);
      }
    }

    method Disconnect()
      modifies this
      ensures View() == Step(options, old(View()), CloseCall)
    {
      skipReconnect, reconnecting := true, false;
      if readyState == Opening {
        RunCleanup();
      }
      ResetBackoff();
      readyState := Closed;
    }
  }

  // ---------- properties ----------

  predicate Valid(o: Options, s: State) {
    && (o.maxAttempts.Some? ==> s.attempts <= o.maxAttempts.value)
    && s.tried <= s.attempts
    && s.timers <= 1
    && (s.opening.Some? <==> s.ready == Opening)
    && (s.ready == Open ==> s.timers == 0)
    && (s.ready != Closed ==> !s.skipReconnect)
    && (s.timers == 1 && s.ready == Closed && !s.skipReconnect ==> s.tried + 1 == s.attempts && s.reconnecting)
    && (s.opening == Some(Reconnect) ==> s.tried == s.attempts)
    && (s.gaveUpAfter.Some? ==> s.gaveUpAfter == o.maxAttempts)
  }

  lemma OpenValid(o: Options, s: State, reason: Reason)
    requires Valid(o, s)
    requires reason == Reconnect ==> s.ready != Closed || (s.timers == 0 && s.tried + 1 == s.attempts)
    ensures Valid(o, DoOpen(s, reason))
  {
  }

  lemma StartValid(o: Options, s: State)
    requires Valid(o, s) && s.ready == Closed && s.timers == 0 && (!s.reconnecting ==> s.tried == s.attempts)
    ensures Valid(o, StartReconnect(o, s))
  {
  }

  lemma ErrorValid(o: Options, s: State)
    requires Valid(o, s) && s.opening.Some?
    ensures Valid(o, OnError(o, s))
  {
    hide StartReconnect;
    var s' := Cleanup(s).(ready := Closed);
    if s.opening == Some(Reconnect) {
      StartValid(o, s'.(reconnecting := false));
    } else if !s'.reconnecting && s'.attempts == 0 {
      StartValid(o, s');
    }
  }

  lemma OpenedValid(o: Options, s: State)
    requires Valid(o, s) && s.opening.Some?
    ensures Valid(o, OnOpened(s))
  {
  }

  lemma ClosedValid(o: Options, s: State)
    requires Valid(o, s)
    ensures Valid(o, OnClosed(o, s)) && Valid(o, DoClose(s))
  {
    hide StartReconnect;
    StartValid(o, Reset(Cleanup(s)).(ready := Closed));
  }

  /** Every event keeps the invariant. */
  lemma StepValid(o: Options, s: State, e: Event)
    requires Valid(o, s) && Enabled(s, e)
    ensures Valid(o, Step(o, s, e))
  {
    match e {
      case OpenCall(withCallback) => OpenValid(o, s, if withCallback then WithCallback else Plain);
      case EngineOpened => OpenedValid(o, s);
      case EngineError => ErrorValid(o, s);
      case TimerFired => TimerValid(o, s);
      case _ => ClosedValid(o, s);
    }
    hide Valid, DoOpen, OnOpened, OnError, OnClosed, OnTimer, DoClose;
  }

  lemma TimerValid(o: Options, s: State)
    requires Valid(o, s) && s.timers > 0
    ensures Valid(o, OnTimer(s))
  {
    hide DoOpen;
    if !s.skipReconnect {
      OpenValid(o, s.(timers := s.timers - 1), Reconnect);
    }
  }

  lemma {:induction false} RunValid(o: Options, s: State, events: seq<Event>)
    requires Valid(o, s)
    ensures Valid(o, Run(o, s, events))
    decreases |events|
  {
    if events != [] {
      if Enabled(s, events[0]) {
        StepValid(o, s, events[0]);
      }
      RunValid(o, Next(o, s, events[0]), events[1..]);
    }
  }

  /**
   * In every run the backoff counter stays within the limit, no more engines are opened by timers between resets than
   * it counts, and giving up means that exactly the permitted number were.
   */
  lemma AttemptsBounded(o: Options, events: seq<Event>)
    ensures var s := Run(o, INITIAL, events);
            && s.tried <= s.attempts && (o.maxAttempts.Some? ==> s.attempts <= o.maxAttempts.value)
            && s.timers <= 1
            && (s.gaveUpAfter.Some? ==> s.gaveUpAfter == o.maxAttempts)
  {
    RunValid(o, INITIAL, events);
  }

  predicate Permits(o: Options, attempts: nat) {
    o.maxAttempts.None? || attempts < o.maxAttempts.value
  }

  /** An engine is opened exactly by an `open` call or a timer on a closed manager that does not skip reconnecting. */
  lemma OpensExactly(o: Options, s: State, e: Event)
    requires Enabled(s, e)
    ensures var opens := s.ready == Closed && (e.OpenCall? || (e == TimerFired && !s.skipReconnect));
            && Step(o, s, e).opens == s.opens + (if opens then 1 else 0)
            && (opens ==> Step(o, s, e).ready == Opening && !Step(o, s, e).skipReconnect)
            && (Step(o, s, e).ready == Opening ==> opens || s.ready == Opening)
  {
  }

  /** A lost connection: nothing is left of it, and a timer is set exactly when reconnecting is on and permitted. */
  lemma LostConnection(o: Options, s: State)
    requires s.closing > 0
    ensures var s' := Step(o, s, EngineClosed);
            var again := o.reconnection && !s.skipReconnect && !s.reconnecting && Permits(o, 0);
            && s'.ready == Closed && s'.opening == None && s'.closing == 0
            && s'.timers == (if again then 1 else 0) && s'.attempts == s'.timers
            && (again ==> s'.reconnecting) && (!again ==> s'.reconnecting == s.reconnecting)
  {
  }

  /** A failed opening: nothing is left of it, and a timer is set according to why the engine was opened. */
  lemma FailedOpening(o: Options, s: State)
    requires Valid(o, s) && s.opening.Some?
    ensures var s' := Step(o, s, EngineError);
            var again := match s.opening.value
                         case Plain => o.reconnection && !s.reconnecting && s.attempts == 0 && Permits(o, 0)
                         case WithCallback => false
                         case Reconnect => Permits(o, s.attempts);
            && s'.ready == Closed && s'.opening == None && s'.closing == 0 && s'.timers == (if again then 1 else 0)
            && (again ==> s'.attempts == s.attempts + 1 && s'.reconnecting)
            && (s.opening == Some(Reconnect) && !again ==> s'.attempts == 0 && !s'.reconnecting)
  {
  }

  /** `close`: an opening is abandoned with its timers; of an open connection the close event is still waited for. */
  lemma ClosedByHand(o: Options, s: State)
    requires Valid(o, s)
    ensures var s' := Step(o, s, CloseCall);
            && s'.ready == Closed && s'.skipReconnect && !s'.reconnecting && s'.attempts == 0 && s'.opening == None
            && s'.closing == (if s.ready == Opening then 0 else s.closing)
            && s'.timers == (if s.ready == Opening then 0 else s.timers)
  {
  }

  /** A reconnect is started only when none is under way and reconnecting is not skipped. */
  lemma ReconnectOnce(o: Options, s: State)
    ensures s.reconnecting || s.skipReconnect ==> StartReconnect(o, s) == s
    ensures !s.reconnecting && !s.skipReconnect && Permits(o, s.attempts) ==>
              var s' := StartReconnect(o, s);
              s'.attempts == s.attempts + 1 && s'.reconnecting && s'.timers == s.timers + 1
    ensures !s.reconnecting && !s.skipReconnect && !Permits(o, s.attempts) ==>
              var s' := StartReconnect(o, s); s'.attempts == 0 && !s'.reconnecting && s'.timers == s.timers
  {
  }

  /** A new manager whose first connection is lost tries again exactly when reconnecting is on and permitted. */
  lemma FirstConnectionLost(o: Options)
    ensures INITIAL.ready == Closed && !INITIAL.skipReconnect && !INITIAL.reconnecting && INITIAL.attempts == 0
    ensures Run(o, INITIAL, [OpenCall(false), EngineOpened, EngineClosed]).timers
         == if o.reconnection && Permits(o, 0) then 1 else 0
  {
    var s1 := Next(o, INITIAL, OpenCall(false));
    var s2 := Next(o, s1, EngineOpened);
    var events := [OpenCall(false), EngineOpened, EngineClosed];
    assert events[1..] == [EngineOpened, EngineClosed] && events[1..][1..] == [EngineClosed];
    assert Run(o, s2, [EngineClosed]) == Next(o, s2, EngineClosed);
    assert Run(o, s1, [EngineOpened, EngineClosed]) == Run(o, s2, [EngineClosed]);
    LostConnection(o, s2);
  }

  /** After `close`, whatever happens, no engine is opened until `open` is called. */
  lemma {:induction false} NoOpenAfterClose(o: Options, s: State, events: seq<Event>)
    requires Valid(o, s) && s.ready == Closed && s.skipReconnect
    requires forall i :: 0 <= i < |events| ==> !events[i].OpenCall?
    ensures var s' := Run(o, s, events); s'.opens == s.opens && s'.ready == Closed && s'.skipReconnect
    decreases |events|
  {
    if events != [] {
      if Enabled(s, events[0]) {
        StepValid(o, s, events[0]);
        assert events[0] != OpenCall(true) && events[0] != OpenCall(false);
      }
      NoOpenAfterClose(o, Next(o, s, events[0]), events[1..]);
    }
  }

  lemma CloseThenNothing(o: Options, before: seq<Event>, after: seq<Event>)
    requires forall i :: 0 <= i < |after| ==> !after[i].OpenCall?
    ensures var s := Run(o, INITIAL, before);
            Run(o, Step(o, s, CloseCall), after).opens == s.opens
  {
    RunValid(o, INITIAL, before);
    var s := Run(o, INITIAL, before);
    StepValid(o, s, CloseCall);
    NoOpenAfterClose(o, Step(o, s, CloseCall), after);
  }

  // ---------- opening by hand while a reconnect is marked as under way ----------

  /** What happens to a manager left alone: neither `open` nor `close` is called. */
  predicate Undisturbed(events: seq<Event>) {
    forall i :: 0 <= i < |events| ==> !events[i].OpenCall? && !events[i].CloseCall?
  }

  /** Open or opening, or about to try again, or given up after the permitted number of attempts. */
  predicate Working(s: State) {
    s.ready != Closed || s.timers == 1 || s.gaveUpAfter.Some?
  }

  /** A connection that a plain `open` call has set up, or is setting up, with nothing left over from before. */
  predicate Fresh(o: Options, s: State) {
    && Valid(o, s) && o.reconnection && !s.skipReconnect && Working(s)
    && (s.opening == Some(Plain) ==> !s.reconnecting && s.attempts == 0)
    && s.opening != Some(WithCallback)
    && (s.opening == Some(Reconnect) ==> s.closing == 0)
    && (s.ready == Open ==> !s.reconnecting)
    && (s.ready == Closed ==> s.closing == 0)
  }

  lemma StaysFresh(o: Options, s: State, e: Event)
    requires Fresh(o, s) && Enabled(s, e) && !e.OpenCall? && !e.CloseCall?
    ensures Fresh(o, Step(o, s, e))
  {
    StepValid(o, s, e);
    if e.EngineClosed? && s.opening.Some? {
      assert s.opening.value.Plain?;
    }
  }

  lemma {:induction false} RunsFresh(o: Options, s: State, events: seq<Event>)
    requires Fresh(o, s) && Undisturbed(events)
    ensures Fresh(o, Run(o, s, events))
    decreases |events|
  {
    hide Fresh;
    if events != [] {
      var e := events[0];
      assert !e.OpenCall? && !e.CloseCall?;
      if Enabled(s, e) {
        StaysFresh(o, s, e);
      }
      RunsFresh(o, Next(o, s, e), events[1..]);
    }
  }

  lemma IdleAttempts(o: Options, events: seq<Event>)
    ensures var s := Run(o, INITIAL, events); Valid(o, s) && (!s.reconnecting ==> s.attempts == 0)
  {
    IdleAttemptsFrom(o, INITIAL, events);
  }

  /** The attempt count is above zero only while a reconnect is marked as under way. */
  lemma {:induction false} IdleAttemptsFrom(o: Options, s: State, events: seq<Event>)
    requires Valid(o, s) && (!s.reconnecting ==> s.attempts == 0)
    ensures var s' := Run(o, s, events); Valid(o, s') && (!s'.reconnecting ==> s'.attempts == 0)
    decreases |events|
  {
    if events != [] {
      if Enabled(s, events[0]) {
        StepValid(o, s, events[0]);
        IdleAttemptsStep(o, s, events[0]);
      }
      IdleAttemptsFrom(o, Next(o, s, events[0]), events[1..]);
    }
  }

  lemma IdleAttemptsStep(o: Options, s: State, e: Event)
    requires Valid(o, s) && Enabled(s, e) && (!s.reconnecting ==> s.attempts == 0)
    ensures !Step(o, s, e).reconnecting ==> Step(o, s, e).attempts == 0
  {
  }

  /**
   * At any point of any run at which the manager is closed: after a plain `open`, whatever happens to the connections,
   * the manager stays at work until it has used up its attempts, exactly when reconnecting is on and no reconnect was
   * marked as under way when `open` was called.
   */
  lemma OpenRecovers(o: Options, before: seq<Event>)
    requires Run(o, INITIAL, before).ready == Closed
    ensures var s := Run(o, INITIAL, before);
            (forall after :: Undisturbed(after) ==> Working(Run(o, Step(o, s, OpenCall(false)), after)))
            <==> o.reconnection && !s.reconnecting
  {
    IdleAttempts(o, before);
    var s := Run(o, INITIAL, before);
    var tried := Step(o, s, OpenCall(false));
    OpenValid(o, s, Plain);
    if o.reconnection && !s.reconnecting {
      assert Fresh(o, tried);
      hide Run, Working;
      forall after | Undisturbed(after) ensures Working(Run(o, tried, after)) {
        RunsFresh(o, tried, after);
      }
    } else {
      var after := [EngineError];
      assert Run(o, tried, after) == Next(o, tried, EngineError);
      assert Undisturbed(after) && !Working(Run(o, tried, after));
    }
  }

  /** A connection opened by hand and then lost is reconnected exactly when no reconnect was marked as under way. */
  lemma OpenThenLost(o: Options, s: State, withCallback: bool)
    requires Valid(o, s) && s.ready == Closed
    ensures var s2 := Step(o, s, OpenCall(withCallback));
            && Enabled(s2, EngineOpened) && Enabled(Step(o, s2, EngineOpened), EngineClosed)
            && (Step(o, Step(o, s2, EngineOpened), EngineClosed).timers == 1
                <==> o.reconnection && !Exhausted(o, 0) && !s.reconnecting)
  {
    var s2 := Step(o, s, OpenCall(withCallback));
    var s3 := Step(o, s2, EngineOpened);
    assert s3.reconnecting == s.reconnecting && s3.closing == 1;
  }

  /** A plain open that fails is tried again exactly when, besides, no attempt has been counted. */
  lemma OpenThenFailed(o: Options, s: State)
    requires Valid(o, s) && s.ready == Closed
    ensures var s2 := Step(o, s, OpenCall(false));
            && Enabled(s2, EngineError)
            && (Step(o, s2, EngineError).timers == 1
                <==> o.reconnection && !Exhausted(o, 0) && !s.reconnecting && s.attempts == 0)
  {
  }

  /** A manager with a mark and nothing behind it: no timer that will fire to any effect, no reconnect being tried. */
  predicate Lost(s: State) {
    s.reconnecting && s.opening != Some(Reconnect) && (s.timers == 0 || s.ready == Opening)
  }

  lemma StaysLost(o: Options, s: State, e: Event)
    requires Valid(o, s) && Lost(s) && Enabled(s, e) && !e.CloseCall?
    ensures Lost(Step(o, s, e))
    ensures Step(o, s, e).opens > s.opens ==> e.OpenCall?
  {
  }

  function OpenCalls(events: seq<Event>): nat
    decreases |events|
  {
    if events == [] then 0 else (if events[0].OpenCall? then 1 else 0) + OpenCalls(events[1..])
  }

  /** Once lost, and until `close` is called, only `open` calls ever open an engine, one each at most. */
  lemma {:induction false} LostForGood(o: Options, s: State, events: seq<Event>)
    requires Valid(o, s) && Lost(s) && forall i :: 0 <= i < |events| ==> !events[i].CloseCall?
    ensures Lost(Run(o, s, events)) && Run(o, s, events).opens <= s.opens + OpenCalls(events)
    decreases |events|
  {
    hide Lost;
    if events != [] {
      if Enabled(s, events[0]) {
        StaysLost(o, s, events[0]);
        StepValid(o, s, events[0]);
        OneOpen(o, s, events[0]);
      }
      LostForGood(o, Next(o, s, events[0]), events[1..]);
    }
  }

  lemma OneOpen(o: Options, s: State, e: Event)
    requires Enabled(s, e)
    ensures s.opens <= Step(o, s, e).opens <= s.opens + 1
  {
  }

  /** An `open` call during the wait for a reconnect loses the manager, and any other does not. */
  lemma OpenLoses(o: Options, s: State)
    requires Valid(o, s) && s.ready == Closed
    ensures Lost(Step(o, s, OpenCall(false))) <==> s.reconnecting
  {
  }

  /** A lost manager whose connection is gone, or whose opening failed, never changes again by itself. */
  lemma {:induction false} StuckForGood(o: Options, s: State, events: seq<Event>)
    requires Valid(o, s) && s.ready == Closed && s.timers == 0 && s.closing == 0 && Undisturbed(events)
    ensures Run(o, s, events) == s
    decreases |events|
  {
    if events != [] {
      assert !events[0].OpenCall? && !events[0].CloseCall?;
      StuckForGood(o, s, events[1..]);
    }
  }

  /** Opening by hand during the wait: lost after the connection closes, and lost after the opening fails. */
  lemma OpenWhileWaitingStopsReconnecting(o: Options)
    requires o.reconnection && !Exhausted(o, 0)
    ensures var s := Run(o, INITIAL, [OpenCall(false), EngineError, OpenCall(false), EngineOpened, EngineClosed]);
            s.ready == Closed && !s.skipReconnect && s.timers == 0 && s.opening == None && s.reconnecting
    ensures var s := Run(o, INITIAL, [OpenCall(false), EngineError, OpenCall(false), EngineError]);
            s.ready == Closed && !s.skipReconnect && s.timers == 0 && s.opening == None && s.reconnecting
  {
  }
}
