/** Underscore's `throttle`: a function that runs at most once in each `wait` milliseconds. */
module Throttle {
  import opened JsText

  datatype Options = Options(wait: int, leading: bool, trailing: bool)

  /** One run of the wrapped function: when, and with the receiver and arguments of which call. */
  datatype Invocation = Invocation(time: nat, args: nat)

  /**
   * `previous`, `timeout`, `args` (receiver and arguments of the latest call) and `result` (what the run named
   * there returned) are the captured variables, `timers` the timers set and neither fired nor cleared, with the
   * earliest time each may fire. History: `clock`, the time of the latest event, the runs, and the times of the calls.
   */
  datatype State = State(
    previous: Option<nat>,
    timeout: Option<nat>,
    args: Option<nat>,
    result: Option<Invocation>,
    timers: map<nat, nat>,
    nextTimer: nat,
    clock: nat,
    invocations: seq<Invocation>,
    calls: seq<nat>)

  const INITIAL := State(None, None, None, None, map[], 0, 0, [], [])

  datatype Event = Call(now: nat, args: nat) | Fire(now: nat, timer: nat)

  function Remaining(o: Options, previous: Option<nat>, now: nat): int {
    o.wait - (now - if previous.Some? then previous.value else 0)
  }

  /** `new Date` in `previous` on the first call when the leading edge is off. */
  function Marked(o: Options, s: State, now: nat): Option<nat> {
    if s.previous.None? && !o.leading then Some(now) else s.previous
  }

  function OnCall(o: Options, s: State, now: nat, args: nat): State {
    var previous := Marked(o, s, now);
    var remaining := Remaining(o, previous, now);
    var s := s.(previous := previous, args := Some(args), clock := now, calls := s.calls + [now]);
    if remaining <= 0 then
      s.(timers := if s.timeout.Some? then s.timers - {s.timeout.value} else s.timers,
         timeout := None, previous := Some(now), result := Some(Invocation(now, args)),
         invocations := s.invocations + [Invocation(now, args)])
    else if s.timeout.None? && o.trailing then
      s.(timeout := Some(s.nextTimer), timers := s.timers[s.nextTimer := now + remaining], nextTimer := s.nextTimer + 1)
    else s
  }

  function OnFire(s: State, now: nat, timer: nat): State
    requires s.args.Some?
  {
    s.(timers := s.timers - {timer}, previous := Some(now), timeout := None, clock := now,
       result := Some(Invocation(now, s.args.value)), invocations := s.invocations + [Invocation(now, s.args.value)])
  }

  /** The clock does not run backwards, and no timer fires early. */
  predicate Enabled(s: State, e: Event) {
    && e.now >= s.clock
    && (e.Fire? ==> e.timer in s.timers && e.now >= s.timers[e.timer] && s.args.Some?)
  }

  function Step(o: Options, s: State, e: Event): State
    requires Enabled(s, e)
  {
    match e
    case Call(now, args) => OnCall(o, s, now, args)
    case Fire(now, timer) => OnFire(s, now, timer)
  }

  function Next(o: Options, s: State, e: Event): State {
    if Enabled(s, e) then Step(o, s, e) else s
  }

  function Run(o: Options, s: State, events: seq<Event>): State
    decreases |events|
  {
    if events == [] then s else Run(o, Next(o, s, events[0]), events[1..])
  }

  class Throttled {
    const options: Options
    var previous: Option<nat>
    var timeout: Option<nat>
    var args: Option<nat>
    var result: Option<Invocation>
    var timers: map<nat, nat>
    var nextTimer: nat
    ghost var clock: nat
    ghost var invocations: seq<Invocation>
    ghost var calls: seq<nat>

    ghost function View(): State
      reads this
    {
      State(previous, timeout, args, result, timers, nextTimer, clock, invocations, calls)
    }

    constructor (o: Options)
      ensures View() == INITIAL && options == o
    {
      options := o;
      previous, timeout, args, result, timers, nextTimer := None, None, None, None, map[], 0;
      clock, invocations, calls := 0, [], [];
    }

    method Invoke(now: nat, latest: nat)
      modifies this
      ensures View() == old(View()).(clock := now, result := Some(Invocation(now, latest)),
                                     invocations := old(invocations) + [Invocation(now, latest)])
    {
      clock := now;
      result := Some(Invocation(now, latest));
      invocations := invocations + [Invocation(now, latest)];
    }

    /** The throttled function; it returns the result of the latest run, its own or an earlier one. */
    method DoCall(now: nat, arguments: nat) returns (r: Option<Invocation>)
      modifies this
      ensures View() == OnCall(options, old(View()), now, arguments) && r == result
    {
      if previous.None? && !options.leading {
        previous := Some(now);
      }
      var remaining := options.wait - (now - if previous.Some? then previous.value else 0);
      args, clock, calls := Some(arguments), now, calls + [now];
      if remaining <= 0 {
        if timeout.Some? {
          timers := timers - {timeout.value};
        }
        timeout, previous := None, Some(now);
        Invoke(now, arguments);
      } else if timeout.None? && options.trailing {
        timeout, timers := Some(nextTimer), timers[nextTimer := now + remaining];
        nextTimer := nextTimer + 1;
      }
      r := result;
    }

    method Later(now: nat, timer: nat)
      requires args.Some?
      modifies this
      ensures View() == OnFire(old(View()), now, timer)
    {
      timers := timers - {timer};
      previous := Some(now);
      timeout := None;
      Invoke(now, args.value);
    }
  }

  // ---------- properties ----------

  function Last(s: State): Invocation
    requires s.invocations != []
  {
    s.invocations[|s.invocations| - 1]
  }

  ghost predicate Spaced(o: Options, invocations: seq<Invocation>) {
    forall i, j :: 0 <= i < j < |invocations| ==>
      invocations[j].time - invocations[i].time >= o.wait && invocations[j].time >= invocations[i].time
  }

  /** What the next call is measured from: the latest run; before any, the first call if leading runs are off. */
  function Reference(o: Options, calls: seq<nat>, invocations: seq<Invocation>): Option<nat> {
    if invocations != [] then Some(invocations[|invocations| - 1].time)
    else if !o.leading && calls != [] then Some(calls[0])
    else None
  }

  ghost predicate Valid(o: Options, s: State) {
    // one timer at most, and `timeout` knows it
    && s.timers.Keys == (if s.timeout.Some? then {s.timeout.value} else {})
    && (s.timeout.Some? ==> s.args.Some? && s.timeout.value < s.nextTimer)
    && (s.previous.Some? ==> s.previous.value <= s.clock)
    && (s.previous.None? && !o.leading ==> s.timeout.None?)
    && (!o.trailing ==> s.timeout.None?)
    && s.previous == Reference(o, s.calls, s.invocations)
    && s.result == (if s.invocations == [] then None else Some(Last(s)))
    // a pending timer is due when the next run is allowed
    && (s.timeout.Some? ==>
          s.timers[s.timeout.value] == o.wait + if s.previous.Some? then s.previous.value else 0)
    // every call has been answered or will be, with the arguments of the latest
    && (o.trailing && s.args.Some? ==>
          s.timeout.Some? || (s.invocations != [] && Last(s).args == s.args.value))
    && Spaced(o, s.invocations)
  }

  lemma SpacedAppend(o: Options, invocations: seq<Invocation>, next: Invocation)
    requires Spaced(o, invocations)
    requires invocations != [] ==>
               var last := invocations[|invocations| - 1].time;
               next.time >= last && next.time - last >= o.wait
    ensures Spaced(o, invocations + [next])
  {
  }

  lemma StepValid(o: Options, s: State, e: Event)
    requires Valid(o, s) && Enabled(s, e)
    ensures Valid(o, Step(o, s, e))
  {
    hide Spaced;
    match e {
      case Call(now, args) =>
        if Remaining(o, Marked(o, s, now), now) <= 0 {
          SpacedAppend(o, s.invocations, Invocation(now, args));
        }
      case Fire(now, timer) =>
        assert s.timeout == Some(timer);
        SpacedAppend(o, s.invocations, Invocation(now, s.args.value));
    }
  }

  lemma InitialValid(o: Options)
    ensures Valid(o, INITIAL)
  {
  }

  lemma {:induction false} RunValid(o: Options, s: State, events: seq<Event>)
    requires Valid(o, s)
    ensures Valid(o, Run(o, s, events))
    decreases |events|
  {
    hide Valid;
    if events != [] {
      if Enabled(s, events[0]) {
        StepValid(o, s, events[0]);
      }
      RunValid(o, Next(o, s, events[0]), events[1..]);
    }
  }

  /** In every run any two invocations are at least `wait` apart, and at most one timer is pending. */
  lemma AtMostOncePerWait(o: Options, events: seq<Event>)
    ensures var s := Run(o, INITIAL, events);
            && |s.timers| <= 1
            && forall i, j :: 0 <= i < j < |s.invocations| ==>
                 s.invocations[j].time >= s.invocations[i].time + o.wait
                 && s.invocations[j].time >= s.invocations[i].time
  {
    InitialValid(o);
    RunValid(o, INITIAL, events);
    hide Run;
  }

  /**
   * With the trailing edge on, every call is invoked at once, or a timer due within `wait` will run the function with
   * the arguments of the latest call.
   */
  lemma EveryCallCovered(o: Options, events: seq<Event>, now: nat, args: nat)
    requires o.trailing && Enabled(Run(o, INITIAL, events), Call(now, args))
    ensures var s := Step(o, Run(o, INITIAL, events), Call(now, args));
            || (s.invocations != [] && Last(s) == Invocation(now, args))
            || (s.timeout.Some? && s.timeout.value in s.timers && s.timers[s.timeout.value] <= now + o.wait
                && s.args == Some(args))
  {
    InitialValid(o);
    RunValid(o, INITIAL, events);
    var s := Run(o, INITIAL, events);
    StepValid(o, s, Call(now, args));
  }

  /**
   * In every run a pending timer is due exactly `wait` after the latest run of the function; while there has been none,
   * after the first call if leading runs are off, and after the epoch if they are on.
   */
  lemma TimerDue(o: Options, events: seq<Event>)
    ensures var s := Run(o, INITIAL, events);
            forall timer :: timer in s.timers ==>
              s.timers[timer] == o.wait + if s.invocations != [] then Last(s).time
                                          else if !o.leading && s.calls != [] then s.calls[0]
                                          else 0
  {
    InitialValid(o);
    RunValid(o, INITIAL, events);
    hide Spaced, Run;
  }

  /** When the timer fires it runs the function with the arguments of the latest call. */
  lemma TimerUsesLatest(o: Options, s: State, now: nat, timer: nat)
    requires Valid(o, s) && Enabled(s, Fire(now, timer))
    ensures var s' := Step(o, s, Fire(now, timer));
            Last(s') == Invocation(now, s.args.value) && s'.timers == map[] && s'.timeout == None
  {
    assert s.timers.Keys == {timer};
  }

  /** With trailing runs off no timer is ever set. */
  lemma NoTimerWithoutTrailing(o: Options, events: seq<Event>)
    requires !o.trailing
    ensures Run(o, INITIAL, events).timers == map[]
  {
    InitialValid(o);
    RunValid(o, INITIAL, events);
    hide Run;
    var s := Run(o, INITIAL, events);
    assert s.timers.Keys == {};
  }

  /** In every run a call returns the result of the latest run of the function, if there has been one. */
  lemma ReturnsLatest(o: Options, events: seq<Event>)
    ensures var s := Run(o, INITIAL, events);
            s.result == if s.invocations == [] then None else Some(Last(s))
  {
    InitialValid(o);
    RunValid(o, INITIAL, events);
  }

  /**
   * In every run a call is invoked at once exactly when `wait` has passed since the latest run of the function; while
   * there has been none, since the first call if leading runs are off, and since the epoch if they are on.
   */
  lemma InvokedAtOnce(o: Options, events: seq<Event>, now: nat, args: nat)
    requires Enabled(Run(o, INITIAL, events), Call(now, args))
    ensures var s := Run(o, INITIAL, events);
            Step(o, s, Call(now, args)).invocations == s.invocations + [Invocation(now, args)]
            <==> o.wait <= if s.invocations != [] then now - Last(s).time
                           else if o.leading then now
                           else if s.calls != [] then now - s.calls[0]
                           else 0
  {
    InitialValid(o);
    RunValid(o, INITIAL, events);
    hide Spaced, Run;
    var s := Run(o, INITIAL, events);
    assert s.invocations + [Invocation(now, args)] != s.invocations;
  }

  /** With leading runs off, a leading call is invoked at once all the same once the function has run before. */
  lemma LeadingOffStillLeads()
    ensures var o := Options(100, false, true);
            Run(o, INITIAL, [Call(1000, 0), Fire(1100, 0), Call(1300, 1)]).invocations
            == [Invocation(1100, 0), Invocation(1300, 1)]
  {
    var o := Options(100, false, true);
    var s1 := Next(o, INITIAL, Call(1000, 0));
    assert s1.timers == map[0 := 1100] && s1.timeout == Some(0);
    var s2 := Next(o, s1, Fire(1100, 0));
    assert s2.previous == Some(1100) && s2.invocations == [Invocation(1100, 0)];
    var s3 := Next(o, s2, Call(1300, 1));
    var events := [Call(1000, 0), Fire(1100, 0), Call(1300, 1)];
    assert events[1..] == [Fire(1100, 0), Call(1300, 1)] && events[1..][1..] == [Call(1300, 1)];
    assert Run(o, s2, [Call(1300, 1)]) == s3;
    assert Run(o, s1, [Fire(1100, 0), Call(1300, 1)]) == s3;
  }
}
