/** The `nextTick` queue: tasks run in order from a timer, and a cleanup timer goes on after a task that throws. */
module NextTick {
  import opened JsText

  /** What running a task does: it queues further tasks, in order, and then returns or throws. */
  datatype Task = Task(id: nat, spawns: seq<Task>, throws: bool)

  function Size(q: seq<Task>): nat {
    if q == [] then 0 else 1 + Size(q[0].spawns) + Size(q[1..])
  }

  lemma {:induction false} SizeConcat(a: seq<Task>, b: seq<Task>)
    ensures Size(a + b) == Size(a) + Size(b)
  {
    if a == [] {
      assert a + b == b;
    } else {
      SizeConcat(a[1..], b);
      assert (a + b)[1..] == a[1..] + b;
    }
  }

  /** The queue after its first task has run. */
  function Tail(q: seq<Task>): seq<Task>
    requires q != []
    ensures Size(Tail(q)) == Size(q) - 1
  {
    SizeConcat(q[1..], q[0].spawns);
    q[1..] + q[0].spawns
  }

  /** The tasks run up to and including the first that throws, what is left of the queue, and whether one threw. */
  datatype Outcome = Outcome(done: seq<Task>, rest: seq<Task>, threw: bool)

  function Drain(q: seq<Task>): Outcome
    decreases Size(q)
  {
    if q == [] then Outcome([], [], false)
    else if q[0].throws then Outcome([q[0]], Tail(q), true)
    else After([q[0]], Drain(Tail(q)))
  }

  function After(done: seq<Task>, o: Outcome): Outcome {
    o.(done := done + o.done)
  }

  function AllSpawns(done: seq<Task>): seq<Task> {
    if done == [] then [] else AllSpawns(done[..|done| - 1]) + done[|done| - 1].spawns
  }

  lemma Advance(start: seq<Task>, done: seq<Task>, q: seq<Task>)
    requires q != [] && Drain(start) == After(done, Drain(q))
    ensures Tail(q) == q[1..] + q[0].spawns
    ensures Drain(start) == if q[0].throws then Outcome(done + [q[0]], Tail(q), true)
                            else After(done + [q[0]], Drain(Tail(q)))
    ensures AllSpawns(done + [q[0]]) == AllSpawns(done) + q[0].spawns
  {
  }

  /** One turn of the loop over the current list: its task runs, and what that queues goes to the end. */
  lemma BatchStep(start: seq<Task>, done: seq<Task>, current: seq<Task>, i: nat, queue: seq<Task>)
    requires i < |current| && Drain(start) == After(done, Drain(current[i..] + queue))
    ensures var task, rest := current[i], current[i + 1..] + (queue + current[i].spawns);
            && Drain(start) == (if task.throws then Outcome(done + [task], rest, true)
                                else After(done + [task], Drain(rest)))
            && AllSpawns(done + [task]) == AllSpawns(done) + task.spawns
            && Size(rest) < Size(current[i..] + queue)
  {
    var q := current[i..] + queue;
    assert q[0] == current[i] && q[1..] == current[i + 1..] + queue;
    Advance(start, done, q);
    SizeOfTail(q);
    hide Drain, AllSpawns, Size, Tail;
    Assoc(current[i + 1..], queue, current[i].spawns);
  }

  // ---------- the queue as a state machine ----------

  /**
   * `pending` are the tasks not run yet, in order; `interrupted` means a task threw and the cleanup timer is set;
   * `drainTimers` counts the other timers; `ran` and `queued` are the tasks run and passed to `nextTick` so far.
   */
  datatype State = State(pending: seq<Task>, interrupted: bool, drainTimers: nat, ran: seq<Task>, queued: seq<Task>)

  const INITIAL := State([], false, 0, [], [])

  datatype Event = Enqueue(task: Task) | DrainTimer | CleanupTimer

  function Enqueued(s: State, task: Task): State {
    s.(pending := s.pending + [task], queued := s.queued + [task],
       drainTimers := if s.pending == [] && !s.interrupted then s.drainTimers + 1 else s.drainTimers)
  }

  function Drained(s: State): State {
    var o := Drain(s.pending);
    s.(pending := o.rest, interrupted := o.threw, ran := s.ran + o.done, queued := s.queued + AllSpawns(o.done))
  }

  function Next(s: State, e: Event): State {
    match e
    case Enqueue(task) => Enqueued(s, task)
    case DrainTimer =>
      if s.drainTimers == 0 then s
      else
        var s' := s.(drainTimers := s.drainTimers - 1);
        if s.interrupted then s' else Drained(s')
    case CleanupTimer => if s.interrupted then Drained(s) else s
  }

  function Run(s: State, events: seq<Event>): State
    decreases |events|
  {
    if events == [] then s else Run(Next(s, events[0]), events[1..])
  }

  // ---------- the module's variables and functions ----------

  class Process {
    var queue: seq<Task>
    var currentQueue: Option<seq<Task>>
    var draining: bool
    var queueIndex: int
    var drainTimers: nat
    var cleanupTimer: bool
    ghost var ran: seq<Task>
    ghost var queued: seq<Task>

    /** Between timers: idle with everything in `queue`, or stopped at the task that threw. */
    ghost predicate Valid()
      reads this
    {
      if draining then currentQueue.Some? && 0 <= queueIndex < |currentQueue.value| && cleanupTimer
      else currentQueue.None? && queueIndex == -1 && !cleanupTimer
    }

    ghost function Pending(): seq<Task>
      reads this
    {
      if draining && currentQueue.Some? && -1 <= queueIndex < |currentQueue.value|
      then currentQueue.value[queueIndex + 1..] + queue else queue
    }

    ghost function View(): State
      reads this
    {
      State(Pending(), draining, drainTimers, ran, queued)
    }

    constructor ()
      ensures Valid() && View() == INITIAL
    {
      queue, currentQueue, draining, queueIndex := [], None, false, -1;
      drainTimers, cleanupTimer := 0, false;
      ran, queued := [], [];
    }

    /** Queues a task; the first one queued while nothing is draining sets a timer. */
    method Push(task: Task)
      modifies `queue, `drainTimers, `queued
      ensures queue == old(queue) + [task] && queued == old(queued) + [task]
      ensures drainTimers == if old(queue) == [] && !draining then old(drainTimers) + 1 else old(drainTimers)
    {
      queue := queue + [task];
      queued := queued + [task];
      if |queue| == 1 && !draining {
        drainTimers := drainTimers + 1;
      }
    }

    method NextTick(task: Task)
      requires Valid()
      modifies `queue, `drainTimers, `queued
      ensures Valid() && View() == Enqueued(old(View()), task)
    {
      Push(task);
    }

    method RunTask(task: Task) returns (threw: bool)
      requires draining
      modifies `queue, `drainTimers, `queued, `ran
      ensures queue == old(queue) + task.spawns && queued == old(queued) + task.spawns
      ensures ran == old(ran) + [task] && drainTimers == old(drainTimers) && threw == task.throws
    {
      ran := ran + [task];
      var i := 0;
      while i < |task.spawns|
        invariant 0 <= i <= |task.spawns|
        invariant queue == old(queue) + task.spawns[..i] && queued == old(queued) + task.spawns[..i]
        invariant ran == old(ran) + [task] && drainTimers == old(drainTimers)
      {
        Push(task.spawns[i]);
        i := i + 1;
      }
      threw := task.throws;
    }

    /** Runs the tasks of `currentQueue` from `queueIndex` on, until one throws or the list ends. */
    method RunBatch(len: nat) returns (threw: bool, ghost done: seq<Task>)
      requires draining && currentQueue.Some? && len == |currentQueue.value| && 0 <= queueIndex <= len
      modifies `queue, `queueIndex, `drainTimers, `queued, `ran
      ensures drainTimers == old(drainTimers)
      ensures ran == old(ran) + done && queued == old(queued) + AllSpawns(done)
      ensures var start := currentQueue.value[old(queueIndex)..] + old(queue);
              if threw then 0 <= queueIndex < len
                            && Drain(start) == Outcome(done, currentQueue.value[queueIndex + 1..] + queue, true)
              else queueIndex == len && Drain(start) == After(done, Drain(queue))
                   && (if old(queueIndex) == len then queue == old(queue) else Size(queue) < Size(start))
    {
      hide Drain, AllSpawns, Tail, Size, After;
      var current := currentQueue.value;
      ghost var start := current[queueIndex..] + queue;
      done := [];
      Nothing(start);
      while queueIndex < len
        invariant old(queueIndex) <= queueIndex <= len && drainTimers == old(drainTimers)
        invariant Drain(start) == After(done, Drain(current[queueIndex..] + queue))
        invariant ran == old(ran) + done && queued == old(queued) + AllSpawns(done)
        invariant if queueIndex == old(queueIndex) then queue == old(queue)
                  else Size(current[queueIndex..] + queue) < Size(start)
      {
        var task := current[queueIndex];
        BatchStep(start, done, current, queueIndex, queue);
        Assoc(queued, AllSpawns(done), task.spawns);
        var failed := RunTask(task);
        done := done + [task];
        if failed {
          return true, done;
        }
        queueIndex := queueIndex + 1;
      }
      assert current[queueIndex..] + queue == queue;
      threw := false;
    }

    /** Runs the tasks of `queue` after `queueIndex`, and the tasks they queue, until one throws or none is left. */
    method DrainQueue() returns (threw: bool)
      requires !draining && -1 <= queueIndex
      requires (queue != [] ==> queueIndex < |queue|) && (queue == [] ==> queueIndex == -1)
      modifies this
      ensures Valid() && drainTimers == old(drainTimers) && threw == draining
      ensures var o := Drain(old(queue[queueIndex + 1..]));
              && Pending() == o.rest && draining == o.threw
              && ran == old(ran) + o.done && queued == old(queued) + AllSpawns(o.done)
    {
      hide Drain, AllSpawns, Tail, Size;
      ghost var start, done := queue[queueIndex + 1..], [];
      Nothing(start);
      cleanupTimer := true;
      draining := true;
      var len := |queue|;
      while len != 0
        invariant draining && cleanupTimer && drainTimers == old(drainTimers) && len == |queue|
        invariant -1 <= queueIndex && (queue != [] ==> queueIndex < |queue|) && (queue == [] ==> queueIndex == -1)
        invariant Drain(start) == After(done, Drain(queue[queueIndex + 1..]))
        invariant ran == old(ran) + done && queued == old(queued) + AllSpawns(done)
        decreases Size(queue[queueIndex + 1..]), len
      {
        ghost var before := queue[queueIndex + 1..];
        currentQueue := Some(queue);
        queue := [];
        queueIndex := queueIndex + 1;
        assert currentQueue.value[queueIndex..] + queue == before;
        ghost var batch;
        threw, batch := RunBatch(len);
        AfterTwice(done, batch, if threw then Outcome([], Pending(), true) else Drain(queue));
        Assoc(old(ran), done, batch);
        Assoc(old(queued), AllSpawns(done), AllSpawns(batch));
        done := done + batch;
        if threw {
          assert batch + [] == batch && done + [] == done;
          return;
        }
        queueIndex := -1;
        len := |queue|;
        assert queue[queueIndex + 1..] == queue;
      }
      assert queue[queueIndex + 1..] == [] && done + [] == done;
      Nothing([]);
      currentQueue := None;
      draining := false;
      cleanupTimer := false;
      threw := false;
    }

    /** The timer set by `nextTick`. */
    method OnDrainTimer()
      requires Valid() && drainTimers > 0
      modifies this
      ensures Valid() && View() == Next(old(View()), DrainTimer)
    {
      drainTimers := drainTimers - 1;
      if !draining {
        assert queue[queueIndex + 1..] == queue;
        var threw := DrainQueue();
      }
    }

    /** The timer a drain sets before it starts, and clears when it ends without a throw. */
    method OnCleanupTimer()
      requires Valid() && cleanupTimer
      modifies this
      ensures Valid() && View() == Next(old(View()), CleanupTimer)
    {
      cleanupTimer := false;
      ghost var pending := Pending();
      draining := false;
      queue := currentQueue.value + queue;
      assert queue[queueIndex + 1..] == pending;
      if |queue| > 0 {
        var threw := DrainQueue();
      }
    }
  }

  lemma AfterTwice(a: seq<Task>, b: seq<Task>, o: Outcome)
    ensures After(a, After(b, o)) == After(a + b, o)
    ensures AllSpawns(a + b) == AllSpawns(a) + AllSpawns(b)
  {
    Assoc(a, b, o.done);
    AllSpawnsConcat(a, b);
  }

  lemma {:induction false} AllSpawnsConcat(a: seq<Task>, b: seq<Task>)
    ensures AllSpawns(a + b) == AllSpawns(a) + AllSpawns(b)
    decreases |b|
  {
    if b == [] {
      assert a + b == a;
    } else {
      var n := |b| - 1;
      AllSpawnsConcat(a, b[..n]);
      AllSpawnsLast(b[..n], b[n]);
      AllSpawnsLast(a + b[..n], b[n]);
      hide AllSpawns;
      assert b == b[..n] + [b[n]] && a + b == a + b[..n] + [b[n]];
      Assoc(AllSpawns(a), AllSpawns(b[..n]), b[n].spawns);
    }
  }

  lemma AllSpawnsLast(done: seq<Task>, task: Task)
    ensures AllSpawns(done + [task]) == AllSpawns(done) + task.spawns
  {
    assert (done + [task])[..|done|] == done;
  }

  lemma Nothing(q: seq<Task>)
    ensures After([], Drain(q)) == Drain(q) && AllSpawns([]) == [] && Drain([]) == Outcome([], [], false)
  {
  }

  // ---------- properties ----------

  /**
   * The tasks run are the first ones queued, in order, each once; the others are pending; and while any is pending a
   * timer that will run it is set.
   */
  predicate Sound(s: State) {
    && s.ran + s.pending == s.queued
    && s.drainTimers == (if s.pending != [] && !s.interrupted then 1 else 0)
    && (s.interrupted ==> s.ran != [] && s.ran[|s.ran| - 1].throws)
  }

  /** Draining moves tasks from pending to run without changing the order they were queued in. */
  lemma {:induction false} DrainConserves(q: seq<Task>)
    ensures var o := Drain(q); o.done + o.rest == q + AllSpawns(o.done)
    ensures !Drain(q).threw ==> Drain(q).rest == []
    ensures Drain(q).threw ==> Drain(q).done != [] && Drain(q).done[|Drain(q).done| - 1].throws
    decreases Size(q)
  {
    if q == [] {
      Nothing([]);
    } else {
      AllSpawnsOne(q[0]);
      assert [q[0]] + q[1..] == q;
      Assoc([q[0]], q[1..], q[0].spawns);
      if !q[0].throws {
        var o := Drain(Tail(q));
        DrainConserves(Tail(q));
        AllSpawnsConcat([q[0]], o.done);
        Assoc([q[0]], o.done, o.rest);
        Assoc([q[0]], Tail(q), AllSpawns(o.done));
        Assoc(q, q[0].spawns, AllSpawns(o.done));
      }
    }
  }

  lemma AllSpawnsOne(t: Task)
    ensures AllSpawns([t]) == t.spawns
  {
  }

  lemma NextSound(s: State, e: Event)
    requires Sound(s)
    ensures Sound(Next(s, e))
  {
    match e {
      case Enqueue(task) =>
        Assoc(s.ran, s.pending, [task]);
      case _ =>
        var o := Drain(s.pending);
        DrainConserves(s.pending);
        Assoc(s.ran, o.done, o.rest);
        Assoc(s.ran, s.pending, AllSpawns(o.done));
    }
  }

  lemma {:induction false} RunSound(s: State, events: seq<Event>)
    requires Sound(s)
    ensures Sound(Run(s, events))
    decreases |events|
  {
    hide Sound;
    if events != [] {
      NextSound(s, events[0]);
      RunSound(Next(s, events[0]), events[1..]);
    }
  }

  /**
   * In every run: tasks run in the order they were queued, at most once. While any is left exactly one timer is set,
   * the drain timer or, after a task that threw, the cleanup timer; no drain timer is set while none is left.
   */
  lemma RunInOrder(events: seq<Event>)
    ensures var s := Run(INITIAL, events);
            && s.ran <= s.queued && s.pending == s.queued[|s.ran|..]
            && s.drainTimers == (if s.pending != [] && !s.interrupted then 1 else 0)
            && (s.interrupted ==> s.ran != [] && s.ran[|s.ran| - 1].throws)
  {
    RunSound(INITIAL, events);
  }

  /** While a task that threw has its cleanup timer set, no drain timer runs anything. */
  lemma InterruptedWaits(s: State)
    requires s.interrupted
    ensures Next(s, DrainTimer).ran == s.ran && Next(s, DrainTimer).pending == s.pending
    ensures Next(s, DrainTimer).interrupted
  {
  }

  /** A task passed to `nextTick` is queued behind everything, and not run yet. */
  lemma QueuedLast(s: State, task: Task)
    ensures var s' := Next(s, Enqueue(task));
            && s'.pending == s.pending + [task] && s'.queued == s.queued + [task] && s'.ran == s.ran
            && s'.interrupted == s.interrupted
  {
  }

  /** A run: the first of two tasks throws, and the cleanup timer runs the other, and then what the first one queued. */
  lemma ThrowThenCleanup(c: Task)
    requires c.spawns == [] && !c.throws
    ensures var a, b := Task(1, [c], true), Task(2, [], false);
            && Run(INITIAL, [Enqueue(a), Enqueue(b), DrainTimer]).ran == [a]
            && Run(INITIAL, [Enqueue(a), Enqueue(b), DrainTimer, CleanupTimer]).ran == [a, b, c]
  {
    var a, b := Task(1, [c], true), Task(2, [], false);
    RunThree(INITIAL, Enqueue(a), Enqueue(b), DrainTimer);
    RunFour(INITIAL, Enqueue(a), Enqueue(b), DrainTimer, CleanupTimer);
    BothQueued(a, b);
    FirstThrows(a, b);
    CleanupGoesOn(State([b] + [c], true, 0, [a], [a, b] + [c]), b, c);
    hide Next, Run;
    assert [a] + [b, c] == [a, b, c];
  }

  lemma BothQueued(a: Task, b: Task)
    ensures Next(Next(INITIAL, Enqueue(a)), Enqueue(b)) == State([a, b], false, 1, [], [a, b])
  {
    assert [] + [a] == [a] && [a] + [b] == [a, b];
  }

  lemma FirstThrows(a: Task, b: Task)
    requires a.throws
    ensures Next(State([a, b], false, 1, [], [a, b]), DrainTimer)
         == State([b] + a.spawns, true, 0, [a], [a, b] + a.spawns)
  {
    assert [a, b][1..] == [b] && [] + [a] == [a];
    AllSpawnsOne(a);
  }

  lemma CleanupGoesOn(s: State, b: Task, c: Task)
    requires s.interrupted && s.pending == [b] + [c]
    requires b.spawns == [] && c.spawns == [] && !b.throws && !c.throws
    ensures Next(s, CleanupTimer).ran == s.ran + [b, c]
  {
    assert Tail([c]) == [] && Drain([c]) == After([c], Drain([]));
    assert ([b] + [c])[1..] == [c];
    assert Tail([b] + [c]) == [c] && Drain([b] + [c]) == After([b], Drain([c]));
    hide Drain, Tail, AllSpawns;
    assert [b] + ([c] + []) == [b, c];
  }

  lemma RunThree(s: State, e1: Event, e2: Event, e3: Event)
    ensures Run(s, [e1, e2, e3]) == Next(Next(Next(s, e1), e2), e3)
  {
    hide Next;
    assert [e1, e2, e3][1..] == [e2, e3] && [e2, e3][1..] == [e3] && [e3][1..] == [];
    var s1 := Next(s, e1);
    var s2 := Next(s1, e2);
    assert Run(s2, [e3]) == Next(s2, e3);
    assert Run(s1, [e2, e3]) == Run(s2, [e3]);
  }

  lemma RunFour(s: State, e1: Event, e2: Event, e3: Event, e4: Event)
    ensures Run(s, [e1, e2, e3, e4]) == Next(Next(Next(Next(s, e1), e2), e3), e4)
  {
    hide Next;
    assert [e1, e2, e3, e4][1..] == [e2, e3, e4];
    RunThree(Next(s, e1), e2, e3, e4);
  }

  /** The order all tasks run in, throws or not: first in, first out, what a task queues going to the end. */
  function Fifo(q: seq<Task>): seq<Task>
    decreases Size(q)
  {
    if q == [] then [] else [q[0]] + Fifo(Tail(q))
  }

  /** A throw loses nothing: what has run and what the cleanup will run make up the whole first-in first-out order. */
  lemma {:induction false} ThrowLosesNothing(q: seq<Task>)
    ensures Fifo(q) == Drain(q).done + Fifo(Drain(q).rest)
    decreases Size(q)
  {
    if q != [] && !q[0].throws {
      ThrowLosesNothing(Tail(q));
    }
  }

  /** Timers alone never change what will have run in the end. */
  lemma TimersKeepOrder(s: State, e: Event)
    requires !e.Enqueue?
    ensures Next(s, e).ran + Fifo(Next(s, e).pending) == s.ran + Fifo(s.pending)
  {
    ThrowLosesNothing(s.pending);
    var o := Drain(s.pending);
    Assoc(s.ran, o.done, Fifo(o.rest));
  }

  /** How often `t` occurs in a list of task trees. */
  function Nodes(q: seq<Task>, t: Task): nat {
    if q == [] then 0 else (if q[0] == t then 1 else 0) + Nodes(q[0].spawns, t) + Nodes(q[1..], t)
  }

  lemma {:induction false} NodesConcat(a: seq<Task>, b: seq<Task>, t: Task)
    ensures Nodes(a + b, t) == Nodes(a, t) + Nodes(b, t)
  {
    if a == [] {
      assert a + b == b;
    } else {
      NodesConcat(a[1..], b, t);
      assert (a + b)[1..] == a[1..] + b;
    }
  }

  /** Every task of the queue, and every task they queue in turn, runs exactly once. */
  lemma {:induction false} EachRunsOnce(q: seq<Task>, t: Task)
    ensures multiset(Fifo(q))[t] == Nodes(q, t)
    decreases Size(q)
  {
    if q != [] {
      EachRunsOnce(Tail(q), t);
      NodesConcat(q[1..], q[0].spawns, t);
    }
  }

  // ---------- everything runs in the end ----------

  lemma {:induction false} DrainShrinks(q: seq<Task>)
    requires q != []
    ensures Size(Drain(q).rest) < Size(q)
    decreases Size(q)
  {
    hide Tail;
    SizeOfTail(q);
    if !q[0].throws && Tail(q) != [] {
      DrainShrinks(Tail(q));
    }
  }

  lemma SizeOfTail(q: seq<Task>)
    requires q != []
    ensures Size(Tail(q)) == Size(q) - 1 && Size([]) == 0
  {
  }

  /** Timers only, each of which is set when it fires. */
  predicate Fire(s: State, timers: seq<Event>)
    decreases |timers|
  {
    timers == [] ||
    (match timers[0]
     case Enqueue(_) => false
     case DrainTimer => s.drainTimers > 0 && Fire(Next(s, timers[0]), timers[1..])
     case CleanupTimer => s.interrupted && Fire(Next(s, timers[0]), timers[1..]))
  }

  lemma TimerProgress(s: State, e: Event)
    requires e == DrainTimer ==> s.drainTimers > 0
    requires e == CleanupTimer ==> s.interrupted
    requires !e.Enqueue?
    ensures var s' := Next(s, e);
            if s.pending == [] then s'.pending == []
            else Size(s'.pending) + s'.drainTimers < Size(s.pending) + s.drainTimers
  {
    hide Size, Drain;
    if s.pending != [] {
      DrainShrinks(s.pending);
    } else {
      Nothing([]);
    }
  }

  lemma {:induction false} TimersFinish(s: State, timers: seq<Event>)
    requires Fire(s, timers) && |timers| >= Size(s.pending) + s.drainTimers
    ensures Run(s, timers).pending == []
    ensures Run(s, timers).ran == s.ran + Fifo(s.pending)
    decreases |timers|
  {
    hide Size, Next;
    if timers == [] {
      NoSize(s.pending);
      assert s.ran + Fifo([]) == s.ran;
    } else {
      var s' := Next(s, timers[0]);
      TimerProgress(s, timers[0]);
      TimersKeepOrder(s, timers[0]);
      if s.pending == [] {
        StaysEmpty(s', timers[1..]);
        assert s.ran + Fifo([]) == s.ran && s'.ran + Fifo([]) == s'.ran;
      } else {
        TimersFinish(s', timers[1..]);
      }
    }
  }

  lemma NoSize(q: seq<Task>)
    ensures Size(q) == 0 ==> q == []
  {
  }

  lemma {:induction false} StaysEmpty(s: State, timers: seq<Event>)
    requires Fire(s, timers) && s.pending == []
    ensures Run(s, timers).pending == [] && Run(s, timers).ran == s.ran
    decreases |timers|
  {
    hide Next;
    if timers != [] {
      TimerProgress(s, timers[0]);
      TimersKeepOrder(s, timers[0]);
      var s' := Next(s, timers[0]);
      assert s.ran + Fifo([]) == s.ran && s'.ran + Fifo([]) == s'.ran;
      StaysEmpty(s', timers[1..]);
    }
  }

  /**
   * From any point of any run, once as many set timers have fired as there are tasks in the pending trees and drain
   * timers, nothing is pending: every task and every task those queue has run exactly once, first in first out.
   */
  lemma EverythingRuns(before: seq<Event>, timers: seq<Event>, t: Task)
    requires var s := Run(INITIAL, before); Fire(s, timers) && |timers| >= Size(s.pending) + s.drainTimers
    ensures var s, s' := Run(INITIAL, before), Run(Run(INITIAL, before), timers);
            && s'.pending == [] && s'.ran == s'.queued && s'.ran == s.ran + Fifo(s.pending)
            && multiset(s'.ran)[t] == multiset(s.ran)[t] + Nodes(s.pending, t)
  {
    var s := Run(INITIAL, before);
    TimersFinish(s, timers);
    EachRunsOnce(s.pending, t);
    RunSound(INITIAL, before);
    RunSound(s, timers);
    hide Run, Fifo, Nodes;
    var s' := Run(s, timers);
    assert s'.ran + [] == s'.ran;
  }
}
