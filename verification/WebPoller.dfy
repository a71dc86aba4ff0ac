/**
 `poll.ts`: the workspace poll's scheduler. The async loop is cut where it awaits its task, so a
 run is a sequence of the calls, the timer and the task completions a browser serves one by one.
 A run of the loop is numbered: the number stands for the promise `trigger` hands out.
 */
module WebPoller {
  import opened Wrappers

  datatype Schedule = Schedule(
    running: Option<nat>,
    again: bool,
    timer: Option<nat>,
    stopped: bool,
    intervalMs: nat,
    runs: nat,
    tasksStarted: nat,
    tasksDone: nat
  )

  datatype Event =
    | Start
    | Stop
    | Trigger
    | SetInterval(ms: nat)
    | TimerFired
    | TaskCompleted

  function Triggered(s: Schedule): Schedule {
    if s.running.Some? then s.(again := true)
    else s.(timer := None, running := Some(s.runs), runs := s.runs + 1, again := false,
            tasksStarted := s.tasksStarted + 1)
  }

  function Step(s: Schedule, e: Event): Schedule {
    match e
    case Start => Triggered(s.(stopped := false))
    case Stop => s.(stopped := true, timer := None)
    case Trigger => Triggered(s)
    case SetInterval(ms) =>
      if s.intervalMs == ms then s
      else s.(intervalMs := ms, timer := if s.timer.Some? then Some(ms) else None)
    case TimerFired => if s.timer.Some? then Triggered(s.(timer := None)) else s
    case TaskCompleted =>
      if s.running.None? then s
      else if s.again then s.(again := false, tasksStarted := s.tasksStarted + 1, tasksDone := s.tasksDone + 1)
      else s.(running := None, tasksDone := s.tasksDone + 1,
              timer := if s.stopped then s.timer else Some(s.intervalMs))
  }

  class Poller {
    var running: Option<nat>
    var again: bool
    var timer: Option<nat>
    var stopped: bool
    var intervalMs: nat
    var runs: nat
    ghost var tasksStarted: nat
    ghost var tasksDone: nat

    ghost function View(): Schedule
      reads this
    {
      Schedule(running, again, timer, stopped, intervalMs, runs, tasksStarted, tasksDone)
    }

    constructor (intervalMs: nat)
      ensures View() == Created(intervalMs)
    {
      this.intervalMs := intervalMs;
      running, again, timer, stopped, runs := None, false, None, true, 0;
      tasksStarted, tasksDone := 0, 0;
    }

    method OnStart() returns (promise: nat)
      modifies this
      ensures View() == Step(old(View()), Start) && running == Some(promise)
    {
      stopped := false;
      promise := OnTrigger();
    }

    method OnSetInterval(ms: nat)
      modifies this
      ensures View() == Step(old(View()), SetInterval(ms))
    {
      if intervalMs == ms {
        return;
      }
      intervalMs := ms;
      if timer.Some? {
        CancelTimer();
        timer := Some(ms);
      }
    }

    method OnStop()
      modifies this
      ensures View() == Step(old(View()), Stop)
    {
      stopped := true;
      CancelTimer();
    }

    method OnTrigger() returns (promise: nat)
      modifies this
      ensures View() == Step(old(View()), Trigger) && running == Some(promise)
    {
      if running.Some? {
        again := true;
        return running.value;
      }
      CancelTimer();
      EnterLoop();
      promise := runs;
      runs := runs + 1;
      running := Some(promise);
    }

    method OnTimer()
      modifies this
      ensures View() == Step(old(View()), TimerFired)
    {
      if timer.Some? {
        timer := None;
        var _ := OnTrigger();
      }
    }

    /** The head of the loop's body, up to its await. */
    method EnterLoop()
      modifies this`again, this`tasksStarted
      ensures !again && tasksStarted == old(tasksStarted) + 1
    {
      again := false;
      tasksStarted := tasksStarted + 1;
    }

    /** The loop past its await: round again if asked to, else out through `finally`. */
    method OnTaskCompleted()
      modifies this
      ensures View() == Step(old(View()), TaskCompleted)
    {
      if running.None? {
        return;
      }
      tasksDone := tasksDone + 1;
      if again {
        EnterLoop();
      } else {
        running := None;
        if !stopped {
          timer := Some(intervalMs);
        }
      }
    }

    method CancelTimer()
      modifies this`timer
      ensures timer.None?
    {
      if timer.Some? {
        timer := None;
      }
    }
  }

  // ---- scheduling over every interleaving ---------------------------------------------------

  function Created(intervalMs: nat): Schedule {
    Schedule(None, false, None, true, intervalMs, 0, 0, 0)
  }

  function Run(s: Schedule, es: seq<Event>): Schedule
    decreases |es|
  {
    if es == [] then s else Run(Step(s, es[0]), es[1..])
  }

  predicate Scheduled(s: Schedule) {
    && s.tasksStarted == s.tasksDone + (if s.running.Some? then 1 else 0)
    && !(s.running.Some? && s.timer.Some?)
    && (if s.stopped then s.timer.None? else s.running.Some? || s.timer.Some?)
    && (s.again ==> s.running.Some?)
    && (s.timer.Some? ==> s.timer == Some(s.intervalMs))
    && (s.running.Some? ==> s.running.value + 1 == s.runs)
  }

  lemma ScheduleKept(s: Schedule, e: Event)
    requires Scheduled(s)
    ensures Scheduled(Step(s, e))
  {
  }

  /**
   Over every run: at most one task is in flight, a timer never coexists with one, a started and
   unstopped poller has one or the other, and a pending timer is set to the current interval.
   */
  lemma {:induction false} AlwaysScheduled(s: Schedule, es: seq<Event>)
    requires Scheduled(s)
    ensures Scheduled(Run(s, es))
    decreases |es|
  {
    if es != [] {
      ScheduleKept(s, es[0]);
      AlwaysScheduled(Step(s, es[0]), es[1..]);
    }
  }

  /** A promise handed out at `started` tasks is still owed a task, or has been given one. */
  predicate Owed(s: Schedule, promise: nat, started: nat) {
    && promise < s.runs
    && (s.running == Some(promise) ==> s.again || s.tasksStarted > started)
  }

  lemma {:induction false} StaysOwed(s: Schedule, es: seq<Event>, promise: nat, started: nat)
    requires Scheduled(s) && Owed(s, promise, started) && s.tasksStarted >= started
    ensures Owed(Run(s, es), promise, started) && Scheduled(Run(s, es))
    decreases |es|
  {
    if es != [] {
      ScheduleKept(s, es[0]);
      StaysOwed(Step(s, es[0]), es[1..], promise, started);
    }
  }

  /**
   Every trigger is served: whatever happens between, when the promise it was handed is about to
   resolve, a task has been started since the trigger (and that task is the one completing).
   */
  lemma TriggerIsServed(s: Schedule, es: seq<Event>)
    requires Scheduled(s)
    requires var promise := Step(s, Trigger).running;
             var later := Run(Step(s, Trigger), es);
             later.running == promise && Step(later, TaskCompleted).running != promise
    ensures Run(Step(s, Trigger), es).tasksStarted > s.tasksStarted
  {
    var called := Step(s, Trigger);
    ScheduleKept(s, Trigger);
    StaysOwed(called, es, called.running.value, s.tasksStarted);
  }

  predicate Asks(e: Event) {
    e.Trigger? || e.Start?
  }

  predicate AskedIn(es: seq<Event>) {
    exists i :: 0 <= i < |es| && Asks(es[i])
  }

  lemma {:induction false} DuringOneTask(s: Schedule, es: seq<Event>)
    requires Scheduled(s) && s.running.Some? && TaskCompleted !in es
    ensures var n := Run(s, es);
            && Scheduled(n)
            && n.running == s.running
            && n.tasksStarted == s.tasksStarted
            && (n.again <==> s.again || AskedIn(es))
    decreases |es|
  {
    if es != [] {
      assert es[0] in es;
      ScheduleKept(s, es[0]);
      DuringOneTask(Step(s, es[0]), es[1..]);
      var rest := es[1..];
      if Asks(es[0]) {
        assert AskedIn(es);
      } else if AskedIn(es) {
        var i :| 0 <= i < |es| && Asks(es[i]);
        assert rest[i - 1] == es[i];
      }
    }
  }

  /**
   Coalescing: however many triggers arrive during one task, they cause exactly one more task, and
   none if there were none; the task after that one is not followed by another on their account.
   */
  lemma TriggersCoalesce(s: Schedule, es: seq<Event>)
    requires Scheduled(s) && s.running.Some? && !s.again && TaskCompleted !in es
    ensures var n := Step(Run(s, es), TaskCompleted);
            if AskedIn(es)
            then n.running == s.running && n.tasksStarted == s.tasksStarted + 1
                 && Step(n, TaskCompleted).tasksStarted == n.tasksStarted
                 && Step(n, TaskCompleted).running.None?
            else n.running.None? && n.tasksStarted == s.tasksStarted
  {
    DuringOneTask(s, es);
  }

  /** A stopped and idle poller starts nothing until it is started or triggered again. */
  lemma {:induction false} StopsForGood(s: Schedule, es: seq<Event>)
    requires Scheduled(s) && s.stopped && s.running.None?
    requires forall e | e in es :: !Asks(e)
    ensures Run(s, es).tasksStarted == s.tasksStarted
    decreases |es|
  {
    if es != [] {
      ScheduleKept(s, es[0]);
      assert es[0] in es;
      StopsForGood(Step(s, es[0]), es[1..]);
    }
  }

  // ---- what starts a task, told from the events -------------------------------------------------

  /** The last interval asked for. */
  function LastInterval(intervalMs: nat, es: seq<Event>): nat
    decreases |es|
  {
    if es == [] then intervalMs
    else LastInterval(if es[0].SetInterval? then es[0].ms else intervalMs, es[1..])
  }

  /** Stopped last, rather than started. */
  predicate StoppedLast(stopped: bool, es: seq<Event>)
    decreases |es|
  {
    if es == [] then stopped
    else StoppedLast(if es[0].Start? then false else if es[0].Stop? then true else stopped, es[1..])
  }

  /** Completions of a task that was running. */
  function Completions(s: Schedule, es: seq<Event>): nat
    decreases |es|
  {
    if es == [] then 0
    else (if es[0].TaskCompleted? && s.running.Some? then 1 else 0) + Completions(Step(s, es[0]), es[1..])
  }

  /**
   The starts a run calls for: each trigger or start that finds nothing running, each firing of a
   pending timer, and each completion of a task during which another was `asked` for.
   */
  function Starts(s: Schedule, es: seq<Event>, asked: bool): nat
    decreases |es|
  {
    if es == [] then 0
    else
      var e, next := es[0], Step(s, es[0]);
      (if CallsForATask(s, e, asked) then 1 else 0) + Starts(next, es[1..], AskedAfter(s, e, asked))
  }

  predicate CallsForATask(s: Schedule, e: Event, asked: bool) {
    if Asks(e) then s.running.None?
    else if e.TimerFired? then s.timer.Some?
    else e.TaskCompleted? && s.running.Some? && asked
  }

  /** Whether another task has been asked for since the running one started. */
  predicate AskedAfter(s: Schedule, e: Event, asked: bool) {
    if Asks(e) then s.running.Some?
    else if e.TimerFired? then asked && s.timer.None?
    else asked && !e.TaskCompleted?
  }

  lemma AccountNext(s: Schedule, e: Event)
    requires Scheduled(s)
    ensures var n := Step(s, e);
            && n.tasksStarted == s.tasksStarted + (if CallsForATask(s, e, s.again) then 1 else 0)
            && n.tasksDone == s.tasksDone + (if e.TaskCompleted? && s.running.Some? then 1 else 0)
            && n.again == AskedAfter(s, e, s.again)
            && n.stopped == (if e.Start? then false else if e.Stop? then true else s.stopped)
            && n.intervalMs == if e.SetInterval? then e.ms else s.intervalMs
  {
  }

  /**
   Accounting over every run: exactly those starts happen, exactly those completions, and the poller
   is running, waiting or stopped accordingly, with the interval asked for last on its timer.
   */
  lemma {:induction false} TasksAccounted(s: Schedule, es: seq<Event>, asked: bool)
    requires Scheduled(s) && asked == s.again
    ensures var n := Run(s, es);
            && n.tasksStarted == s.tasksStarted + Starts(s, es, asked)
            && n.tasksDone == s.tasksDone + Completions(s, es)
            && (n.running.Some? <==> n.tasksStarted > n.tasksDone)
            && n.timer == (if n.running.Some? || StoppedLast(s.stopped, es) then None
                           else Some(LastInterval(s.intervalMs, es)))
    decreases |es|
  {
    if es != [] {
      hide Step, Scheduled, CallsForATask, AskedAfter;
      ScheduleKept(s, es[0]);
      AccountNext(s, es[0]);
      TasksAccounted(Step(s, es[0]), es[1..], AskedAfter(s, es[0], asked));
    }
  }
}
