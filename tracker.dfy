/** The tracker component: its state, the three operations as transitions on
    that state, the component as a class whose methods perform them in place,
    and what holds over any run of user actions and clock ticks. */
module Tracker {
  import opened Options
  import opened Tasks
  import opened Lock
  import opened Progress
  import Countdown

  /** The component's state: the four persisted fields, then the lock flag and
      countdown left by the most recent lock check. */
  datatype State = State(
    tasks: seq<Task>,
    progress: int,
    lastDoneTime: Option<int>,
    dayCount: int,
    isLocked: bool,
    unlockTimer: int)

  /** `isDoneButtonEnabled`: every task is checked and the last lock check
      found the tracker open. */
  function DoneButtonEnabled(s: State): (enabled: bool)
    ensures enabled <==> (forall i :: 0 <= i < |s.tasks| ==> s.tasks[i].isChecked) && !s.isLocked
  {
    AllTasksCompleted(s.tasks) && !s.isLocked
  }

  /** `checkLockStatus` at time `now`: only the lock flag and countdown change. */
  function CheckLock(s: State, now: int): (t: State)
    ensures t.tasks == s.tasks && t.progress == s.progress
    ensures t.lastDoneTime == s.lastDoneTime && t.dayCount == s.dayCount
    ensures t.isLocked <==> InCooldown(s.lastDoneTime, now)
    ensures t.isLocked ==> 0 < t.unlockTimer && now + t.unlockTimer == s.lastDoneTime.value + HALF_DAY_IN_MS
    ensures !t.isLocked ==> t.unlockTimer == 0
  {
    var l := LockAt(s.lastDoneTime, now);
    s.(isLocked := l.isLocked, unlockTimer := l.unlockTimer)
  }

  /** `handleTaskToggle(taskId)`: only the checklist changes. */
  function Toggle(s: State, taskId: int): (t: State)
    ensures t.tasks == ToggleTask(s.tasks, taskId)
    ensures t.(tasks := s.tasks) == s
  {
    s.(tasks := ToggleTask(s.tasks, taskId))
  }

  /** `handleDone` at time `now`, as one atomic update. */
  function Done(s: State, now: int): (t: State)
    ensures !DoneButtonEnabled(s) ==> t == s
    ensures DoneButtonEnabled(s) ==> t.progress == NextProgress(s.progress)
    ensures DoneButtonEnabled(s) ==>
      t.progress <= PROGRESS_CAP && (s.progress <= PROGRESS_CAP ==> s.progress <= t.progress)
      && t.lastDoneTime == Some(now) && t.dayCount == s.dayCount + 1
      && t.tasks == InitialTasks && (forall i :: 0 <= i < |t.tasks| ==> !t.tasks[i].isChecked)
      && t.isLocked == s.isLocked && t.unlockTimer == s.unlockTimer
    ensures DoneButtonEnabled(s) ==> !DoneButtonEnabled(t)
  {
    if !DoneButtonEnabled(s) then s
    else
      InitialTasksUnchecked();
      s.(progress := NextProgress(s.progress),
         lastDoneTime := Some(now),
         dayCount := s.dayCount + 1,
         tasks := InitialTasks)
  }

  /** What can happen to the component: a checkbox click, a run of the lock
      check (on mount and every second), or a click on the Done button. */
  datatype Event = ToggleEvent(taskId: int) | TickEvent(now: int) | DoneEvent(now: int)

  /** One event. A Done click that changes `lastDoneTime` re-runs the lock
      check, as the effect that depends on `lastDoneTime` does. Only a lock
      check or a completion moves the lock flag; the stamp moves only when a
      completion fires, and then the lock is re-evaluated at the new stamp. */
  function Step(s: State, e: Event): (t: State)
    ensures e.ToggleEvent? ==> t.isLocked == s.isLocked && t.lastDoneTime == s.lastDoneTime
    ensures e.TickEvent? ==>
      (t.tasks == s.tasks && t.lastDoneTime == s.lastDoneTime
       && (t.isLocked <==> InCooldown(s.lastDoneTime, e.now)))
    ensures !Fires(s, e) ==> t.progress == s.progress && t.dayCount == s.dayCount
    ensures e.DoneEvent? && !Fires(s, e) ==> t == s
    ensures t.lastDoneTime != s.lastDoneTime ==>
      (Fires(s, e) && t.lastDoneTime == Some(e.now)
       && (t.isLocked <==> InCooldown(t.lastDoneTime, e.now)))
  {
    match e
    case ToggleEvent(taskId) => Toggle(s, taskId)
    case TickEvent(now) => CheckLock(s, now)
    case DoneEvent(now) =>
      var t := Done(s, now);
      if t.lastDoneTime != s.lastDoneTime then CheckLock(t, now) else t
  }

  /** Whether event `e` fires the completion engine from state `s`. */
  predicate Fires(s: State, e: Event) {
    e.DoneEvent? && DoneButtonEnabled(s)
  }

  function Run(s: State, evs: seq<Event>): State
    decreases |evs|
  {
    if evs == [] then s else Run(Step(s, evs[0]), evs[1..])
  }

  /** The number of completions a run records. */
  function Completions(s: State, evs: seq<Event>): nat
    decreases |evs|
  {
    if evs == [] then 0
    else (if Fires(s, evs[0]) then 1 else 0) + Completions(Step(s, evs[0]), evs[1..])
  }

  /** One event moves progress and the day counter only when it fires. */
  lemma StepCounts(s: State, e: Event)
    ensures Fires(s, e) ==>
      (Step(s, e).progress == NextProgress(s.progress) && Step(s, e).dayCount == s.dayCount + 1)
    ensures !Fires(s, e) ==>
      (Step(s, e).progress == s.progress && Step(s, e).dayCount == s.dayCount)
  {
  }

  /** Over any run, the day counter grows by the number of completions, and
      progress from a start within the goal is the start plus 5 per
      completion, capped at 100. */
  lemma {:induction false} RunCounts(s: State, evs: seq<Event>)
    ensures Run(s, evs).dayCount == s.dayCount + Completions(s, evs)
    ensures s.progress <= PROGRESS_CAP ==>
      Run(s, evs).progress == Min(PROGRESS_CAP, s.progress + PROGRESS_INCREMENT * Completions(s, evs))
    decreases |evs|
  {
    if evs != [] {
      var t := Step(s, evs[0]);
      StepCounts(s, evs[0]);
      RunCounts(t, evs[1..]);
    }
  }

  /** Running two runs back to back is one run over both. */
  lemma {:induction false} RunAppend(s: State, a: seq<Event>, b: seq<Event>)
    ensures Run(s, a + b) == Run(Run(s, a), b)
    decreases |a|
  {
    if a != [] {
      assert (a + b)[0] == a[0];
      assert (a + b)[1..] == a[1..] + b;
      RunAppend(Step(s, a[0]), a[1..], b);
    } else {
      assert a + b == b;
    }
  }

  /** Progress never decreases along a run that starts within the goal, and
      never exceeds 100. */
  lemma ProgressMonotone(s: State, evs: seq<Event>, i: nat, j: nat)
    requires s.progress <= PROGRESS_CAP && i <= j <= |evs|
    ensures Run(s, evs[..i]).progress <= Run(s, evs[..j]).progress <= PROGRESS_CAP
  {
    var mid := Run(s, evs[..i]);
    RunCounts(s, evs[..i]);
    assert evs[..j] == evs[..i] + evs[i..j];
    RunAppend(s, evs[..i], evs[i..j]);
    RunCounts(mid, evs[i..j]);
  }

  /** The clock reading an event carries; a checkbox click carries none. */
  function ClockAfter(clock: int, e: Event): int {
    match e
    case ToggleEvent(_) => clock
    case TickEvent(now) => now
    case DoneEvent(now) => now
  }

  /** The clock does not go backwards. */
  predicate TimeOk(clock: int, e: Event) {
    clock <= ClockAfter(clock, e)
  }

  predicate Chronological(clock: int, evs: seq<Event>)
    decreases |evs|
  {
    evs == [] || (TimeOk(clock, evs[0]) && Chronological(ClockAfter(clock, evs[0]), evs[1..]))
  }

  /** The lock flag is up whenever the clock is within the cooldown. It can lag
      behind the clock only by leaving the lock up too long, never by opening
      it early. */
  predicate LockInvariant(s: State, clock: int) {
    InCooldown(s.lastDoneTime, clock) ==> s.isLocked
  }

  /** Any lock check establishes the invariant at its own time. */
  lemma CheckLockEstablishes(s: State, now: int)
    ensures LockInvariant(CheckLock(s, now), now)
  {
  }

  /** Every event that keeps to the clock preserves the invariant. */
  lemma StepPreservesLock(s: State, clock: int, e: Event)
    requires LockInvariant(s, clock) && TimeOk(clock, e)
    ensures LockInvariant(Step(s, e), ClockAfter(clock, e))
  {
    match e
    case ToggleEvent(_) =>
    case TickEvent(now) =>
    case DoneEvent(now) =>
  }

  /** Each completion a run records comes at least 12 hours after the
      previous one. */
  predicate CooldownRespected(s: State, evs: seq<Event>)
    decreases |evs|
  {
    evs == [] ||
    ((Fires(s, evs[0]) && !NeverDone(s.lastDoneTime) ==>
        s.lastDoneTime.value + HALF_DAY_IN_MS <= evs[0].now)
     && CooldownRespected(Step(s, evs[0]), evs[1..]))
  }

  /** The cooldown is enforced: from a state that satisfies the lock
      invariant, every chronological run respects it. */
  lemma {:induction false} CooldownEnforced(s: State, clock: int, evs: seq<Event>)
    requires LockInvariant(s, clock) && Chronological(clock, evs)
    ensures CooldownRespected(s, evs)
    decreases |evs|
  {
    if evs != [] {
      StepPreservesLock(s, clock, evs[0]);
      CooldownEnforced(Step(s, evs[0]), ClockAfter(clock, evs[0]), evs[1..]);
    }
  }

  /** A completion at any time other than 0 (a stamp of 0 reads as "never
      done"), from a state whose lock flag is not stale, locks the tracker for the full 12 hours and leaves the Done
      button disabled. */
  lemma CompletionLocks(s: State, now: int)
    requires DoneButtonEnabled(s) && LockInvariant(s, now) && now != 0
    ensures var t := Step(s, DoneEvent(now));
      t.isLocked && t.unlockTimer == HALF_DAY_IN_MS && t.lastDoneTime == Some(now)
      && !DoneButtonEnabled(t)
  {
  }

  /** Once the clock has reached the stamp, the countdown in the lock message
      never shows more than 12 hours. */
  lemma CountdownAtMostTwelveHours(s: State, now: int)
    requires s.lastDoneTime.Some? && s.lastDoneTime.value <= now
    ensures 0 <= Countdown.SplitTime(CheckLock(s, now).unlockTimer).hours <= 12
  {
    var ms := CheckLock(s, now).unlockTimer;
    assert 0 <= ms <= HALF_DAY_IN_MS;
    assert ms / 1000 <= 43200;
  }

  /** The tracker as a component: the state fields it keeps with `useState`,
      updated in place by its handlers. */
  class ProgressTracker {
    var tasks: seq<Task>
    var progress: int
    var lastDoneTime: Option<int>
    var dayCount: int
    var isLocked: bool
    var unlockTimer: int

    function Snapshot(): State
      reads this
    {
      State(tasks, progress, lastDoneTime, dayCount, isLocked, unlockTimer)
    }

    /** Mounting: each saved value that is present replaces its default, then
        the initial lock check runs at `now`. */
    constructor (savedTasks: Option<seq<Task>>, savedProgress: Option<int>,
                 savedTime: Option<int>, savedDayCount: Option<int>, now: int)
      ensures tasks == (if savedTasks.Some? then savedTasks.value else InitialTasks)
      ensures progress == (if savedProgress.Some? then savedProgress.value else 0)
      ensures lastDoneTime == savedTime
      ensures dayCount == (if savedDayCount.Some? then savedDayCount.value else 0)
      ensures isLocked <==> InCooldown(savedTime, now)
      ensures unlockTimer == LockAt(savedTime, now).unlockTimer
      ensures LockInvariant(Snapshot(), now)
    {
      tasks := if savedTasks.Some? then savedTasks.value else InitialTasks;
      progress := if savedProgress.Some? then savedProgress.value else 0;
      lastDoneTime := savedTime;
      dayCount := if savedDayCount.Some? then savedDayCount.value else 0;
      isLocked := false;
      unlockTimer := 0;
      new;
      CheckLockStatus(now);
    }

    /** `checkLockStatus`, with the clock reading passed in. */
    method CheckLockStatus(now: int)
      modifies this
      ensures Snapshot() == CheckLock(old(Snapshot()), now)
    {
      var timeRemaining := TimeUntilUnlock(lastDoneTime, now);
      if timeRemaining > 0 {
        isLocked := true;
        unlockTimer := timeRemaining;
      } else {
        isLocked := false;
        unlockTimer := 0;
      }
    }

    /** `handleTaskToggle`. */
    method HandleTaskToggle(taskId: int)
      modifies this
      ensures Snapshot() == Toggle(old(Snapshot()), taskId)
    {
      tasks := ToggleTask(tasks, taskId);
    }

    /** `handleDone`: ignored unless the button is enabled; otherwise raise
        progress, stamp the time, count the day and reset the checklist. */
    method HandleDone(now: int)
      modifies this
      ensures Snapshot() == Done(old(Snapshot()), now)
    {
      if !(AllTasksCompleted(tasks) && !isLocked) {
        return;
      }
      progress := Min(PROGRESS_CAP, progress + PROGRESS_INCREMENT);
      lastDoneTime := Some(now);
      dayCount := dayCount + 1;
      tasks := InitialTasks;
    }

    /** A click on Done followed by the lock check that a change of
        `lastDoneTime` triggers. */
    method ClickDone(now: int)
      modifies this
      ensures Snapshot() == Step(old(Snapshot()), DoneEvent(now))
    {
      var before := lastDoneTime;
      HandleDone(now);
      if lastDoneTime != before {
        CheckLockStatus(now);
      }
    }
  }
}
