/** Progress toward the goal and the streak display tied to it. */
module Progress {

  /** Percentage points gained per completion. */
  const PROGRESS_INCREMENT: int := 5

  /** The goal: progress is capped at 100 percent. */
  const PROGRESS_CAP: int := 100

  function Min(a: int, b: int): int {
    if a <= b then a else b
  }

  /** `Math.min(100, prevProgress + PROGRESS_INCREMENT)`. */
  function NextProgress(p: int): (r: int)
    ensures r <= PROGRESS_CAP
    ensures p <= PROGRESS_CAP ==> p <= r
    ensures p < PROGRESS_CAP ==> p < r
    ensures r == PROGRESS_CAP || r == p + PROGRESS_INCREMENT
    ensures p + PROGRESS_INCREMENT <= PROGRESS_CAP ==> r == p + PROGRESS_INCREMENT
  {
    Min(PROGRESS_CAP, p + PROGRESS_INCREMENT)
  }

  /** Progress after `n` completions starting from the default 0. */
  function ProgressAfter(n: nat): int {
    if n == 0 then 0 else NextProgress(ProgressAfter(n - 1))
  }

  lemma {:induction false} ProgressAfterClosedForm(n: nat)
    ensures ProgressAfter(n) == Min(PROGRESS_CAP, PROGRESS_INCREMENT * n)
  {
    if n > 0 {
      ProgressAfterClosedForm(n - 1);
    }
  }

  /** `Math.ceil(a / b)` for a positive divisor. */
  function CeilDiv(a: int, b: int): (r: int)
    requires b > 0
    ensures (r - 1) * b < a <= r * b
  {
    var q := (a + b - 1) / b;
    assert (a + b - 1) == q * b + (a + b - 1) % b;
    q
  }

  /** `maxDays`: the number of completions the goal takes. */
  function MaxDays(): (n: int)
    ensures n * PROGRESS_INCREMENT >= PROGRESS_CAP
    ensures (n - 1) * PROGRESS_INCREMENT < PROGRESS_CAP
  {
    CeilDiv(PROGRESS_CAP, PROGRESS_INCREMENT)
  }

  lemma MaxDaysIsTwenty()
    ensures MaxDays() == 20
  {
    var n := MaxDays();
    assert 19 < n < 21;
  }

  /** `maxDays` completions from 0 reach the goal exactly; one fewer does not. */
  lemma MaxDaysReachesGoal()
    ensures ProgressAfter(MaxDays()) == PROGRESS_CAP
    ensures ProgressAfter(MaxDays() - 1) < PROGRESS_CAP
  {
    MaxDaysIsTwenty();
    ProgressAfterClosedForm(20);
    ProgressAfterClosedForm(19);
  }

  /** One pill of the streak display: a day number and whether it is done. */
  datatype DayPill = DayPill(day: int, isCompleted: bool)

  /** Whether the "next day" placeholder pill is shown. */
  predicate ShowsNextDay(dayCount: int) {
    dayCount < MaxDays()
  }

  /** The pills of the streak display: days 1..dayCount completed
      (`Array.from({ length: dayCount })`, empty for a negative count), then
      the placeholder for day dayCount + 1 while the goal is not reached. */
  function DayPills(dayCount: int): (r: seq<DayPill>)
    ensures var done := if dayCount < 0 then 0 else dayCount;
      |r| == done + (if ShowsNextDay(dayCount) then 1 else 0) &&
      (forall i :: 0 <= i < done ==> r[i] == DayPill(i + 1, true)) &&
      (ShowsNextDay(dayCount) ==> r[|r| - 1] == DayPill(dayCount + 1, false))
  {
    var done := if dayCount < 0 then 0 else dayCount;
    var completed := seq(done, i requires 0 <= i < done => DayPill(i + 1, true));
    if dayCount < MaxDays() then completed + [DayPill(dayCount + 1, false)] else completed
  }

  /** The placeholder appears exactly while `dayCount` completions from 0
      leave progress short of the goal. */
  lemma PlaceholderUntilGoal(dayCount: nat)
    ensures ShowsNextDay(dayCount) <==> ProgressAfter(dayCount) < PROGRESS_CAP
  {
    MaxDaysIsTwenty();
    ProgressAfterClosedForm(dayCount);
  }
}
