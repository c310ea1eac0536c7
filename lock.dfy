/** The lock evaluator: the 12-hour cooldown counted from the last completion. */
module Lock {
  import opened Options

  /** The cooldown, 12 hours in milliseconds (the source calls it a half day). */
  const HALF_DAY_IN_MS: int := 12 * 60 * 60 * 1000

  /** The source's `!lastDoneTime`: no stamp at all, or a stamp of 0. */
  function NeverDone(lastDoneTime: Option<int>): (never: bool)
    ensures never <==> lastDoneTime in {None, Some(0)}
  {
    lastDoneTime.None? || lastDoneTime.value == 0
  }

  /** Reference definition of the cooldown: a completion has been stamped and
      the clock has not yet reached the stamp plus 12 hours. */
  predicate InCooldown(lastDoneTime: Option<int>, now: int) {
    !NeverDone(lastDoneTime) && now < lastDoneTime.value + HALF_DAY_IN_MS
  }

  /** `getTimeUntilUnlock`, with the wall clock passed in as `now`. */
  function TimeUntilUnlock(lastDoneTime: Option<int>, now: int): (r: int)
    ensures NeverDone(lastDoneTime) ==> r == 0
    ensures !NeverDone(lastDoneTime) ==> now + r == lastDoneTime.value + HALF_DAY_IN_MS
    ensures r > 0 <==> InCooldown(lastDoneTime, now)
    ensures !NeverDone(lastDoneTime) && lastDoneTime.value <= now ==> r <= HALF_DAY_IN_MS
  {
    if NeverDone(lastDoneTime) then 0
    else
      var nextUnlockTime := lastDoneTime.value + HALF_DAY_IN_MS;
      nextUnlockTime - now
  }

  /** What one lock check decides: the `isLocked` flag and the `unlockTimer`. */
  datatype LockStatus = LockStatus(isLocked: bool, unlockTimer: int)

  /** The decision taken by `checkLockStatus` at time `now`. */
  function LockAt(lastDoneTime: Option<int>, now: int): (s: LockStatus)
    ensures s.isLocked <==> InCooldown(lastDoneTime, now)
    ensures s.isLocked ==> 0 < s.unlockTimer && now + s.unlockTimer == lastDoneTime.value + HALF_DAY_IN_MS
    ensures !s.isLocked ==> s.unlockTimer == 0
  {
    var timeRemaining := TimeUntilUnlock(lastDoneTime, now);
    if timeRemaining > 0 then LockStatus(true, timeRemaining) else LockStatus(false, 0)
  }

  /** With a real stamp `t`, the tracker is locked on [t, t + 12h) with at
      most 12 hours to wait, and open from t + 12h on. */
  lemma LockWindow(t: int, now: int)
    requires t != 0 && t <= now
    ensures now < t + HALF_DAY_IN_MS ==>
      LockAt(Some(t), now).isLocked && 0 < LockAt(Some(t), now).unlockTimer <= HALF_DAY_IN_MS
    ensures t + HALF_DAY_IN_MS <= now ==>
      !LockAt(Some(t), now).isLocked && LockAt(Some(t), now).unlockTimer == 0
  {
  }

  /** While locked, the remaining time counts down one for one with the clock. */
  lemma CountsDown(lastDoneTime: Option<int>, now: int, later: int)
    requires now <= later && LockAt(lastDoneTime, later).isLocked
    ensures LockAt(lastDoneTime, now).isLocked
    ensures LockAt(lastDoneTime, now).unlockTimer == LockAt(lastDoneTime, later).unlockTimer + (later - now)
  {
  }
}
