// The per-task timer widget (components/TaskTimerControl.tsx): the session
// time it shows, the buttons it offers, and its handlers, which call the
// store and then refresh the widget's own state.

module TimerControl {
  import opened Types
  import opened Timer
  import opened Api

  /**
   * The session time shown for the widget's active log: the banked
   * duration, plus the whole seconds of the running interval when the log
   * is not paused; 0 when there is no active log.
   */
  function SessionTime(active: Option<TimeLog>, now: int): (r: int)
    ensures active.None? ==> r == 0
  {
    match active
    case None => 0
    case Some(l) => l.duration + (if !l.isPaused then Elapsed(l.startTime, now) else 0)
  }

  /** The shown time of an active log is exactly what stopping it now would record. */
  lemma SessionTimeIsStopDuration(l: TimeLog, now: int)
    requires IsActive(l)
    ensures Stop(l, now).Some?
    ensures SessionTime(Some(l), now) == Stop(l, now).value.duration
  {
  }

  /**
   * Pausing or resuming at `now` does not make the shown time jump: the
   * new state shows what the old one showed.
   */
  lemma SessionTimeContinuous(op: Op, l: TimeLog, now: int)
    requires op != StopOp && Step(op, l, now).Some?
    ensures SessionTime(Some(Step(op, l, now).value), now) == SessionTime(Some(l), now)
  {
  }

  /** A paused log shows its banked duration whatever the clock says. */
  lemma PausedSessionTimeFrozen(l: TimeLog, t1: int, t2: int)
    requires l.isPaused
    ensures SessionTime(Some(l), t1) == SessionTime(Some(l), t2) == l.duration
  {
  }

  /** With a clock that does not run backwards the shown time never decreases. */
  lemma SessionTimeMonotone(active: Option<TimeLog>, t1: int, t2: int)
    requires t1 <= t2
    ensures SessionTime(active, t1) <= SessionTime(active, t2)
  {
    if active.Some? && !active.value.isPaused {
      var s := active.value.startTime;
      assert Elapsed(s, t1) * 1000 <= t1 - s <= t2 - s < Elapsed(s, t2) * 1000 + 1000;
    }
  }

  /** The button sets the widget can show. */
  datatype Controls = StartOnly | ResumeAndStop | PauseAndStop

  /** The buttons for the widget's active log: Start with none, Resume/Stop when paused, Pause/Stop when running. */
  function ControlsFor(active: Option<TimeLog>): (r: Controls)
    ensures r == StartOnly <==> active.None?
    ensures r == ResumeAndStop <==> active.Some? && active.value.isPaused
  {
    match active
    case None => StartOnly
    case Some(l) => if l.isPaused then ResumeAndStop else PauseAndStop
  }

  /** Does the button set offer the transition `op`? */
  predicate Offers(c: Controls, op: Op)
  {
    match c
    case StartOnly => false
    case ResumeAndStop => op == ResumeOp || op == StopOp
    case PauseAndStop => op == PauseOp || op == StopOp
  }

  /**
   * For an active log the widget offers exactly the transitions the store
   * accepts, and with no active log it offers none of them.
   */
  lemma ControlsMatchLegalSteps(active: Option<TimeLog>, op: Op, now: int)
    requires active.Some? ==> IsActive(active.value)
    ensures active.None? ==> !Offers(ControlsFor(active), op)
    ensures active.Some? ==> (Offers(ControlsFor(active), op) <==> Step(op, active.value, now).Some?)
  {
  }

  /** One mounted timer widget for a task and the signed-in user. */
  class TaskTimerControl {
    const store: Store
    const taskId: string
    const userId: string
    var activeLog: Option<TimeLog>
    var sessionTime: int

    constructor(store: Store, taskId: string, userId: string)
      ensures this.store == store && this.taskId == taskId && this.userId == userId
      ensures activeLog.None? && sessionTime == 0
    {
      this.store := store;
      this.taskId := taskId;
      this.userId := userId;
      activeLog := None;
      sessionTime := 0;
    }

    /** fetchActiveLog: with a user, reload the active log and recompute the session time. */
    method FetchActiveLog(now: int)
      modifies this
      ensures userId == "" ==> activeLog == old(activeLog) && sessionTime == old(sessionTime)
      ensures userId != "" ==> activeLog == store.GetActiveLogForTask(taskId, userId)
      ensures userId != "" ==> sessionTime == SessionTime(activeLog, now)
    {
      if userId == "" {
        return;
      }
      var log := store.GetActiveLogForTask(taskId, userId);
      activeLog := log;
      if log.Some? {
        var elapsed := 0;
        if !log.value.isPaused {
          elapsed := Elapsed(log.value.startTime, now);
        }
        sessionTime := log.value.duration + elapsed;
      } else {
        sessionTime := 0;
      }
    }

    /**
     * handleStart: with a user, start the task's timer and refresh. On a
     * valid store the widget then shows the new running log at zero.
     */
    method HandleStart(now: int, freshId: string)
      modifies this, store
      ensures userId == "" ==> store.data == old(store.data)
      ensures userId != "" ==> store.data.timeLogs == Started(old(store.data.timeLogs), taskId, userId, now, freshId)
      ensures store.data == old(store.data).(timeLogs := store.data.timeLogs)
      ensures userId != "" && old(store.Valid()) ==>
                activeLog == Some(NewLog(freshId, taskId, userId, now)) && sessionTime == 0
      ensures old(store.Valid()) && (forall l :: l in old(store.data.timeLogs) ==> l.id != freshId) ==>
                store.Valid()
    {
      if userId == "" {
        return;
      }
      ghost var before := store.data.timeLogs;
      if old(store.Valid()) {
        StartedActiveIsNew(before, taskId, userId, now, freshId);
      }
      var _ := store.StartTimer(taskId, userId, now, freshId);
      FetchActiveLog(now);
    }

    /** handlePause: with an active log, pause it in the store and refresh. */
    method HandlePause(now: int)
      modifies this, store
      ensures old(activeLog).None? ==> store.data == old(store.data) && activeLog == old(activeLog)
      ensures old(activeLog).Some? ==>
                store.data.timeLogs == Transitioned(old(store.data.timeLogs), old(activeLog).value.id, PauseOp, now).0
      ensures store.data == old(store.data).(timeLogs := store.data.timeLogs)
      ensures old(store.Valid()) ==> store.Valid()
      ensures old(activeLog).Some? && userId != "" ==>
                activeLog == store.GetActiveLogForTask(taskId, userId) && sessionTime == SessionTime(activeLog, now)
    {
      if activeLog.None? {
        return;
      }
      var _ := store.PauseTimer(activeLog.value.id, now);
      FetchActiveLog(now);
    }

    /** handleResume: with an active log, resume it in the store and refresh. */
    method HandleResume(now: int)
      modifies this, store
      ensures old(activeLog).None? ==> store.data == old(store.data) && activeLog == old(activeLog)
      ensures old(activeLog).Some? ==>
                store.data.timeLogs == Transitioned(old(store.data.timeLogs), old(activeLog).value.id, ResumeOp, now).0
      ensures store.data == old(store.data).(timeLogs := store.data.timeLogs)
      ensures old(store.Valid()) ==> store.Valid()
      ensures old(activeLog).Some? && userId != "" ==>
                activeLog == store.GetActiveLogForTask(taskId, userId) && sessionTime == SessionTime(activeLog, now)
    {
      if activeLog.None? {
        return;
      }
      var _ := store.ResumeTimer(activeLog.value.id, now);
      FetchActiveLog(now);
    }

    /** handleStop: with an active log, stop it in the store; the widget clears and shows zero. */
    method HandleStop(now: int)
      modifies this, store
      ensures old(activeLog).None? ==> store.data == old(store.data) && activeLog == old(activeLog)
      ensures old(activeLog).Some? ==>
                store.data.timeLogs == Transitioned(old(store.data.timeLogs), old(activeLog).value.id, StopOp, now).0
      ensures old(activeLog).Some? ==> activeLog.None? && sessionTime == 0
      ensures store.data == old(store.data).(timeLogs := store.data.timeLogs)
      ensures old(store.Valid()) ==> store.Valid()
    {
      if activeLog.None? {
        return;
      }
      var _ := store.StopTimer(activeLog.value.id, now);
      activeLog := None;
      sessionTime := 0;
    }
  }
}
