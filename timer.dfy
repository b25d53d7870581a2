// The timer state machine on one time log (services/api.ts:231-286).
// A log is Running (no end time, not paused), Paused (no end time, paused)
// or Stopped (end time set). Times are epoch milliseconds; durations are
// whole seconds.

module Timer {
  import opened Types

  /**
   * Whole seconds from `start` to `now`, rounded down: Math.floor((now - start) / 1000).
   * Dafny's division by a positive constant rounds down for negative numerators too.
   */
  function Elapsed(start: int, now: int): (r: int)
    ensures r * 1000 <= now - start < r * 1000 + 1000
    ensures start <= now ==> 0 <= r
  {
    (now - start) / 1000
  }

  datatype State = Running | Paused | Stopped

  function StateOf(l: TimeLog): State
  {
    if l.endTime.Some? then Stopped else if l.isPaused then Paused else Running
  }

  /** A log that has not been stopped: it is running or paused. */
  predicate IsActive(l: TimeLog)
  {
    l.endTime.None?
  }

  /** A stopped log is never paused. */
  predicate WellFormed(l: TimeLog)
  {
    l.endTime.Some? ==> !l.isPaused
  }

  /** Identity of a log: which log it is and which (task, user) pair it times. */
  predicate SameIdentity(a: TimeLog, b: TimeLog)
  {
    a.id == b.id && a.taskId == b.taskId && a.userId == b.userId
  }

  /** The log that startTimer appends: running, empty, started `now`. */
  function NewLog(id: string, taskId: string, userId: string, now: int): (r: TimeLog)
    ensures StateOf(r) == Running && WellFormed(r)
    ensures r.id == id && r.taskId == taskId && r.userId == userId
    ensures r.startTime == now && r.duration == 0
  {
    TimeLog(id, taskId, userId, now, None, 0, false)
  }

  /**
   * pauseTimer on one log: legal only while Running; banks the whole
   * seconds of the running interval and marks the log paused.
   */
  function Pause(l: TimeLog, now: int): (r: Option<TimeLog>)
    ensures r.Some? <==> StateOf(l) == Running
    ensures r.Some? ==> StateOf(r.value) == Paused && SameIdentity(l, r.value)
    ensures r.Some? ==> r.value.startTime == l.startTime
    ensures r.Some? ==> r.value.duration == l.duration + Elapsed(l.startTime, now)
  {
    if l.endTime.None? && !l.isPaused then
      Some(l.(duration := l.duration + Elapsed(l.startTime, now), isPaused := true))
    else
      None
  }

  /**
   * resumeTimer on one log: legal only while Paused; restarts the running
   * interval at `now` and keeps the banked duration.
   */
  function Resume(l: TimeLog, now: int): (r: Option<TimeLog>)
    ensures r.Some? <==> StateOf(l) == Paused
    ensures r.Some? ==> StateOf(r.value) == Running && SameIdentity(l, r.value)
    ensures r.Some? ==> r.value.startTime == now && r.value.duration == l.duration
  {
    if l.endTime.None? && l.isPaused then
      Some(l.(startTime := now, isPaused := false))
    else
      None
  }

  /**
   * stopTimer on one log: legal while Running or Paused; sets the end time,
   * banks the running interval only if the log was running, and clears
   * the paused flag.
   */
  function Stop(l: TimeLog, now: int): (r: Option<TimeLog>)
    ensures r.Some? <==> IsActive(l)
    ensures r.Some? ==> StateOf(r.value) == Stopped && WellFormed(r.value) && SameIdentity(l, r.value)
    ensures r.Some? ==> r.value.endTime == Some(now) && r.value.startTime == l.startTime
    ensures r.Some? && StateOf(l) == Paused ==> r.value.duration == l.duration
    ensures r.Some? && StateOf(l) == Running ==> r.value.duration == l.duration + Elapsed(l.startTime, now)
  {
    if l.endTime.None? then
      var banked := if !l.isPaused then l.duration + Elapsed(l.startTime, now) else l.duration;
      Some(l.(endTime := Some(now), duration := banked, isPaused := false))
    else
      None
  }

  datatype Op = PauseOp | ResumeOp | StopOp

  function Step(op: Op, l: TimeLog, now: int): (r: Option<TimeLog>)
  {
    match op
    case PauseOp => Pause(l, now)
    case ResumeOp => Resume(l, now)
    case StopOp => Stop(l, now)
  }

  /**
   * Every transition keeps the log's identity, yields a well-formed log,
   * never turns an inactive log into an active one, and is refused on a
   * stopped log.
   */
  lemma StepProperties(op: Op, l: TimeLog, now: int)
    ensures StateOf(l) == Stopped ==> Step(op, l, now).None?
    ensures Step(op, l, now).Some? ==> SameIdentity(l, Step(op, l, now).value)
    ensures Step(op, l, now).Some? ==> WellFormed(Step(op, l, now).value)
    ensures Step(op, l, now).Some? && IsActive(Step(op, l, now).value) ==> IsActive(l)
  {
  }

  /** With a clock that does not run backwards, no transition lowers the duration. */
  lemma StepDurationMonotone(op: Op, l: TimeLog, now: int)
    requires l.startTime <= now
    ensures Step(op, l, now).Some? ==> Step(op, l, now).value.duration >= l.duration
  {
  }

  /**
   * pause, resume, pause: the duration is the previous duration plus the
   * rounded-down length of each running interval.
   */
  lemma PauseResumePause(l: TimeLog, t1: int, t2: int, t3: int)
    requires StateOf(l) == Running
    ensures Pause(l, t1).Some?
    ensures Resume(Pause(l, t1).value, t2).Some?
    ensures Pause(Resume(Pause(l, t1).value, t2).value, t3).Some?
    ensures Pause(Resume(Pause(l, t1).value, t2).value, t3).value.duration
         == l.duration + Elapsed(l.startTime, t1) + Elapsed(t2, t3)
  {
  }

  /** A stopped log accepts no further transition. */
  lemma StoppedIsTerminal(l: TimeLog, now: int, op: Op, later: int)
    requires Stop(l, now).Some?
    ensures Step(op, Stop(l, now).value, later).None?
  {
  }

  /**
   * Start at 0 s, pause at 10 s, resume at 10 s, stop at 25 s: the log
   * records 10 + 15 = 25 seconds.
   */
  lemma StartPauseResumeStopScenario(id: string, taskId: string, userId: string)
    ensures var started := NewLog(id, taskId, userId, 0);
            var paused := Pause(started, 10000);
            paused.Some? && paused.value.duration == 10 &&
            var resumed := Resume(paused.value, 10000);
            resumed.Some? &&
            var stopped := Stop(resumed.value, 25000);
            stopped.Some? && stopped.value.duration == 25 && stopped.value.endTime == Some(25000)
  {
  }

  /** No log of the list has a negative duration (none has, while the clock runs forward). */
  predicate NoNegativeDurations(logs: seq<TimeLog>)
    decreases |logs|
  {
    |logs| == 0 || (NoNegativeDurations(logs[..|logs| - 1]) && logs[|logs| - 1].duration >= 0)
  }

  lemma {:induction false} NoNegativeDurationsMeans(logs: seq<TimeLog>)
    ensures NoNegativeDurations(logs) <==> forall i :: 0 <= i < |logs| ==> logs[i].duration >= 0
    decreases |logs|
  {
    if |logs| > 0 {
      var front := logs[..|logs| - 1];
      NoNegativeDurationsMeans(front);
      assert forall i :: 0 <= i < |front| ==> front[i] == logs[i];
    }
  }

  /** The sum of the durations of a list of logs (a reduce over `duration`). */
  function TotalDuration(logs: seq<TimeLog>): (r: int)
    ensures NoNegativeDurations(logs) ==> r >= 0
    decreases |logs|
  {
    if |logs| == 0 then 0 else TotalDuration(logs[..|logs| - 1]) + logs[|logs| - 1].duration
  }

  lemma {:induction false} TotalDurationAppend(a: seq<TimeLog>, b: seq<TimeLog>)
    ensures TotalDuration(a + b) == TotalDuration(a) + TotalDuration(b)
    decreases |b|
  {
    if |b| == 0 {
      assert a + b == a;
    } else {
      var b' := b[..|b| - 1];
      assert (a + b)[..|a + b| - 1] == a + b';
      TotalDurationAppend(a, b');
    }
  }
}
