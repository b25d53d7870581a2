// The derived values of the task list page (pages/TasksPage.tsx): the
// id-to-name lookups for projects and users, and the total time logged per
// task. The "<h>h <m>m" text of a total is Format.FormatHoursMinutes.

module TasksPage {
  import opened Types
  import opened Seqs
  import opened Timer

  // ---------------------------------------------------------------------
  // projectMap and userMap (pages/TasksPage.tsx:45-57)

  /**
   * A `reduce` that assigns `map[id] = name` for each (id, name) pair in
   * turn, so that a later pair with the same id overwrites an earlier one.
   */
  function NameMap(entries: seq<(string, string)>): (r: map<string, string>)
    ensures forall k :: k in r <==> exists i :: 0 <= i < |entries| && entries[i].0 == k
    decreases |entries|
  {
    if |entries| == 0 then map[]
    else
      var last := entries[|entries| - 1];
      NameMap(entries[..|entries| - 1])[last.0 := last.1]
  }

  /** The name an id maps to is the name of the last pair with that id. */
  lemma {:induction false} LastEntryWins(entries: seq<(string, string)>, i: nat)
    requires i < |entries|
    requires forall j :: i < j < |entries| ==> entries[j].0 != entries[i].0
    ensures entries[i].0 in NameMap(entries)
    ensures NameMap(entries)[entries[i].0] == entries[i].1
    decreases |entries|
  {
    if i < |entries| - 1 {
      var front := entries[..|entries| - 1];
      assert front[i] == entries[i];
      LastEntryWins(front, i);
    }
  }

  /** The (id, name) pairs a reduce assigns into its map, one per element, in list order. */
  function Pairs<T>(s: seq<T>, pair: T -> (string, string)): (r: seq<(string, string)>)
    ensures |r| == |s|
    ensures forall i :: 0 <= i < |s| ==> r[i] == pair(s[i])
  {
    seq(|s|, i requires 0 <= i < |s| => pair(s[i]))
  }

  function ProjectPair(p: Project): (string, string)
  {
    (p.id, p.name)
  }

  function UserPair(u: User): (string, string)
  {
    (u.id, u.name)
  }

  /** projectMap: project id to project name. */
  function ProjectMap(projects: seq<Project>): (r: map<string, string>)
    ensures forall k :: k in r <==> exists i :: 0 <= i < |projects| && projects[i].id == k
  {
    var entries := Pairs(projects, ProjectPair);
    assert forall i :: 0 <= i < |projects| ==> entries[i].0 == projects[i].id;
    NameMap(entries)
  }

  /** userMap: user id to user name. */
  function UserMap(users: seq<User>): (r: map<string, string>)
    ensures forall k :: k in r <==> exists i :: 0 <= i < |users| && users[i].id == k
  {
    var entries := Pairs(users, UserPair);
    assert forall i :: 0 <= i < |users| ==> entries[i].0 == users[i].id;
    NameMap(entries)
  }

  /** `map[id] || 'N/A'`: a missing id and an empty name both show "N/A". */
  function DisplayName(m: map<string, string>, id: string): (r: string)
    ensures r != ""
  {
    if id in m && m[id] != "" then m[id] else "N/A"
  }

  /**
   * The project column: "N/A" when no project has the id, otherwise the
   * name of the last project with that id, or "N/A" again when that name
   * is empty.
   */
  lemma ProjectColumn(projects: seq<Project>, id: string)
    ensures (forall j :: 0 <= j < |projects| ==> projects[j].id != id) ==>
              DisplayName(ProjectMap(projects), id) == "N/A"
    ensures forall i ::
              (0 <= i < |projects| && projects[i].id == id &&
               forall j :: i < j < |projects| ==> projects[j].id != id) ==>
              DisplayName(ProjectMap(projects), id) ==
                (if projects[i].name != "" then projects[i].name else "N/A")
  {
    var entries := Pairs(projects, ProjectPair);
    forall i | 0 <= i < |projects| && projects[i].id == id &&
               (forall j :: i < j < |projects| ==> projects[j].id != id)
      ensures ProjectMap(projects)[id] == projects[i].name
    {
      LastEntryWins(entries, i);
    }
  }

  /** The assignee column, with the same rule over the users. */
  lemma AssigneeColumn(users: seq<User>, id: string)
    ensures (forall j :: 0 <= j < |users| ==> users[j].id != id) ==>
              DisplayName(UserMap(users), id) == "N/A"
    ensures forall i ::
              (0 <= i < |users| && users[i].id == id &&
               forall j :: i < j < |users| ==> users[j].id != id) ==>
              DisplayName(UserMap(users), id) ==
                (if users[i].name != "" then users[i].name else "N/A")
  {
    var entries := Pairs(users, UserPair);
    forall i | 0 <= i < |users| && users[i].id == id &&
               (forall j :: i < j < |users| ==> users[j].id != id)
      ensures UserMap(users)[id] == users[i].name
    {
      LastEntryWins(entries, i);
    }
  }

  // ---------------------------------------------------------------------
  // taskTimeMap (pages/TasksPage.tsx:59-68, 145)

  /** `if (log.endTime)`: the end time is present and truthy, that is not 0. */
  predicate Counted(l: TimeLog)
  {
    l.endTime.Some? && l.endTime.value != 0
  }

  /** The logs that count towards a task's total. */
  function CountsFor(taskId: string): TimeLog -> bool
  {
    (l: TimeLog) => l.taskId == taskId && Counted(l)
  }

  /** The total a task should show: the durations of its counted logs, added up. */
  function CompletedTotal(logs: seq<TimeLog>, taskId: string): int
  {
    TotalDuration(Filter(logs, CountsFor(taskId)))
  }

  /**
   * One more log adds its duration to its own task's total when it is
   * counted, and nothing otherwise; in particular a running or paused log
   * adds nothing.
   */
  lemma CompletedTotalSnoc(logs: seq<TimeLog>, l: TimeLog, taskId: string)
    ensures CompletedTotal(logs + [l], taskId)
         == CompletedTotal(logs, taskId) + (if l.taskId == taskId && Counted(l) then l.duration else 0)
    ensures IsActive(l) ==> CompletedTotal(logs + [l], taskId) == CompletedTotal(logs, taskId)
  {
    var p := CountsFor(taskId);
    FilterSnoc(logs, l, p);
    TotalDurationAppend(Filter(logs, p), if p(l) then [l] else []);
  }

  /** A task without counted logs has a total of 0. */
  lemma {:induction false} NoCountedLogsNoTime(logs: seq<TimeLog>, taskId: string)
    requires forall i :: 0 <= i < |logs| ==> !(logs[i].taskId == taskId && Counted(logs[i]))
    ensures CompletedTotal(logs, taskId) == 0
    decreases |logs|
  {
    if |logs| > 0 {
      assert !CountsFor(taskId)(logs[|logs| - 1]);
      NoCountedLogsNoTime(logs[..|logs| - 1], taskId);
    }
  }

  /** `taskTimeMap.get(task.id) || 0`. */
  function TaskTotal(m: map<string, int>, taskId: string): int
  {
    if taskId in m then m[taskId] else 0
  }

  /** Does some log of the task count towards its total? */
  ghost predicate HasCounted(logs: seq<TimeLog>, taskId: string)
  {
    exists k :: 0 <= k < |logs| && logs[k].taskId == taskId && Counted(logs[k])
  }

  /** The map holds the total of every task over `seen`. */
  ghost predicate TotalsRight(m: map<string, int>, seen: seq<TimeLog>)
  {
    forall taskId :: TaskTotal(m, taskId) == CompletedTotal(seen, taskId)
  }

  /** The map has an entry exactly for the tasks counted in `seen`. */
  ghost predicate EntriesRight(m: map<string, int>, seen: seq<TimeLog>)
  {
    forall taskId :: taskId in m <==> HasCounted(seen, taskId)
  }

  ghost predicate TotalsOf(m: map<string, int>, seen: seq<TimeLog>)
  {
    TotalsRight(m, seen) && EntriesRight(m, seen)
  }

  /** Before the loop: the empty map is right for no logs. */
  lemma TotalsOfNothing(logs: seq<TimeLog>)
    ensures TotalsOf(map[], logs[..0])
  {
    assert logs[..0] == [];
    forall taskId ensures CompletedTotal([], taskId) == 0 {
      assert Filter([], CountsFor(taskId)) == [];
    }
  }

  /** The map update of one loop turn: add a counted log's duration to its task's entry. */
  function Added(m: map<string, int>, log: TimeLog): map<string, int>
  {
    if Counted(log) then m[log.taskId := TaskTotal(m, log.taskId) + log.duration] else m
  }

  lemma TotalsStep(seen: seq<TimeLog>, log: TimeLog, m: map<string, int>)
    requires TotalsRight(m, seen)
    ensures TotalsRight(Added(m, log), seen + [log])
  {
    forall taskId ensures TaskTotal(Added(m, log), taskId) == CompletedTotal(seen + [log], taskId) {
      CompletedTotalSnoc(seen, log, taskId);
    }
  }

  lemma EntriesStep(seen: seq<TimeLog>, log: TimeLog, m: map<string, int>)
    requires EntriesRight(m, seen)
    ensures EntriesRight(Added(m, log), seen + [log])
  {
    var next := seen + [log];
    forall taskId ensures taskId in Added(m, log) <==> HasCounted(next, taskId) {
      if HasCounted(seen, taskId) {
        var k :| 0 <= k < |seen| && seen[k].taskId == taskId && Counted(seen[k]);
        assert next[k] == seen[k];
      }
      if HasCounted(next, taskId) && !(log.taskId == taskId && Counted(log)) {
        var k :| 0 <= k < |next| && next[k].taskId == taskId && Counted(next[k]);
        assert k < |seen| && next[k] == seen[k];
      }
      assert next[|seen|] == log;
    }
  }

  /**
   * One turn of the loop that builds taskTimeMap: if the map was right for
   * the first i logs, it is right for the first i + 1.
   */
  lemma TaskTimeMapStep(logs: seq<TimeLog>, i: nat, m: map<string, int>, after: map<string, int>)
    requires i < |logs|
    requires TotalsOf(m, logs[..i])
    requires after == Added(m, logs[i])
    ensures TotalsOf(after, logs[..i + 1])
  {
    assert logs[..i + 1] == logs[..i] + [logs[i]];
    TotalsStep(logs[..i], logs[i], m);
    EntriesStep(logs[..i], logs[i], m);
  }

  /** After the loop: a map right for all the logs has the promised totals and entries. */
  lemma TotalsOfAll(m: map<string, int>, logs: seq<TimeLog>)
    requires TotalsOf(m, logs[..|logs|])
    ensures forall taskId :: TaskTotal(m, taskId) == CompletedTotal(logs, taskId)
    ensures forall taskId :: taskId in m <==>
              exists i :: 0 <= i < |logs| && logs[i].taskId == taskId && Counted(logs[i])
  {
    assert logs[..|logs|] == logs;
  }

  /**
   * The loop that builds taskTimeMap: every task's entry is the total of its
   * counted logs, and only tasks with a counted log get an entry.
   */
  method TaskTimeMap(logs: seq<TimeLog>) returns (m: map<string, int>)
    ensures forall taskId :: TaskTotal(m, taskId) == CompletedTotal(logs, taskId)
    ensures forall taskId :: taskId in m <==>
              exists i :: 0 <= i < |logs| && logs[i].taskId == taskId && Counted(logs[i])
  {
    m := map[];
    var i := 0;
    TotalsOfNothing(logs);
    while i < |logs|
      invariant 0 <= i <= |logs|
      invariant TotalsOf(m, logs[..i])
    {
      var log := logs[i];
      ghost var before := m;
      if Counted(log) {
        var currentDuration := TaskTotal(m, log.taskId);
        m := m[log.taskId := currentDuration + log.duration];
      }
      TaskTimeMapStep(logs, i, before, m);
      i := i + 1;
    }
    TotalsOfAll(m, logs);
  }
}
