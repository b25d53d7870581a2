// The dashboard (pages/DashboardPage.tsx): the admin's counts and total
// time, the project name shown on a member's task, and which dashboard a
// signed-in user gets. The admin's "<h>h <m>m" text is
// Format.FormatHoursMinutes and the member's "HH:MM:SS" text is
// Format.FormatClock.

module Dashboard {
  import opened Types
  import opened Seqs
  import opened Timer
  import opened Api
  import TasksPage

  /** The four figures of the admin dashboard. */
  datatype Stats = Stats(users: nat, projects: nat, tasks: nat, timeTracked: int)

  /** fetchStats: the lengths of the lists and the durations of all logs added up. */
  function AdminStats(users: seq<User>, projects: seq<Project>, tasks: seq<Task>, logs: seq<TimeLog>): (r: Stats)
    ensures r.users == |users| && r.projects == |projects| && r.tasks == |tasks|
    ensures r.timeTracked == TotalDuration(logs)
  {
    Stats(|users|, |projects|, |tasks|, TotalDuration(logs))
  }

  function Stopped(l: TimeLog): bool
  {
    !IsActive(l)
  }

  /** The logs that are still running or paused. */
  function ActiveLogs(logs: seq<TimeLog>): seq<TimeLog>
  {
    Filter(logs, IsActive)
  }

  /** The logs that have been stopped. */
  function StoppedLogs(logs: seq<TimeLog>): seq<TimeLog>
  {
    Filter(logs, Stopped)
  }

  /**
   * The time tracked counts every log: the stopped ones and the seconds
   * already banked by the running and paused ones.
   */
  lemma {:induction false} TimeTrackedSplits(logs: seq<TimeLog>)
    ensures TotalDuration(logs) == TotalDuration(StoppedLogs(logs)) + TotalDuration(ActiveLogs(logs))
    decreases |logs|
  {
    if |logs| > 0 {
      var front := logs[..|logs| - 1];
      var last := logs[|logs| - 1];
      TimeTrackedSplits(front);
      TotalDurationAppend(StoppedLogs(front), if Stopped(last) then [last] else []);
      TotalDurationAppend(ActiveLogs(front), if IsActive(last) then [last] else []);
    }
  }

  /** The admin's time tracked changes with a timer transition by exactly the seconds it banks. */
  lemma TimeTrackedAfterTransition(logs: seq<TimeLog>, id: string, op: Op, now: int)
    requires FindLog(logs, id).Some?
    ensures var i := FindLog(logs, id).value;
            var after := Transitioned(logs, id, op, now);
            after.1.Some? ==>
              TotalDuration(after.0) == TotalDuration(logs) + after.1.value.duration - logs[i].duration
  {
    var i := FindLog(logs, id).value;
    var after := Transitioned(logs, id, op, now);
    if after.1.Some? {
      TotalDurationUpdate(logs, i, after.1.value);
    }
  }

  lemma {:induction false} TotalDurationUpdate(logs: seq<TimeLog>, i: nat, x: TimeLog)
    requires i < |logs|
    ensures TotalDuration(logs[i := x]) == TotalDuration(logs) - logs[i].duration + x.duration
    decreases |logs|
  {
    var n := |logs|;
    if i < n - 1 {
      assert logs[i := x][..n - 1] == logs[..n - 1][i := x];
      TotalDurationUpdate(logs[..n - 1], i, x);
    } else {
      assert logs[i := x][..n - 1] == logs[..n - 1];
    }
  }

  /** `projects.find(p => p.id === projectId)?.name || 'Unknown Project'`. */
  function ProjectName(projects: seq<Project>, projectId: string): (r: string)
    ensures r != ""
    ensures FindProject(projects, projectId).None? ==> r == "Unknown Project"
    ensures FindProject(projects, projectId).Some? ==>
              var p := projects[FindProject(projects, projectId).value];
              r == if p.name != "" then p.name else "Unknown Project"
  {
    match FindProject(projects, projectId)
    case None => "Unknown Project"
    case Some(i) => if projects[i].name != "" then projects[i].name else "Unknown Project"
  }

  predicate UniqueProjectIds(projects: seq<Project>)
  {
    forall i, j :: 0 <= i < j < |projects| ==> projects[i].id != projects[j].id
  }

  /**
   * The dashboard finds the first project with the id and the task list
   * keeps the last; with unique project ids both pages show the same name,
   * only their fallback texts differ.
   */
  lemma ProjectNameAgreesWithTaskList(projects: seq<Project>, projectId: string)
    requires UniqueProjectIds(projects)
    ensures var shown := TasksPage.DisplayName(TasksPage.ProjectMap(projects), projectId);
            var found := FindProject(projects, projectId);
            if found.Some? && projects[found.value].name != "" then
              shown == ProjectName(projects, projectId) == projects[found.value].name
            else
              shown == "N/A" && ProjectName(projects, projectId) == "Unknown Project"
  {
    match FindProject(projects, projectId)
    case None =>
      TasksPage.ProjectColumn(projects, projectId);
    case Some(i) =>
      forall j | i < j < |projects| ensures projects[j].id != projectId {
        assert projects[i].id != projects[j].id;
      }
      TasksPage.LastEntryWins(TasksPage.Pairs(projects, TasksPage.ProjectPair), i);
  }

  /** The two dashboards. */
  datatype View = AdminDashboard | MemberDashboard

  /** DashboardPage: nothing without a user, the admin dashboard for an Admin, the member dashboard for anyone else. */
  function DashboardFor(user: Option<User>): (r: Option<View>)
    ensures r.None? <==> user.None?
    ensures r == Some(AdminDashboard) <==> user.Some? && user.value.role == Admin
    ensures r == Some(MemberDashboard) <==> user.Some? && user.value.role != Admin
  {
    match user
    case None => None
    case Some(u) => if u.role == Admin then Some(AdminDashboard) else Some(MemberDashboard)
  }
}
