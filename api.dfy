// The in-memory store of services/api.ts: the `data` record of users,
// projects, tasks, time logs and departments, the operations that change it
// and the invariants they keep. The clock (`Date.now()`) and the generated
// ids are parameters.

module Api {
  import opened Types
  import opened Seqs
  import opened Timer

  /** The store's record (services/api.ts:108-114). */
  datatype Data = Data(
    users: seq<User>,
    projects: seq<Project>,
    tasks: seq<Task>,
    timeLogs: seq<TimeLog>,
    departments: seq<string>)

  // ---------------------------------------------------------------------
  // Seed data (services/api.ts:6-103)

  const SeedDepartments: seq<string> :=
    ["Web Development", "SEO", "Sales", "Digital Marketing", "Creative"]

  const SeedUsers: seq<User> := [
    User("user-1", "Admin User", "admin@example.com", Some("password"), Admin,
         "https://i.pravatar.cc/150?u=admin@example.com", Some("Project Manager"),
         Some("123-456-7890"), Some("098-765-4321"), Some("Web Development")),
    User("user-2", "Team Member", "member@example.com", Some("password"), Member,
         "https://i.pravatar.cc/150?u=member@example.com", Some("Frontend Developer"),
         Some("123-456-7891"), Some("098-765-4322"), Some("Web Development"))
  ]

  const SeedProjects: seq<Project> := [
    Project("proj-1", "Website Redesign", "Complete overhaul of the corporate website.",
            "2024-08-01", "2024-12-31", ["user-1", "user-2"]),
    Project("proj-2", "Marketing Campaign Q3", "Digital marketing campaign for the new product launch.",
            "2024-07-01", "2024-09-30", ["user-1", "user-2"])
  ]

  const SeedTasks: seq<Task> := [
    Task("task-1", "Design Homepage Mockup", "Create a high-fidelity mockup in Figma for the new homepage.",
         "proj-1", "user-2", "2024-09-15", ToDo, "Creative"),
    Task("task-2", "Develop User Authentication", "Implement login and registration functionality.",
         "proj-1", "user-2", "2024-09-30", InProgress, "Web Development"),
    Task("task-3", "Create Social Media Ads", "Design and write copy for Facebook and Instagram ads.",
         "proj-2", "user-2", "2024-08-20", Done, "Digital Marketing")
  ]

  /** One completed log: 2024-08-10 09:00 to 11:30 UTC, 9000 seconds. */
  const SeedTimeLogs: seq<TimeLog> := [
    TimeLog("log-1", "task-3", "user-2", 1723280400000, Some(1723289400000), 9000, false)
  ]

  const SeedData: Data := Data(SeedUsers, SeedProjects, SeedTasks, SeedTimeLogs, SeedDepartments)

  /** `parsedData.departments || SEED_DEPARTMENTS`: only a missing list falls back to the seed. */
  function LoadedDepartments(saved: Option<seq<string>>): (r: seq<string>)
    ensures saved.Some? ==> r == saved.value
    ensures saved.None? ==> r == SeedDepartments
  {
    match saved
    case Some(ds) => ds
    case None => SeedDepartments
  }

  // ---------------------------------------------------------------------
  // Lookups: `find` / `findIndex` by id, first match wins

  /** `i` is where `find` stops: the first user with the id. */
  predicate FirstUserAt(users: seq<User>, i: int, id: string)
  {
    0 <= i < |users| && users[i].id == id && forall k :: 0 <= k < i ==> users[k].id != id
  }

  /** `i` is where `find` stops: the first task with the id. */
  predicate FirstTaskAt(tasks: seq<Task>, i: int, id: string)
  {
    0 <= i < |tasks| && tasks[i].id == id && forall k :: 0 <= k < i ==> tasks[k].id != id
  }

  /** `i` is where `find` stops: the first project with the id. */
  predicate FirstProjectAt(projects: seq<Project>, i: int, id: string)
  {
    0 <= i < |projects| && projects[i].id == id && forall k :: 0 <= k < i ==> projects[k].id != id
  }

  function FindUser(users: seq<User>, id: string): (r: Option<nat>)
    ensures r.Some? ==> r.value < |users| && users[r.value].id == id
    ensures r.Some? ==> forall j :: 0 <= j < r.value ==> users[j].id != id
    ensures r.None? ==> forall j :: 0 <= j < |users| ==> users[j].id != id
  {
    IndexWhere(users, (u: User) => u.id == id)
  }

  function FindTask(tasks: seq<Task>, id: string): (r: Option<nat>)
    ensures r.Some? ==> r.value < |tasks| && tasks[r.value].id == id
    ensures r.Some? ==> forall j :: 0 <= j < r.value ==> tasks[j].id != id
    ensures r.None? ==> forall j :: 0 <= j < |tasks| ==> tasks[j].id != id
  {
    IndexWhere(tasks, (t: Task) => t.id == id)
  }

  function FindProject(projects: seq<Project>, id: string): (r: Option<nat>)
    ensures r.Some? ==> r.value < |projects| && projects[r.value].id == id
    ensures r.Some? ==> forall j :: 0 <= j < r.value ==> projects[j].id != id
    ensures r.None? ==> forall j :: 0 <= j < |projects| ==> projects[j].id != id
  {
    IndexWhere(projects, (p: Project) => p.id == id)
  }

  function FindLog(logs: seq<TimeLog>, id: string): (r: Option<nat>)
    ensures r.Some? ==> r.value < |logs| && logs[r.value].id == id
    ensures r.Some? ==> forall j :: 0 <= j < r.value ==> logs[j].id != id
    ensures r.None? ==> forall j :: 0 <= j < |logs| ==> logs[j].id != id
  {
    IndexWhere(logs, (l: TimeLog) => l.id == id)
  }

  /** Is `l` an active (unstopped) log of this task and user? */
  predicate ActiveFor(l: TimeLog, taskId: string, userId: string)
  {
    l.taskId == taskId && l.userId == userId && l.endTime.None?
  }

  /** getActiveLogForTask: the first unstopped log of the pair (services/api.ts:226-229). */
  function FindActive(logs: seq<TimeLog>, taskId: string, userId: string): (r: Option<nat>)
    ensures r.Some? ==> r.value < |logs| && ActiveFor(logs[r.value], taskId, userId)
    ensures r.Some? ==> forall j :: 0 <= j < r.value ==> !ActiveFor(logs[j], taskId, userId)
    ensures r.None? ==> forall j :: 0 <= j < |logs| ==> !ActiveFor(logs[j], taskId, userId)
  {
    IndexWhere(logs, (l: TimeLog) => ActiveFor(l, taskId, userId))
  }

  // ---------------------------------------------------------------------
  // Invariants of the time-log list

  predicate DistinctIds(a: TimeLog, b: TimeLog)
  {
    a.id != b.id
  }

  /** Two logs are never both active for the same (task, user) pair. */
  predicate NotBothActive(a: TimeLog, b: TimeLog)
  {
    IsActive(a) && IsActive(b) ==> !(a.taskId == b.taskId && a.userId == b.userId)
  }

  predicate UniqueLogIds(logs: seq<TimeLog>)
  {
    forall i, j :: 0 <= i < j < |logs| ==> DistinctIds(logs[i], logs[j])
  }

  predicate OneActivePerPair(logs: seq<TimeLog>)
  {
    forall i, j :: 0 <= i < j < |logs| ==> NotBothActive(logs[i], logs[j])
  }

  predicate AllWellFormed(logs: seq<TimeLog>)
  {
    forall l :: l in logs ==> WellFormed(l)
  }

  predicate LogsValid(logs: seq<TimeLog>)
  {
    UniqueLogIds(logs) && OneActivePerPair(logs) && AllWellFormed(logs)
  }

  predicate NoActiveFor(logs: seq<TimeLog>, taskId: string, userId: string)
  {
    forall j :: 0 <= j < |logs| ==> !ActiveFor(logs[j], taskId, userId)
  }

  /** Keeping a subsequence of a valid log list keeps it valid. */
  lemma FilterKeepsLogsValid(logs: seq<TimeLog>, p: TimeLog -> bool)
    requires LogsValid(logs)
    ensures LogsValid(Filter(logs, p))
  {
    FilterPairwise(logs, p, DistinctIds);
    FilterPairwise(logs, p, NotBothActive);
  }

  // ---------------------------------------------------------------------
  // Departments (services/api.ts:207-223)

  predicate NoDuplicates(ds: seq<string>)
  {
    forall i, j :: 0 <= i < j < |ds| ==> ds[i] != ds[j]
  }

  /** addDepartment: append `name` unless it is already listed. */
  function WithDepartment(ds: seq<string>, name: string): (r: seq<string>)
    ensures ds <= r && name in r
    ensures |r| <= |ds| + 1
  {
    if name in ds then ds else ds + [name]
  }

  /** deleteDepartment: drop every occurrence of `name`. */
  function WithoutDepartment(ds: seq<string>, name: string): (r: seq<string>)
    ensures name !in r && |r| <= |ds|
  {
    Filter(ds, (d: string) => d != name)
  }

  lemma WithDepartmentProperties(ds: seq<string>, name: string)
    ensures name in WithDepartment(ds, name)
    ensures forall d :: d in WithDepartment(ds, name) <==> d in ds || d == name
    ensures WithDepartment(WithDepartment(ds, name), name) == WithDepartment(ds, name)
    ensures NoDuplicates(ds) ==> NoDuplicates(WithDepartment(ds, name))
  {
  }

  lemma WithoutDepartmentProperties(ds: seq<string>, name: string)
    ensures name !in WithoutDepartment(ds, name)
    ensures forall d :: d != name ==> (d in WithoutDepartment(ds, name) <==> d in ds)
    ensures |WithoutDepartment(ds, name)| < |ds| <==> name in ds
    ensures name !in ds ==> WithoutDepartment(ds, name) == ds
    ensures NoDuplicates(ds) ==> NoDuplicates(WithoutDepartment(ds, name))
  {
    if NoDuplicates(ds) {
      FilterPairwise(ds, (d: string) => d != name, (a: string, b: string) => a != b);
    }
  }

  // ---------------------------------------------------------------------
  // The timer on the store (services/api.ts:231-286)

  /**
   * pauseTimer / resumeTimer / stopTimer: find the first log with the id
   * and apply the transition to it in place; otherwise nothing changes and
   * the result is absent.
   */
  function Transitioned(logs: seq<TimeLog>, id: string, op: Op, now: int): (r: (seq<TimeLog>, Option<TimeLog>))
    ensures |r.0| == |logs|
    ensures r.1.Some? ==> r.1.value in r.0 && r.1.value.id == id
    ensures r.1.None? ==> r.0 == logs
    ensures r.1.Some? ==> FindLog(logs, id).Some? &&
                          r.1 == Step(op, logs[FindLog(logs, id).value], now) &&
                          r.0 == logs[FindLog(logs, id).value := r.1.value]
  {
    match FindLog(logs, id)
    case None => (logs, None)
    case Some(i) =>
      match Step(op, logs[i], now)
      case None => (logs, None)
      case Some(l) =>
        assert logs[i := l][i] == l;
        (logs[i := l], Some(l))
  }

  /**
   * A transition touches at most the first log with the id; it fails and
   * changes nothing when no log has the id or the transition is illegal.
   */
  lemma TransitionedChangesOnlyTarget(logs: seq<TimeLog>, id: string, op: Op, now: int)
    ensures |Transitioned(logs, id, op, now).0| == |logs|
    ensures Transitioned(logs, id, op, now).1.None? <==>
              FindLog(logs, id).None? || Step(op, logs[FindLog(logs, id).value], now).None?
    ensures Transitioned(logs, id, op, now).1.None? ==> Transitioned(logs, id, op, now).0 == logs
    ensures forall j :: 0 <= j < |logs| && Some(j) != FindLog(logs, id) ==>
              Transitioned(logs, id, op, now).0[j] == logs[j]
    ensures FindLog(logs, id).Some? ==>
              var i := FindLog(logs, id).value;
              Transitioned(logs, id, op, now).0[i] ==
                (if Step(op, logs[i], now).Some? then Step(op, logs[i], now).value else logs[i])
  {
  }

  lemma {:induction false} TransitionedKeepsValid(logs: seq<TimeLog>, id: string, op: Op, now: int)
    requires LogsValid(logs)
    ensures LogsValid(Transitioned(logs, id, op, now).0)
  {
    match FindLog(logs, id)
    case None =>
    case Some(k) =>
      StepProperties(op, logs[k], now);
      var r := Transitioned(logs, id, op, now).0;
      if Step(op, logs[k], now).Some? {
        assert r == logs[k := Step(op, logs[k], now).value];
        forall i, j | 0 <= i < j < |r| ensures DistinctIds(r[i], r[j]) && NotBothActive(r[i], r[j]) {
          assert DistinctIds(logs[i], logs[j]) && NotBothActive(logs[i], logs[j]);
        }
        forall l | l in r ensures WellFormed(l) {
          var m :| 0 <= m < |r| && r[m] == l;
          if m != k { assert logs[m] in logs; }
        }
      }
  }

  /** With a clock past every start time, a transition lowers no log's duration. */
  lemma TransitionedDurationsMonotone(logs: seq<TimeLog>, id: string, op: Op, now: int)
    requires forall l :: l in logs ==> l.startTime <= now
    ensures forall j :: 0 <= j < |logs| ==>
              Transitioned(logs, id, op, now).0[j].duration >= logs[j].duration
  {
    match FindLog(logs, id)
    case None =>
    case Some(k) =>
      assert logs[k] in logs;
      StepDurationMonotone(op, logs[k], now);
  }

  /**
   * startTimer: stop the pair's active log, if any, then append a fresh
   * running log (services/api.ts:231-250).
   */
  function Started(logs: seq<TimeLog>, taskId: string, userId: string, now: int, freshId: string): (r: seq<TimeLog>)
    ensures |r| == |logs| + 1
    ensures IsActive(r[|logs|]) && r[|logs|].id == freshId && r[|logs|].startTime == now
  {
    var settled :=
      match FindActive(logs, taskId, userId)
      case None => logs
      case Some(i) => Transitioned(logs, logs[i].id, StopOp, now).0;
    settled + [NewLog(freshId, taskId, userId, now)]
  }

  /**
   * startTimer leaves every earlier log as it was, except the log it stops:
   * with no active log of the pair the old list is a prefix of the new one;
   * otherwise only logs sharing the stopped log's id can change, and on a
   * valid list only the stopped log itself.
   */
  lemma StartedKeepsOthers(logs: seq<TimeLog>, taskId: string, userId: string, now: int, freshId: string)
    ensures FindActive(logs, taskId, userId).None? ==>
              Started(logs, taskId, userId, now, freshId)[..|logs|] == logs
    ensures FindActive(logs, taskId, userId).Some? ==>
              forall j :: 0 <= j < |logs| && logs[j].id != logs[FindActive(logs, taskId, userId).value].id ==>
                Started(logs, taskId, userId, now, freshId)[j] == logs[j]
    ensures LogsValid(logs) ==>
              forall j :: 0 <= j < |logs| && Some(j) != FindActive(logs, taskId, userId) ==>
                Started(logs, taskId, userId, now, freshId)[j] == logs[j]
  {
    if LogsValid(logs) && FindActive(logs, taskId, userId).Some? {
      StopActiveClearsPair(logs, taskId, userId, now);
    }
  }

  /** With unique ids, stopping the pair's first active log leaves the pair without one. */
  lemma {:induction false} StopActiveClearsPair(logs: seq<TimeLog>, taskId: string, userId: string, now: int)
    requires LogsValid(logs)
    requires FindActive(logs, taskId, userId).Some?
    ensures var i := FindActive(logs, taskId, userId).value;
            var settled := Transitioned(logs, logs[i].id, StopOp, now).0;
            FindLog(logs, logs[i].id) == Some(i) &&
            settled == logs[i := Stop(logs[i], now).value] &&
            NoActiveFor(settled, taskId, userId)
  {
    var i := FindActive(logs, taskId, userId).value;
    forall k | 0 <= k < i ensures logs[k].id != logs[i].id {
      assert DistinctIds(logs[k], logs[i]);
    }
    var settled := logs[i := Stop(logs[i], now).value];
    forall j | 0 <= j < |settled| ensures !ActiveFor(settled[j], taskId, userId) {
      if j != i {
        if j < i {
          assert NotBothActive(logs[j], logs[i]);
        } else {
          assert NotBothActive(logs[i], logs[j]);
        }
      }
    }
  }

  /** Appending a well-formed log with a fresh id, for a pair with no active log, keeps a list valid. */
  lemma AppendKeepsValid(logs: seq<TimeLog>, n: TimeLog)
    requires LogsValid(logs) && WellFormed(n)
    requires forall j :: 0 <= j < |logs| ==> logs[j].id != n.id
    requires NoActiveFor(logs, n.taskId, n.userId)
    ensures LogsValid(logs + [n])
  {
    var r := logs + [n];
    forall i, j | 0 <= i < j < |r| ensures DistinctIds(r[i], r[j]) && NotBothActive(r[i], r[j]) {
      if j == |logs| {
        assert !ActiveFor(logs[i], n.taskId, n.userId);
      } else {
        assert DistinctIds(logs[i], logs[j]) && NotBothActive(logs[i], logs[j]);
      }
    }
    assert forall l :: l in r ==> l in logs || l == n;
  }

  /**
   * startTimer keeps the log list valid when the new id is fresh: in
   * particular at most one log per (task, user) pair is active afterwards.
   */
  lemma StartedKeepsValid(logs: seq<TimeLog>, taskId: string, userId: string, now: int, freshId: string)
    requires LogsValid(logs)
    requires forall l :: l in logs ==> l.id != freshId
    ensures LogsValid(Started(logs, taskId, userId, now, freshId))
  {
    var n := NewLog(freshId, taskId, userId, now);
    var settled :=
      match FindActive(logs, taskId, userId)
      case None => logs
      case Some(i) => Transitioned(logs, logs[i].id, StopOp, now).0;
    match FindActive(logs, taskId, userId)
    case None =>
    case Some(i) =>
      StopActiveClearsPair(logs, taskId, userId, now);
      TransitionedKeepsValid(logs, logs[i].id, StopOp, now);
    forall j | 0 <= j < |settled| ensures settled[j].id != freshId {
      assert settled[j].id == logs[j].id;
      assert logs[j] in logs;
    }
    AppendKeepsValid(settled, n);
  }

  lemma FirstActiveAt(logs: seq<TimeLog>, taskId: string, userId: string, k: nat)
    requires k < |logs| && ActiveFor(logs[k], taskId, userId)
    requires forall j :: 0 <= j < k ==> !ActiveFor(logs[j], taskId, userId)
    ensures FindActive(logs, taskId, userId) == Some(k)
  {
  }

  /**
   * After startTimer (valid list, fresh id) the pair's active log is the
   * new one, running from `now` with no duration, and a previously active
   * log of the pair has been stopped at `now`.
   */
  lemma {:induction false} StartedActiveIsNew(logs: seq<TimeLog>, taskId: string, userId: string, now: int, freshId: string)
    requires LogsValid(logs)
    ensures var r := Started(logs, taskId, userId, now, freshId);
            |r| == |logs| + 1 &&
            FindActive(r, taskId, userId) == Some(|logs|) &&
            r[|logs|] == NewLog(freshId, taskId, userId, now)
    ensures var old_ := FindActive(logs, taskId, userId);
            old_.Some? ==>
              Started(logs, taskId, userId, now, freshId)[old_.value] == Stop(logs[old_.value], now).value
  {
    var r := Started(logs, taskId, userId, now, freshId);
    var n := NewLog(freshId, taskId, userId, now);
    var settled :=
      match FindActive(logs, taskId, userId)
      case None => logs
      case Some(i) => Transitioned(logs, logs[i].id, StopOp, now).0;
    assert r == settled + [n];
    if FindActive(logs, taskId, userId).Some? {
      StopActiveClearsPair(logs, taskId, userId, now);
    }
    assert NoActiveFor(settled, taskId, userId);
    assert forall j :: 0 <= j < |logs| ==> r[j] == settled[j];
    assert ActiveFor(r[|logs|], taskId, userId);
    FirstActiveAt(r, taskId, userId, |logs|);
  }

  // ---------------------------------------------------------------------
  // Users (services/api.ts:289-354)

  /** `{ ...original, ...update }` for an optional field: a present key overrides. */
  function Overlay(original: Option<string>, update: Option<string>): (r: Option<string>)
    ensures update.Some? ==> r == update
    ensures update.None? ==> r == original
  {
    if update.Some? then update else original
  }

  /** updateUser's record: every field from the update except the password. */
  function ProfileMerged(original: User, update: User): (r: User)
    ensures r.password == original.password
    ensures r.id == update.id && r.name == update.name && r.email == update.email
    ensures r.role == update.role && r.avatarUrl == update.avatarUrl
    ensures r.designation == Overlay(original.designation, update.designation)
    ensures r.workPhone == Overlay(original.workPhone, update.workPhone)
    ensures r.personalMobile == Overlay(original.personalMobile, update.personalMobile)
    ensures r.department == Overlay(original.department, update.department)
  {
    User(update.id, update.name, update.email, original.password, update.role, update.avatarUrl,
         Overlay(original.designation, update.designation),
         Overlay(original.workPhone, update.workPhone),
         Overlay(original.personalMobile, update.personalMobile),
         Overlay(original.department, update.department))
  }

  /** `updated.password || original.password`: an absent or empty password keeps the stored one. */
  function KeptPassword(original: Option<string>, update: Option<string>): (r: Option<string>)
    ensures update.Some? && update.value != "" ==> r == update
    ensures update.None? || update.value == "" ==> r == original
  {
    if update.Some? && update.value != "" then update else original
  }

  /** updateMember's record: the update over the original, with the password rule above. */
  function MemberMerged(original: User, update: User): (r: User)
    ensures r.id == update.id && r.name == update.name && r.email == update.email
    ensures r.role == update.role && r.avatarUrl == update.avatarUrl
    ensures update.designation.Some? ==> r.designation == update.designation
    ensures update.designation.None? ==> r.designation == original.designation
    ensures update.workPhone.Some? ==> r.workPhone == update.workPhone
    ensures update.workPhone.None? ==> r.workPhone == original.workPhone
    ensures update.personalMobile.Some? ==> r.personalMobile == update.personalMobile
    ensures update.personalMobile.None? ==> r.personalMobile == original.personalMobile
    ensures update.department.Some? ==> r.department == update.department
    ensures update.department.None? ==> r.department == original.department
    ensures update.password.Some? && update.password.value != "" ==> r.password == update.password
    ensures update.password.None? || update.password.value == "" ==> r.password == original.password
    ensures r.(password := original.password) == ProfileMerged(original, update)
  {
    ProfileMerged(original, update).(password := KeptPassword(original.password, update.password))
  }

  /** A stored password is never erased by updateMember. */
  lemma MemberMergedNeverErasesPassword(original: User, update: User)
    ensures original.password.Some? ==> MemberMerged(original, update).password.Some?
    ensures MemberMerged(original, update).password.Some? ==> MemberMerged(original, update).password.value != "" || original.password == MemberMerged(original, update).password
  {
  }

  /** Replace the first user with the update's id by `merge(original, update)`. */
  function AfterUpdateUser(d: Data, update: User, member: bool): (r: (Data, Option<User>))
    ensures r.1.None? ==> r.0 == d
    ensures r.1.Some? ==> r.1.value in r.0.users && r.1.value.id == update.id
    ensures |r.0.users| == |d.users| && r.0.tasks == d.tasks && r.0.timeLogs == d.timeLogs
  {
    match FindUser(d.users, update.id)
    case None => (d, None)
    case Some(i) =>
      var merged := if member then MemberMerged(d.users[i], update) else ProfileMerged(d.users[i], update);
      assert d.users[i := merged][i] == merged;
      (d.(users := d.users[i := merged]), Some(merged))
  }

  /**
   * updateUser never changes a stored password; neither update touches
   * other users, tasks or logs; an unknown id changes nothing.
   */
  lemma UpdateUserProperties(d: Data, update: User, member: bool)
    ensures var (d', r) := AfterUpdateUser(d, update, member);
            d'.projects == d.projects && d'.tasks == d.tasks && d'.timeLogs == d.timeLogs &&
            d'.departments == d.departments && |d'.users| == |d.users| &&
            (r.None? <==> forall j :: 0 <= j < |d.users| ==> d.users[j].id != update.id) &&
            (r.None? ==> d' == d) &&
            (!member ==> forall j :: 0 <= j < |d.users| ==> d'.users[j].password == d.users[j].password) &&
            (forall j :: 0 <= j < |d.users| && d.users[j].id != update.id ==> d'.users[j] == d.users[j]) &&
            (r.Some? ==> exists i :: FirstUserAt(d.users, i, update.id) &&
                           r.value == (if member then MemberMerged(d.users[i], update) else ProfileMerged(d.users[i], update)) &&
                           d'.users == d.users[i := r.value])
  {
  }

  predicate IsAdmin(u: User)
  {
    u.role == Admin
  }

  /** `users.filter(u => u.role === Role.Admin).length`. */
  function AdminCount(users: seq<User>): nat
  {
    |Filter(users, IsAdmin)|
  }

  lemma AdminCountPositive(users: seq<User>)
    ensures AdminCount(users) >= 1 <==> exists i :: 0 <= i < |users| && IsAdmin(users[i])
  {
    var admins := Filter(users, IsAdmin);
    if |admins| >= 1 {
      assert admins[0] in admins;
    }
  }

  function WithoutUser(users: seq<User>, id: string): seq<User>
  {
    Filter(users, (u: User) => u.id != id)
  }

  /** The id tasks are handed to: the first Admin's, or '' when there is none. */
  function HeirId(users: seq<User>): (r: string)
    ensures r != "" ==> exists i :: 0 <= i < |users| && users[i].id == r && IsAdmin(users[i])
    ensures (forall i :: 0 <= i < |users| ==> !IsAdmin(users[i])) ==> r == ""
    ensures (exists i :: 0 <= i < |users| && IsAdmin(users[i])) ==>
              exists i :: 0 <= i < |users| && IsAdmin(users[i]) && r == users[i].id &&
                          forall k :: 0 <= k < i ==> !IsAdmin(users[k])
  {
    match IndexWhere(users, IsAdmin)
    case None => ""
    case Some(i) => users[i].id
  }

  /** Tasks of `from` handed to `to`; every other task as it was. */
  function Reassigned(tasks: seq<Task>, from: string, to: string): (r: seq<Task>)
    ensures |r| == |tasks|
    ensures forall k :: 0 <= k < |r| ==> r[k].id == tasks[k].id && (r[k].assigneeId == from ==> from == to)
  {
    seq(|tasks|, i requires 0 <= i < |tasks| =>
      if tasks[i].assigneeId == from then tasks[i].(assigneeId := to) else tasks[i])
  }

  /**
   * The forEach of deleteMember over the tasks: every task of `userId` is
   * handed to the first Admin of `users` (or ''); the others are kept.
   */
  method ReassignTasks(tasks: seq<Task>, userId: string, users: seq<User>) returns (r: seq<Task>)
    ensures |r| == |tasks|
    ensures forall k :: 0 <= k < |tasks| && tasks[k].assigneeId == userId ==>
              r[k] == tasks[k].(assigneeId := HeirId(users))
    ensures forall k :: 0 <= k < |tasks| && tasks[k].assigneeId != userId ==> r[k] == tasks[k]
    ensures r == Reassigned(tasks, userId, HeirId(users))
  {
    r := tasks;
    var i := 0;
    while i < |r|
      invariant 0 <= i <= |r| == |tasks|
      invariant forall k :: 0 <= k < i ==> r[k] == Reassigned(tasks, userId, HeirId(users))[k]
      invariant forall k :: i <= k < |r| ==> r[k] == tasks[k]
    {
      if r[i].assigneeId == userId {
        var firstAdmin := HeirId(users);
        r := r[i := r[i].(assigneeId := firstAdmin)];
      }
      i := i + 1;
    }
  }

  function LogsNotOfUser(logs: seq<TimeLog>, userId: string): seq<TimeLog>
  {
    Filter(logs, (l: TimeLog) => l.userId != userId)
  }

  /** deleteMember's guard: the first user with the id is an Admin and at most one Admin exists. */
  predicate LastAdminGuard(users: seq<User>, userId: string)
  {
    match FindUser(users, userId)
    case None => false
    case Some(i) => IsAdmin(users[i]) && AdminCount(users) <= 1
  }

  /** deleteMember (services/api.ts:327-354). */
  function AfterDeleteMember(d: Data, userId: string): (r: (Data, bool))
    ensures !r.1 ==> r.0 == d
    ensures r.0.projects == d.projects && r.0.departments == d.departments
    ensures |r.0.users| <= |d.users| && |r.0.tasks| == |d.tasks| && |r.0.timeLogs| <= |d.timeLogs|
  {
    if LastAdminGuard(d.users, userId) then (d, false) else Removed(d, userId)
  }

  /**
   * deleteMember past its guard: drop every user with the id; if any was
   * dropped, hand their tasks on and drop their logs.
   */
  function Removed(d: Data, userId: string): (r: (Data, bool))
    ensures !r.1 ==> r.0 == d
    ensures r.0.users == WithoutUser(d.users, userId)
  {
    var users := WithoutUser(d.users, userId);
    if |users| < |d.users| then
      (d.(users := users,
          tasks := Reassigned(d.tasks, userId, HeirId(users)),
          timeLogs := LogsNotOfUser(d.timeLogs, userId)), true)
    else (d, false)
  }

  /**
   * deleteMember succeeds exactly when the user exists and is not the
   * last Admin; on failure nothing changes. On success the user is gone,
   * so are all of their logs, each of their tasks is handed to the first
   * remaining Admin (or ''), and everything else is as it was.
   */
  lemma DeleteMemberOutcome(d: Data, userId: string)
    ensures var (d', ok) := AfterDeleteMember(d, userId);
            (ok <==> FindUser(d.users, userId).Some? && !LastAdminGuard(d.users, userId)) &&
            (!ok ==> d' == d) &&
            (ok ==> d'.users == WithoutUser(d.users, userId) &&
                    d'.timeLogs == LogsNotOfUser(d.timeLogs, userId) &&
                    (forall u :: u in d'.users <==> u in d.users && u.id != userId) &&
                    (forall l :: l in d'.timeLogs <==> l in d.timeLogs && l.userId != userId) &&
                    |d'.tasks| == |d.tasks| &&
                    (forall i :: 0 <= i < |d.tasks| && d.tasks[i].assigneeId == userId ==>
                       d'.tasks[i] == d.tasks[i].(assigneeId := HeirId(d'.users))) &&
                    (forall i :: 0 <= i < |d.tasks| && d.tasks[i].assigneeId != userId ==>
                       d'.tasks[i] == d.tasks[i]) &&
                    d'.projects == d.projects && d'.departments == d.departments)
  {
    var users := WithoutUser(d.users, userId);
    if FindUser(d.users, userId).Some? {
      var k := FindUser(d.users, userId).value;
      assert !(|users| == |d.users|);
    }
  }

  /**
   * A successful deleteMember leaves no task with the deleted id (unless the
   * id is '' and no Admin is left to inherit), and no log of that user.
   */
  lemma DeleteMemberLeavesNoTrace(d: Data, userId: string)
    requires userId != ""
    requires AfterDeleteMember(d, userId).1
    ensures forall t :: t in AfterDeleteMember(d, userId).0.tasks ==> t.assigneeId != userId
    ensures forall l :: l in AfterDeleteMember(d, userId).0.timeLogs ==> l.userId != userId
  {
    DeleteMemberOutcome(d, userId);
    var d' := AfterDeleteMember(d, userId).0;
    var heir := HeirId(d'.users);
    if heir != "" {
      var i :| 0 <= i < |d'.users| && d'.users[i].id == heir && IsAdmin(d'.users[i]);
      assert d'.users[i] in d'.users;
    }
  }

  predicate DistinctUserIds(a: User, b: User)
  {
    a.id != b.id
  }

  predicate UniqueUserIds(users: seq<User>)
  {
    forall i, j :: 0 <= i < j < |users| ==> DistinctUserIds(users[i], users[j])
  }

  /** When the guard lets a deletion through, some Admin with another id remains. */
  lemma {:induction false} AdminSurvives(users: seq<User>, userId: string)
    requires UniqueUserIds(users)
    requires AdminCount(users) >= 1
    requires FindUser(users, userId).Some? && !LastAdminGuard(users, userId)
    ensures exists a :: 0 <= a < |users| && IsAdmin(users[a]) && users[a].id != userId
  {
    var t := FindUser(users, userId).value;
    if IsAdmin(users[t]) {
      var admins := Filter(users, IsAdmin);
      FilterPairwise(users, IsAdmin, DistinctUserIds);
      assert DistinctUserIds(admins[0], admins[1]);
      var survivor := if admins[0].id != userId then admins[0] else admins[1];
      assert survivor in admins;
      var a :| 0 <= a < |users| && users[a] == survivor;
    } else {
      AdminCountPositive(users);
      var a :| 0 <= a < |users| && IsAdmin(users[a]);
      if a < t {
        assert DistinctUserIds(users[a], users[t]);
      } else if a > t {
        assert DistinctUserIds(users[t], users[a]);
      }
    }
  }

  /**
   * With unique user ids, deleteMember never removes the last Admin.
   * (updateMember can still demote one: the guard lives only here.)
   */
  lemma {:induction false} DeleteMemberKeepsAnAdmin(d: Data, userId: string)
    requires UniqueUserIds(d.users)
    requires AdminCount(d.users) >= 1
    ensures AdminCount(AfterDeleteMember(d, userId).0.users) >= 1
  {
    if AfterDeleteMember(d, userId).1 {
      DeleteMemberOutcome(d, userId);
      AdminSurvives(d.users, userId);
      var a :| 0 <= a < |d.users| && IsAdmin(d.users[a]) && d.users[a].id != userId;
      var remaining := WithoutUser(d.users, userId);
      assert d.users[a] in remaining;
      var s :| 0 <= s < |remaining| && remaining[s] == d.users[a];
      AdminCountPositive(remaining);
    }
  }

  /**
   * The guard checks only the first user with the id, but the filter drops
   * every user with it: a Member and the only Admin sharing one id lets
   * deleteMember remove the last Admin.
   */
  lemma DuplicateIdRemovesLastAdmin()
    ensures var member := User("x", "M", "m@x", None, Member, "", None, None, None, None);
            var d := Data([member, member.(role := Admin)], [], [], [], []);
            AdminCount(d.users) == 1 &&
            AfterDeleteMember(d, "x").1 && AdminCount(AfterDeleteMember(d, "x").0.users) == 0
  {
    var member := User("x", "M", "m@x", None, Member, "", None, None, None, None);
    var admin := member.(role := Admin);
    var users := [member, admin];
    assert users[..1] == [member] && [member][..0] == [];
    assert Filter(users, IsAdmin) == [admin];
    assert WithoutUser(users, "x") == [];
  }

  /**
   * The guard as intended: refuse exactly when the deletion would leave no
   * Admin although there was one.
   */
  predicate RemovesLastAdmin(users: seq<User>, userId: string)
  {
    AdminCount(users) >= 1 && AdminCount(WithoutUser(users, userId)) == 0
  }

  /** deleteMember with the intended guard: it never removes the last Admin, whatever the ids. */
  function AfterDeleteMemberIntended(d: Data, userId: string): (r: (Data, bool))
    ensures AdminCount(d.users) >= 1 ==> AdminCount(r.0.users) >= 1
    ensures !r.1 ==> r.0 == d
    ensures r.1 ==> r.0.users == WithoutUser(d.users, userId) && |r.0.users| < |d.users|
  {
    if RemovesLastAdmin(d.users, userId) then (d, false) else Removed(d, userId)
  }

  // ---------------------------------------------------------------------
  // Tasks (services/api.ts:356-386)

  function TasksWithoutId(tasks: seq<Task>, id: string): seq<Task>
  {
    Filter(tasks, (t: Task) => t.id != id)
  }

  function LogsNotOfTask(logs: seq<TimeLog>, taskId: string): seq<TimeLog>
  {
    Filter(logs, (l: TimeLog) => l.taskId != taskId)
  }

  /** deleteTask: drop the task and, only if it existed, its logs. */
  function AfterDeleteTask(d: Data, taskId: string): (r: (Data, bool))
    ensures !r.1 ==> r.0 == d
    ensures r.0.users == d.users && r.0.projects == d.projects && r.0.departments == d.departments
    ensures r.1 ==> |r.0.tasks| < |d.tasks|
  {
    var tasks := TasksWithoutId(d.tasks, taskId);
    if |tasks| < |d.tasks| then
      (d.(tasks := tasks, timeLogs := LogsNotOfTask(d.timeLogs, taskId)), true)
    else (d, false)
  }

  /**
   * deleteTask reports true exactly when a task had the id; then every task
   * and log with that id is gone and every other one kept; otherwise
   * nothing changes.
   */
  lemma DeleteTaskOutcome(d: Data, taskId: string)
    ensures var (d', ok) := AfterDeleteTask(d, taskId);
            (ok <==> exists i :: 0 <= i < |d.tasks| && d.tasks[i].id == taskId) &&
            (!ok ==> d' == d) &&
            (ok ==> d'.tasks == TasksWithoutId(d.tasks, taskId) &&
                    d'.timeLogs == LogsNotOfTask(d.timeLogs, taskId) &&
                    (forall t :: t in d'.tasks <==> t in d.tasks && t.id != taskId) &&
                    (forall l :: l in d'.timeLogs <==> l in d.timeLogs && l.taskId != taskId) &&
                    d'.users == d.users && d'.projects == d.projects && d'.departments == d.departments)
  {
  }

  /** updateTask: replace the first task with the id wholesale. */
  function AfterUpdateTask(d: Data, task: Task): (r: (Data, Option<Task>))
    ensures r.1.None? ==> r.0 == d
    ensures r.1.Some? ==> r.1.value == task && task in r.0.tasks
    ensures |r.0.tasks| == |d.tasks| && r.0.users == d.users && r.0.timeLogs == d.timeLogs
  {
    match FindTask(d.tasks, task.id)
    case None => (d, None)
    case Some(i) =>
      assert d.tasks[i := task][i] == task;
      (d.(tasks := d.tasks[i := task]), Some(task))
  }

  lemma UpdateTaskOutcome(d: Data, task: Task)
    ensures var (d', r) := AfterUpdateTask(d, task);
            (r.Some? <==> exists i :: 0 <= i < |d.tasks| && d.tasks[i].id == task.id) &&
            (r.None? ==> d' == d) &&
            (r.Some? ==> r.value == task && task in d'.tasks && |d'.tasks| == |d.tasks| &&
                         d'.users == d.users && d'.timeLogs == d.timeLogs &&
                         forall j :: 0 <= j < |d.tasks| && d.tasks[j].id != task.id ==> d'.tasks[j] == d.tasks[j]) &&
            (r.Some? ==> exists i :: FirstTaskAt(d.tasks, i, task.id) && d'.tasks == d.tasks[i := task])
  {
    match FindTask(d.tasks, task.id)
    case None =>
    case Some(i) =>
      assert AfterUpdateTask(d, task).0.tasks[i] == task;
      assert FirstTaskAt(d.tasks, i, task.id);
  }

  // ---------------------------------------------------------------------
  // The store object

  /** The test of getTasksForUser's filter. */
  function AssignedTo(userId: string): Task -> bool
  {
    (t: Task) => t.assigneeId == userId
  }

  /** The test of getTimeLogsForUser's filter. */
  function LoggedBy(userId: string): TimeLog -> bool
  {
    (l: TimeLog) => l.userId == userId
  }

  /** The module-level `data` record and the api methods that read and mutate it. */
  class Store {
    var data: Data

    /** The state invariants the timer and department operations keep. */
    ghost predicate Valid()
      reads this
      ensures Valid() ==> forall i, j :: 0 <= i < j < |data.timeLogs| ==> data.timeLogs[i].id != data.timeLogs[j].id
      ensures Valid() ==> forall l :: l in data.timeLogs ==> WellFormed(l)
      ensures Valid() ==> forall i, j, taskId, userId ::
                (0 <= i < j < |data.timeLogs| && ActiveFor(data.timeLogs[i], taskId, userId)) ==>
                  !ActiveFor(data.timeLogs[j], taskId, userId)
      ensures Valid() ==> forall i, j :: 0 <= i < j < |data.departments| ==> data.departments[i] != data.departments[j]
    {
      LogsValid(data.timeLogs) && NoDuplicates(data.departments)
    }

    /** loadData with nothing saved: the seed fixtures (services/api.ts:132-141). */
    constructor Seed()
      ensures data == SeedData
      ensures Valid()
    {
      data := SeedData;
    }

    /** loadData from a saved snapshot; a missing department list defaults to the seed one. */
    constructor Restore(users: seq<User>, projects: seq<Project>, tasks: seq<Task>,
                        timeLogs: seq<TimeLog>, departments: Option<seq<string>>)
      ensures data == Data(users, projects, tasks, timeLogs, LoadedDepartments(departments))
    {
      data := Data(users, projects, tasks, timeLogs, LoadedDepartments(departments));
    }

    // --- getters (services/api.ts:185-200, 226-229)

    function GetTask(id: string): (r: Option<Task>)
      reads this
      ensures r.Some? ==> exists i :: FirstTaskAt(data.tasks, i, id) && r.value == data.tasks[i]
      ensures r.None? <==> forall t :: t in data.tasks ==> t.id != id
    {
      match FindTask(data.tasks, id)
      case None => None
      case Some(i) => Some(data.tasks[i])
    }

    function GetTasksForUser(userId: string): (r: seq<Task>)
      reads this
      ensures forall t :: t in r <==> t in data.tasks && t.assigneeId == userId
      ensures r == Filter(data.tasks, AssignedTo(userId))
    {
      Filter(data.tasks, AssignedTo(userId))
    }

    function GetTimeLogsForUser(userId: string): (r: seq<TimeLog>)
      reads this
      ensures forall l :: l in r <==> l in data.timeLogs && l.userId == userId
      ensures r == Filter(data.timeLogs, LoggedBy(userId))
    {
      Filter(data.timeLogs, LoggedBy(userId))
    }

    /** The first unstopped log of the pair; when the store is valid it is the only one. */
    function GetActiveLogForTask(taskId: string, userId: string): (r: Option<TimeLog>)
      reads this
      ensures r.Some? ==> r.value in data.timeLogs && ActiveFor(r.value, taskId, userId)
      ensures r.Some? ==> exists i :: 0 <= i < |data.timeLogs| && r.value == data.timeLogs[i] &&
                            ActiveFor(data.timeLogs[i], taskId, userId) &&
                            forall k :: 0 <= k < i ==> !ActiveFor(data.timeLogs[k], taskId, userId)
      ensures r.None? <==> forall l :: l in data.timeLogs ==> !ActiveFor(l, taskId, userId)
    {
      match FindActive(data.timeLogs, taskId, userId)
      case None => None
      case Some(i) => Some(data.timeLogs[i])
    }

    // --- departments

    method AddDepartment(name: string) returns (r: string)
      modifies this
      ensures r == name
      ensures data == old(data).(departments := WithDepartment(old(data.departments), name))
      ensures old(Valid()) ==> Valid()
    {
      if name !in data.departments {
        data := data.(departments := data.departments + [name]);
      }
      WithDepartmentProperties(old(data.departments), name);
      return name;
    }

    method DeleteDepartment(name: string) returns (removed: bool)
      modifies this
      ensures removed <==> name in old(data.departments)
      ensures data == old(data).(departments := WithoutDepartment(old(data.departments), name))
      ensures old(Valid()) ==> Valid()
    {
      var initialLength := |data.departments|;
      data := data.(departments := WithoutDepartment(data.departments, name));
      WithoutDepartmentProperties(old(data.departments), name);
      removed := |data.departments| < initialLength;
    }

    // --- timer

    method PauseTimer(logId: string, now: int) returns (r: Option<TimeLog>)
      modifies this
      ensures (data.timeLogs, r) == Transitioned(old(data.timeLogs), logId, PauseOp, now)
      ensures data == old(data).(timeLogs := data.timeLogs)
      ensures old(Valid()) ==> Valid()
    {
      ghost var wasValid := Valid();
      if wasValid {
        TransitionedKeepsValid(data.timeLogs, logId, PauseOp, now);
      }
      var found := FindLog(data.timeLogs, logId);
      if found.Some? {
        var log := data.timeLogs[found.value];
        if log.endTime.None? && !log.isPaused {
          log := log.(duration := log.duration + Elapsed(log.startTime, now));
          log := log.(isPaused := true);
          data := data.(timeLogs := data.timeLogs[found.value := log]);
          return Some(log);
        }
      }
      return None;
    }

    method ResumeTimer(logId: string, now: int) returns (r: Option<TimeLog>)
      modifies this
      ensures (data.timeLogs, r) == Transitioned(old(data.timeLogs), logId, ResumeOp, now)
      ensures data == old(data).(timeLogs := data.timeLogs)
      ensures old(Valid()) ==> Valid()
    {
      ghost var wasValid := Valid();
      if wasValid {
        TransitionedKeepsValid(data.timeLogs, logId, ResumeOp, now);
      }
      var found := FindLog(data.timeLogs, logId);
      if found.Some? {
        var log := data.timeLogs[found.value];
        if log.endTime.None? && log.isPaused {
          log := log.(startTime := now);
          log := log.(isPaused := false);
          data := data.(timeLogs := data.timeLogs[found.value := log]);
          return Some(log);
        }
      }
      return None;
    }

    method StopTimer(logId: string, now: int) returns (r: Option<TimeLog>)
      modifies this
      ensures (data.timeLogs, r) == Transitioned(old(data.timeLogs), logId, StopOp, now)
      ensures data == old(data).(timeLogs := data.timeLogs)
      ensures old(Valid()) ==> Valid()
    {
      ghost var wasValid := Valid();
      if wasValid {
        TransitionedKeepsValid(data.timeLogs, logId, StopOp, now);
      }
      var found := FindLog(data.timeLogs, logId);
      if found.Some? {
        var log := data.timeLogs[found.value];
        if log.endTime.None? {
          log := log.(endTime := Some(now));
          if !log.isPaused {
            log := log.(duration := log.duration + Elapsed(log.startTime, now));
          }
          log := log.(isPaused := false);
          data := data.(timeLogs := data.timeLogs[found.value := log]);
          return Some(log);
        }
      }
      return None;
    }

    method StartTimer(taskId: string, userId: string, now: int, freshId: string) returns (r: TimeLog)
      modifies this
      ensures r == NewLog(freshId, taskId, userId, now)
      ensures data.timeLogs == Started(old(data.timeLogs), taskId, userId, now, freshId)
      ensures data == old(data).(timeLogs := data.timeLogs)
      ensures old(Valid()) && (forall l :: l in old(data.timeLogs) ==> l.id != freshId) ==> Valid()
    {
      ghost var wasValid := Valid();
      if wasValid && forall l :: l in data.timeLogs ==> l.id != freshId {
        StartedKeepsValid(data.timeLogs, taskId, userId, now, freshId);
      }
      var existing := GetActiveLogForTask(taskId, userId);
      if existing.Some? {
        var _ := StopTimer(existing.value.id, now);
      }
      var newLog := TimeLog(freshId, taskId, userId, now, None, 0, false);
      data := data.(timeLogs := data.timeLogs + [newLog]);
      return newLog;
    }

    // --- users

    method UpdateUser(update: User) returns (r: Option<User>)
      modifies this
      ensures (data, r) == AfterUpdateUser(old(data), update, false)
      ensures old(Valid()) ==> Valid()
    {
      var userIndex := FindUser(data.users, update.id);
      if userIndex.Some? {
        var merged := ProfileMerged(data.users[userIndex.value], update);
        data := data.(users := data.users[userIndex.value := merged]);
        return Some(merged);
      }
      return None;
    }

    method AddMember(member: User, freshId: string) returns (r: User)
      modifies this
      ensures r == member.(id := freshId)
      ensures data == old(data).(users := old(data.users) + [r])
      ensures old(Valid()) ==> Valid()
    {
      var newMember := member.(id := freshId);
      data := data.(users := data.users + [newMember]);
      return newMember;
    }

    method UpdateMember(update: User) returns (r: Option<User>)
      modifies this
      ensures (data, r) == AfterUpdateUser(old(data), update, true)
      ensures old(Valid()) ==> Valid()
    {
      var userIndex := FindUser(data.users, update.id);
      if userIndex.Some? {
        var merged := MemberMerged(data.users[userIndex.value], update);
        data := data.(users := data.users[userIndex.value := merged]);
        return Some(merged);
      }
      return None;
    }

    method DeleteMember(userId: string) returns (ok: bool)
      modifies this
      ensures (data, ok) == AfterDeleteMember(old(data), userId)
      ensures old(Valid()) ==> Valid()
    {
      ghost var wasValid := Valid();
      var userToDelete := FindUser(data.users, userId);
      if userToDelete.Some? && data.users[userToDelete.value].role == Admin {
        var adminCount := AdminCount(data.users);
        if adminCount <= 1 {
          return false;
        }
      }
      var initialLength := |data.users|;
      var users := WithoutUser(data.users, userId);
      data := data.(users := users);
      if |users| < initialLength {
        var tasks := ReassignTasks(data.tasks, userId, users);
        data := data.(tasks := tasks, timeLogs := LogsNotOfUser(data.timeLogs, userId));
        if wasValid {
          FilterKeepsLogsValid(old(data.timeLogs), (l: TimeLog) => l.userId != userId);
        }
        return true;
      }
      return false;
    }

    // --- tasks

    method AddTask(task: Task, freshId: string) returns (r: Task)
      modifies this
      ensures r == task.(id := freshId)
      ensures data == old(data).(tasks := old(data.tasks) + [r])
      ensures old(Valid()) ==> Valid()
    {
      var newTask := task.(id := freshId);
      data := data.(tasks := data.tasks + [newTask]);
      return newTask;
    }

    method UpdateTask(task: Task) returns (r: Option<Task>)
      modifies this
      ensures (data, r) == AfterUpdateTask(old(data), task)
      ensures old(Valid()) ==> Valid()
    {
      var taskIndex := FindTask(data.tasks, task.id);
      if taskIndex.Some? {
        data := data.(tasks := data.tasks[taskIndex.value := task]);
        return Some(task);
      }
      return None;
    }

    method DeleteTask(taskId: string) returns (ok: bool)
      modifies this
      ensures (data, ok) == AfterDeleteTask(old(data), taskId)
      ensures old(Valid()) ==> Valid()
    {
      ghost var wasValid := Valid();
      var initialLength := |data.tasks|;
      data := data.(tasks := TasksWithoutId(data.tasks, taskId));
      if |data.tasks| < initialLength {
        data := data.(timeLogs := LogsNotOfTask(data.timeLogs, taskId));
        if wasValid {
          FilterKeepsLogsValid(old(data.timeLogs), (l: TimeLog) => l.taskId != taskId);
        }
        return true;
      }
      return false;
    }
  }
}
