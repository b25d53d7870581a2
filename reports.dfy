// The reports page (pages/ReportsPage.tsx): the period filter on the logs,
// the three duration breakdowns (per project, per member, top ten tasks),
// the member's total and the member's completed tasks. Each breakdown
// accumulates into a dictionary keyed by name; the dictionary is modelled as
// a sequence of entries in insertion order. Report values stay in whole
// seconds; only the task ranking uses the hours rounded to two decimals,
// as integer hundredths.

module Reports {
  import opened Types
  import opened Seqs
  import opened Timer
  import opened Api

  // ---------------------------------------------------------------------
  // The period filter (pages/ReportsPage.tsx:44-82)

  /**
   * 'all', or the period's threshold in epoch milliseconds: midnight today,
   * midnight of this week's Monday, or the first of this month or January
   * 1st of this year at the current time of day (the month and year cases
   * do not reset the hours).
   */
  datatype Period = All | Since(threshold: int)

  function StartsFrom(threshold: int): TimeLog -> bool
  {
    (l: TimeLog) => l.startTime >= threshold
  }

  function FilteredLogs(logs: seq<TimeLog>, period: Period): (r: seq<TimeLog>)
    ensures period.All? ==> r == logs
    ensures period.Since? ==> forall l :: l in r <==> l in logs && l.startTime >= period.threshold
    ensures period.Since? ==> r == Filter(logs, StartsFrom(period.threshold))
    ensures |r| <= |logs|
  {
    match period
    case All => logs
    case Since(threshold) => Filter(logs, StartsFrom(threshold))
  }

  // ---------------------------------------------------------------------
  // A name-keyed dictionary of seconds

  /** One bar of a report: a name and the seconds logged under it. */
  datatype Entry = Entry(name: string, seconds: int)

  function FindName(entries: seq<Entry>, name: string): (r: Option<nat>)
    ensures r.Some? ==> r.value < |entries| && entries[r.value].name == name
    ensures r.None? ==> forall j :: 0 <= j < |entries| ==> entries[j].name != name
  {
    IndexWhere(entries, (e: Entry) => e.name == name)
  }

  predicate HasName(entries: seq<Entry>, name: string)
  {
    exists i :: 0 <= i < |entries| && entries[i].name == name
  }

  predicate DistinctNames(entries: seq<Entry>)
  {
    forall i, j :: 0 <= i < j < |entries| ==> entries[i].name != entries[j].name
  }

  /** `data[name]`, with an absent name reading as 0. */
  function Lookup(entries: seq<Entry>, name: string): int
  {
    match FindName(entries, name)
    case None => 0
    case Some(i) => entries[i].seconds
  }

  /** The seconds of all entries together. */
  function SumSeconds(entries: seq<Entry>): int
    decreases |entries|
  {
    if |entries| == 0 then 0 else SumSeconds(entries[..|entries| - 1]) + entries[|entries| - 1].seconds
  }

  lemma LookupAt(entries: seq<Entry>, k: nat)
    requires DistinctNames(entries) && k < |entries|
    ensures Lookup(entries, entries[k].name) == entries[k].seconds
  {
  }

  lemma {:induction false} SumSecondsUpdate(entries: seq<Entry>, i: nat, x: Entry)
    requires i < |entries|
    ensures SumSeconds(entries[i := x]) == SumSeconds(entries) - entries[i].seconds + x.seconds
    decreases |entries|
  {
    var n := |entries|;
    if i < n - 1 {
      assert entries[i := x][..n - 1] == entries[..n - 1][i := x];
      SumSecondsUpdate(entries[..n - 1], i, x);
    } else {
      assert entries[i := x][..n - 1] == entries[..n - 1];
    }
  }

  /**
   * `if (!data[name]) data[name] = 0; data[name] += seconds`: add to the
   * entry of that name, or append a new entry at the end.
   */
  function Tally(entries: seq<Entry>, name: string, seconds: int): (r: seq<Entry>)
    ensures |entries| <= |r| <= |entries| + 1
  {
    match FindName(entries, name)
    case None => entries + [Entry(name, seconds)]
    case Some(i) => entries[i := Entry(name, entries[i].seconds + seconds)]
  }

  /** Tallying keeps the names distinct and the names already present in place, and adds the name if it was missing. */
  lemma TallyNames(entries: seq<Entry>, name: string, seconds: int)
    requires DistinctNames(entries)
    ensures var r := Tally(entries, name, seconds);
            DistinctNames(r) &&
            |r| >= |entries| &&
            (forall j :: 0 <= j < |entries| ==> r[j].name == entries[j].name) &&
            (|r| > |entries| ==> |r| == |entries| + 1 && r[|entries|].name == name) &&
            (forall n :: HasName(r, n) <==> HasName(entries, n) || n == name)
  {
    var r := Tally(entries, name, seconds);
    match FindName(entries, name)
    case None =>
      assert r[|entries|].name == name;
      assert forall j :: 0 <= j < |entries| ==> r[j] == entries[j];
    case Some(i) =>
      assert forall j :: 0 <= j < |r| ==> r[j].name == entries[j].name;
  }

  /** Tallying adds the seconds to that name's value and to no other. */
  lemma TallyLookup(entries: seq<Entry>, name: string, seconds: int, n: string)
    requires DistinctNames(entries)
    ensures Lookup(Tally(entries, name, seconds), n) == Lookup(entries, n) + (if n == name then seconds else 0)
  {
    var r := Tally(entries, name, seconds);
    TallyNames(entries, name, seconds);
    if HasName(entries, n) {
      var k :| 0 <= k < |entries| && entries[k].name == n;
      LookupAt(entries, k);
      LookupAt(r, k);
      match FindName(entries, name)
      case None =>
        assert r[k] == entries[k];
      case Some(i) =>
        assert i == k || r[k] == entries[k];
    } else if n == name {
      assert FindName(entries, name).None?;
      LookupAt(r, |entries|);
    } else {
      assert !HasName(r, n);
      assert FindName(r, n).None?;
    }
  }

  /** Tallying adds the seconds to the grand total. */
  lemma TallySum(entries: seq<Entry>, name: string, seconds: int)
    ensures SumSeconds(Tally(entries, name, seconds)) == SumSeconds(entries) + seconds
  {
    var r := Tally(entries, name, seconds);
    match FindName(entries, name)
    case None =>
      assert r[..|entries|] == entries;
    case Some(i) =>
      SumSecondsUpdate(entries, i, Entry(name, entries[i].seconds + seconds));
  }

  // ---------------------------------------------------------------------
  // Grouping log durations by a key

  /** The durations of the logs folded into the dictionary, in log order; a log without a key is skipped. */
  function Grouped(logs: seq<TimeLog>, key: TimeLog -> Option<string>): (r: seq<Entry>)
    ensures |r| <= |logs|
    decreases |logs|
  {
    if |logs| == 0 then []
    else
      var last := logs[|logs| - 1];
      var prev := Grouped(logs[..|logs| - 1], key);
      match key(last)
      case None => prev
      case Some(name) => Tally(prev, name, last.duration)
  }

  /** The seconds of the logs whose key is `name`. */
  function KeyTotal(logs: seq<TimeLog>, key: TimeLog -> Option<string>, name: string): int
    decreases |logs|
  {
    if |logs| == 0 then 0
    else
      var last := logs[|logs| - 1];
      KeyTotal(logs[..|logs| - 1], key, name) + (if key(last) == Some(name) then last.duration else 0)
  }

  /** The seconds of the logs that have a key at all. */
  function KeyedSum(logs: seq<TimeLog>, key: TimeLog -> Option<string>): int
    decreases |logs|
  {
    if |logs| == 0 then 0
    else
      var last := logs[|logs| - 1];
      KeyedSum(logs[..|logs| - 1], key) + (if key(last).Some? then last.duration else 0)
  }

  /** A breakdown has one entry per name, and a name is present exactly when some log has it. */
  lemma {:induction false} GroupedNames(logs: seq<TimeLog>, key: TimeLog -> Option<string>, n: string)
    ensures DistinctNames(Grouped(logs, key))
    ensures HasName(Grouped(logs, key), n) <==> exists i :: 0 <= i < |logs| && key(logs[i]) == Some(n)
    decreases |logs|
  {
    if |logs| > 0 {
      var front := logs[..|logs| - 1];
      var last := logs[|logs| - 1];
      GroupedNames(front, key, n);
      assert forall i :: 0 <= i < |front| ==> front[i] == logs[i];
      match key(last)
      case None =>
      case Some(name) =>
        TallyNames(Grouped(front, key), name, last.duration);
    }
  }

  /** The value under a name is the seconds of the logs with that key. */
  lemma {:induction false} GroupedLookup(logs: seq<TimeLog>, key: TimeLog -> Option<string>, n: string)
    ensures Lookup(Grouped(logs, key), n) == KeyTotal(logs, key, n)
    decreases |logs|
  {
    if |logs| > 0 {
      var front := logs[..|logs| - 1];
      var last := logs[|logs| - 1];
      GroupedLookup(front, key, n);
      match key(last)
      case None =>
      case Some(name) =>
        GroupedNames(front, key, n);
        TallyLookup(Grouped(front, key), name, last.duration, n);
    }
  }

  /** The entries add up to the seconds of all keyed logs. */
  lemma {:induction false} GroupedSum(logs: seq<TimeLog>, key: TimeLog -> Option<string>)
    ensures SumSeconds(Grouped(logs, key)) == KeyedSum(logs, key)
    decreases |logs|
  {
    if |logs| > 0 {
      var front := logs[..|logs| - 1];
      var last := logs[|logs| - 1];
      GroupedSum(front, key);
      match key(last)
      case None =>
      case Some(name) =>
        TallySum(Grouped(front, key), name, last.duration);
    }
  }

  /**
   * What a breakdown means: one entry per name, the value under a name is
   * the seconds of the logs with that key, a name is present exactly when
   * some log has it, and the entries add up to the seconds of all keyed logs.
   */
  lemma GroupedMeaning(logs: seq<TimeLog>, key: TimeLog -> Option<string>, n: string)
    ensures DistinctNames(Grouped(logs, key))
    ensures Lookup(Grouped(logs, key), n) == KeyTotal(logs, key, n)
    ensures HasName(Grouped(logs, key), n) <==> exists i :: 0 <= i < |logs| && key(logs[i]) == Some(n)
    ensures SumSeconds(Grouped(logs, key)) == KeyedSum(logs, key)
  {
    GroupedNames(logs, key, n);
    GroupedLookup(logs, key, n);
    GroupedSum(logs, key);
  }

  /** Every entry of a breakdown holds the seconds of the logs with its name. */
  lemma GroupedEntries(logs: seq<TimeLog>, key: TimeLog -> Option<string>)
    ensures forall i :: 0 <= i < |Grouped(logs, key)| ==>
              Grouped(logs, key)[i].seconds == KeyTotal(logs, key, Grouped(logs, key)[i].name)
  {
    var g := Grouped(logs, key);
    forall i | 0 <= i < |g| ensures g[i].seconds == KeyTotal(logs, key, g[i].name) {
      GroupedMeaning(logs, key, g[i].name);
      LookupAt(g, i);
    }
  }

  /** When every log has a key, the keyed seconds are all the seconds. */
  lemma {:induction false} KeyedSumAll(logs: seq<TimeLog>, key: TimeLog -> Option<string>)
    requires forall i :: 0 <= i < |logs| ==> key(logs[i]).Some?
    ensures KeyedSum(logs, key) == TotalDuration(logs)
    decreases |logs|
  {
    if |logs| > 0 {
      var front := logs[..|logs| - 1];
      assert forall i :: 0 <= i < |front| ==> front[i] == logs[i];
      KeyedSumAll(front, key);
    }
  }

  /** One more log folds into the breakdown of the logs before it. */
  lemma GroupedStep(logs: seq<TimeLog>, i: nat, key: TimeLog -> Option<string>)
    requires i < |logs|
    ensures Grouped(logs[..i + 1], key) ==
              match key(logs[i])
              case None => Grouped(logs[..i], key)
              case Some(name) => Tally(Grouped(logs[..i], key), name, logs[i].duration)
  {
    assert logs[..i + 1][..i] == logs[..i];
  }

  /**
   * `if (!data[name]) data[name] = 0; data[name] += seconds`, on the
   * dictionary as a list of entries: it is the tally.
   */
  method AddTo(data: seq<Entry>, name: string, seconds: int) returns (r: seq<Entry>)
    ensures r == Tally(data, name, seconds)
  {
    r := data;
    var found := FindName(r, name);
    if found.None? {
      r := r + [Entry(name, 0)];
      found := Some(|r| - 1);
    }
    var k := found.value;
    r := r[k := Entry(name, r[k].seconds + seconds)];
  }

  /** The forEach loop of a breakdown, accumulating into the dictionary. */
  method GroupDurations(logs: seq<TimeLog>, key: TimeLog -> Option<string>) returns (data: seq<Entry>)
    ensures data == Grouped(logs, key)
  {
    data := [];
    var i := 0;
    while i < |logs|
      invariant 0 <= i <= |logs|
      invariant data == Grouped(logs[..i], key)
    {
      var log := logs[i];
      var name := key(log);
      GroupedStep(logs, i, key);
      if name.Some? {
        data := AddTo(data, name.value, log.duration);
      }
      i := i + 1;
    }
    assert logs[..|logs|] == logs;
  }

  // ---------------------------------------------------------------------
  // The three breakdowns (pages/ReportsPage.tsx:84-132)

  /** The name of the log's task's project, when both are found (first match by id). */
  function ProjectOf(l: TimeLog, tasks: seq<Task>, projects: seq<Project>): (r: Option<string>)
    ensures r.Some? <==> FindTask(tasks, l.taskId).Some? &&
                         FindProject(projects, tasks[FindTask(tasks, l.taskId).value].projectId).Some?
    ensures r.Some? ==> exists i, j :: FirstTaskAt(tasks, i, l.taskId) &&
                          FirstProjectAt(projects, j, tasks[i].projectId) && r.value == projects[j].name
  {
    match FindTask(tasks, l.taskId)
    case None => None
    case Some(i) =>
      match FindProject(projects, tasks[i].projectId)
      case None => None
      case Some(j) => Some(projects[j].name)
  }

  /** The name of the log's user, when found. */
  function MemberOf(l: TimeLog, users: seq<User>): (r: Option<string>)
    ensures r.Some? <==> exists i :: 0 <= i < |users| && users[i].id == l.userId
    ensures r.Some? ==> exists i :: FirstUserAt(users, i, l.userId) && r.value == users[i].name
  {
    match FindUser(users, l.userId)
    case None => None
    case Some(i) => Some(users[i].name)
  }

  /** The title of the log's task, when found. */
  function TaskOf(l: TimeLog, tasks: seq<Task>): (r: Option<string>)
    ensures r.Some? <==> exists i :: 0 <= i < |tasks| && tasks[i].id == l.taskId
    ensures r.Some? ==> exists i :: FirstTaskAt(tasks, i, l.taskId) && r.value == tasks[i].title
  {
    match FindTask(tasks, l.taskId)
    case None => None
    case Some(i) => Some(tasks[i].title)
  }

  function ProjectKey(tasks: seq<Task>, projects: seq<Project>): TimeLog -> Option<string>
  {
    (l: TimeLog) => ProjectOf(l, tasks, projects)
  }

  function MemberKey(users: seq<User>): TimeLog -> Option<string>
  {
    (l: TimeLog) => MemberOf(l, users)
  }

  function TaskKey(tasks: seq<Task>): TimeLog -> Option<string>
  {
    (l: TimeLog) => TaskOf(l, tasks)
  }

  predicate IsAdminViewer(viewer: Option<User>)
  {
    viewer.Some? && viewer.value.role == Admin
  }

  predicate IsMemberViewer(viewer: Option<User>)
  {
    viewer.Some? && viewer.value.role == Member
  }

  /** projectReportData: seconds per project name, for every viewer. */
  method ProjectReport(logs: seq<TimeLog>, tasks: seq<Task>, projects: seq<Project>) returns (r: seq<Entry>)
    ensures r == Grouped(logs, ProjectKey(tasks, projects))
  {
    r := GroupDurations(logs, ProjectKey(tasks, projects));
  }

  /** memberReportData: seconds per member name, for an Admin only. */
  method MemberReport(viewer: Option<User>, logs: seq<TimeLog>, users: seq<User>) returns (r: seq<Entry>)
    ensures !IsAdminViewer(viewer) ==> r == []
    ensures IsAdminViewer(viewer) ==> r == Grouped(logs, MemberKey(users))
  {
    if !IsAdminViewer(viewer) {
      return [];
    }
    r := GroupDurations(logs, MemberKey(users));
  }

  // ---------------------------------------------------------------------
  // The task ranking: hours to two decimals, descending, first ten

  /**
   * `parseFloat((seconds / 3600).toFixed(2))` as a whole number of
   * hundredths of an hour: the nearest one, a tie going away from zero.
   */
  function Hundredths(seconds: int): (r: int)
    ensures -1800 <= seconds * 100 - r * 3600 <= 1800
    ensures seconds >= 0 ==> r >= 0
  {
    if seconds >= 0 then (seconds * 100 + 1800) / 3600
    else -(((-seconds) * 100 + 1800) / 3600)
  }

  function Hours(e: Entry): int
  {
    Hundredths(e.seconds)
  }

  predicate SortedByHours(s: seq<Entry>)
  {
    forall i, j :: 0 <= i < j < |s| ==> Hours(s[i]) >= Hours(s[j])
  }

  /** Insert `x` after every entry whose hours are at least its own. */
  function Insert(x: Entry, s: seq<Entry>): (r: seq<Entry>)
    ensures multiset(r) == multiset(s) + multiset{x}
    ensures |r| == |s| + 1
    decreases |s|
  {
    if |s| == 0 then [x]
    else if Hours(s[0]) >= Hours(x) then
      assert s == [s[0]] + s[1..];
      [s[0]] + Insert(x, s[1..])
    else [x] + s
  }

  /** An entry with at least the hours of every entry of a sorted list can go in front of it. */
  lemma ConsSorted(h: Entry, rest: seq<Entry>)
    requires SortedByHours(rest)
    requires forall k :: 0 <= k < |rest| ==> Hours(h) >= Hours(rest[k])
    ensures SortedByHours([h] + rest)
  {
    var r := [h] + rest;
    forall i, j | 0 <= i < j < |r| ensures Hours(r[i]) >= Hours(r[j]) {
      assert r[j] == rest[j - 1];
      if i > 0 {
        assert r[i] == rest[i - 1];
      }
    }
  }

  /** The list after the head of a sorted list is sorted, and the head has the most hours. */
  lemma SortedTail(s: seq<Entry>)
    requires SortedByHours(s) && |s| > 0
    ensures SortedByHours(s[1..])
    ensures forall k :: 0 <= k < |s| ==> Hours(s[0]) >= Hours(s[k])
  {
    var tail := s[1..];
    forall i, j | 0 <= i < j < |tail| ensures Hours(tail[i]) >= Hours(tail[j]) {
      assert tail[i] == s[i + 1] && tail[j] == s[j + 1];
    }
  }

  /** What is inserted behind the head of a sorted list has no more hours than the head. */
  lemma HeadBoundsInsert(x: Entry, s: seq<Entry>)
    requires SortedByHours(s) && |s| > 0 && Hours(s[0]) >= Hours(x)
    ensures forall k :: 0 <= k < |Insert(x, s[1..])| ==> Hours(s[0]) >= Hours(Insert(x, s[1..])[k])
  {
    var tail, rest := s[1..], Insert(x, s[1..]);
    SortedTail(s);
    forall k | 0 <= k < |rest| ensures Hours(s[0]) >= Hours(rest[k]) {
      assert rest[k] in multiset(rest);
      if rest[k] != x {
        assert rest[k] in multiset(tail);
        var m :| 0 <= m < |tail| && tail[m] == rest[k];
        assert tail[m] == s[m + 1];
      }
    }
  }

  lemma {:induction false} InsertSorted(x: Entry, s: seq<Entry>)
    requires SortedByHours(s)
    ensures SortedByHours(Insert(x, s))
    decreases |s|
  {
    if |s| > 0 {
      SortedTail(s);
      if Hours(s[0]) >= Hours(x) {
        InsertSorted(x, s[1..]);
        HeadBoundsInsert(x, s);
        ConsSorted(s[0], Insert(x, s[1..]));
      } else {
        ConsSorted(x, s);
      }
    }
  }

  /** `sort((a, b) => b.hours - a.hours)`: an insertion sort that keeps equal hours in their order. */
  function SortByHours(s: seq<Entry>): (r: seq<Entry>)
    ensures |r| == |s|
    decreases |s|
  {
    if |s| == 0 then [] else Insert(s[|s| - 1], SortByHours(s[..|s| - 1]))
  }

  lemma {:induction false} SortByHoursSorted(s: seq<Entry>)
    ensures SortedByHours(SortByHours(s))
    decreases |s|
  {
    if |s| > 0 {
      SortByHoursSorted(s[..|s| - 1]);
      InsertSorted(s[|s| - 1], SortByHours(s[..|s| - 1]));
    }
  }

  lemma MultisetSnoc(s: seq<Entry>)
    requires |s| > 0
    ensures multiset(s) == multiset(s[..|s| - 1]) + multiset{s[|s| - 1]}
  {
    assert s == s[..|s| - 1] + [s[|s| - 1]];
  }

  lemma {:induction false} SortByHoursPermutes(s: seq<Entry>)
    ensures multiset(SortByHours(s)) == multiset(s)
    decreases |s|
  {
    if |s| > 0 {
      var front, x := s[..|s| - 1], s[|s| - 1];
      SortByHoursPermutes(front);
      MultisetSnoc(s);
    }
  }

  /** The ranking is ordered by hours, descending, and holds exactly the entries it was given. */
  lemma SortByHoursCorrect(s: seq<Entry>)
    ensures SortedByHours(SortByHours(s))
    ensures multiset(SortByHours(s)) == multiset(s)
  {
    SortByHoursSorted(s);
    SortByHoursPermutes(s);
  }

  /** `slice(0, 10)`. */
  function FirstTen(s: seq<Entry>): (r: seq<Entry>)
    ensures |r| == if |s| < 10 then |s| else 10
    ensures r == s[..|r|]
  {
    if |s| <= 10 then s else s[..10]
  }

  /** taskReportData: seconds per task title, ranked by hours and cut to ten, for an Admin only. */
  method TaskReport(viewer: Option<User>, logs: seq<TimeLog>, tasks: seq<Task>) returns (r: seq<Entry>)
    ensures !IsAdminViewer(viewer) ==> r == []
    ensures IsAdminViewer(viewer) ==> r == FirstTen(SortByHours(Grouped(logs, TaskKey(tasks))))
  {
    if !IsAdminViewer(viewer) {
      return [];
    }
    var data := GroupDurations(logs, TaskKey(tasks));
    r := FirstTen(SortByHours(data));
  }

  /** Every entry shown is one of the ranked entries. */
  lemma FirstTenShown(g: seq<Entry>, sorted: seq<Entry>)
    requires multiset(sorted) == multiset(g)
    ensures forall e :: e in FirstTen(sorted) ==> e in g
  {
    forall e | e in FirstTen(sorted) ensures e in g {
      assert e in multiset(sorted);
    }
  }

  /** An entry left out of the first ten of a sorted ranking has no more hours than any entry shown. */
  lemma FirstTenOmitted(g: seq<Entry>, sorted: seq<Entry>)
    requires SortedByHours(sorted) && multiset(sorted) == multiset(g)
    ensures forall e :: e in g && e !in FirstTen(sorted) ==>
              forall k :: 0 <= k < |FirstTen(sorted)| ==> Hours(e) <= Hours(FirstTen(sorted)[k])
  {
    var r := FirstTen(sorted);
    forall e | e in g && e !in r ensures forall k :: 0 <= k < |r| ==> Hours(e) <= Hours(r[k]) {
      assert e in multiset(sorted);
      var m :| 0 <= m < |sorted| && sorted[m] == e;
      assert m >= |r|;
      forall k | 0 <= k < |r| ensures Hours(e) <= Hours(r[k]) {
        assert r[k] == sorted[k];
      }
    }
  }

  /**
   * The task report is a top ten: at most ten entries, ordered by hours,
   * each one a task title's total, and every title left out has no more
   * hours than any title shown.
   */
  lemma TaskReportIsTopTen(logs: seq<TimeLog>, tasks: seq<Task>)
    ensures var g := Grouped(logs, TaskKey(tasks));
            var r := FirstTen(SortByHours(g));
            |r| <= 10 && SortedByHours(r) &&
            (forall e :: e in r ==> e in g) &&
            (forall e :: e in g && e !in r ==> forall k :: 0 <= k < |r| ==> Hours(e) <= Hours(r[k]))
  {
    var g := Grouped(logs, TaskKey(tasks));
    var sorted := SortByHours(g);
    SortByHoursCorrect(g);
    FirstTenShown(g, sorted);
    FirstTenOmitted(g, sorted);
  }

  // ---------------------------------------------------------------------
  // The member's own figures (pages/ReportsPage.tsx:134-142)

  /** memberTotalTime: the filtered logs' seconds added up, for a Member; 0 for anyone else. */
  function MemberTotalTime(viewer: Option<User>, logs: seq<TimeLog>): (r: int)
    ensures IsMemberViewer(viewer) ==> r == TotalDuration(logs)
    ensures !IsMemberViewer(viewer) ==> r == 0
    ensures NoNegativeDurations(logs) ==> r >= 0
  {
    if IsMemberViewer(viewer) then TotalDuration(logs) else 0
  }

  /**
   * For a Member whose every log has a task and a project, the total
   * equals the sum of the project breakdown.
   */
  lemma MemberTotalMatchesProjectReport(viewer: Option<User>, logs: seq<TimeLog>, tasks: seq<Task>, projects: seq<Project>)
    requires IsMemberViewer(viewer)
    requires forall i :: 0 <= i < |logs| ==> ProjectOf(logs[i], tasks, projects).Some?
    ensures MemberTotalTime(viewer, logs) == SumSeconds(Grouped(logs, ProjectKey(tasks, projects)))
  {
    GroupedMeaning(logs, ProjectKey(tasks, projects), "");
    KeyedSumAll(logs, ProjectKey(tasks, projects));
  }

  function DoneBy(userId: string): Task -> bool
  {
    (t: Task) => t.assigneeId == userId && t.status == Done
  }

  /** memberCompletedTasks: a Member's own tasks whose status is Done; empty for anyone else. */
  function MemberCompletedTasks(viewer: Option<User>, tasks: seq<Task>): (r: seq<Task>)
    ensures !IsMemberViewer(viewer) ==> r == []
    ensures IsMemberViewer(viewer) ==>
              forall t :: t in r <==> t in tasks && t.assigneeId == viewer.value.id && t.status == Done
    ensures IsMemberViewer(viewer) ==> r == Filter(tasks, DoneBy(viewer.value.id))
  {
    if IsMemberViewer(viewer) then Filter(tasks, DoneBy(viewer.value.id)) else []
  }
}
