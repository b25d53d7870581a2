// The record types shared by the store, the timer and the pages (types.ts).

module Types {

  datatype Option<+T> = None | Some(value: T)

  /** The two roles a user can hold (types.ts:1-4). */
  datatype Role = Admin | Member

  /** The three task states (types.ts:6-10). */
  datatype TaskStatus = ToDo | InProgress | Done

  /** The string value each status carries in the source enumeration. */
  function StatusLabel(s: TaskStatus): (r: string)
    ensures |r| > 0
  {
    match s
    case ToDo => "To Do"
    case InProgress => "In Progress"
    case Done => "Done"
  }

  /** Reads a status back from its label; used to show the labels are distinct. */
  function ParseStatus(text: string): (r: Option<TaskStatus>)
    ensures r.Some? ==> StatusLabel(r.value) == text
  {
    if text == "To Do" then Some(ToDo)
    else if text == "In Progress" then Some(InProgress)
    else if text == "Done" then Some(Done)
    else None
  }

  lemma StatusLabelRoundTrip(s: TaskStatus)
    ensures ParseStatus(StatusLabel(s)) == Some(s)
  {
  }

  /**
   * A user. The optional fields of the source are `Option`s: `None` stands
   * for a key that is absent from the record (types.ts:14-25).
   */
  datatype User = User(
    id: string,
    name: string,
    email: string,
    password: Option<string>,
    role: Role,
    avatarUrl: string,
    designation: Option<string>,
    workPhone: Option<string>,
    personalMobile: Option<string>,
    department: Option<string>)

  datatype Project = Project(
    id: string,
    name: string,
    description: string,
    startDate: string,
    endDate: string,
    memberIds: seq<string>)

  /** A task; `department` is a free string, not an enumeration (types.ts:36-45). */
  datatype Task = Task(
    id: string,
    title: string,
    description: string,
    projectId: string,
    assigneeId: string,
    dueDate: string,
    status: TaskStatus,
    department: string)

  /**
   * A time log (types.ts:47-55). `startTime` and `endTime` are epoch
   * milliseconds; `endTime` is `None` while the log is running or paused.
   * `duration` is the whole seconds accumulated so far, not counting the
   * interval that is currently running.
   */
  datatype TimeLog = TimeLog(
    id: string,
    taskId: string,
    userId: string,
    startTime: int,
    endTime: Option<int>,
    duration: int,
    isPaused: bool)
}
