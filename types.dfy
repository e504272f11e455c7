/** The rows of the task tracker's tables and the outcome of a router call.
    Dates and timestamps are integers (days, seconds); ids are the table's
    integer primary keys. */
module Types {

  datatype Option<T> = None | Some(value: T)

  /** A PATCH-style request field: absent from the request, or present with a value
      (for a nullable column the value may itself be None). */
  datatype Field<T> = Unset | SetTo(value: T)

  function Patch<T>(f: Field<T>, current: T): T {
    match f
    case Unset => current
    case SetTo(v) => v
  }

  /** The HTTP outcome of a router function: 200 with a value, 404, 403 or 400. */
  datatype Result<T> = Ok(value: T) | NotFound | Forbidden | BadRequest

  datatype Role = Admin | Member
  datatype TaskStatus = Pending | Done | CannotDo
  datatype TaskType = Standard | Setup

  /** The value of the older `Team` enum column on users and the string team tag on tasks. */
  const MEDIA: string := "MEDIA"

  datatype Semester = Semester(name: string, startDate: int, endDate: int, isActive: bool)

  datatype Week = Week(semesterId: int, weekNumber: int, startDate: int, endDate: int)

  datatype Event = Event(weekId: int, name: string, datetime: int, location: Option<string>)

  /** A task row. The store carries both generations of the team column: the string
      tag `assigned_team` and the foreign key `assigned_team_id`. */
  datatype Task = Task(
    eventId: int,
    title: string,
    description: Option<string>,
    taskType: TaskType,
    status: TaskStatus,
    assignedTo: Option<int>,
    assignedTeamTag: Option<string>,
    assignedTeamId: Option<int>,
    reminderTime: Option<int>,
    reminderSent: bool,
    cannotDoReason: Option<string>,
    completedBy: Option<int>)

  /** A user row, with both the `team` enum column (`teamTag`) and the `team_id` key. */
  datatype User = User(
    username: string,
    passwordHash: string,
    displayName: string,
    discordId: Option<string>,
    role: Role,
    teamTag: Option<string>,
    teamId: Option<int>)

  datatype Team = Team(name: string, color: Option<string>)

  datatype Comment = Comment(taskId: int, userId: int, content: string, createdAt: int)

  datatype AuditEntry = AuditEntry(
    id: int,
    userId: Option<int>,
    action: string,
    entityType: string,
    entityId: Option<int>,
    entityName: Option<string>,
    details: Option<string>,
    ipAddress: Option<string>,
    createdAt: int)

  /** Python truthiness of an optional integer column: set and non-zero. */
  predicate Truthy(o: Option<int>) {
    o.Some? && o.value != 0
  }

  /** Python truthiness of an optional string: set and non-empty. */
  predicate NonEmpty(o: Option<string>) {
    o.Some? && o.value != ""
  }

  /** `a or b` on optional strings: `a` when it is truthy, else `b`. */
  function OrElse(a: Option<string>, b: Option<string>): Option<string> {
    if NonEmpty(a) then a else b
  }
}
