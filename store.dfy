/** The database the routers share, as one object whose tables the router
    functions update in place: a map from primary key to row per table, the
    two join tables as sets of id pairs, the append-only audit log, the next
    free primary key, and a ghost record of the webhook calls made. */
module Db {
  import opened Types

  /** One call of `send_reminder` or `send_admin_alert`; a reminder also records
      the user it was addressed to. */
  datatype Notification =
    | Reminder(userId: int, discordId: string, taskTitle: string, eventName: string)
    | AdminAlert(userName: string, taskTitle: string, eventName: string, reason: string)

  /** The event name a notification carries: the event's name, or "Unknown Event" when
      the row is gone. */
  function EventNameOr(events: map<int, Event>, eventId: int): string {
    if eventId in events then events[eventId].name else "Unknown Event"
  }

  /** Every primary key of `table` was handed out before `next`. */
  ghost predicate KeysBelow<V>(table: map<int, V>, next: int) {
    forall k :: k in table ==> 1 <= k < next
  }

  class Store {
    var semesters: map<int, Semester>
    var weeks: map<int, Week>
    var events: map<int, Event>
    var tasks: map<int, Task>
    var users: map<int, User>
    var teams: map<int, Team>
    var comments: map<int, Comment>
    /** `roster_members`: (semester id, user id) pairs, unique by construction. */
    var roster: set<(int, int)>
    /** `task_assignments`: (task id, user id) pairs, unique by construction. */
    var pool: set<(int, int)>
    var auditLog: seq<AuditEntry>
    var nextId: int
    ghost var outbox: seq<Notification>

    ghost predicate Valid()
      reads this
    {
      1 <= nextId &&
      KeysBelow(semesters, nextId) && KeysBelow(weeks, nextId) && KeysBelow(events, nextId) &&
      KeysBelow(tasks, nextId) && KeysBelow(users, nextId) && KeysBelow(teams, nextId) &&
      KeysBelow(comments, nextId)
    }

    constructor ()
      ensures Valid()
      ensures semesters == map[] && weeks == map[] && events == map[] && tasks == map[]
      ensures users == map[] && teams == map[] && comments == map[]
      ensures roster == {} && pool == {} && auditLog == [] && outbox == []
    {
      semesters, weeks, events, tasks := map[], map[], map[], map[];
      users, teams, comments := map[], map[], map[];
      roster, pool, auditLog := {}, {}, [];
      nextId := 1;
      outbox := [];
    }

    /** The primary key the database assigns to the next inserted row. */
    method NewId() returns (id: int)
      requires Valid()
      modifies this`nextId
      ensures Valid() && id == old(nextId) && nextId == id + 1 && 1 <= id
      ensures id !in semesters && id !in weeks && id !in events && id !in tasks
      ensures id !in users && id !in teams && id !in comments
    {
      id := nextId;
      nextId := nextId + 1;
    }
  }
}
