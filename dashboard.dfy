/** The dashboard: the active semester's weeks, each with its events and, per event,
    the tasks the caller is shown. The store is only read. */
module Dashboard {
  import opened Types
  import opened Db
  import opened Query
  import opened Calendar
  import Tasks

  /** The `TaskData` of a dashboard event. */
  datatype TaskData = TaskData(
    id: int,
    title: string,
    description: Option<string>,
    taskType: TaskType,
    status: TaskStatus,
    assignedTo: Option<int>,
    assignedTeam: Option<string>,
    assigneeName: Option<string>,
    reminderTime: Option<int>,
    reminderSent: bool,
    cannotDoReason: Option<string>)

  datatype EventData = EventData(id: int, name: string, datetime: int, location: Option<string>, tasks: seq<TaskData>)

  datatype WeekData = WeekData(id: int, weekNumber: int, startDate: int, endDate: int, isCurrent: bool, events: seq<EventData>)

  datatype DashboardResponse = DashboardResponse(
    semesterName: Option<string>,
    semesterId: Option<int>,
    weeks: seq<WeekData>,
    userRole: Role)

  /** The role filter: admins see every task; a member of the MEDIA team (the `team` enum
      column) sees the tasks assigned to them or tagged MEDIA; anyone else only the tasks
      assigned to them. Neither the team id nor the pool is consulted. */
  predicate DashboardShows(task: Task, uid: int, user: User) {
    if user.role == Admin then true
    else if user.teamTag == Some(MEDIA) then task.assignedTo == Some(uid) || task.assignedTeamTag == Some(MEDIA)
    else task.assignedTo == Some(uid)
  }

  /** The tasks the dashboard shows a user are exactly the tasks that user may modify. */
  lemma ShowsExactlyModifiable(task: Task, uid: int, user: User)
    ensures DashboardShows(task, uid, user) <==> Tasks.CanModifyTask(task, uid, user)
  {
  }

  /** The tasks of `eventId` the caller is shown. */
  function Visible(eventId: int, uid: int, user: User): Task -> bool {
    (t: Task) => t.eventId == eventId && DashboardShows(t, uid, user)
  }

  /** An admin is shown every task of every event; a non-admin outside the MEDIA team is
      shown exactly the event's tasks assigned to them. */
  lemma VisibleByRole(tasks: map<int, Task>, eventId: int, uid: int, user: User)
    ensures user.role == Admin ==> Where(tasks, Visible(eventId, uid, user)) == Where(tasks, Tasks.OfEvent(eventId))
    ensures user.role != Admin && user.teamTag != Some(MEDIA) ==>
      Where(tasks, Visible(eventId, uid, user))
        == set k | k in tasks && tasks[k].eventId == eventId && tasks[k].assignedTo == Some(uid)
  {
  }

  function ToData(id: int, t: Task, users: map<int, User>): TaskData {
    TaskData(id, t.title, t.description, t.taskType, t.status, t.assignedTo, t.assignedTeamTag,
             Tasks.AssigneeName(t, users), t.reminderTime, t.reminderSent, t.cannotDoReason)
  }

  function DataIds(ts: seq<TaskData>): seq<int> {
    seq(|ts|, i requires 0 <= i < |ts| => ts[i].id)
  }

  /** The task list of one event: each shown task once, and nothing else. */
  ghost predicate TaskListOk(tasks: map<int, Task>, users: map<int, User>, eventId: int, uid: int, user: User,
                             ts: seq<TaskData>) {
    multiset(DataIds(ts)) == multiset(Where(tasks, Visible(eventId, uid, user)))
    && forall i :: 0 <= i < |ts| ==> ts[i].id in tasks && ts[i] == ToData(ts[i].id, tasks[ts[i].id], users)
  }

  /** Whether an event is listed: it has a shown task, or the caller is an admin. */
  ghost predicate EventListed(tasks: map<int, Task>, eventId: int, uid: int, user: User) {
    user.role == Admin || Where(tasks, Visible(eventId, uid, user)) != {}
  }

  /** One entry of a week's event list: a listed event of the week, with its shown tasks. */
  ghost predicate EventEntryOk(events: map<int, Event>, tasks: map<int, Task>, users: map<int, User>,
                               weekId: int, uid: int, user: User, e: EventData) {
    e.id in events && events[e.id].weekId == weekId
    && e == EventData(e.id, events[e.id].name, events[e.id].datetime, events[e.id].location, e.tasks)
    && TaskListOk(tasks, users, e.id, uid, user, e.tasks)
    && EventListed(tasks, e.id, uid, user)
  }

  /** The event list of one week: the listed events of the week, each once, by datetime. */
  ghost predicate EventListOk(events: map<int, Event>, tasks: map<int, Task>, users: map<int, User>,
                              weekId: int, uid: int, user: User, es: seq<EventData>) {
    (forall i :: 0 <= i < |es| ==> EventEntryOk(events, tasks, users, weekId, uid, user, es[i]))
    && (forall i, j :: 0 <= i < j < |es| ==> es[i].id != es[j].id && es[i].datetime <= es[j].datetime)
    && (forall k :: k in events && events[k].weekId == weekId && EventListed(tasks, k, uid, user) ==>
          k in EventIds(es))
  }

  function EventIds(es: seq<EventData>): seq<int> {
    seq(|es|, i requires 0 <= i < |es| => es[i].id)
  }

  /** `is_current`. */
  predicate IsCurrent(w: Week, today: int) {
    w.startDate <= today <= w.endDate
  }

  /** The tasks of one event, filtered by role (lines 92-130). */
  method EventTasks(db: Store, eventId: int, uid: int, user: User) returns (ts: seq<TaskData>)
    ensures TaskListOk(db.tasks, db.users, eventId, uid, user, ts)
    ensures ts != [] <==> Where(db.tasks, Visible(eventId, uid, user)) != {}
  {
    var ks := SelectKeys(db.tasks, Visible(eventId, uid, user));
    ts := [];
    var i := 0;
    while i < |ks|
      invariant 0 <= i <= |ks| && |ts| == i
      invariant forall j :: 0 <= j < i ==> ks[j] in db.tasks && ts[j] == ToData(ks[j], db.tasks[ks[j]], db.users)
    {
      InSetMultiset(ks, Where(db.tasks, Visible(eventId, uid, user)), ks[i]);
      ts := ts + [ToData(ks[i], db.tasks[ks[i]], db.users)];
      i := i + 1;
    }
    assert DataIds(ts) == ks;
    SizeFromSet(ks, Where(db.tasks, Visible(eventId, uid, user)));
  }

  /** The events of one week, by datetime, each listed when it has a shown task or the
      caller is an admin (lines 85-140). */
  method WeekEvents(db: Store, weekId: int, uid: int, user: User) returns (es: seq<EventData>)
    ensures EventListOk(db.events, db.tasks, db.users, weekId, uid, user, es)
  {
    var ks := SelectOrdered(db.events, OfWeek(weekId), Datetime);
    es := [];
    ghost var idx: seq<int> := [];
    var i := 0;
    while i < |ks|
      invariant 0 <= i <= |ks| && |idx| == |es|
      invariant forall a :: 0 <= a < |idx| ==> 0 <= idx[a] < i && es[a].id == ks[idx[a]]
      invariant forall a, b :: 0 <= a < b < |idx| ==> idx[a] < idx[b]
      invariant forall a :: 0 <= a < |es| ==> EventEntryOk(db.events, db.tasks, db.users, weekId, uid, user, es[a])
      invariant forall j :: 0 <= j < i && EventListed(db.tasks, ks[j], uid, user) ==> ks[j] in EventIds(es)
    {
      var e := db.events[ks[i]];
      var ts := EventTasks(db, ks[i], uid, user);
      ghost var prev := es;
      if ts != [] || user.role == Admin {
        assert EventEntryOk(db.events, db.tasks, db.users, weekId, uid, user, EventData(ks[i], e.name, e.datetime, e.location, ts));
        es := es + [EventData(ks[i], e.name, e.datetime, e.location, ts)];
        idx := idx + [i];
        assert es[|es| - 1].id == ks[i];
      }
      assert EventIds(es) == EventIds(prev) || EventIds(es) == EventIds(prev) + [ks[i]];
      i := i + 1;
    }
    WeekEventsComplete(db.events, db.tasks, db.users, weekId, uid, user, ks, es, idx);
  }

  /** The loop of `WeekEvents` has visited every event of the week: its entries form the
      week's event list. */
  lemma WeekEventsComplete(events: map<int, Event>, tasks: map<int, Task>, users: map<int, User>,
                           weekId: int, uid: int, user: User, ks: seq<int>, es: seq<EventData>, idx: seq<int>)
    requires multiset(ks) == multiset(Where(events, OfWeek(weekId)))
    requires forall i :: 0 <= i < |ks| ==> ks[i] in events
    requires forall i, j :: 0 <= i < j < |ks| ==> events[ks[i]].datetime <= events[ks[j]].datetime
    requires |idx| == |es|
    requires forall a :: 0 <= a < |idx| ==> 0 <= idx[a] < |ks| && es[a].id == ks[idx[a]]
    requires forall a, b :: 0 <= a < b < |idx| ==> idx[a] < idx[b]
    requires forall a :: 0 <= a < |es| ==> EventEntryOk(events, tasks, users, weekId, uid, user, es[a])
    requires forall j :: 0 <= j < |ks| && EventListed(tasks, ks[j], uid, user) ==> ks[j] in EventIds(es)
    ensures EventListOk(events, tasks, users, weekId, uid, user, es)
  {
    forall a, b | 0 <= a < b < |es| ensures es[a].id != es[b].id && es[a].datetime <= es[b].datetime {
      DistinctFromSet(ks, Where(events, OfWeek(weekId)), idx[a], idx[b]);
    }
    forall k | k in events && events[k].weekId == weekId && EventListed(tasks, k, uid, user)
      ensures k in EventIds(es)
    {
      InSetMultiset(ks, Where(events, OfWeek(weekId)), k);
    }
  }

  /** `get_dashboard`. Without an active semester: no name, no id, no weeks, and the
      caller's role. Otherwise an active semester's id and name and every one of its weeks
      once, by week number, each with `is_current` and its listed events. */
  method GetDashboard(db: Store, uid: int, user: User, today: int) returns (r: DashboardResponse)
    ensures r.userRole == user.role
    ensures r.semesterId.None? <==> forall k :: k in db.semesters ==> !db.semesters[k].isActive
    ensures r.semesterId.None? ==> r.semesterName.None? && r.weeks == []
    ensures r.semesterId.Some? ==>
      var sid := r.semesterId.value;
      sid in db.semesters && db.semesters[sid].isActive && r.semesterName == Some(db.semesters[sid].name)
      && (forall k :: k in db.weeks && db.weeks[k].semesterId == sid <==>
                        exists i :: 0 <= i < |r.weeks| && r.weeks[i].id == k)
      && (forall i, j :: 0 <= i < j < |r.weeks| ==>
            r.weeks[i].id != r.weeks[j].id && r.weeks[i].weekNumber <= r.weeks[j].weekNumber)
      && (forall i :: 0 <= i < |r.weeks| ==>
            var w := r.weeks[i];
            w.id in db.weeks && db.weeks[w.id].semesterId == sid
            && w.weekNumber == db.weeks[w.id].weekNumber
            && w.startDate == db.weeks[w.id].startDate && w.endDate == db.weeks[w.id].endDate
            && (w.isCurrent <==> IsCurrent(db.weeks[w.id], today))
            && EventListOk(db.events, db.tasks, db.users, w.id, uid, user, w.events))
  {
    if !exists k :: k in db.semesters && db.semesters[k].isActive {
      return DashboardResponse(None, None, [], user.role);
    }
    var sid :| sid in db.semesters && db.semesters[sid].isActive;
    var out := WeekRows(db, sid, uid, user, today);
    return DashboardResponse(Some(db.semesters[sid].name), Some(sid), out, user.role);
  }

  /** The loop of `get_dashboard` over the semester's weeks ordered by week number: every
      week of the semester once, each with `is_current` and its listed events. */
  method WeekRows(db: Store, sid: int, uid: int, user: User, today: int) returns (out: seq<WeekData>)
    ensures forall k :: k in db.weeks && db.weeks[k].semesterId == sid <==>
      exists i :: 0 <= i < |out| && out[i].id == k
    ensures forall i, j :: 0 <= i < j < |out| ==>
      out[i].id != out[j].id && out[i].weekNumber <= out[j].weekNumber
    ensures forall i :: 0 <= i < |out| ==>
      var w := out[i];
      w.id in db.weeks && db.weeks[w.id].semesterId == sid
      && w.weekNumber == db.weeks[w.id].weekNumber
      && w.startDate == db.weeks[w.id].startDate && w.endDate == db.weeks[w.id].endDate
      && (w.isCurrent <==> IsCurrent(db.weeks[w.id], today))
      && EventListOk(db.events, db.tasks, db.users, w.id, uid, user, w.events)
  {
    var ks := SelectOrdered(db.weeks, OfSemester(sid), WeekNumber);
    out := [];
    var i := 0;
    while i < |ks|
      invariant 0 <= i <= |ks| && |out| == i
      invariant forall a :: 0 <= a < i ==>
        var w := out[a];
        w.id == ks[a] && w.weekNumber == db.weeks[ks[a]].weekNumber
        && w.startDate == db.weeks[ks[a]].startDate && w.endDate == db.weeks[ks[a]].endDate
        && (w.isCurrent <==> IsCurrent(db.weeks[ks[a]], today))
        && EventListOk(db.events, db.tasks, db.users, w.id, uid, user, w.events)
    {
      var w := db.weeks[ks[i]];
      var es := WeekEvents(db, ks[i], uid, user);
      out := out + [WeekData(ks[i], w.weekNumber, w.startDate, w.endDate, w.startDate <= today <= w.endDate, es)];
      i := i + 1;
    }
    forall k | k in db.weeks && db.weeks[k].semesterId == sid
      ensures exists i :: 0 <= i < |out| && out[i].id == k
    {
      InSetMultiset(ks, Where(db.weeks, OfSemester(sid)), k);
      var j :| 0 <= j < |ks| && ks[j] == k;
      assert out[j].id == k;
    }
    forall a, b | 0 <= a < b < |out| ensures out[a].id != out[b].id {
      DistinctFromSet(ks, Where(db.weeks, OfSemester(sid)), a, b);
    }
  }
}
