/** The export tree of a semester: weeks by week number, their events by datetime, each
    event's tasks, with every reference to a user or team written as a name. The store is
    only read. */
module Export {
  import opened Types
  import opened Db
  import opened Query
  import opened Calendar
  import Tasks

  datatype ExportTask = ExportTask(
    title: string,
    description: Option<string>,
    taskType: TaskType,
    status: TaskStatus,
    assignedToUsername: Option<string>,
    assignedTeamName: Option<string>,
    poolUsernames: seq<string>,
    completedByUsername: Option<string>,
    cannotDoReason: Option<string>)

  datatype ExportEvent = ExportEvent(name: string, datetime: int, tasks: seq<ExportTask>)

  datatype ExportWeek = ExportWeek(weekNumber: int, startDate: int, endDate: int, events: seq<ExportEvent>)

  datatype ExportSemester = ExportSemester(name: string, startDate: int, endDate: int, isActive: bool,
                                           weeks: seq<ExportWeek>, rosterUsernames: seq<string>)

  /** A user reference as a username: None when the id is unset (or 0) or the row is gone. */
  function UsernameOf(users: map<int, User>, id: Option<int>): Option<string> {
    if Truthy(id) && id.value in users then Some(users[id.value].username) else None
  }

  /** A team reference as a team name, in the same way. */
  function TeamNameOf(teams: map<int, Team>, id: Option<int>): Option<string> {
    if Truthy(id) && id.value in teams then Some(teams[id.value].name) else None
  }

  /** A reference is exported as a name exactly when it is set and its row exists, and
      then as that row's name. */
  lemma ReferenceNames(users: map<int, User>, teams: map<int, Team>, id: Option<int>)
    ensures UsernameOf(users, id).Some? <==> id.Some? && id.value != 0 && id.value in users
    ensures UsernameOf(users, id).Some? ==> UsernameOf(users, id).value == users[id.value].username
    ensures TeamNameOf(teams, id).Some? <==> id.Some? && id.value != 0 && id.value in teams
    ensures TeamNameOf(teams, id).Some? ==> TeamNameOf(teams, id).value == teams[id.value].name
  {
  }

  /** The exported form of a task, given its pool usernames. */
  function ExportTaskOf(t: Task, users: map<int, User>, teams: map<int, Team>, pool: seq<string>): ExportTask {
    ExportTask(t.title, t.description, t.taskType, t.status, UsernameOf(users, t.assignedTo),
               TeamNameOf(teams, t.assignedTeamId), pool, UsernameOf(users, t.completedBy), t.cannotDoReason)
  }

  /** The stored users paired with `first` (a task's pool, a semester's roster). */
  function PairedUsers(pairs: set<(int, int)>, first: int, users: map<int, User>): set<int> {
    set k | k in users && (first, k) in pairs
  }

  /** The rows behind an exported node: its own id and the rows of its children (a
      semester's weeks, a week's events, an event's tasks, a task's pool users). */
  datatype Rows = Rows(id: int, children: seq<Rows>)

  function Ids(rs: seq<Rows>): seq<int> {
    seq(|rs|, i requires 0 <= i < |rs| => rs[i].id)
  }

  /** `names` holds the username of each stored user paired with `first`, once each, in
      the order `ids` lists those users; pairs whose user row is gone are left out. */
  ghost predicate NamesOfPaired(names: seq<string>, pairs: set<(int, int)>, first: int, users: map<int, User>, ids: seq<int>) {
    |ids| == |names| && multiset(ids) == multiset(PairedUsers(pairs, first, users))
    && forall i :: 0 <= i < |ids| ==> ids[i] in users && names[i] == users[ids[i]].username
  }

  function AnyUser(u: User): bool {
    true
  }

  /** The usernames of the users paired with `first`: `task.assignments` with `if
      assignment.user`, or the roster join on users. */
  method PairedUsernames(pairs: set<(int, int)>, first: int, users: map<int, User>)
    returns (names: seq<string>, ghost ids: seq<int>)
    ensures NamesOfPaired(names, pairs, first, users, ids)
    ensures |names| == |PairedUsers(pairs, first, users)|
    ensures forall i :: 0 <= i < |names| ==>
      exists k :: k in users && (first, k) in pairs && names[i] == users[k].username
  {
    var paired := map k | k in users && (first, k) in pairs :: users[k];
    var ks := SelectKeys(paired, AnyUser);
    assert Where(paired, AnyUser) == PairedUsers(pairs, first, users) by {
      forall k | k in paired ensures k in Where(paired, AnyUser) {
        assert AnyUser(paired[k]);
      }
    }
    names := [];
    var i := 0;
    while i < |ks|
      invariant 0 <= i <= |ks| && |names| == i
      invariant forall j :: 0 <= j < i ==> ks[j] in users && names[j] == users[ks[j]].username
    {
      InSetMultiset(ks, Where(paired, AnyUser), ks[i]);
      names := names + [users[ks[i]].username];
      i := i + 1;
    }
    ids := ks;
    SizeFromSet(ks, Where(paired, AnyUser));
    forall i | 0 <= i < |names|
      ensures exists k :: k in users && (first, k) in pairs && names[i] == users[k].username
    {
      assert ks[i] in multiset(Where(paired, AnyUser));
      var k := ks[i];
      assert k in users && (first, k) in pairs && names[i] == users[k].username;
    }
  }

  /** `et` is the export of task `r.id`, whose pool users are `r.children`. */
  ghost predicate TaskExported(db: Store, et: ExportTask, r: Rows)
    reads db
  {
    r.id in db.tasks && et == ExportTaskOf(db.tasks[r.id], db.users, db.teams, et.poolUsernames)
    && NamesOfPaired(et.poolUsernames, db.pool, r.id, db.users, Ids(r.children))
  }

  /** `ts` exports every task of event `eventId` once, task `rs[i].id` as `ts[i]`. */
  ghost predicate TasksExported(db: Store, ts: seq<ExportTask>, eventId: int, rs: seq<Rows>)
    reads db
  {
    |rs| == |ts| && multiset(Ids(rs)) == multiset(Where(db.tasks, Tasks.OfEvent(eventId)))
    && forall i :: 0 <= i < |rs| ==> TaskExported(db, ts[i], rs[i])
  }

  /** One task with its pool. */
  method ExportOneTask(db: Store, id: int) returns (et: ExportTask, ghost r: Rows)
    requires id in db.tasks
    ensures r.id == id && TaskExported(db, et, r)
    ensures et == ExportTaskOf(db.tasks[id], db.users, db.teams, et.poolUsernames)
    ensures |et.poolUsernames| == |PairedUsers(db.pool, id, db.users)|
  {
    var names, ids := PairedUsernames(db.pool, id, db.users);
    et := ExportTaskOf(db.tasks[id], db.users, db.teams, names);
    r := Rows(id, seq(|ids|, i requires 0 <= i < |ids| => Rows(ids[i], [])));
    assert Ids(r.children) == ids;
  }

  /** The tasks of one event, in the order the query yields them. */
  method ExportEventTasks(db: Store, eventId: int) returns (ts: seq<ExportTask>, ghost rs: seq<Rows>)
    ensures TasksExported(db, ts, eventId, rs)
    ensures |ts| == |Where(db.tasks, Tasks.OfEvent(eventId))|
  {
    var ks := SelectKeys(db.tasks, Tasks.OfEvent(eventId));
    ts, rs := [], [];
    var i := 0;
    while i < |ks|
      invariant 0 <= i <= |ks| && |ts| == i && |rs| == i
      invariant forall j :: 0 <= j < i ==> rs[j].id == ks[j] && TaskExported(db, ts[j], rs[j])
    {
      InSetMultiset(ks, Where(db.tasks, Tasks.OfEvent(eventId)), ks[i]);
      var et, r := ExportOneTask(db, ks[i]);
      ts, rs := ts + [et], rs + [r];
      i := i + 1;
    }
    assert Ids(rs) == ks;
    SizeFromSet(ks, Where(db.tasks, Tasks.OfEvent(eventId)));
  }

  /** `ee` is the export of event `r.id`. */
  ghost predicate EventExported(db: Store, ee: ExportEvent, r: Rows)
    reads db
  {
    r.id in db.events && ee.name == db.events[r.id].name && ee.datetime == db.events[r.id].datetime
    && TasksExported(db, ee.tasks, r.id, r.children)
  }

  /** `es` exports every event of week `weekId` once. */
  ghost predicate EventsExported(db: Store, es: seq<ExportEvent>, weekId: int, rs: seq<Rows>)
    reads db
  {
    |rs| == |es| && multiset(Ids(rs)) == multiset(Where(db.events, OfWeek(weekId)))
    && forall i :: 0 <= i < |rs| ==> EventExported(db, es[i], rs[i])
  }

  /** Events in ascending datetime order. */
  predicate ByDatetime(es: seq<ExportEvent>) {
    forall i, j :: 0 <= i < j < |es| ==> es[i].datetime <= es[j].datetime
  }

  /** One event with its tasks. */
  method ExportOneEvent(db: Store, id: int) returns (ee: ExportEvent, ghost r: Rows)
    requires id in db.events
    ensures r.id == id && EventExported(db, ee, r) && ee.datetime == Datetime(db.events[id])
  {
    var ts, rs := ExportEventTasks(db, id);
    ee := ExportEvent(db.events[id].name, db.events[id].datetime, ts);
    r := Rows(id, rs);
  }

  /** The events of one week by ascending datetime. */
  method ExportWeekEvents(db: Store, weekId: int) returns (es: seq<ExportEvent>, ghost rs: seq<Rows>)
    ensures EventsExported(db, es, weekId, rs)
    ensures ByDatetime(es)
  {
    var ks := SelectOrdered(db.events, OfWeek(weekId), Datetime);
    es, rs := [], [];
    var i := 0;
    while i < |ks|
      invariant 0 <= i <= |ks| && |es| == i && |rs| == i
      invariant forall j :: 0 <= j < i ==> rs[j].id == ks[j] && EventExported(db, es[j], rs[j])
      invariant forall j :: 0 <= j < i ==> es[j].datetime == Datetime(db.events[ks[j]])
    {
      var ee, r := ExportOneEvent(db, ks[i]);
      es, rs := es + [ee], rs + [r];
      i := i + 1;
    }
    assert Ids(rs) == ks;
  }

  /** `ew` is the export of week `r.id`. */
  ghost predicate WeekExported(db: Store, ew: ExportWeek, r: Rows)
    reads db
  {
    r.id in db.weeks && ew.weekNumber == db.weeks[r.id].weekNumber && ew.startDate == db.weeks[r.id].startDate
    && ew.endDate == db.weeks[r.id].endDate && EventsExported(db, ew.events, r.id, r.children)
  }

  /** `ws` exports every week of semester `sid` once. */
  ghost predicate WeeksExported(db: Store, ws: seq<ExportWeek>, sid: int, rs: seq<Rows>)
    reads db
  {
    |rs| == |ws| && multiset(Ids(rs)) == multiset(Where(db.weeks, OfSemester(sid)))
    && forall i :: 0 <= i < |rs| ==> WeekExported(db, ws[i], rs[i])
  }

  /** One week with its events. */
  method ExportOneWeek(db: Store, id: int) returns (ew: ExportWeek, ghost r: Rows)
    requires id in db.weeks
    ensures r.id == id && WeekExported(db, ew, r) && ew.weekNumber == WeekNumber(db.weeks[id])
    ensures ByDatetime(ew.events)
  {
    var es, rs := ExportWeekEvents(db, id);
    var w := db.weeks[id];
    ew := ExportWeek(w.weekNumber, w.startDate, w.endDate, es);
    r := Rows(id, rs);
  }

  /** The weeks of one semester by ascending week number, each with its events by
      ascending datetime. */
  method ExportSemesterWeeks(db: Store, sid: int) returns (ws: seq<ExportWeek>, ghost rs: seq<Rows>)
    ensures WeeksExported(db, ws, sid, rs)
    ensures |ws| == |Where(db.weeks, OfSemester(sid))|
    ensures forall i, j :: 0 <= i < j < |ws| ==> ws[i].weekNumber <= ws[j].weekNumber
    ensures forall i :: 0 <= i < |ws| ==> ByDatetime(ws[i].events)
  {
    var ks := SelectOrdered(db.weeks, OfSemester(sid), WeekNumber);
    ws, rs := [], [];
    var i := 0;
    while i < |ks|
      invariant 0 <= i <= |ks| && |ws| == i && |rs| == i
      invariant forall j :: 0 <= j < i ==> rs[j].id == ks[j] && WeekExported(db, ws[j], rs[j])
      invariant forall j :: 0 <= j < i ==> ws[j].weekNumber == WeekNumber(db.weeks[ks[j]])
      invariant forall j :: 0 <= j < i ==> ByDatetime(ws[j].events)
    {
      var ew, r := ExportOneWeek(db, ks[i]);
      ws, rs := ws + [ew], rs + [r];
      i := i + 1;
    }
    assert Ids(rs) == ks;
    SizeFromSet(ks, Where(db.weeks, OfSemester(sid)));
  }

  /** `e` is the export of semester `r.id`, whose roster users are `roster`. */
  ghost predicate SemesterExported(db: Store, e: ExportSemester, r: Rows, roster: seq<int>)
    reads db
  {
    var sid := r.id;
    sid in db.semesters && e.name == db.semesters[sid].name && e.startDate == db.semesters[sid].startDate
    && e.endDate == db.semesters[sid].endDate && e.isActive == db.semesters[sid].isActive
    && WeeksExported(db, e.weeks, sid, r.children)
    && NamesOfPaired(e.rosterUsernames, db.roster, sid, db.users, roster)
  }

  /** `build_semester_export`: the semester's own columns, its weeks by ascending week
      number, each with its events by ascending datetime and their tasks, and the
      usernames on its roster. */
  method BuildSemesterExport(db: Store, sid: int) returns (e: ExportSemester, ghost r: Rows, ghost roster: seq<int>)
    requires sid in db.semesters
    ensures r.id == sid && SemesterExported(db, e, r, roster)
    ensures |e.weeks| == |Where(db.weeks, OfSemester(sid))|
    ensures forall i, j :: 0 <= i < j < |e.weeks| ==> e.weeks[i].weekNumber <= e.weeks[j].weekNumber
    ensures forall i :: 0 <= i < |e.weeks| ==> ByDatetime(e.weeks[i].events)
  {
    var ws, rs := ExportSemesterWeeks(db, sid);
    var names, ids := PairedUsernames(db.roster, sid, db.users);
    var s := db.semesters[sid];
    e := ExportSemester(s.name, s.startDate, s.endDate, s.isActive, ws, names);
    r, roster := Rows(sid, rs), ids;
  }

  /** `export_semester` (admin only): 404 for a missing semester, otherwise its tree. */
  method ExportOne(db: Store, caller: User, sid: int) returns (r: Result<ExportSemester>)
    requires caller.role == Admin
    ensures sid !in db.semesters <==> r == NotFound
    ensures sid in db.semesters ==> r.Ok?
    ensures r.Ok? ==> exists rows: Rows, roster: seq<int> :: rows.id == sid && SemesterExported(db, r.value, rows, roster)
  {
    if sid !in db.semesters {
      return NotFound;
    }
    var e, rows, roster := BuildSemesterExport(db, sid);
    return Ok(e);
  }
}
