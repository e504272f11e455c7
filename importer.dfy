/** `import_data`: semesters read from an export file are recreated one by one, each in
    its own transaction. A semester whose name is already stored is reported and skipped;
    a semester whose roster or task pools would insert the same pair twice violates a
    unique constraint at commit and is rolled back. Users and teams are looked up by
    name and are never created. */
module Import {
  import opened Types
  import opened Db
  import opened Query
  import opened Calendar
  import opened Export
  import Users
  import Teams
  import Semesters

  /** One entry of `errors`: a name that already exists (`skipped` is the
      `skip_existing` flag, which only changes the wording), or a semester whose
      transaction failed. */
  datatype ImportError = Exists(name: string, skipped: bool) | Failed(name: string)

  datatype ImportResult = ImportResult(
    semestersCreated: nat,
    weeksCreated: nat,
    eventsCreated: nat,
    tasksCreated: nat,
    errors: seq<ImportError>)

  /** The tables an import writes, the next primary key, and whether a unique
      constraint on a join table has been violated since the last commit. */
  datatype Tables = Tables(
    semesters: map<int, Semester>,
    weeks: map<int, Week>,
    events: map<int, Event>,
    tasks: map<int, Task>,
    roster: set<(int, int)>,
    pool: set<(int, int)>,
    nextId: int,
    clash: bool)

  ghost function TablesOf(db: Store, clash: bool): Tables
    reads db
  {
    Tables(db.semesters, db.weeks, db.events, db.tasks, db.roster, db.pool, db.nextId, clash)
  }

  /** The user `filter(User.username == name).first()` finds; usernames are unique. */
  ghost function UserNamed(users: map<int, User>, name: string): Option<int> {
    if exists k :: k in users && users[k].username == name then
      var k :| k in users && users[k].username == name; Some(k)
    else None
  }

  /** The team `filter(Team.name == name).first()` finds; team names are unique. */
  ghost function TeamNamed(teams: map<int, Team>, name: string): Option<int> {
    if exists k :: k in teams && teams[k].name == name then
      var k :| k in teams && teams[k].name == name; Some(k)
    else None
  }

  /** A reference read from the file: looked up only when it is a non-empty name. */
  ghost function UserRef(users: map<int, User>, name: Option<string>): Option<int> {
    if NonEmpty(name) then UserNamed(users, name.value) else None
  }

  /** The task row created for `et` under event `eventId`: no team tag, no reminder. */
  ghost function ImportedTask(et: ExportTask, eventId: int, users: map<int, User>, teams: map<int, Team>): Task {
    Task(eventId, et.title, et.description, et.taskType, et.status,
         UserRef(users, et.assignedToUsername),
         None,
         if NonEmpty(et.assignedTeamName) then TeamNamed(teams, et.assignedTeamName.value) else None,
         None, false, et.cannotDoReason,
         UserRef(users, et.completedByUsername))
  }

  /** Adds `(first, user)` for each of `names` that names a user, in order; adding a pair
      that is already there sets the clash flag. */
  ghost function AddPairs(pairs: set<(int, int)>, clash: bool, first: int, names: seq<string>, n: nat,
                          users: map<int, User>): (set<(int, int)>, bool)
    requires n <= |names|
  {
    if n == 0 then (pairs, clash)
    else
      var (ps, c) := AddPairs(pairs, clash, first, names, n - 1, users);
      match UserNamed(users, names[n - 1])
      case None => (ps, c)
      case Some(u) => (ps + {(first, u)}, c || (first, u) in ps)
  }

  ghost function AddTask(t: Tables, eventId: int, et: ExportTask, users: map<int, User>, teams: map<int, Team>): Tables {
    var id := t.nextId;
    var (pool, clash) := AddPairs(t.pool, t.clash, id, et.poolUsernames, |et.poolUsernames|, users);
    t.(tasks := t.tasks[id := ImportedTask(et, eventId, users, teams)], pool := pool, clash := clash, nextId := id + 1)
  }

  ghost function AddTasks(t: Tables, eventId: int, ts: seq<ExportTask>, n: nat, users: map<int, User>, teams: map<int, Team>): Tables
    requires n <= |ts|
  {
    if n == 0 then t
    else AddTask(AddTasks(t, eventId, ts, n - 1, users, teams), eventId, ts[n - 1], users, teams)
  }

  ghost function AddEvent(t: Tables, weekId: int, ee: ExportEvent, users: map<int, User>, teams: map<int, Team>): Tables {
    var id := t.nextId;
    AddTasks(t.(events := t.events[id := Event(weekId, ee.name, ee.datetime, None)], nextId := id + 1),
             id, ee.tasks, |ee.tasks|, users, teams)
  }

  ghost function AddEvents(t: Tables, weekId: int, es: seq<ExportEvent>, n: nat, users: map<int, User>, teams: map<int, Team>): Tables
    requires n <= |es|
  {
    if n == 0 then t
    else AddEvent(AddEvents(t, weekId, es, n - 1, users, teams), weekId, es[n - 1], users, teams)
  }

  ghost function AddWeek(t: Tables, sid: int, ew: ExportWeek, users: map<int, User>, teams: map<int, Team>): Tables {
    var id := t.nextId;
    AddEvents(t.(weeks := t.weeks[id := Week(sid, ew.weekNumber, ew.startDate, ew.endDate)], nextId := id + 1),
              id, ew.events, |ew.events|, users, teams)
  }

  ghost function AddWeeks(t: Tables, sid: int, ws: seq<ExportWeek>, n: nat, users: map<int, User>, teams: map<int, Team>): Tables
    requires n <= |ws|
  {
    if n == 0 then t
    else AddWeek(AddWeeks(t, sid, ws, n - 1, users, teams), sid, ws[n - 1], users, teams)
  }

  /** The semester row (never active), its roster, then its weeks. */
  ghost function AddSemester(t: Tables, es: ExportSemester, users: map<int, User>, teams: map<int, Team>): Tables {
    var id := t.nextId;
    var (roster, clash) := AddPairs(t.roster, t.clash, id, es.rosterUsernames, |es.rosterUsernames|, users);
    AddWeeks(t.(semesters := t.semesters[id := Semester(es.name, es.startDate, es.endDate, false)],
                roster := roster, clash := clash, nextId := id + 1),
             id, es.weeks, |es.weeks|, users, teams)
  }

  /** The number of events in the first `n` weeks of `ws`. */
  function EventsIn(ws: seq<ExportWeek>, n: nat): nat
    requires n <= |ws|
  {
    if n == 0 then 0 else EventsIn(ws, n - 1) + |ws[n - 1].events|
  }

  /** The number of tasks in the first `n` events of `es`. */
  function TasksInEvents(es: seq<ExportEvent>, n: nat): nat
    requires n <= |es|
  {
    if n == 0 then 0 else TasksInEvents(es, n - 1) + |es[n - 1].tasks|
  }

  /** The number of tasks in the first `n` weeks of `ws`. */
  function TasksIn(ws: seq<ExportWeek>, n: nat): nat
    requires n <= |ws|
  {
    if n == 0 then 0 else TasksIn(ws, n - 1) + TasksInEvents(ws[n - 1].events, |ws[n - 1].events|)
  }

  /** The counters after the rows of `s` have been added to the session: they are not
      taken back when the commit fails. */
  function Counted(r: ImportResult, s: ExportSemester): ImportResult {
    r.(semestersCreated := r.semestersCreated + 1,
       weeksCreated := r.weeksCreated + |s.weeks|,
       eventsCreated := r.eventsCreated + EventsIn(s.weeks, |s.weeks|),
       tasksCreated := r.tasksCreated + TasksIn(s.weeks, |s.weeks|))
  }

  ghost predicate NameStored(semesters: map<int, Semester>, name: string) {
    exists k :: k in semesters && semesters[k].name == name
  }

  /** The tables after the commit of `s`'s rows, or after the rollback when a join table
      got a duplicate pair. */
  ghost function Committed(t: Tables, s: ExportSemester, users: map<int, User>, teams: map<int, Team>): Tables {
    var t2 := AddSemester(t, s, users, teams);
    if t2.clash then t else t2
  }

  /** One turn of the loop: skip a stored name; otherwise count the semester's rows and
      commit them, or roll back to `t` when a join table got a duplicate pair. */
  ghost function ImportOne(t: Tables, r: ImportResult, s: ExportSemester, skipExisting: bool,
                           users: map<int, User>, teams: map<int, Team>): (Tables, ImportResult)
  {
    if NameStored(t.semesters, s.name) then (t, r.(errors := r.errors + [Exists(s.name, skipExisting)]))
    else if AddSemester(t, s, users, teams).clash then
      (t, Counted(r, s).(errors := Counted(r, s).errors + [Failed(s.name)]))
    else (Committed(t, s, users, teams), Counted(r, s))
  }

  ghost function ImportAll(t: Tables, sems: seq<ExportSemester>, n: nat, skipExisting: bool,
                           users: map<int, User>, teams: map<int, Team>): (Tables, ImportResult)
    requires n <= |sems|
  {
    if n == 0 then (t, ImportResult(0, 0, 0, 0, []))
    else
      var (t1, r1) := ImportAll(t, sems, n - 1, skipExisting, users, teams);
      ImportOne(t1, r1, sems[n - 1], skipExisting, users, teams)
  }

  /** Every key of a written table was handed out before `t.nextId`. */
  ghost predicate Fresh(t: Tables) {
    1 <= t.nextId && KeysBelow(t.semesters, t.nextId) && KeysBelow(t.weeks, t.nextId)
    && KeysBelow(t.events, t.nextId) && KeysBelow(t.tasks, t.nextId)
  }

  /** Every week, event and task of `t` hangs under a stored parent. */
  ghost predicate TreeAttached(t: Tables) {
    Attached(t.semesters, t.weeks, t.events, t.tasks)
  }

  /** `b` keeps every row of `a`, and every row it adds has a key from `from` on. */
  ghost predicate MapExtends<V>(a: map<int, V>, b: map<int, V>, from: int) {
    (forall k :: k in a ==> k in b && b[k] == a[k]) && (forall k :: k in b && k !in a ==> from <= k)
  }

  /** `t2` keeps every row and pair of `t`, adds rows only under keys from `t.nextId` on,
      and adds no active semester. */
  ghost predicate Extends(t: Tables, t2: Tables) {
    t.nextId <= t2.nextId
    && MapExtends(t.semesters, t2.semesters, t.nextId) && MapExtends(t.weeks, t2.weeks, t.nextId)
    && MapExtends(t.events, t2.events, t.nextId) && MapExtends(t.tasks, t2.tasks, t.nextId)
    && t.roster <= t2.roster && t.pool <= t2.pool
    && (forall k :: k in t2.semesters && k !in t.semesters ==> !t2.semesters[k].isActive)
  }

  lemma ExtendsTransitive(t1: Tables, t2: Tables, t3: Tables)
    requires Extends(t1, t2) && Extends(t2, t3)
    ensures Extends(t1, t3)
  {
  }

  /** Adding pairs never removes one and never clears the clash flag. */
  lemma {:induction false} AddPairsGrows(pairs: set<(int, int)>, clash: bool, first: int, names: seq<string>, n: nat,
                                         users: map<int, User>)
    requires n <= |names|
    ensures pairs <= AddPairs(pairs, clash, first, names, n, users).0
    ensures clash ==> AddPairs(pairs, clash, first, names, n, users).1
  {
    if n > 0 {
      AddPairsGrows(pairs, clash, first, names, n - 1, users);
    }
  }

  /** The state an import step starts from: fresh keys, an attached tree. */
  ghost predicate Sound(t: Tables) {
    Fresh(t) && TreeAttached(t)
  }

  lemma AddTaskSound(t: Tables, eventId: int, et: ExportTask, users: map<int, User>, teams: map<int, Team>)
    requires Sound(t) && eventId in t.events
    ensures var t2 := AddTask(t, eventId, et, users, teams); Sound(t2) && Extends(t, t2) && t.nextId < t2.nextId
  {
    AddPairsGrows(t.pool, t.clash, t.nextId, et.poolUsernames, |et.poolUsernames|, users);
  }

  lemma {:induction false} AddTasksSound(t: Tables, eventId: int, ts: seq<ExportTask>, n: nat,
                                         users: map<int, User>, teams: map<int, Team>)
    requires n <= |ts| && Sound(t) && eventId in t.events
    ensures var t2 := AddTasks(t, eventId, ts, n, users, teams); Sound(t2) && Extends(t, t2)
  {
    if n > 0 {
      AddTasksSound(t, eventId, ts, n - 1, users, teams);
      var t1 := AddTasks(t, eventId, ts, n - 1, users, teams);
      AddTaskSound(t1, eventId, ts[n - 1], users, teams);
      ExtendsTransitive(t, t1, AddTask(t1, eventId, ts[n - 1], users, teams));
    }
  }

  lemma AddEventSound(t: Tables, weekId: int, ee: ExportEvent, users: map<int, User>, teams: map<int, Team>)
    requires Sound(t) && weekId in t.weeks
    ensures var t2 := AddEvent(t, weekId, ee, users, teams); Sound(t2) && Extends(t, t2) && t.nextId < t2.nextId
  {
    var id := t.nextId;
    var t1 := t.(events := t.events[id := Event(weekId, ee.name, ee.datetime, None)], nextId := id + 1);
    assert Sound(t1) && Extends(t, t1);
    AddTasksSound(t1, id, ee.tasks, |ee.tasks|, users, teams);
    ExtendsTransitive(t, t1, AddTasks(t1, id, ee.tasks, |ee.tasks|, users, teams));
  }

  lemma {:induction false} AddEventsSound(t: Tables, weekId: int, es: seq<ExportEvent>, n: nat,
                                          users: map<int, User>, teams: map<int, Team>)
    requires n <= |es| && Sound(t) && weekId in t.weeks
    ensures var t2 := AddEvents(t, weekId, es, n, users, teams); Sound(t2) && Extends(t, t2)
  {
    if n > 0 {
      AddEventsSound(t, weekId, es, n - 1, users, teams);
      var t1 := AddEvents(t, weekId, es, n - 1, users, teams);
      AddEventSound(t1, weekId, es[n - 1], users, teams);
      ExtendsTransitive(t, t1, AddEvent(t1, weekId, es[n - 1], users, teams));
    }
  }

  lemma AddWeekSound(t: Tables, sid: int, ew: ExportWeek, users: map<int, User>, teams: map<int, Team>)
    requires Sound(t) && sid in t.semesters
    ensures var t2 := AddWeek(t, sid, ew, users, teams); Sound(t2) && Extends(t, t2) && t.nextId < t2.nextId
  {
    var id := t.nextId;
    var t1 := t.(weeks := t.weeks[id := Week(sid, ew.weekNumber, ew.startDate, ew.endDate)], nextId := id + 1);
    assert Sound(t1) && Extends(t, t1);
    AddEventsSound(t1, id, ew.events, |ew.events|, users, teams);
    ExtendsTransitive(t, t1, AddEvents(t1, id, ew.events, |ew.events|, users, teams));
  }

  lemma {:induction false} AddWeeksSound(t: Tables, sid: int, ws: seq<ExportWeek>, n: nat,
                                         users: map<int, User>, teams: map<int, Team>)
    requires n <= |ws| && Sound(t) && sid in t.semesters
    ensures var t2 := AddWeeks(t, sid, ws, n, users, teams); Sound(t2) && Extends(t, t2)
  {
    if n > 0 {
      AddWeeksSound(t, sid, ws, n - 1, users, teams);
      var t1 := AddWeeks(t, sid, ws, n - 1, users, teams);
      AddWeekSound(t1, sid, ws[n - 1], users, teams);
      ExtendsTransitive(t, t1, AddWeek(t1, sid, ws[n - 1], users, teams));
    }
  }

  /** The rows of one semester keep the tables sound, add no active semester, and store
      the semester itself, inactive, under the next key. */
  lemma AddSemesterSound(t: Tables, es: ExportSemester, users: map<int, User>, teams: map<int, Team>)
    requires Sound(t)
    ensures var t2 := AddSemester(t, es, users, teams);
      Sound(t2) && Extends(t, t2) && t.nextId < t2.nextId
      && t.nextId in t2.semesters && t2.semesters[t.nextId] == Semester(es.name, es.startDate, es.endDate, false)
  {
    var id := t.nextId;
    var (roster, clash) := AddPairs(t.roster, t.clash, id, es.rosterUsernames, |es.rosterUsernames|, users);
    AddPairsGrows(t.roster, t.clash, id, es.rosterUsernames, |es.rosterUsernames|, users);
    var t1 := t.(semesters := t.semesters[id := Semester(es.name, es.startDate, es.endDate, false)],
                 roster := roster, clash := clash, nextId := id + 1);
    SemesterRowSound(t, Semester(es.name, es.startDate, es.endDate, false), roster, clash);
    var t2 := AddWeeks(t1, id, es.weeks, |es.weeks|, users, teams);
    AddWeeksSound(t1, id, es.weeks, |es.weeks|, users, teams);
    ExtendsTransitive(t, t1, t2);
    assert id in t1.semesters;
  }

  /** Storing an inactive semester under the next key, with more roster pairs, keeps the
      tables sound and extends them. */
  lemma SemesterRowSound(t: Tables, s: Semester, roster: set<(int, int)>, clash: bool)
    requires Sound(t) && !s.isActive && t.roster <= roster
    ensures var t1 := t.(semesters := t.semesters[t.nextId := s], roster := roster, clash := clash,
                         nextId := t.nextId + 1);
      Sound(t1) && Extends(t, t1)
  {
  }

  /** The number of `Exists` entries among the errors. */
  function Skips(errors: seq<ImportError>): nat
    decreases |errors|
  {
    if errors == [] then 0 else Skips(errors[..|errors| - 1]) + (if errors[|errors| - 1].Exists? then 1 else 0)
  }

  /** One semester of the file: the tables change exactly when the semester is
      committed, and then hold it, inactive, under a new key; otherwise exactly one
      error is reported. A stored name is skipped without being counted; every other
      semester is counted, committed or not. */
  lemma ImportOneOutcome(t: Tables, r: ImportResult, s: ExportSemester, skipExisting: bool,
                         users: map<int, User>, teams: map<int, Team>)
    requires Sound(t)
    ensures var (t2, r2) := ImportOne(t, r, s, skipExisting, users, teams);
      (t2 == t <==> NameStored(t.semesters, s.name) || AddSemester(t, s, users, teams).clash)
      && (t2 == t <==> |r2.errors| == |r.errors| + 1)
      && (t2 != t <==> |r2.errors| == |r.errors|)
      && (t2 != t ==> t.nextId in t2.semesters && t2.semesters[t.nextId] == Semester(s.name, s.startDate, s.endDate, false))
      && (r2.semestersCreated == r.semestersCreated <==> NameStored(t.semesters, s.name))
  {
    AddSemesterSound(t, s, users, teams);
  }

  lemma SkipsAppend(errors: seq<ImportError>, e: ImportError)
    ensures Skips(errors + [e]) == Skips(errors) + (if e.Exists? then 1 else 0)
  {
    assert (errors + [e])[..|errors|] == errors;
  }

  /** One semester keeps the tables sound and only adds rows. */
  lemma ImportOneSound(t: Tables, r: ImportResult, s: ExportSemester, skipExisting: bool,
                       users: map<int, User>, teams: map<int, Team>)
    requires Sound(t) && !t.clash
    ensures var (t2, r2) := ImportOne(t, r, s, skipExisting, users, teams);
      Sound(t2) && Extends(t, t2) && !t2.clash
  {
    AddSemesterSound(t, s, users, teams);
  }

  /** The whole import keeps the tables sound, keeps every row and pair that was there,
      and adds no active semester. */
  lemma {:induction false} ImportAllSound(t: Tables, sems: seq<ExportSemester>, n: nat, skipExisting: bool,
                                          users: map<int, User>, teams: map<int, Team>)
    requires n <= |sems| && Sound(t) && !t.clash
    ensures var t2 := ImportAll(t, sems, n, skipExisting, users, teams).0;
      Sound(t2) && Extends(t, t2) && !t2.clash
  {
    if n > 0 {
      ImportAllSound(t, sems, n - 1, skipExisting, users, teams);
      var (t1, r1) := ImportAll(t, sems, n - 1, skipExisting, users, teams);
      ImportOneSound(t1, r1, sems[n - 1], skipExisting, users, teams);
      ExtendsTransitive(t, t1, ImportAll(t, sems, n, skipExisting, users, teams).0);
    }
  }

  /** Each semester of the file is counted as created or as skipped for its name;
      Fresh keys suffice, the tree need not be attached. */
  lemma ImportCounts(t: Tables, sems: seq<ExportSemester>, skipExisting: bool,
                     users: map<int, User>, teams: map<int, Team>)
    ensures var r := ImportAll(t, sems, |sems|, skipExisting, users, teams).1;
      r.semestersCreated + Skips(r.errors) == |sems|
  {
    CountsUpTo(t, sems, |sems|, skipExisting, users, teams);
  }

  lemma {:induction false} CountsUpTo(t: Tables, sems: seq<ExportSemester>, n: nat, skipExisting: bool,
                                      users: map<int, User>, teams: map<int, Team>)
    requires n <= |sems|
    ensures var r := ImportAll(t, sems, n, skipExisting, users, teams).1;
      r.semestersCreated + Skips(r.errors) == n
  {
    if n > 0 {
      CountsUpTo(t, sems, n - 1, skipExisting, users, teams);
      CountsStep(t, sems, n, skipExisting, users, teams);
    }
  }

  lemma CountsStep(t: Tables, sems: seq<ExportSemester>, n: nat, skipExisting: bool,
                   users: map<int, User>, teams: map<int, Team>)
    requires 0 < n <= |sems|
    requires var r := ImportAll(t, sems, n - 1, skipExisting, users, teams).1;
      r.semestersCreated + Skips(r.errors) == n - 1
    ensures var r := ImportAll(t, sems, n, skipExisting, users, teams).1;
      r.semestersCreated + Skips(r.errors) == n
  {
    var p := ImportAll(t, sems, n - 1, skipExisting, users, teams);
    CountOne(p.0, p.1, sems[n - 1], skipExisting, users, teams);
    assert ImportAll(t, sems, n, skipExisting, users, teams) == ImportOne(p.0, p.1, sems[n - 1], skipExisting, users, teams);
  }

  /** One semester adds one to the created count or to the skipped count. */
  lemma CountOne(t: Tables, r: ImportResult, s: ExportSemester, skipExisting: bool,
                 users: map<int, User>, teams: map<int, Team>)
    ensures var r2 := ImportOne(t, r, s, skipExisting, users, teams).1;
      r2.semestersCreated + Skips(r2.errors) == r.semestersCreated + Skips(r.errors) + 1
  {
    SkipsAppend(r.errors, Exists(s.name, skipExisting));
    SkipsAppend(Counted(r, s).errors, Failed(s.name));
  }

  /** Importing never breaks "at most one semester is active". */
  lemma ImportKeepsOneActive(t: Tables, sems: seq<ExportSemester>, skipExisting: bool,
                             users: map<int, User>, teams: map<int, Team>)
    requires Sound(t) && !t.clash && Semesters.AtMostOneActive(t.semesters)
    ensures Semesters.AtMostOneActive(ImportAll(t, sems, |sems|, skipExisting, users, teams).0.semesters)
  {
    ImportAllSound(t, sems, |sems|, skipExisting, users, teams);
  }

  /** The users `names[..n]` resolve to, as `AddPairs` pairs them. */
  ghost function Resolved(names: seq<string>, n: nat, users: map<int, User>): (r: set<int>)
    requires n <= |names|
    ensures r <= users.Keys
  {
    if n == 0 then {}
    else
      Resolved(names, n - 1, users) + match UserNamed(users, names[n - 1])
        case None => {}
        case Some(u) => {u}
  }

  /** A name resolves exactly when some user carries it, and then to such a user. */
  lemma UserNamedIn(users: map<int, User>, name: string)
    ensures UserNamed(users, name).Some? <==> Users.UsernameTaken(users, name)
    ensures UserNamed(users, name).Some? ==>
      UserNamed(users, name).value in users && users[UserNamed(users, name).value].username == name
  {
  }

  /** Pool pairs added for a key that had none are exactly the pairs with the resolved
      users. */
  lemma {:induction false} PoolPairsResolved(pairs: set<(int, int)>, clash: bool, first: int, names: seq<string>,
                                             n: nat, users: map<int, User>)
    requires n <= |names| && forall p :: p in pairs ==> p.0 != first
    ensures PairedUsers(AddPairs(pairs, clash, first, names, n, users).0, first, users) == Resolved(names, n, users)
  {
    if n > 0 {
      PoolPairsResolved(pairs, clash, first, names, n - 1, users);
      UserNamedIn(users, names[n - 1]);
    }
  }

  /** The usernames of the users `ids`. */
  ghost function UsernamesOf(ids: set<int>, users: map<int, User>): set<string>
    requires ids <= users.Keys
  {
    set u | u in ids :: users[u].username
  }

  /** The names among `names` that some stored user carries. */
  ghost function TakenAmong(names: seq<string>, users: map<int, User>): set<string> {
    set x | x in names && Users.UsernameTaken(users, x)
  }

  /** The resolved users' names are exactly the names of the file that some user carries. */
  lemma {:induction false} ResolvedUsernames(names: seq<string>, n: nat, users: map<int, User>)
    requires n <= |names|
    ensures UsernamesOf(Resolved(names, n, users), users) == TakenAmong(names[..n], users)
  {
    if n > 0 {
      ResolvedUsernames(names, n - 1, users);
      UserNamedIn(users, names[n - 1]);
      var before := Resolved(names, n - 1, users);
      assert names[..n] == names[..n - 1] + [names[n - 1]];
      forall x | x in UsernamesOf(Resolved(names, n, users), users) ensures x in TakenAmong(names[..n], users) {
        var u :| u in Resolved(names, n, users) && users[u].username == x;
        if u in before {
          assert x in UsernamesOf(before, users);
        }
      }
      forall x | x in TakenAmong(names[..n], users) ensures x in UsernamesOf(Resolved(names, n, users), users) {
        if x in names[..n - 1] {
          assert x in TakenAmong(names[..n - 1], users);
          var v :| v in before && users[v].username == x;
          assert v in Resolved(names, n, users);
        } else {
          assert x == names[n - 1];
          var v := UserNamed(users, x).value;
          assert v in Resolved(names, n, users);
        }
      }
    }
  }

  /** An imported task exported again gives back the task of the file, as long as every
      name it refers to is non-empty and names a stored user or team. Its pool is
      exported as the file's pool usernames that name a stored user, as a set. */
  lemma TaskRoundTrip(t: Tables, eventId: int, et: ExportTask, users: map<int, User>, teams: map<int, Team>,
                      names: seq<string>, ids: seq<int>)
    requires Users.UsernamesUnique(users) && Teams.NamesDistinct(teams) && 0 !in users && 0 !in teams
    requires et.assignedToUsername.Some? ==>
      et.assignedToUsername.value != "" && Users.UsernameTaken(users, et.assignedToUsername.value)
    requires et.completedByUsername.Some? ==>
      et.completedByUsername.value != "" && Users.UsernameTaken(users, et.completedByUsername.value)
    requires et.assignedTeamName.Some? ==>
      et.assignedTeamName.value != "" && exists k :: k in teams && teams[k].name == et.assignedTeamName.value
    requires forall p :: p in t.pool ==> p.0 != t.nextId
    requires NamesOfPaired(names, AddTask(t, eventId, et, users, teams).pool, t.nextId, users, ids)
    ensures ExportTaskOf(AddTask(t, eventId, et, users, teams).tasks[t.nextId], users, teams, names)
         == et.(poolUsernames := names)
    ensures (set x | x in names) == TakenAmong(et.poolUsernames, users)
  {
    var pool := AddTask(t, eventId, et, users, teams).pool;
    var n := |et.poolUsernames|;
    PoolPairsResolved(t.pool, t.clash, t.nextId, et.poolUsernames, n, users);
    ResolvedUsernames(et.poolUsernames, n, users);
    assert et.poolUsernames[..n] == et.poolUsernames;
    var paired := PairedUsers(pool, t.nextId, users);
    forall x | x in names ensures x in UsernamesOf(paired, users) {
      var i :| 0 <= i < |names| && names[i] == x;
      var u := ids[i];
      assert u in multiset(paired);
      assert u in paired && users[u].username == x;
      assert users[u].username in UsernamesOf(paired, users);
    }
    forall x | x in UsernamesOf(paired, users) ensures x in names {
      var u :| u in paired && users[u].username == x;
      assert u in multiset(ids);
      var i :| 0 <= i < |ids| && ids[i] == u;
      assert names[i] == x;
    }
  }

  /** Usernames are unique, so the user found by name is the only one. */
  lemma UserNamedIs(users: map<int, User>, name: string, k: int)
    requires Users.UsernamesUnique(users) && k in users && users[k].username == name
    ensures UserNamed(users, name) == Some(k)
  {
  }

  lemma TeamNamedIs(teams: map<int, Team>, name: string, k: int)
    requires Teams.NamesDistinct(teams) && k in teams && teams[k].name == name
    ensures TeamNamed(teams, name) == Some(k)
  {
  }

  /** `db.query(User).filter(User.username == name).first()`, as an id. */
  method FindUser(users: map<int, User>, name: string) returns (found: Option<int>)
    requires Users.UsernamesUnique(users)
    ensures found == UserNamed(users, name)
  {
    var ks := SelectKeys(users, Users.OfUsername(name));
    if ks == [] {
      forall k | k in users ensures users[k].username != name {
        InSetMultiset(ks, Where(users, Users.OfUsername(name)), k);
      }
      return None;
    }
    InSetMultiset(ks, Where(users, Users.OfUsername(name)), ks[0]);
    UserNamedIs(users, name, ks[0]);
    return Some(ks[0]);
  }

  /** The filter `Team.name == name`. */
  function TeamNamedAs(name: string): Team -> bool {
    (t: Team) => t.name == name
  }

  /** `db.query(Team).filter(Team.name == name).first()`, as an id. */
  method FindTeam(teams: map<int, Team>, name: string) returns (found: Option<int>)
    requires Teams.NamesDistinct(teams)
    ensures found == TeamNamed(teams, name)
  {
    var ks := SelectKeys(teams, TeamNamedAs(name));
    if ks == [] {
      forall k | k in teams ensures teams[k].name != name {
        InSetMultiset(ks, Where(teams, TeamNamedAs(name)), k);
      }
      return None;
    }
    InSetMultiset(ks, Where(teams, TeamNamedAs(name)), ks[0]);
    TeamNamedIs(teams, name, ks[0]);
    return Some(ks[0]);
  }

  /** The roster rows of a new semester. */
  method ImportRoster(db: Store, sid: int, names: seq<string>, clash: bool) returns (c: bool)
    requires Users.UsernamesUnique(db.users)
    modifies db`roster
    ensures (db.roster, c) == AddPairs(old(db.roster), clash, sid, names, |names|, db.users)
  {
    ghost var r0 := db.roster;
    c := clash;
    var i := 0;
    while i < |names|
      invariant 0 <= i <= |names|
      invariant (db.roster, c) == AddPairs(r0, clash, sid, names, i, db.users)
    {
      var u := FindUser(db.users, names[i]);
      if u.Some? {
        c := c || (sid, u.value) in db.roster;
        db.roster := db.roster + {(sid, u.value)};
      }
      i := i + 1;
    }
  }

  /** The pool rows of a new task. */
  method ImportPool(db: Store, taskId: int, names: seq<string>, clash: bool) returns (c: bool)
    requires Users.UsernamesUnique(db.users)
    modifies db`pool
    ensures (db.pool, c) == AddPairs(old(db.pool), clash, taskId, names, |names|, db.users)
  {
    ghost var p0 := db.pool;
    c := clash;
    var i := 0;
    while i < |names|
      invariant 0 <= i <= |names|
      invariant (db.pool, c) == AddPairs(p0, clash, taskId, names, i, db.users)
    {
      var u := FindUser(db.users, names[i]);
      if u.Some? {
        c := c || (taskId, u.value) in db.pool;
        db.pool := db.pool + {(taskId, u.value)};
      }
      i := i + 1;
    }
  }

  /** The new task row: assignee, team and completer looked up by name when the file
      gives a non-empty one. */
  method ResolveTask(users: map<int, User>, teams: map<int, Team>, eventId: int, et: ExportTask) returns (task: Task)
    requires Users.UsernamesUnique(users) && Teams.NamesDistinct(teams)
    ensures task == ImportedTask(et, eventId, users, teams)
  {
    var assignedTo: Option<int> := None;
    if NonEmpty(et.assignedToUsername) {
      assignedTo := FindUser(users, et.assignedToUsername.value);
    }
    var teamId: Option<int> := None;
    if NonEmpty(et.assignedTeamName) {
      teamId := FindTeam(teams, et.assignedTeamName.value);
    }
    var completedBy: Option<int> := None;
    if NonEmpty(et.completedByUsername) {
      completedBy := FindUser(users, et.completedByUsername.value);
    }
    task := Task(eventId, et.title, et.description, et.taskType, et.status, assignedTo,
                 None, teamId, None, false, et.cannotDoReason, completedBy);
  }

  /** One task and its pool. */
  method ImportTask(db: Store, eventId: int, et: ExportTask, clash: bool) returns (c: bool)
    requires db.Valid() && Users.UsernamesUnique(db.users) && Teams.NamesDistinct(db.teams)
    modifies db`tasks, db`pool, db`nextId
    ensures db.Valid()
    ensures TablesOf(db, c) == AddTask(old(TablesOf(db, clash)), eventId, et, db.users, db.teams)
  {
    var task := ResolveTask(db.users, db.teams, eventId, et);
    var id := db.NewId();
    db.tasks := db.tasks[id := task];
    c := ImportPool(db, id, et.poolUsernames, clash);
  }

  method ImportTasks(db: Store, eventId: int, ts: seq<ExportTask>, clash: bool) returns (c: bool)
    requires db.Valid() && Users.UsernamesUnique(db.users) && Teams.NamesDistinct(db.teams)
    modifies db`tasks, db`pool, db`nextId
    ensures db.Valid()
    ensures TablesOf(db, c) == AddTasks(old(TablesOf(db, clash)), eventId, ts, |ts|, db.users, db.teams)
  {
    ghost var t0 := TablesOf(db, clash);
    c := clash;
    var i := 0;
    while i < |ts|
      invariant 0 <= i <= |ts| && db.Valid()
      invariant TablesOf(db, c) == AddTasks(t0, eventId, ts, i, db.users, db.teams)
    {
      c := ImportTask(db, eventId, ts[i], c);
      i := i + 1;
    }
  }

  /** One event (no location) and its tasks. */
  method ImportEvent(db: Store, weekId: int, ee: ExportEvent, clash: bool) returns (c: bool)
    requires db.Valid() && Users.UsernamesUnique(db.users) && Teams.NamesDistinct(db.teams)
    modifies db`events, db`tasks, db`pool, db`nextId
    ensures db.Valid()
    ensures TablesOf(db, c) == AddEvent(old(TablesOf(db, clash)), weekId, ee, db.users, db.teams)
  {
    var id := db.NewId();
    db.events := db.events[id := Event(weekId, ee.name, ee.datetime, None)];
    c := ImportTasks(db, id, ee.tasks, clash);
  }

  method ImportEvents(db: Store, weekId: int, es: seq<ExportEvent>, clash: bool) returns (c: bool)
    requires db.Valid() && Users.UsernamesUnique(db.users) && Teams.NamesDistinct(db.teams)
    modifies db`events, db`tasks, db`pool, db`nextId
    ensures db.Valid()
    ensures TablesOf(db, c) == AddEvents(old(TablesOf(db, clash)), weekId, es, |es|, db.users, db.teams)
  {
    ghost var t0 := TablesOf(db, clash);
    c := clash;
    var i := 0;
    while i < |es|
      invariant 0 <= i <= |es| && db.Valid()
      invariant TablesOf(db, c) == AddEvents(t0, weekId, es, i, db.users, db.teams)
    {
      c := ImportEvent(db, weekId, es[i], c);
      i := i + 1;
    }
  }

  /** One week and its events. */
  method ImportWeek(db: Store, sid: int, ew: ExportWeek, clash: bool) returns (c: bool)
    requires db.Valid() && Users.UsernamesUnique(db.users) && Teams.NamesDistinct(db.teams)
    modifies db`weeks, db`events, db`tasks, db`pool, db`nextId
    ensures db.Valid()
    ensures TablesOf(db, c) == AddWeek(old(TablesOf(db, clash)), sid, ew, db.users, db.teams)
  {
    var id := db.NewId();
    db.weeks := db.weeks[id := Week(sid, ew.weekNumber, ew.startDate, ew.endDate)];
    c := ImportEvents(db, id, ew.events, clash);
  }

  method ImportWeeks(db: Store, sid: int, ws: seq<ExportWeek>, clash: bool) returns (c: bool)
    requires db.Valid() && Users.UsernamesUnique(db.users) && Teams.NamesDistinct(db.teams)
    modifies db`weeks, db`events, db`tasks, db`pool, db`nextId
    ensures db.Valid()
    ensures TablesOf(db, c) == AddWeeks(old(TablesOf(db, clash)), sid, ws, |ws|, db.users, db.teams)
  {
    ghost var t0 := TablesOf(db, clash);
    c := clash;
    var i := 0;
    while i < |ws|
      invariant 0 <= i <= |ws| && db.Valid()
      invariant TablesOf(db, c) == AddWeeks(t0, sid, ws, i, db.users, db.teams)
    {
      c := ImportWeek(db, sid, ws[i], c);
      i := i + 1;
    }
  }

  /** The rows of one semester, before its commit. */
  method ImportSemester(db: Store, es: ExportSemester, clash: bool) returns (c: bool)
    requires db.Valid() && Users.UsernamesUnique(db.users) && Teams.NamesDistinct(db.teams)
    modifies db`semesters, db`roster, db`weeks, db`events, db`tasks, db`pool, db`nextId
    ensures db.Valid()
    ensures TablesOf(db, c) == AddSemester(old(TablesOf(db, clash)), es, db.users, db.teams)
  {
    var id := db.NewId();
    db.semesters := db.semesters[id := Semester(es.name, es.startDate, es.endDate, false)];
    c := ImportRoster(db, id, es.rosterUsernames, clash);
    c := ImportWeeks(db, id, es.weeks, c);
  }

  /** The filter `Semester.name == name`. */
  function NamedSemester(name: string): Semester -> bool {
    (s: Semester) => s.name == name
  }

  /** `db.query(Semester).filter(Semester.name == name).first()` found a row. */
  method HasSemesterNamed(semesters: map<int, Semester>, name: string) returns (b: bool)
    ensures b == NameStored(semesters, name)
  {
    var same := SelectKeys(semesters, NamedSemester(name));
    if same != [] {
      InSetMultiset(same, Where(semesters, NamedSemester(name)), same[0]);
      return true;
    }
    forall k | k in semesters ensures semesters[k].name != name {
      InSetMultiset(same, Where(semesters, NamedSemester(name)), k);
    }
    return false;
  }

  /** After `n` turns of the loop of `import_data` from tables `t0`, the store is well
      formed and holds the tables, and `r` the result, that `ImportAll` gives. */
  ghost predicate Reached(db: Store, r: ImportResult, t0: Tables, data: seq<ExportSemester>, n: nat, skipExisting: bool)
    reads db
  {
    n <= |data| && db.Valid() && Users.UsernamesUnique(db.users) && Teams.NamesDistinct(db.teams)
    && (TablesOf(db, false), r) == ImportAll(t0, data, n, skipExisting, db.users, db.teams)
  }

  /** One turn of the loop of `import_data`: the `try` block, its commit, and the
      rollback in the `except` branch. */
  method ImportNext(db: Store, r: ImportResult, data: seq<ExportSemester>, i: nat, skipExisting: bool, ghost t0: Tables)
    returns (r': ImportResult)
    requires i < |data| && Reached(db, r, t0, data, i, skipExisting)
    modifies db`semesters, db`roster, db`weeks, db`events, db`tasks, db`pool, db`nextId
    ensures Reached(db, r', t0, data, i + 1, skipExisting)
  {
    var s := data[i];
    var exists_ := HasSemesterNamed(db.semesters, s.name);
    if exists_ {
      return r.(errors := r.errors + [Exists(s.name, skipExisting)]);
    }
    var failed := CommitSemester(db, s);
    r' := Counted(r, s);
    if failed {
      r' := r'.(errors := r'.errors + [Failed(s.name)]);
    }
  }

  /** The rows of one semester and the `db.commit()` after them, or `db.rollback()`
      when the commit violates a unique constraint. */
  method CommitSemester(db: Store, s: ExportSemester) returns (failed: bool)
    requires db.Valid() && Users.UsernamesUnique(db.users) && Teams.NamesDistinct(db.teams)
    modifies db`semesters, db`roster, db`weeks, db`events, db`tasks, db`pool, db`nextId
    ensures db.Valid()
    ensures failed == AddSemester(old(TablesOf(db, false)), s, db.users, db.teams).clash
    ensures TablesOf(db, false) == Committed(old(TablesOf(db, false)), s, db.users, db.teams)
  {
    var semesters, roster, weeks, events, tasks, pool, nextId :=
      db.semesters, db.roster, db.weeks, db.events, db.tasks, db.pool, db.nextId;
    failed := ImportSemester(db, s, false);
    if failed {
      Rollback(db, semesters, roster, weeks, events, tasks, pool, nextId);
    }
  }

  /** `db.rollback()`: the written tables get back the given contents. */
  method Rollback(db: Store, semesters: map<int, Semester>, roster: set<(int, int)>, weeks: map<int, Week>,
                  events: map<int, Event>, tasks: map<int, Task>, pool: set<(int, int)>, nextId: int)
    requires 1 <= nextId && KeysBelow(semesters, nextId) && KeysBelow(weeks, nextId)
    requires KeysBelow(events, nextId) && KeysBelow(tasks, nextId)
    requires KeysBelow(db.users, nextId) && KeysBelow(db.teams, nextId) && KeysBelow(db.comments, nextId)
    modifies db`semesters, db`roster, db`weeks, db`events, db`tasks, db`pool, db`nextId
    ensures db.Valid()
    ensures TablesOf(db, false) == Tables(semesters, weeks, events, tasks, roster, pool, nextId, false)
  {
    db.semesters, db.roster, db.weeks, db.events, db.tasks, db.pool, db.nextId :=
      semesters, roster, weeks, events, tasks, pool, nextId;
  }

  /** `import_data` (admin only): the tables and the result are those of `ImportAll`,
      so an attached tree stays attached, every row and pair already stored is kept, no
      active semester is added, and each semester of the file is counted as created or
      as skipped. */
  method ImportData(db: Store, caller: User, data: seq<ExportSemester>, skipExisting: bool) returns (r: ImportResult)
    requires caller.role == Admin
    requires db.Valid() && Users.UsernamesUnique(db.users) && Teams.NamesDistinct(db.teams)
    modifies db`semesters, db`roster, db`weeks, db`events, db`tasks, db`pool, db`nextId
    ensures db.Valid()
    ensures (TablesOf(db, false), r) == ImportAll(old(TablesOf(db, false)), data, |data|, skipExisting, db.users, db.teams)
    ensures TreeAttached(old(TablesOf(db, false))) ==>
      TreeAttached(TablesOf(db, false)) && Extends(old(TablesOf(db, false)), TablesOf(db, false))
    ensures r.semestersCreated + Skips(r.errors) == |data|
  {
    ghost var t0 := TablesOf(db, false);
    assert Fresh(t0);
    r := ImportLoop(db, data, skipExisting);
    ImportCounts(t0, data, skipExisting, db.users, db.teams);
    if TreeAttached(t0) {
      ImportAllSound(t0, data, |data|, skipExisting, db.users, db.teams);
    }
  }

  /** The loop over the semesters of the file. */
  method ImportLoop(db: Store, data: seq<ExportSemester>, skipExisting: bool) returns (r: ImportResult)
    requires db.Valid() && Users.UsernamesUnique(db.users) && Teams.NamesDistinct(db.teams)
    modifies db`semesters, db`roster, db`weeks, db`events, db`tasks, db`pool, db`nextId
    ensures db.Valid()
    ensures (TablesOf(db, false), r) == ImportAll(old(TablesOf(db, false)), data, |data|, skipExisting, db.users, db.teams)
  {
    ghost var t0 := TablesOf(db, false);
    r := ImportResult(0, 0, 0, 0, []);
    var i := 0;
    while i < |data|
      invariant Reached(db, r, t0, data, i, skipExisting)
    {
      r := ImportNext(db, r, data, i, skipExisting, t0);
      i := i + 1;
    }
  }
}
