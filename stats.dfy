/** The admin statistics: task counts over the whole store or over one semester,
    per user, per team, per semester and per week. The counts are cardinalities of
    filtered queries; the per-user and per-team lists are built in a loop and then
    sorted. The store is only read. */
module Stats {
  import opened Types
  import opened Db
  import opened Query
  import opened Calendar

  datatype Overview = Overview(
    totalUsers: nat,
    totalSemesters: nat,
    totalEvents: nat,
    totalTasks: nat,
    completed: nat,
    pending: nat,
    cannotDo: nat,
    rate: real)

  datatype UserStats = UserStats(
    userId: int,
    displayName: string,
    teamName: Option<string>,
    tasksAssigned: nat,
    completed: nat,
    cannotDo: nat,
    rate: real)

  datatype TeamStats = TeamStats(
    teamId: int,
    teamName: string,
    memberCount: nat,
    tasksAssigned: nat,
    completed: nat,
    rate: real)

  datatype SemesterStats = SemesterStats(
    semesterId: int,
    semesterName: string,
    weeksCount: nat,
    eventsCount: nat,
    tasksCount: nat,
    completed: nat,
    rate: real)

  datatype WeeklyActivity = WeeklyActivity(weekNumber: int, startDate: int, created: nat, completed: nat)

  datatype ActiveSemesterInfo = ActiveSemesterInfo(id: Option<int>, name: Option<string>)

  /** `completion_rate` before `round(_, 1)`: the percentage of completed tasks, exactly,
      and 0 when nothing is counted. */
  function Rate(completed: nat, total: nat): (r: real)
    ensures total == 0 ==> r == 0.0
    ensures completed <= total ==> 0.0 <= r <= 100.0
    ensures 0 < total && completed == total ==> r == 100.0
  {
    if total > 0 then
      assert completed <= total ==> completed as real / total as real <= 1.0 by {
        if completed <= total {
          assert completed as real <= total as real;
        }
      }
      completed as real / total as real * 100.0
    else 0.0
  }

  /** Over the same tasks, more completed tasks give a higher rate. */
  lemma RateMonotone(c1: nat, c2: nat, total: nat)
    requires c1 <= c2
    ensures Rate(c1, total) <= Rate(c2, total)
  {
    if total > 0 {
      assert c1 as real / total as real <= c2 as real / total as real;
    }
  }

  /** The tasks a count ranges over: all of them, or those of the given events. An
      empty event list selects nothing (the `filter(False)` branch), which is what the
      membership test gives on its own. */
  datatype Scope = All | Events(ids: set<int>)

  predicate InScope(scope: Scope, t: Task) {
    match scope
    case All => true
    case Events(ids) => if ids == {} then false else t.eventId in ids
  }

  /** The event ids of a semester's weeks: the two list comprehensions over `Week` and
      `Event`, where no weeks give no events. */
  function SemesterEvents(weeks: map<int, Week>, events: map<int, Event>, semesterId: int): set<int> {
    var weekIds := WeeksUnder(weeks, {semesterId});
    if weekIds == {} then {} else EventsUnder(events, weekIds)
  }

  /** The scope of an optional `semester_id`: a falsy id (absent or 0) counts everything. */
  function ScopeOf(weeks: map<int, Week>, events: map<int, Event>, semesterId: Option<int>): Scope {
    if Truthy(semesterId) then Events(SemesterEvents(weeks, events, semesterId.value)) else All
  }

  /** A task is in a (truthy) semester's scope exactly when its event belongs to one of
      the semester's weeks, and a semester without weeks or without events counts
      nothing; semester id 0 is falsy and counts every task. */
  lemma SemesterScope(weeks: map<int, Week>, events: map<int, Event>, semesterId: int, t: Task)
    ensures semesterId == 0 ==> InScope(ScopeOf(weeks, events, Some(semesterId)), t)
    ensures semesterId != 0 ==>
      (InScope(ScopeOf(weeks, events, Some(semesterId)), t) <==>
         t.eventId in events && events[t.eventId].weekId in weeks
         && weeks[events[t.eventId].weekId].semesterId == semesterId)
    ensures semesterId != 0 && SemesterEvents(weeks, events, semesterId) == {} ==>
      !InScope(ScopeOf(weeks, events, Some(semesterId)), t)
  {
    if semesterId != 0 && t.eventId in events && events[t.eventId].weekId in weeks
       && weeks[events[t.eventId].weekId].semesterId == semesterId {
      assert events[t.eventId].weekId in WeeksUnder(weeks, {semesterId});
      assert t.eventId in SemesterEvents(weeks, events, semesterId);
    }
    if semesterId != 0 && InScope(ScopeOf(weeks, events, Some(semesterId)), t) {
      assert t.eventId in EventsUnder(events, WeeksUnder(weeks, {semesterId}));
      assert events[t.eventId].weekId in WeeksUnder(weeks, {semesterId});
    }
  }

  function Scoped(scope: Scope): Task -> bool {
    (t: Task) => InScope(scope, t)
  }

  function ScopedWith(scope: Scope, status: TaskStatus): Task -> bool {
    (t: Task) => InScope(scope, t) && t.status == status
  }

  /** `query.count()`. */
  function Count(tasks: map<int, Task>, p: Task -> bool): nat {
    |Where(tasks, p)|
  }

  /** The size of a union of disjoint sets. */
  lemma DisjointUnionSize(a: set<int>, b: set<int>)
    requires a * b == {}
    ensures |a + b| == |a| + |b|
  {
    assert |a * b| == 0;
  }

  /** A subset is no larger. */
  lemma SubsetSize(a: set<int>, b: set<int>)
    requires a <= b
    ensures |a| <= |b|
  {
    assert b == a + (b - a);
    DisjointUnionSize(a, b - a);
  }

  /** A narrower filter counts no more rows. */
  lemma CountMonotone(tasks: map<int, Task>, p: Task -> bool, q: Task -> bool)
    requires forall t :: q(t) ==> p(t)
    ensures Count(tasks, q) <= Count(tasks, p)
  {
    SubsetSize(Where(tasks, q), Where(tasks, p));
  }

  /** Every task in scope is pending, done or cannot-do, and no two at once: the three
      status counts add up to the total. */
  lemma StatusPartition(tasks: map<int, Task>, scope: Scope)
    ensures Count(tasks, ScopedWith(scope, Done)) + Count(tasks, ScopedWith(scope, Pending))
            + Count(tasks, ScopedWith(scope, CannotDo)) == Count(tasks, Scoped(scope))
  {
    var d, p, c := Where(tasks, ScopedWith(scope, Done)), Where(tasks, ScopedWith(scope, Pending)),
                   Where(tasks, ScopedWith(scope, CannotDo));
    StatusCover(tasks, scope);
    StatusDisjoint(tasks, scope);
    DisjointUnionSize(d, p);
    DisjointUnionSize(d + p, c);
  }

  /** Every task in scope has one of the three statuses. */
  lemma StatusCover(tasks: map<int, Task>, scope: Scope)
    ensures Where(tasks, ScopedWith(scope, Done)) + Where(tasks, ScopedWith(scope, Pending))
            + Where(tasks, ScopedWith(scope, CannotDo)) == Where(tasks, Scoped(scope))
  {
    forall k | k in Where(tasks, Scoped(scope))
      ensures k in Where(tasks, ScopedWith(scope, Done)) + Where(tasks, ScopedWith(scope, Pending))
                   + Where(tasks, ScopedWith(scope, CannotDo))
    {
      assert tasks[k].status == Done || tasks[k].status == Pending || tasks[k].status == CannotDo;
    }
  }

  /** No task has two statuses. */
  lemma StatusDisjoint(tasks: map<int, Task>, scope: Scope)
    ensures Where(tasks, ScopedWith(scope, Done)) * Where(tasks, ScopedWith(scope, Pending)) == {}
    ensures (Where(tasks, ScopedWith(scope, Done)) + Where(tasks, ScopedWith(scope, Pending)))
            * Where(tasks, ScopedWith(scope, CannotDo)) == {}
  {
  }

  /** `get_overview_stats`: the user, semester, event and task counts, over one semester
      when a truthy `semester_id` is given. */
  function GetOverview(db: Store, semesterId: Option<int>): (r: Overview)
    reads db
    ensures r.completed + r.pending + r.cannotDo == r.totalTasks
    ensures 0.0 <= r.rate <= 100.0 && (r.totalTasks == 0 ==> r.rate == 0.0)
    ensures r.totalTasks <= |db.tasks| && r.totalEvents <= |db.events|
    ensures r.totalUsers == |db.users| && r.totalSemesters == |db.semesters|
    ensures Truthy(semesterId) && SemesterEvents(db.weeks, db.events, semesterId.value) == {} ==>
      r.totalEvents == 0 && r.totalTasks == 0
  {
    var scope := ScopeOf(db.weeks, db.events, semesterId);
    var totalEvents := if Truthy(semesterId) then |SemesterEvents(db.weeks, db.events, semesterId.value)| else |db.events|;
    var total := Count(db.tasks, Scoped(scope));
    var done := Count(db.tasks, ScopedWith(scope, Done));
    StatusPartition(db.tasks, scope);
    SubsetSize(Where(db.tasks, Scoped(scope)), db.tasks.Keys);
    SubsetSize(if Truthy(semesterId) then SemesterEvents(db.weeks, db.events, semesterId.value) else {},
               db.events.Keys);
    assert Truthy(semesterId) && SemesterEvents(db.weeks, db.events, semesterId.value) == {} ==>
      Where(db.tasks, Scoped(scope)) == {};
    Overview(|db.users|, |db.semesters|, totalEvents, total, done,
             Count(db.tasks, ScopedWith(scope, Pending)), Count(db.tasks, ScopedWith(scope, CannotDo)),
             Rate(done, total))
  }

  /** The tasks assigned directly to a user (`assigned_to`), within the scope. */
  function AssignedTo(userId: int, scope: Scope): Task -> bool {
    (t: Task) => t.assignedTo == Some(userId) && InScope(scope, t)
  }

  function AssignedToWith(userId: int, scope: Scope, status: TaskStatus): Task -> bool {
    (t: Task) => t.assignedTo == Some(userId) && InScope(scope, t) && t.status == status
  }

  /** One user's entry. `team_name` is the name of the user's `team` enum member. */
  function UserStatsOf(tasks: map<int, Task>, userId: int, u: User, scope: Scope): UserStats {
    var given := Count(tasks, AssignedTo(userId, scope));
    var done := Count(tasks, AssignedToWith(userId, scope, Done));
    UserStats(userId, u.displayName, u.teamTag, given, done,
              Count(tasks, AssignedToWith(userId, scope, CannotDo)), Rate(done, given))
  }

  /** A user's completed and cannot-do tasks are among the tasks assigned to them, and
      their rate is a percentage. */
  lemma UserStatsBounds(tasks: map<int, Task>, userId: int, u: User, scope: Scope)
    ensures var s := UserStatsOf(tasks, userId, u, scope);
      s.completed + s.cannotDo <= s.tasksAssigned && 0.0 <= s.rate <= 100.0
  {
    var a := Where(tasks, AssignedTo(userId, scope));
    var d := Where(tasks, AssignedToWith(userId, scope, Done));
    var c := Where(tasks, AssignedToWith(userId, scope, CannotDo));
    DisjointUnionSize(d, c);
    SubsetSize(d + c, a);
  }

  /** The sort key `(-completion_rate, -tasks_completed)`: higher rate first, then more
      completed tasks first. */
  predicate RanksBefore(rate1: real, completed1: nat, rate2: real, completed2: nat) {
    rate1 > rate2 || (rate1 == rate2 && completed1 >= completed2)
  }

  predicate UserFirst(a: UserStats, b: UserStats) {
    RanksBefore(a.rate, a.completed, b.rate, b.completed)
  }

  predicate TeamFirst(a: TeamStats, b: TeamStats) {
    RanksBefore(a.rate, a.completed, b.rate, b.completed)
  }

  lemma RankingsArePreorders()
    ensures TotalPreorder(UserFirst) && TotalPreorder(TeamFirst)
  {
  }

  function NotAdmin(u: User): bool {
    u.role != Admin
  }

  /** `get_user_stats`: one entry per non-admin user, counting the tasks assigned directly
      to that user within the scope, sorted by rate and then by completed tasks, both
      descending. */
  method GetUserStats(db: Store, semesterId: Option<int>) returns (stats: seq<UserStats>)
    ensures Sorted(stats, UserFirst)
    ensures forall i :: 0 <= i < |stats| ==>
      var k := stats[i].userId;
      k in db.users && db.users[k].role != Admin
      && stats[i] == UserStatsOf(db.tasks, k, db.users[k], ScopeOf(db.weeks, db.events, semesterId))
    ensures forall k :: k in db.users && db.users[k].role != Admin ==>
      exists i :: 0 <= i < |stats| && stats[i].userId == k
    ensures forall i, j :: 0 <= i < j < |stats| ==> stats[i].userId != stats[j].userId
  {
    var scope := ScopeOf(db.weeks, db.events, semesterId);
    var built := UserRows(db, scope);
    stats := SortBy(built, UserFirst);
    RankingsArePreorders();
    UserRowsReordered(db.users, db.tasks, scope, built, stats);
  }

  /** Reordering the entries keeps them those of `get_user_stats`: one per non-admin user,
      none repeated. */
  lemma UserRowsReordered(users: map<int, User>, tasks: map<int, Task>, scope: Scope,
                          built: seq<UserStats>, stats: seq<UserStats>)
    requires multiset(built) == multiset(stats)
    requires forall i :: 0 <= i < |built| ==>
      var k := built[i].userId;
      k in users && users[k].role != Admin && built[i] == UserStatsOf(tasks, k, users[k], scope)
    requires forall k :: k in users && users[k].role != Admin ==>
      exists i :: 0 <= i < |built| && built[i].userId == k
    requires forall a, b :: 0 <= a < b < |built| ==> built[a] != built[b]
    ensures forall i :: 0 <= i < |stats| ==>
      var k := stats[i].userId;
      k in users && users[k].role != Admin && stats[i] == UserStatsOf(tasks, k, users[k], scope)
    ensures forall k :: k in users && users[k].role != Admin ==>
      exists i :: 0 <= i < |stats| && stats[i].userId == k
    ensures forall i, j :: 0 <= i < j < |stats| ==> stats[i].userId != stats[j].userId
  {
    PermutationKeepsDistinct(built, stats);
    forall i | 0 <= i < |stats|
      ensures var k := stats[i].userId;
        k in users && users[k].role != Admin && stats[i] == UserStatsOf(tasks, k, users[k], scope)
    {
      assert stats[i] in multiset(built);
    }
    forall k | k in users && users[k].role != Admin
      ensures exists i :: 0 <= i < |stats| && stats[i].userId == k
    {
      var j :| 0 <= j < |built| && built[j].userId == k;
      assert built[j] in multiset(stats);
    }
  }

  /** The loop of `get_user_stats` over the non-admin users: one entry per such user,
      none repeated. */
  method UserRows(db: Store, scope: Scope) returns (built: seq<UserStats>)
    ensures forall i :: 0 <= i < |built| ==>
      var k := built[i].userId;
      k in db.users && db.users[k].role != Admin && built[i] == UserStatsOf(db.tasks, k, db.users[k], scope)
    ensures forall k :: k in db.users && db.users[k].role != Admin ==>
      exists i :: 0 <= i < |built| && built[i].userId == k
    ensures forall a, b :: 0 <= a < b < |built| ==> built[a] != built[b]
  {
    var ks := SelectKeys(db.users, NotAdmin);
    built := [];
    var i := 0;
    while i < |ks|
      invariant 0 <= i <= |ks| && |built| == i
      invariant forall j :: 0 <= j < i ==>
        ks[j] in db.users && db.users[ks[j]].role != Admin
        && built[j] == UserStatsOf(db.tasks, ks[j], db.users[ks[j]], scope)
    {
      InSetMultiset(ks, Where(db.users, NotAdmin), ks[i]);
      built := built + [UserStatsOf(db.tasks, ks[i], db.users[ks[i]], scope)];
      i := i + 1;
    }
    forall a, b | 0 <= a < b < |built| ensures built[a] != built[b] {
      DistinctFromSet(ks, Where(db.users, NotAdmin), a, b);
    }
    forall k | k in db.users && db.users[k].role != Admin
      ensures exists i :: 0 <= i < |built| && built[i].userId == k
    {
      InSetMultiset(ks, Where(db.users, NotAdmin), k);
      var j :| 0 <= j < |ks| && ks[j] == k;
      assert built[j].userId == k;
    }
  }

  /** The tasks assigned to a team (`assigned_team_id`), within the scope. */
  function AssignedToTeam(teamId: int, scope: Scope): Task -> bool {
    (t: Task) => t.assignedTeamId == Some(teamId) && InScope(scope, t)
  }

  function AssignedToTeamWith(teamId: int, scope: Scope, status: TaskStatus): Task -> bool {
    (t: Task) => t.assignedTeamId == Some(teamId) && InScope(scope, t) && t.status == status
  }

  function MemberOf(teamId: int): User -> bool {
    (u: User) => u.teamId == Some(teamId)
  }

  /** One team's entry: its members by `team_id` and its tasks by `assigned_team_id`. */
  function TeamStatsOf(users: map<int, User>, tasks: map<int, Task>, teamId: int, team: Team, scope: Scope): TeamStats {
    var given := Count(tasks, AssignedToTeam(teamId, scope));
    var done := Count(tasks, AssignedToTeamWith(teamId, scope, Done));
    TeamStats(teamId, team.name, |Where(users, MemberOf(teamId))|, given, done, Rate(done, given))
  }

  /** A team's completed tasks are among its assigned tasks, its members are users, and
      its rate is a percentage. */
  lemma TeamStatsBounds(users: map<int, User>, tasks: map<int, Task>, teamId: int, team: Team, scope: Scope)
    ensures var s := TeamStatsOf(users, tasks, teamId, team, scope);
      s.completed <= s.tasksAssigned && s.memberCount <= |users| && 0.0 <= s.rate <= 100.0
  {
    CountMonotone(tasks, AssignedToTeam(teamId, scope), AssignedToTeamWith(teamId, scope, Done));
    SubsetSize(Where(users, MemberOf(teamId)), users.Keys);
  }

  function AnyTeam(t: Team): bool {
    true
  }

  /** `get_team_stats`: one entry per team, sorted by rate and then by completed tasks,
      both descending. */
  method GetTeamStats(db: Store, semesterId: Option<int>) returns (stats: seq<TeamStats>)
    ensures Sorted(stats, TeamFirst)
    ensures forall i :: 0 <= i < |stats| ==>
      var k := stats[i].teamId;
      k in db.teams
      && stats[i] == TeamStatsOf(db.users, db.tasks, k, db.teams[k], ScopeOf(db.weeks, db.events, semesterId))
    ensures forall k :: k in db.teams ==> exists i :: 0 <= i < |stats| && stats[i].teamId == k
    ensures forall i, j :: 0 <= i < j < |stats| ==> stats[i].teamId != stats[j].teamId
  {
    var scope := ScopeOf(db.weeks, db.events, semesterId);
    var built := TeamRows(db, scope);
    stats := SortBy(built, TeamFirst);
    RankingsArePreorders();
    TeamRowsReordered(db.users, db.tasks, db.teams, scope, built, stats);
  }

  /** Reordering the entries keeps them those of `get_team_stats`: one per team, none
      repeated. */
  lemma TeamRowsReordered(users: map<int, User>, tasks: map<int, Task>, teams: map<int, Team>, scope: Scope,
                          built: seq<TeamStats>, stats: seq<TeamStats>)
    requires multiset(built) == multiset(stats)
    requires forall i :: 0 <= i < |built| ==>
      var k := built[i].teamId;
      k in teams && built[i] == TeamStatsOf(users, tasks, k, teams[k], scope)
    requires forall k :: k in teams ==> exists i :: 0 <= i < |built| && built[i].teamId == k
    requires forall a, b :: 0 <= a < b < |built| ==> built[a] != built[b]
    ensures forall i :: 0 <= i < |stats| ==>
      var k := stats[i].teamId;
      k in teams && stats[i] == TeamStatsOf(users, tasks, k, teams[k], scope)
    ensures forall k :: k in teams ==> exists i :: 0 <= i < |stats| && stats[i].teamId == k
    ensures forall i, j :: 0 <= i < j < |stats| ==> stats[i].teamId != stats[j].teamId
  {
    PermutationKeepsDistinct(built, stats);
    forall i | 0 <= i < |stats|
      ensures var k := stats[i].teamId;
        k in teams && stats[i] == TeamStatsOf(users, tasks, k, teams[k], scope)
    {
      assert stats[i] in multiset(built);
    }
    forall k | k in teams ensures exists i :: 0 <= i < |stats| && stats[i].teamId == k {
      var j :| 0 <= j < |built| && built[j].teamId == k;
      assert built[j] in multiset(stats);
    }
  }

  /** The loop of `get_team_stats` over `db.query(Team).all()`: one entry per team, none
      repeated. */
  method TeamRows(db: Store, scope: Scope) returns (built: seq<TeamStats>)
    ensures forall i :: 0 <= i < |built| ==>
      var k := built[i].teamId;
      k in db.teams && built[i] == TeamStatsOf(db.users, db.tasks, k, db.teams[k], scope)
    ensures forall k :: k in db.teams ==> exists i :: 0 <= i < |built| && built[i].teamId == k
    ensures forall a, b :: 0 <= a < b < |built| ==> built[a] != built[b]
  {
    var ks := SelectKeys(db.teams, AnyTeam);
    built := [];
    var i := 0;
    while i < |ks|
      invariant 0 <= i <= |ks| && |built| == i
      invariant forall j :: 0 <= j < i ==>
        ks[j] in db.teams && built[j] == TeamStatsOf(db.users, db.tasks, ks[j], db.teams[ks[j]], scope)
    {
      InSetMultiset(ks, Where(db.teams, AnyTeam), ks[i]);
      built := built + [TeamStatsOf(db.users, db.tasks, ks[i], db.teams[ks[i]], scope)];
      i := i + 1;
    }
    forall a, b | 0 <= a < b < |built| ensures built[a] != built[b] {
      DistinctFromSet(ks, Where(db.teams, AnyTeam), a, b);
    }
    forall k | k in db.teams ensures exists i :: 0 <= i < |built| && built[i].teamId == k {
      InSetMultiset(ks, Where(db.teams, AnyTeam), k);
      var j :| 0 <= j < |ks| && ks[j] == k;
      assert built[j].teamId == k;
    }
  }

  /** One semester's entry: its weeks, the events of those weeks, and their tasks. */
  function SemesterStatsOf(weeks: map<int, Week>, events: map<int, Event>, tasks: map<int, Task>,
                           semesterId: int, s: Semester): SemesterStats {
    var scope := Events(SemesterEvents(weeks, events, semesterId));
    var count := Count(tasks, Scoped(scope));
    var done := Count(tasks, ScopedWith(scope, Done));
    SemesterStats(semesterId, s.name, |WeeksUnder(weeks, {semesterId})|, |SemesterEvents(weeks, events, semesterId)|,
                  count, done, Rate(done, count))
  }

  /** A semester's completed tasks are among its tasks, and a semester without events has
      no tasks and rate 0. */
  lemma SemesterStatsBounds(weeks: map<int, Week>, events: map<int, Event>, tasks: map<int, Task>,
                            semesterId: int, s: Semester)
    ensures var r := SemesterStatsOf(weeks, events, tasks, semesterId, s);
      r.completed <= r.tasksCount && 0.0 <= r.rate <= 100.0
      && (r.eventsCount == 0 ==> r.tasksCount == 0 && r.rate == 0.0)
  {
    var scope := Events(SemesterEvents(weeks, events, semesterId));
    CountMonotone(tasks, Scoped(scope), ScopedWith(scope, Done));
    if SemesterEvents(weeks, events, semesterId) == {} {
      assert Where(tasks, Scoped(scope)) == {};
    }
  }

  function StartDate(s: Semester): int {
    -s.startDate
  }

  function AnySemester(s: Semester): bool {
    true
  }

  /** `get_semester_stats`: one entry per semester, latest start date first. */
  method GetSemesterStats(db: Store) returns (stats: seq<SemesterStats>)
    ensures forall i :: 0 <= i < |stats| ==>
      var k := stats[i].semesterId;
      k in db.semesters && stats[i] == SemesterStatsOf(db.weeks, db.events, db.tasks, k, db.semesters[k])
    ensures forall k :: k in db.semesters ==> exists i :: 0 <= i < |stats| && stats[i].semesterId == k
    ensures forall i, j :: 0 <= i < j < |stats| ==>
      stats[i].semesterId != stats[j].semesterId
      && db.semesters[stats[i].semesterId].startDate >= db.semesters[stats[j].semesterId].startDate
  {
    var ks := SelectOrdered(db.semesters, AnySemester, StartDate);
    stats := [];
    var i := 0;
    while i < |ks|
      invariant 0 <= i <= |ks| && |stats| == i
      invariant forall j :: 0 <= j < i ==>
        stats[j].semesterId == ks[j] && stats[j] == SemesterStatsOf(db.weeks, db.events, db.tasks, ks[j], db.semesters[ks[j]])
    {
      stats := stats + [SemesterStatsOf(db.weeks, db.events, db.tasks, ks[i], db.semesters[ks[i]])];
      i := i + 1;
    }
    forall a, b | 0 <= a < b < |stats| ensures stats[a].semesterId != stats[b].semesterId {
      DistinctFromSet(ks, Where(db.semesters, AnySemester), a, b);
    }
    forall k | k in db.semesters ensures exists i :: 0 <= i < |stats| && stats[i].semesterId == k {
      InSetMultiset(ks, Where(db.semesters, AnySemester), k);
      var j :| 0 <= j < |ks| && ks[j] == k;
      assert stats[j].semesterId == k;
    }
  }

  /** One week's activity: the tasks of its events and the completed ones; a week without
      events has zeros. */
  function ActivityOf(events: map<int, Event>, tasks: map<int, Task>, weekId: int, w: Week): WeeklyActivity {
    var eventIds := EventsUnder(events, {weekId});
    if eventIds != {} then
      WeeklyActivity(w.weekNumber, w.startDate, Count(tasks, Scoped(Events(eventIds))),
                     Count(tasks, ScopedWith(Events(eventIds), Done)))
    else WeeklyActivity(w.weekNumber, w.startDate, 0, 0)
  }

  /** A week never has more completed tasks than tasks, and its activity counts exactly
      the tasks of its events. */
  lemma ActivityBounds(events: map<int, Event>, tasks: map<int, Task>, weekId: int, w: Week)
    ensures var a := ActivityOf(events, tasks, weekId, w);
      a.completed <= a.created && a.created == |TasksUnder(tasks, EventsUnder(events, {weekId}))|
  {
    var eventIds := EventsUnder(events, {weekId});
    CountMonotone(tasks, Scoped(Events(eventIds)), ScopedWith(Events(eventIds), Done));
    assert Where(tasks, Scoped(Events(eventIds))) == TasksUnder(tasks, eventIds);
  }

  /** `get_weekly_activity`: one entry per week of the semester, by week number. The
      ghost `weekIds` names the week of each entry. */
  method GetWeeklyActivity(db: Store, semesterId: int) returns (activity: seq<WeeklyActivity>, ghost weekIds: seq<int>)
    ensures |weekIds| == |activity|
    ensures multiset(weekIds) == multiset(WeeksUnder(db.weeks, {semesterId}))
    ensures forall i :: 0 <= i < |activity| ==>
      weekIds[i] in db.weeks && activity[i] == ActivityOf(db.events, db.tasks, weekIds[i], db.weeks[weekIds[i]])
    ensures forall i, j :: 0 <= i < j < |activity| ==> activity[i].weekNumber <= activity[j].weekNumber
    ensures forall i :: 0 <= i < |activity| ==> activity[i].completed <= activity[i].created
  {
    var ks := SelectOrdered(db.weeks, OfSemester(semesterId), WeekNumber);
    assert Where(db.weeks, OfSemester(semesterId)) == WeeksUnder(db.weeks, {semesterId});
    activity := [];
    var i := 0;
    while i < |ks|
      invariant 0 <= i <= |ks| && |activity| == i
      invariant forall j :: 0 <= j < i ==>
        activity[j] == ActivityOf(db.events, db.tasks, ks[j], db.weeks[ks[j]])
        && activity[j].completed <= activity[j].created
    {
      ActivityBounds(db.events, db.tasks, ks[i], db.weeks[ks[i]]);
      activity := activity + [ActivityOf(db.events, db.tasks, ks[i], db.weeks[ks[i]])];
      i := i + 1;
    }
    weekIds := ks;
  }

  function IsActive(s: Semester): bool {
    s.isActive
  }

  /** `get_active_semester` and `get_active_semester_id`: the first active semester, or
      none. */
  method GetActiveSemester(db: Store) returns (info: ActiveSemesterInfo)
    ensures info.id.None? <==> forall k :: k in db.semesters ==> !db.semesters[k].isActive
    ensures info.id.None? ==> info.name.None?
    ensures info.id.Some? ==>
      info.id.value in db.semesters && db.semesters[info.id.value].isActive
      && info.name == Some(db.semesters[info.id.value].name)
  {
    var ks := SelectKeys(db.semesters, IsActive);
    if |ks| == 0 {
      forall k | k in db.semesters ensures !db.semesters[k].isActive {
        InSetMultiset(ks, Where(db.semesters, IsActive), k);
      }
      info := ActiveSemesterInfo(None, None);
    } else {
      InSetMultiset(ks, Where(db.semesters, IsActive), ks[0]);
      info := ActiveSemesterInfo(Some(ks[0]), Some(db.semesters[ks[0]].name));
    }
  }
}
