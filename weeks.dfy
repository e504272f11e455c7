/** Weeks of a semester: creation enforces the semester's date range and a week number
    unique within the semester; update re-checks neither. */
module Weeks {
  import opened Types
  import opened Db
  import opened Query
  import opened Calendar

  datatype WeekCreate = WeekCreate(weekNumber: int, startDate: int, endDate: int)

  datatype WeekUpdate = WeekUpdate(weekNumber: Field<int>, startDate: Field<int>, endDate: Field<int>)

  /** The rules `create_week` enforces for the weeks of semester `sid`: each lies within
      the semester's dates and no two share a week number. */
  predicate WeekRules(sem: Semester, weeks: map<int, Week>, sid: int) {
    (forall k :: k in weeks && weeks[k].semesterId == sid ==>
       sem.startDate <= weeks[k].startDate && weeks[k].endDate <= sem.endDate)
    && (forall a, b :: (a in weeks && b in weeks && weeks[a].semesterId == sid && weeks[b].semesterId == sid
                        && weeks[a].weekNumber == weeks[b].weekNumber) ==> a == b)
  }

  /** The week's dates fall outside the semester's (only the start and the end are compared). */
  predicate OutOfBounds(sem: Semester, data: WeekCreate) {
    data.startDate < sem.startDate || data.endDate > sem.endDate
  }

  predicate NumberTaken(weeks: map<int, Week>, sid: int, n: int) {
    exists k :: k in weeks && weeks[k].semesterId == sid && weeks[k].weekNumber == n
  }

  /** The filter of the duplicate query. */
  function OfNumber(sid: int, n: int): Week -> bool {
    (w: Week) => w.semesterId == sid && w.weekNumber == n
  }

  function ApplyWeekUpdate(w: Week, u: WeekUpdate): Week {
    Week(w.semesterId, Patch(u.weekNumber, w.weekNumber), Patch(u.startDate, w.startDate), Patch(u.endDate, w.endDate))
  }

  /** A week that passes both checks keeps the rules of its semester, and the rules of
      every other semester are untouched by it. */
  lemma CreateKeepsWeekRules(semesters: map<int, Semester>, weeks: map<int, Week>, sid: int, id: int, data: WeekCreate)
    requires sid in semesters && id !in weeks
    requires !OutOfBounds(semesters[sid], data) && !NumberTaken(weeks, sid, data.weekNumber)
    ensures var after := weeks[id := Week(sid, data.weekNumber, data.startDate, data.endDate)];
      forall s :: s in semesters && WeekRules(semesters[s], weeks, s) ==> WeekRules(semesters[s], after, s)
  {
    var w := Week(sid, data.weekNumber, data.startDate, data.endDate);
    var after := weeks[id := w];
    forall s | s in semesters && WeekRules(semesters[s], weeks, s) ensures WeekRules(semesters[s], after, s) {
      forall a, b | a in after && b in after && after[a].semesterId == s && after[b].semesterId == s
                    && after[a].weekNumber == after[b].weekNumber
        ensures a == b
      {
        if a != b && (a == id || b == id) {
          var other := if a == id then b else a;
          assert NumberTaken(weeks, sid, data.weekNumber) by {
            assert other in weeks && weeks[other].semesterId == sid && weeks[other].weekNumber == data.weekNumber;
          }
          assert false;
        }
      }
    }
  }

  /** `update_week` can break both rules: moving a week's start before its semester's
      start is accepted. */
  lemma UpdateMayBreakWeekRules()
    ensures var sem := Semester("Fall", 10, 100, true);
      var weeks := map[1 := Week(7, 1, 10, 16)];
      WeekRules(sem, weeks, 7)
      && !WeekRules(sem, weeks[1 := ApplyWeekUpdate(weeks[1], WeekUpdate(Unset, SetTo(3), Unset))], 7)
  {
    var weeks := map[1 := Week(7, 1, 10, 16)];
    assert weeks[1 := ApplyWeekUpdate(weeks[1], WeekUpdate(Unset, SetTo(3), Unset))][1].startDate == 3;
  }

  /** `list_weeks`: 404 for a missing semester; otherwise the semester's weeks, each once,
      by ascending week number. */
  method ListWeeks(db: Store, sid: int) returns (r: Result<seq<int>>)
    ensures sid !in db.semesters <==> r == NotFound
    ensures sid in db.semesters ==> r.Ok?
    ensures r.Ok? ==> multiset(r.value) == multiset(Where(db.weeks, OfSemester(sid)))
    ensures r.Ok? ==> forall i :: 0 <= i < |r.value| ==> r.value[i] in db.weeks && db.weeks[r.value[i]].semesterId == sid
    ensures r.Ok? ==> forall i, j :: 0 <= i < j < |r.value| ==>
      db.weeks[r.value[i]].weekNumber <= db.weeks[r.value[j]].weekNumber
  {
    if sid !in db.semesters {
      return NotFound;
    }
    var ks := SelectOrdered(db.weeks, OfSemester(sid), WeekNumber);
    return Ok(ks);
  }

  /** `create_week` (admin only): 404 for a missing semester, then 400 for dates outside
      the semester's, then 400 for a week number the semester already has, each leaving
      the weeks as they were; otherwise the week is added under a fresh id. */
  method CreateWeek(db: Store, caller: User, sid: int, data: WeekCreate) returns (r: Result<int>)
    requires caller.role == Admin && db.Valid()
    modifies db`weeks, db`nextId
    ensures db.Valid()
    ensures sid !in db.semesters ==> r == NotFound && db.weeks == old(db.weeks)
    ensures sid in db.semesters && OutOfBounds(db.semesters[sid], data) ==>
      r == BadRequest && db.weeks == old(db.weeks)
    ensures sid in db.semesters && !OutOfBounds(db.semesters[sid], data) && NumberTaken(old(db.weeks), sid, data.weekNumber) ==>
      r == BadRequest && db.weeks == old(db.weeks)
    ensures sid in db.semesters && !OutOfBounds(db.semesters[sid], data) && !NumberTaken(old(db.weeks), sid, data.weekNumber) ==>
      r.Ok? && r.value !in old(db.weeks)
      && db.weeks == old(db.weeks)[r.value := Week(sid, data.weekNumber, data.startDate, data.endDate)]
    ensures forall s :: s in db.semesters && WeekRules(db.semesters[s], old(db.weeks), s) ==>
      WeekRules(db.semesters[s], db.weeks, s)
  {
    if sid !in db.semesters {
      return NotFound;
    }
    if OutOfBounds(db.semesters[sid], data) {
      return BadRequest;
    }
    var existing := SelectKeys(db.weeks, OfNumber(sid, data.weekNumber));
    if existing != [] {
      InSetMultiset(existing, Where(db.weeks, OfNumber(sid, data.weekNumber)), existing[0]);
      return BadRequest;
    }
    forall k | k in db.weeks ensures !(db.weeks[k].semesterId == sid && db.weeks[k].weekNumber == data.weekNumber) {
      InSetMultiset(existing, Where(db.weeks, OfNumber(sid, data.weekNumber)), k);
    }
    var id := db.NewId();
    CreateKeepsWeekRules(db.semesters, db.weeks, sid, id, data);
    db.weeks := db.weeks[id := Week(sid, data.weekNumber, data.startDate, data.endDate)];
    return Ok(id);
  }

  /** `update_week` (admin only): 404 for a missing id; otherwise the fields the request
      sets are written to that week and nothing is checked. */
  method UpdateWeek(db: Store, caller: User, id: int, data: WeekUpdate) returns (r: Result<Week>)
    requires caller.role == Admin
    modifies db`weeks
    ensures id !in old(db.weeks) ==> r == NotFound && db.weeks == old(db.weeks)
    ensures id in old(db.weeks) ==>
      db.weeks == old(db.weeks)[id := ApplyWeekUpdate(old(db.weeks)[id], data)] && r == Ok(db.weeks[id])
  {
    if id !in db.weeks {
      return NotFound;
    }
    db.weeks := db.weeks[id := ApplyWeekUpdate(db.weeks[id], data)];
    return Ok(db.weeks[id]);
  }

  /** `delete_week` (admin only): 404 for a missing id; otherwise the week, its events
      and their tasks are removed and nothing else. */
  method DeleteWeek(db: Store, caller: User, id: int) returns (r: Result<()>)
    requires caller.role == Admin
    modifies db`weeks, db`events, db`tasks
    ensures id !in old(db.weeks) ==>
      r == NotFound && db.weeks == old(db.weeks) && db.events == old(db.events) && db.tasks == old(db.tasks)
    ensures id in old(db.weeks) ==>
      r == Ok(())
      && var es := EventsUnder(old(db.events), {id});
         db.weeks == old(db.weeks) - {id} && db.events == old(db.events) - es
         && db.tasks == old(db.tasks) - TasksUnder(old(db.tasks), es)
    ensures Attached(db.semesters, old(db.weeks), old(db.events), old(db.tasks)) ==>
      Attached(db.semesters, db.weeks, db.events, db.tasks)
  {
    if id !in db.weeks {
      return NotFound;
    }
    var es := EventsUnder(db.events, {id});
    if Attached(db.semesters, db.weeks, db.events, db.tasks) {
      DeleteWeekKeepsAttached(db.semesters, db.weeks, db.events, db.tasks, id);
    }
    db.tasks := db.tasks - TasksUnder(db.tasks, es);
    db.events := db.events - es;
    db.weeks := db.weeks - {id};
    return Ok(());
  }
}
