/** Semesters: creation and update keep at most one semester active, and deletion
    takes the semester's weeks, their events and those events' tasks with it. */
module Semesters {
  import opened Types
  import opened Db
  import opened Calendar

  /** `SemesterCreate`; `is_active` may be left out of the request. */
  datatype SemesterCreate = SemesterCreate(name: string, startDate: int, endDate: int, isActive: Field<bool>)

  /** `SemesterUpdate`: only the fields the request sets are applied. */
  datatype SemesterUpdate = SemesterUpdate(name: Field<string>, startDate: Field<int>, endDate: Field<int>,
                                           isActive: Field<bool>)

  predicate AtMostOneActive(s: map<int, Semester>) {
    forall a, b :: a in s && b in s && s[a].isActive && s[b].isActive ==> a == b
  }

  /** The new row; `is_active` defaults to true. */
  function NewSemester(data: SemesterCreate): Semester {
    Semester(data.name, data.startDate, data.endDate, Patch(data.isActive, true))
  }

  function ApplySemesterUpdate(sem: Semester, u: SemesterUpdate): Semester {
    Semester(Patch(u.name, sem.name), Patch(u.startDate, sem.startDate), Patch(u.endDate, sem.endDate),
             Patch(u.isActive, sem.isActive))
  }

  /** The bulk update `is_active = False` on every active semester other than `keep`. */
  function Deactivate(s: map<int, Semester>, keep: Option<int>): map<int, Semester> {
    map k | k in s :: if s[k].isActive && keep != Some(k) then s[k].(isActive := false) else s[k]
  }

  /** The semester table after `create_semester` inserts `data` under `id`. */
  function AfterCreate(s: map<int, Semester>, id: int, data: SemesterCreate): map<int, Semester> {
    (if NewSemester(data).isActive then Deactivate(s, None) else s)[id := NewSemester(data)]
  }

  /** The semester table after `update_semester` applies `u` to `id`. */
  function AfterUpdate(s: map<int, Semester>, id: int, u: SemesterUpdate): map<int, Semester>
    requires id in s
  {
    (if u.isActive == SetTo(true) then Deactivate(s, Some(id)) else s)[id := ApplySemesterUpdate(s[id], u)]
  }

  /** Creating an active semester (the default when `is_active` is left out) leaves it
      the only active one; creating an inactive one changes no other row; either way
      at most one semester is active afterwards if that held before, and other rows keep
      their name and dates. */
  lemma CreateActivity(s: map<int, Semester>, id: int, data: SemesterCreate)
    requires id !in s
    ensures data.isActive == Unset ==> NewSemester(data).isActive
    ensures AfterCreate(s, id, data).Keys == s.Keys + {id}
    ensures NewSemester(data).isActive ==>
      forall k :: k in AfterCreate(s, id, data) ==> (AfterCreate(s, id, data)[k].isActive <==> k == id)
    ensures !NewSemester(data).isActive ==> forall k :: k in s ==> AfterCreate(s, id, data)[k] == s[k]
    ensures forall k :: k in s ==> AfterCreate(s, id, data)[k].(isActive := s[k].isActive) == s[k]
    ensures AtMostOneActive(s) ==> AtMostOneActive(AfterCreate(s, id, data))
  {
  }

  /** Updating with `is_active` set to true leaves the target the only active
      semester; any update keeps at most one semester active, changes the target only in
      the fields the request sets, and changes other rows at most by deactivating them. */
  lemma UpdateActivity(s: map<int, Semester>, id: int, u: SemesterUpdate)
    requires id in s
    ensures AfterUpdate(s, id, u).Keys == s.Keys
    ensures u.isActive == SetTo(true) ==>
      forall k :: k in s ==> (AfterUpdate(s, id, u)[k].isActive <==> k == id)
    ensures AtMostOneActive(s) ==> AtMostOneActive(AfterUpdate(s, id, u))
    ensures var t := AfterUpdate(s, id, u)[id];
      (u.name.Unset? ==> t.name == s[id].name) && (u.name.SetTo? ==> t.name == u.name.value)
      && (u.startDate.Unset? ==> t.startDate == s[id].startDate)
      && (u.startDate.SetTo? ==> t.startDate == u.startDate.value)
      && (u.endDate.Unset? ==> t.endDate == s[id].endDate) && (u.endDate.SetTo? ==> t.endDate == u.endDate.value)
      && (u.isActive.Unset? ==> t.isActive == s[id].isActive)
      && (u.isActive.SetTo? ==> t.isActive == u.isActive.value)
    ensures forall k :: k in s && k != id ==>
      AfterUpdate(s, id, u)[k].(isActive := s[k].isActive) == s[k]
      && (AfterUpdate(s, id, u)[k].isActive ==> s[k].isActive)
  {
  }

  /** `create_semester` (admin only). */
  method CreateSemester(db: Store, caller: User, data: SemesterCreate) returns (id: int)
    requires caller.role == Admin && db.Valid()
    modifies db`semesters, db`nextId
    ensures db.Valid() && id !in old(db.semesters)
    ensures db.semesters == AfterCreate(old(db.semesters), id, data)
    ensures AtMostOneActive(old(db.semesters)) ==> AtMostOneActive(db.semesters)
  {
    if Patch(data.isActive, true) {
      db.semesters := Deactivate(db.semesters, None);
    }
    id := db.NewId();
    db.semesters := db.semesters[id := NewSemester(data)];
    CreateActivity(old(db.semesters), id, data);
  }

  /** `update_semester` (admin only): 404 for a missing id, leaving every row as it was. */
  method UpdateSemester(db: Store, caller: User, id: int, data: SemesterUpdate) returns (r: Result<Semester>)
    requires caller.role == Admin
    modifies db`semesters
    ensures id !in old(db.semesters) ==> r == NotFound && db.semesters == old(db.semesters)
    ensures id in old(db.semesters) ==>
      db.semesters == AfterUpdate(old(db.semesters), id, data) && r == Ok(db.semesters[id])
    ensures AtMostOneActive(old(db.semesters)) ==> AtMostOneActive(db.semesters)
  {
    if id !in db.semesters {
      return NotFound;
    }
    if data.isActive == SetTo(true) {
      db.semesters := Deactivate(db.semesters, Some(id));
    }
    db.semesters := db.semesters[id := ApplySemesterUpdate(db.semesters[id], data)];
    UpdateActivity(old(db.semesters), id, data);
    return Ok(db.semesters[id]);
  }

  /** `delete_semester` (admin only): 404 for a missing id; otherwise the semester, its
      weeks, their events and those events' tasks are removed and nothing else. */
  method DeleteSemester(db: Store, caller: User, id: int) returns (r: Result<()>)
    requires caller.role == Admin
    modifies db`semesters, db`weeks, db`events, db`tasks
    ensures id !in old(db.semesters) ==>
      r == NotFound && db.semesters == old(db.semesters)
      && db.weeks == old(db.weeks) && db.events == old(db.events) && db.tasks == old(db.tasks)
    ensures id in old(db.semesters) ==>
      r == Ok(())
      && var ws := WeeksUnder(old(db.weeks), {id});
         var es := EventsUnder(old(db.events), ws);
         db.semesters == old(db.semesters) - {id} && db.weeks == old(db.weeks) - ws
         && db.events == old(db.events) - es && db.tasks == old(db.tasks) - TasksUnder(old(db.tasks), es)
    ensures AtMostOneActive(old(db.semesters)) ==> AtMostOneActive(db.semesters)
    ensures Attached(old(db.semesters), old(db.weeks), old(db.events), old(db.tasks)) ==>
      Attached(db.semesters, db.weeks, db.events, db.tasks)
  {
    if id !in db.semesters {
      return NotFound;
    }
    var ws := WeeksUnder(db.weeks, {id});
    var es := EventsUnder(db.events, ws);
    db.tasks := db.tasks - TasksUnder(db.tasks, es);
    db.events := db.events - es;
    db.weeks := db.weeks - ws;
    db.semesters := db.semesters - {id};
    if Attached(old(db.semesters), old(db.weeks), old(db.events), old(db.tasks)) {
      DeleteSemesterKeepsAttached(old(db.semesters), old(db.weeks), old(db.events), old(db.tasks), id);
    }
    return Ok(());
  }
}
