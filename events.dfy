/** Events of a week. Deleting an event deletes its tasks. */
module Events {
  import opened Types
  import opened Db
  import opened Query
  import opened Calendar

  /** `EventCreate`: the request carries no location, so a new event has none. */
  datatype EventCreate = EventCreate(name: string, datetime: int)

  datatype EventUpdate = EventUpdate(name: Field<string>, datetime: Field<int>)

  function ApplyEventUpdate(e: Event, u: EventUpdate): Event {
    Event(e.weekId, Patch(u.name, e.name), Patch(u.datetime, e.datetime), e.location)
  }

  /** An update moves no event to another week and keeps its location; a field the
      request leaves out keeps its value, and applying the same update twice changes
      nothing more. */
  lemma EventUpdateFields(e: Event, u: EventUpdate)
    ensures ApplyEventUpdate(e, u).weekId == e.weekId && ApplyEventUpdate(e, u).location == e.location
    ensures u.name.Unset? ==> ApplyEventUpdate(e, u).name == e.name
    ensures u.name.SetTo? ==> ApplyEventUpdate(e, u).name == u.name.value
    ensures u.datetime.Unset? ==> ApplyEventUpdate(e, u).datetime == e.datetime
    ensures u.datetime.SetTo? ==> ApplyEventUpdate(e, u).datetime == u.datetime.value
    ensures ApplyEventUpdate(ApplyEventUpdate(e, u), u) == ApplyEventUpdate(e, u)
  {
  }

  /** `list_events`: 404 for a missing week; otherwise the week's events, each once,
      by ascending datetime. */
  method ListEvents(db: Store, weekId: int) returns (r: Result<seq<int>>)
    ensures weekId !in db.weeks <==> r == NotFound
    ensures weekId in db.weeks ==> r.Ok?
    ensures r.Ok? ==> multiset(r.value) == multiset(Where(db.events, OfWeek(weekId)))
    ensures r.Ok? ==> forall i :: 0 <= i < |r.value| ==> r.value[i] in db.events && db.events[r.value[i]].weekId == weekId
    ensures r.Ok? ==> forall i, j :: 0 <= i < j < |r.value| ==>
      db.events[r.value[i]].datetime <= db.events[r.value[j]].datetime
  {
    if weekId !in db.weeks {
      return NotFound;
    }
    var ks := SelectOrdered(db.events, OfWeek(weekId), Datetime);
    return Ok(ks);
  }

  /** `create_event` (admin only): 404 for a missing week, adding nothing; otherwise one
      event of that week without a location, under a fresh id. */
  method CreateEvent(db: Store, caller: User, weekId: int, data: EventCreate) returns (r: Result<int>)
    requires caller.role == Admin && db.Valid()
    modifies db`events, db`nextId
    ensures db.Valid()
    ensures weekId !in db.weeks ==> r == NotFound && db.events == old(db.events)
    ensures weekId in db.weeks ==>
      r.Ok? && r.value !in old(db.events) && db.events == old(db.events)[r.value := Event(weekId, data.name, data.datetime, None)]
    ensures Attached(db.semesters, db.weeks, old(db.events), db.tasks) ==> Attached(db.semesters, db.weeks, db.events, db.tasks)
  {
    if weekId !in db.weeks {
      return NotFound;
    }
    var id := db.NewId();
    db.events := db.events[id := Event(weekId, data.name, data.datetime, None)];
    return Ok(id);
  }

  /** `update_event` (admin only): 404 for a missing id; otherwise the fields the request
      sets are written to that event. */
  method UpdateEvent(db: Store, caller: User, id: int, data: EventUpdate) returns (r: Result<Event>)
    requires caller.role == Admin
    modifies db`events
    ensures id !in old(db.events) ==> r == NotFound && db.events == old(db.events)
    ensures id in old(db.events) ==>
      db.events == old(db.events)[id := ApplyEventUpdate(old(db.events)[id], data)] && r == Ok(db.events[id])
    ensures Attached(db.semesters, db.weeks, old(db.events), db.tasks) ==> Attached(db.semesters, db.weeks, db.events, db.tasks)
  {
    if id !in db.events {
      return NotFound;
    }
    db.events := db.events[id := ApplyEventUpdate(db.events[id], data)];
    return Ok(db.events[id]);
  }

  /** `delete_event` (admin only): 404 for a missing id; otherwise the event and its
      tasks are removed and nothing else. */
  method DeleteEvent(db: Store, caller: User, id: int) returns (r: Result<()>)
    requires caller.role == Admin
    modifies db`events, db`tasks
    ensures id !in old(db.events) ==> r == NotFound && db.events == old(db.events) && db.tasks == old(db.tasks)
    ensures id in old(db.events) ==>
      r == Ok(()) && db.events == old(db.events) - {id} && db.tasks == old(db.tasks) - TasksUnder(old(db.tasks), {id})
    ensures Attached(db.semesters, db.weeks, old(db.events), old(db.tasks)) ==>
      Attached(db.semesters, db.weeks, db.events, db.tasks)
  {
    if id !in db.events {
      return NotFound;
    }
    if Attached(db.semesters, db.weeks, db.events, db.tasks) {
      DeleteEventKeepsAttached(db.semesters, db.weeks, db.events, db.tasks, id);
    }
    db.tasks := db.tasks - TasksUnder(db.tasks, {id});
    db.events := db.events - {id};
    return Ok(());
  }
}
