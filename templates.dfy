/** Event templates: a fixed catalog of recurring events, each expanded into one event
    and one PENDING task per task stub. */
module Templates {
  import opened Types
  import opened Db
  import opened Query
  import opened Text
  import Scheduler

  /** `TaskTemplate`: a task stub, optionally naming the team it belongs to. */
  datatype TaskTemplate = TaskTemplate(title: string, description: Option<string>, taskType: TaskType,
                                       teamName: Option<string>)

  /** `EventTemplate`. */
  datatype EventTemplate = EventTemplate(id: string, name: string, defaultLocation: Option<string>,
                                         tasks: seq<TaskTemplate>)

  function Std(title: string): TaskTemplate {
    TaskTemplate(title, None, Standard, None)
  }

  function SetupStub(title: string): TaskTemplate {
    TaskTemplate(title, None, Setup, None)
  }

  function MediaStub(title: string): TaskTemplate {
    TaskTemplate(title, None, Standard, Some("Media"))
  }

  /** `EVENT_TEMPLATES`. */
  const Catalog: seq<EventTemplate> := [
    EventTemplate("jumuah", "Jumuah Prayer", Some("HBKU Mosque"), [
      Std("Send email reminder (Thursday)"),
      Std("Prepare khutbah slides"),
      SetupStub("Setup audio equipment"),
      SetupStub("Arrange prayer rugs"),
      MediaStub("Photography/Recording")]),
    EventTemplate("halaqa", "Weekly Halaqa", Some("LAS 2001"), [
      Std("Confirm speaker/topic"),
      MediaStub("Post social media announcement"),
      SetupStub("Setup chairs & projector"),
      Std("Prepare refreshments")]),
    EventTemplate("sweet_sunday", "Sweet Sunday", Some("UC Black Box"), [
      Std("Order desserts/snacks"),
      MediaStub("Create event poster"),
      MediaStub("Post on Instagram"),
      SetupStub("Setup tables & decorations"),
      MediaStub("Photography")]),
    EventTemplate("kk", "Karak & Konversations (K&K)", Some("TBD"), [
      Std("Book venue"),
      Std("Order karak/snacks"),
      Std("Prepare discussion topics"),
      MediaStub("Create event poster"),
      Std("Send email blast")]),
    EventTemplate("email_announcement", "Weekly Email Announcement", None, [
      Std("Collect updates from board members"),
      Std("Draft email content"),
      MediaStub("Design email graphics"),
      Std("Send via mailing list")]),
    EventTemplate("eid_prep", "Eid Celebration", Some("HBKU Student Center"), [
      Std("Book venue"),
      Std("Plan menu & order food"),
      MediaStub("Create Eid poster"),
      Std("Send invitations"),
      SetupStub("Setup decorations"),
      SetupStub("Arrange seating"),
      MediaStub("Photography & video"),
      MediaStub("Post event recap")]),
    EventTemplate("iftar", "Community Iftar", Some("HBKU Mosque"), [
      Std("Order food"),
      Std("Coordinate volunteers"),
      SetupStub("Setup food stations"),
      SetupStub("Prepare dates & water"),
      MediaStub("Photography"),
      Std("Cleanup coordination")]),
    EventTemplate("custom", "Custom Event", None, [])
  ]

  /** `next(t for t in templates if t.id == id)`: the first template with that exact id. */
  function FindIn(ts: seq<EventTemplate>, id: string): (r: Option<EventTemplate>)
    ensures r.Some? ==> r.value in ts && r.value.id == id
    ensures r.None? <==> forall i :: 0 <= i < |ts| ==> ts[i].id != id
  {
    if ts == [] then None
    else if ts[0].id == id then Some(ts[0])
    else
      var r := FindIn(ts[1..], id);
      assert forall i :: 1 <= i < |ts| ==> ts[i] == ts[1..][i - 1];
      r
  }

  /** The catalog has eight entries and its ids are pairwise distinct, so a lookup by id
      is unambiguous. */
  lemma CatalogIdsDistinct()
    ensures |Catalog| == 8
    ensures forall i, j :: 0 <= i < j < |Catalog| ==> Catalog[i].id != Catalog[j].id
  {
  }

  /** Looking up "custom" gives the entry without task stubs, and "jumuah" the one with
      five. */
  lemma CatalogShape()
    ensures FindIn(Catalog, "custom").Some? && FindIn(Catalog, "custom").value.tasks == []
    ensures FindIn(Catalog, "jumuah").Some? && |FindIn(Catalog, "jumuah").value.tasks| == 5
  {
    CatalogIdsDistinct();
    FindUnique(Catalog, 7, "custom");
    FindUnique(Catalog, 0, "jumuah");
  }

  /** With pairwise distinct ids, the lookup finds the one entry carrying the id. */
  lemma FindUnique(ts: seq<EventTemplate>, i: int, id: string)
    requires forall a, b :: 0 <= a < b < |ts| ==> ts[a].id != ts[b].id
    requires 0 <= i < |ts| && ts[i].id == id
    ensures FindIn(ts, id) == Some(ts[i])
  {
    var r := FindIn(ts, id);
    assert r.Some? by { assert ts[i].id == id; }
    var j :| 0 <= j < |ts| && ts[j] == r.value;
    assert ts[j].id == ts[i].id;
  }

  /** Every stub of the catalog names either no team or the team "Media". */
  lemma CatalogTeamNames()
    ensures forall i, j :: 0 <= i < |Catalog| && 0 <= j < |Catalog[i].tasks| ==>
      Catalog[i].tasks[j].teamName in {None, Some("Media")}
  {
  }

  /** The team a stub's name resolves to: a team whose name equals it up to ASCII case. */
  method FindTeamIgnoreCase(teams: map<int, Team>, name: string) returns (r: Option<int>)
    ensures r.Some? ==> r.value in teams && EqualsIgnoreCase(teams[r.value].name, name)
    ensures r.None? <==> forall k :: k in teams ==> !EqualsIgnoreCase(teams[k].name, name)
  {
    var ks := SelectKeys(teams, (t: Team) => EqualsIgnoreCase(t.name, name));
    if ks == [] {
      forall k | k in teams ensures !EqualsIgnoreCase(teams[k].name, name) {
        InSetMultiset(ks, Where(teams, (t: Team) => EqualsIgnoreCase(t.name, name)), k);
      }
      return None;
    }
    InSetMultiset(ks, Where(teams, (t: Team) => EqualsIgnoreCase(t.name, name)), ks[0]);
    return Some(ks[0]);
  }

  /** The distinct non-empty team names the stubs mention. */
  function TeamNames(stubs: seq<TaskTemplate>): set<string> {
    set i | 0 <= i < |stubs| && NonEmpty(stubs[i].teamName) :: stubs[i].teamName.value
  }

  /** A cache entry is right: the id of a team with that name up to case, or None when no
      team has it. */
  predicate CacheEntryOk(teams: map<int, Team>, name: string, v: Option<int>) {
    (v.Some? ==> v.value in teams && EqualsIgnoreCase(teams[v.value].name, name))
    && (v.None? <==> forall k :: k in teams ==> !EqualsIgnoreCase(teams[k].name, name))
  }

  /** The `team_cache` loop (lines 150-154): each distinct non-empty team name is looked
      up once, in stub order. */
  method BuildTeamCache(teams: map<int, Team>, stubs: seq<TaskTemplate>)
    returns (cache: map<string, Option<int>>, lookups: seq<string>)
    ensures cache.Keys == TeamNames(stubs)
    ensures forall n :: n in cache ==> CacheEntryOk(teams, n, cache[n])
    ensures forall i, j :: 0 <= i < j < |lookups| ==> lookups[i] != lookups[j]
    ensures forall n :: n in lookups <==> n in cache
  {
    cache, lookups := map[], [];
    var i := 0;
    while i < |stubs|
      invariant 0 <= i <= |stubs|
      invariant cache.Keys == TeamNames(stubs[..i])
      invariant forall n :: n in cache ==> CacheEntryOk(teams, n, cache[n])
      invariant forall a, b :: 0 <= a < b < |lookups| ==> lookups[a] != lookups[b]
      invariant forall n :: n in lookups <==> n in cache
    {
      assert stubs[..i + 1] == stubs[..i] + [stubs[i]];
      var name := stubs[i].teamName;
      if NonEmpty(name) && name.value !in cache {
        var team := FindTeamIgnoreCase(teams, name.value);
        cache := cache[name.value := team];
        lookups := lookups + [name.value];
      }
      assert TeamNames(stubs[..i + 1]) == TeamNames(stubs[..i]) + (if NonEmpty(name) then {name.value} else {}) by {
        var s := stubs[..i + 1];
        forall n | n in TeamNames(s) ensures n in TeamNames(stubs[..i]) || (NonEmpty(name) && n == name.value) {
          var j :| 0 <= j < |s| && NonEmpty(s[j].teamName) && s[j].teamName.value == n;
          if j < i {
            assert stubs[..i][j] == s[j];
          }
        }
        forall n | n in TeamNames(stubs[..i]) ensures n in TeamNames(s) {
          var j :| 0 <= j < i && NonEmpty(stubs[..i][j].teamName) && stubs[..i][j].teamName.value == n;
          assert s[j] == stubs[..i][j];
        }
      }
      i := i + 1;
    }
    assert stubs[..i] == stubs;
  }

  /** The task a stub becomes: attached to the new event, PENDING, with the stub's
      title, description and type, and the cached team id for a named team. The string
      team tag and the assignee stay unset. */
  function StubTask(eventId: int, stub: TaskTemplate, cache: map<string, Option<int>>): Task {
    Task(eventId, stub.title, stub.description, stub.taskType, Pending, None, None,
         if NonEmpty(stub.teamName) && stub.teamName.value in cache then cache[stub.teamName.value] else None,
         None, false, None, None)
  }

  /** A task made from a template is PENDING, carries its stub's fields, and has no team
      when its team name did not resolve. It is tagged by team id only, so the reminder
      scan, which follows the string tag, reaches nobody for it until someone is assigned. */
  lemma StubTaskFacts(eventId: int, stub: TaskTemplate, cache: map<string, Option<int>>, users: map<int, User>)
    ensures var t := StubTask(eventId, stub, cache);
      t.status == Pending && t.eventId == eventId && t.title == stub.title
      && t.description == stub.description && t.taskType == stub.taskType && !t.reminderSent
    ensures NonEmpty(stub.teamName) && stub.teamName.value in cache && cache[stub.teamName.value].None? ==>
      StubTask(eventId, stub, cache).assignedTeamId.None?
    ensures !NonEmpty(stub.teamName) ==> StubTask(eventId, stub, cache).assignedTeamId.None?
    ensures Scheduler.Recipients(StubTask(eventId, stub, cache), users) == {}
  {
  }

  /** The event name: the requested one when non-empty, else the template's. */
  function EventName(requested: Option<string>, template: EventTemplate): string {
    if NonEmpty(requested) then requested.value else template.name
  }

  datatype Created = Created(eventId: int, eventName: string, taskCount: nat)

  /** The tasks `after` hold the tasks `before` plus, under the fresh increasing ids
      `taskIds`, one task per stub in stub order. */
  ghost predicate TasksAdded(before: map<int, Task>, after: map<int, Task>, taskIds: seq<int>, eventId: int,
                             stubs: seq<TaskTemplate>, cache: map<string, Option<int>>) {
    |taskIds| == |stubs|
    && (forall i, j :: 0 <= i < j < |taskIds| ==> taskIds[i] < taskIds[j])
    && (forall i :: 0 <= i < |taskIds| ==> taskIds[i] !in before)
    && (forall k :: k in after <==> k in before || k in taskIds)
    && (forall k :: k in before ==> after[k] == before[k])
    && (forall i :: 0 <= i < |taskIds| ==> after[taskIds[i]] == StubTask(eventId, stubs[i], cache))
  }

  /** The task loop (lines 173-186). */
  method InsertStubTasks(db: Store, eventId: int, stubs: seq<TaskTemplate>, cache: map<string, Option<int>>)
    returns (taskIds: seq<int>)
    requires db.Valid()
    modifies db`tasks, db`nextId
    ensures db.Valid() && TasksAdded(old(db.tasks), db.tasks, taskIds, eventId, stubs, cache)
  {
    taskIds := [];
    var i := 0;
    while i < |stubs|
      invariant 0 <= i <= |stubs| && db.Valid()
      invariant TasksAdded(old(db.tasks), db.tasks, taskIds, eventId, stubs[..i], cache)
      invariant forall a :: 0 <= a < |taskIds| ==> taskIds[a] < db.nextId
    {
      ghost var tasks := db.tasks;
      var id := AddStubTask(db, eventId, stubs[i], cache);
      TasksAddedStep(old(db.tasks), tasks, taskIds, eventId, stubs[..i], cache, id, stubs[i]);
      assert stubs[..i + 1] == stubs[..i] + [stubs[i]];
      taskIds := taskIds + [id];
      i := i + 1;
    }
    assert stubs[..i] == stubs;
  }

  /** One more stub added under a key above every earlier one and not yet used keeps
      `TasksAdded`. */
  lemma TasksAddedStep(before: map<int, Task>, after: map<int, Task>, taskIds: seq<int>, eventId: int,
                       stubs: seq<TaskTemplate>, cache: map<string, Option<int>>, id: int, stub: TaskTemplate)
    requires TasksAdded(before, after, taskIds, eventId, stubs, cache)
    requires (forall a :: 0 <= a < |taskIds| ==> taskIds[a] < id) && id !in after
    ensures TasksAdded(before, after[id := StubTask(eventId, stub, cache)], taskIds + [id], eventId,
                       stubs + [stub], cache)
  {
  }

  /** `db.add(task)` for one stub: the task goes in under a fresh id. */
  method AddStubTask(db: Store, eventId: int, stub: TaskTemplate, cache: map<string, Option<int>>)
    returns (id: int)
    requires db.Valid()
    modifies db`tasks, db`nextId
    ensures db.Valid() && id == old(db.nextId) && id < db.nextId && id !in old(db.tasks)
    ensures db.tasks == old(db.tasks)[id := StubTask(eventId, stub, cache)]
  {
    id := db.NewId();
    db.tasks := db.tasks[id := StubTask(eventId, stub, cache)];
  }

  /** `create_from_template` (admin only). `parsed` is the request's datetime after ISO
      parsing, None when it does not parse. 404 for an unknown template id and 400 for an
      unparsable datetime, both before anything is written; otherwise one event (its week
      id is not checked) and, in stub order, one task per stub under fresh ids, each with
      the team the cache resolved for its stub's team name. */
  method CreateFromTemplate(db: Store, caller: User, templateId: string, weekId: int, parsed: Option<int>,
                            location: Option<string>, eventName: Option<string>)
    returns (r: Result<Created>, taskIds: seq<int>, cache: map<string, Option<int>>)
    requires caller.role == Admin && db.Valid()
    modifies db`events, db`tasks, db`nextId
    ensures db.Valid()
    ensures FindIn(Catalog, templateId).None? ==>
      r == NotFound && db.events == old(db.events) && db.tasks == old(db.tasks)
    ensures FindIn(Catalog, templateId).Some? && parsed.None? ==>
      r == BadRequest && db.events == old(db.events) && db.tasks == old(db.tasks)
    ensures FindIn(Catalog, templateId).Some? && parsed.Some? ==>
      var t := FindIn(Catalog, templateId).value;
      r.Ok? && r.value.eventId !in old(db.events)
      && r.value == Created(r.value.eventId, EventName(eventName, t), |t.tasks|)
      && db.events == old(db.events)[r.value.eventId :=
           Event(weekId, EventName(eventName, t), parsed.value, OrElse(location, t.defaultLocation))]
      && cache.Keys == TeamNames(t.tasks) && (forall n :: n in cache ==> CacheEntryOk(db.teams, n, cache[n]))
      && TasksAdded(old(db.tasks), db.tasks, taskIds, r.value.eventId, t.tasks, cache)
  {
    var found := FindIn(Catalog, templateId);
    if found.None? {
      return NotFound, [], map[];
    }
    var template := found.value;
    var lookups;
    cache, lookups := BuildTeamCache(db.teams, template.tasks);
    if parsed.None? {
      return BadRequest, [], cache;
    }
    var created;
    created, taskIds := Instantiate(db, template, cache, weekId, parsed.value, location, eventName);
    return Ok(created), taskIds, cache;
  }

  /** The writes of `create_from_template` once the template and the date are known: the
      event under a fresh key, then one task per stub attached to it. */
  method Instantiate(db: Store, t: EventTemplate, cache: map<string, Option<int>>, weekId: int, date: int,
                     location: Option<string>, eventName: Option<string>)
    returns (c: Created, taskIds: seq<int>)
    requires db.Valid()
    modifies db`events, db`tasks, db`nextId
    ensures db.Valid()
    ensures c.eventId !in old(db.events) && c == Created(c.eventId, EventName(eventName, t), |t.tasks|)
    ensures db.events == old(db.events)[c.eventId :=
      Event(weekId, EventName(eventName, t), date, OrElse(location, t.defaultLocation))]
    ensures TasksAdded(old(db.tasks), db.tasks, taskIds, c.eventId, t.tasks, cache)
  {
    var eventId := db.NewId();
    var name := EventName(eventName, t);
    db.events := db.events[eventId := Event(weekId, name, date, OrElse(location, t.defaultLocation))];
    taskIds := InsertStubTasks(db, eventId, t.tasks, cache);
    c := Created(eventId, name, |t.tasks|);
  }
}
