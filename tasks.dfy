/** The task router: authorization of task mutations, the status transitions
    (done, cannot-do), the one-shot reminder, and the admin CRUD on tasks. */
module Tasks {
  import opened Types
  import opened Db
  import opened Query

  /** The `TaskCreate` body. */
  datatype TaskCreate = TaskCreate(
    title: string,
    description: Option<string>,
    taskType: TaskType,
    assignedTo: Option<int>,
    assignedTeam: Option<string>)

  /** The `TaskUpdate` body; only the fields the client sent are set. */
  datatype TaskUpdate = TaskUpdate(
    title: Field<string>,
    description: Field<Option<string>>,
    taskType: Field<TaskType>,
    assignedTo: Field<Option<int>>,
    assignedTeam: Field<Option<string>>)

  /** The `TaskOut` response (timestamps left out). */
  datatype TaskOut = TaskOut(
    id: int,
    eventId: int,
    title: string,
    description: Option<string>,
    taskType: TaskType,
    status: TaskStatus,
    assignedTo: Option<int>,
    assignedTeam: Option<string>,
    reminderTime: Option<int>,
    reminderSent: bool,
    cannotDoReason: Option<string>,
    assigneeName: Option<string>)

  /** The display name shown for a task's assignee: the direct assignee's display name
      (None when that user row is gone), else "<tag> Team" for a team tag, else None. */
  function AssigneeName(task: Task, users: map<int, User>): Option<string> {
    if Truthy(task.assignedTo) then
      (if task.assignedTo.value in users then Some(users[task.assignedTo.value].displayName) else None)
    else if NonEmpty(task.assignedTeamTag) then
      Some(task.assignedTeamTag.value + " Team")
    else None
  }

  /** A direct assignment decides the name whatever the team tag says; the team tag
      is used only when there is no direct assignee; otherwise there is no name. */
  lemma AssigneeNamePrecedence(task: Task, users: map<int, User>, tag: Option<string>)
    ensures Truthy(task.assignedTo) ==>
      AssigneeName(task, users) == AssigneeName(task.(assignedTeamTag := tag), users)
    ensures Truthy(task.assignedTo) && task.assignedTo.value !in users ==> AssigneeName(task, users) == None
    ensures AssigneeName(task, users).Some? && !Truthy(task.assignedTo) ==>
      NonEmpty(task.assignedTeamTag) && AssigneeName(task, users).value == task.assignedTeamTag.value + " Team"
    ensures !Truthy(task.assignedTo) && !NonEmpty(task.assignedTeamTag) ==> AssigneeName(task, users) == None
  {
  }

  function TaskToOut(id: int, task: Task, users: map<int, User>): TaskOut {
    TaskOut(id, task.eventId, task.title, task.description, task.taskType, task.status,
            task.assignedTo, task.assignedTeamTag, task.reminderTime, task.reminderSent,
            task.cannotDoReason, AssigneeName(task, users))
  }

  /** `can_modify_task`: admins always; otherwise the direct assignee, or a member of the
      MEDIA team for a task tagged MEDIA. Neither the team id nor the pool is consulted. */
  predicate CanModifyTask(task: Task, uid: int, user: User) {
    user.role == Admin
    || task.assignedTo == Some(uid)
    || (task.assignedTeamTag == Some(MEDIA) && user.teamTag == Some(MEDIA))
  }

  /** The task `Task(event_id=..., **task_data)` builds: column defaults for the rest. */
  function NewTask(eventId: int, data: TaskCreate): Task {
    Task(eventId, data.title, data.description, data.taskType, Pending,
         data.assignedTo, data.assignedTeam, None, None, false, None, None)
  }

  /** The `setattr` loop of `update_task` over the fields the client sent. */
  function ApplyUpdate(t: Task, u: TaskUpdate): Task {
    t.(title := Patch(u.title, t.title),
       description := Patch(u.description, t.description),
       taskType := Patch(u.taskType, t.taskType),
       assignedTo := Patch(u.assignedTo, t.assignedTo),
       assignedTeamTag := Patch(u.assignedTeam, t.assignedTeamTag))
  }

  /** An update touches only the five request fields: status, reminder, reason, event,
      team id and completer are kept (in particular no reset to PENDING on reassignment),
      every sent field takes the sent value, and repeating it changes nothing more. */
  lemma UpdateTouchesOnlySentFields(t: Task, u: TaskUpdate)
    ensures var n := ApplyUpdate(t, u);
      n.status == t.status && n.reminderTime == t.reminderTime && n.reminderSent == t.reminderSent
      && n.cannotDoReason == t.cannotDoReason && n.eventId == t.eventId
      && n.assignedTeamId == t.assignedTeamId && n.completedBy == t.completedBy
    ensures u.assignedTo.SetTo? ==> ApplyUpdate(t, u).assignedTo == u.assignedTo.value
    ensures u.assignedTo.Unset? ==> ApplyUpdate(t, u).assignedTo == t.assignedTo
    ensures u.title.SetTo? ==> ApplyUpdate(t, u).title == u.title.value
    ensures u == TaskUpdate(Unset, Unset, Unset, Unset, Unset) ==> ApplyUpdate(t, u) == t
    ensures ApplyUpdate(ApplyUpdate(t, u), u) == ApplyUpdate(t, u)
  {
  }

  function MarkedDone(t: Task): Task {
    t.(status := Done)
  }

  function MarkedCannotDo(t: Task, reason: string): Task {
    t.(status := CannotDo, cannotDoReason := Some(reason))
  }

  function WithReminder(t: Task, time: int): Task {
    t.(reminderTime := Some(time), reminderSent := false)
  }

  /** The three transitions change exactly the fields the router assigns: marking done
      twice is marking done once, and a cannot-do keeps everything but status and reason. */
  lemma TransitionsTouchOnlyTheirFields(t: Task, reason: string, time: int)
    ensures MarkedDone(MarkedDone(t)) == MarkedDone(t) && MarkedDone(t).status == Done
    ensures MarkedDone(t).(status := t.status) == t
    ensures MarkedCannotDo(t, reason).(status := t.status, cannotDoReason := t.cannotDoReason) == t
    ensures WithReminder(t, time).(reminderTime := t.reminderTime, reminderSent := t.reminderSent) == t
    ensures WithReminder(t, time).status == t.status && !WithReminder(t, time).reminderSent
  {
  }

  /** `list_tasks`: 404 for a missing event, else every task of the event, once each. */
  method ListTasks(db: Store, eventId: int) returns (r: Result<seq<TaskOut>>)
    ensures eventId !in db.events <==> r == NotFound
    ensures eventId in db.events ==> r.Ok?
    ensures r.Ok? ==> forall i :: 0 <= i < |r.value| ==>
      r.value[i].id in db.tasks && r.value[i] == TaskToOut(r.value[i].id, db.tasks[r.value[i].id], db.users)
    ensures r.Ok? ==> multiset(OutIds(r.value)) == multiset(Where(db.tasks, OfEvent(eventId)))
  {
    if eventId !in db.events {
      return NotFound;
    }
    var ids := SelectKeys(db.tasks, OfEvent(eventId));
    var out: seq<TaskOut> := [];
    var i := 0;
    while i < |ids|
      invariant 0 <= i <= |ids| && |out| == i
      invariant forall j :: 0 <= j < i ==> ids[j] in db.tasks && out[j] == TaskToOut(ids[j], db.tasks[ids[j]], db.users)
    {
      assert ids[i] in multiset(Where(db.tasks, OfEvent(eventId)));
      out := out + [TaskToOut(ids[i], db.tasks[ids[i]], db.users)];
      i := i + 1;
    }
    assert OutIds(out) == ids;
    return Ok(out);
  }

  /** The filter `Task.event_id == event_id`. */
  function OfEvent(eventId: int): Task -> bool {
    (t: Task) => t.eventId == eventId
  }

  function OutIds(s: seq<TaskOut>): seq<int> {
    seq(|s|, i requires 0 <= i < |s| => s[i].id)
  }

  /** `create_task` (admin only): 404 for a missing event; otherwise a new PENDING task
      with its reminder unsent, under a fresh id. */
  method CreateTask(db: Store, caller: User, eventId: int, data: TaskCreate) returns (r: Result<TaskOut>)
    requires caller.role == Admin && db.Valid()
    modifies db`tasks, db`nextId
    ensures db.Valid()
    ensures eventId !in db.events ==> r == NotFound && db.tasks == old(db.tasks)
    ensures eventId in db.events ==>
      r.Ok? && r.value.id !in old(db.tasks)
      && db.tasks == old(db.tasks)[r.value.id := NewTask(eventId, data)]
      && r.value == TaskToOut(r.value.id, NewTask(eventId, data), db.users)
      && r.value.status == Pending && !r.value.reminderSent
  {
    if eventId !in db.events {
      return NotFound;
    }
    var id := db.NewId();
    var task := NewTask(eventId, data);
    db.tasks := db.tasks[id := task];
    return Ok(TaskToOut(id, task, db.users));
  }

  /** `update_task` (admin only): 404 for a missing task; otherwise only the sent fields
      are overwritten. */
  method UpdateTask(db: Store, caller: User, taskId: int, data: TaskUpdate) returns (r: Result<TaskOut>)
    requires caller.role == Admin
    modifies db`tasks
    ensures taskId !in old(db.tasks) ==> r == NotFound && db.tasks == old(db.tasks)
    ensures taskId in old(db.tasks) ==>
      db.tasks == old(db.tasks)[taskId := ApplyUpdate(old(db.tasks)[taskId], data)]
      && r == Ok(TaskToOut(taskId, db.tasks[taskId], db.users))
  {
    if taskId !in db.tasks {
      return NotFound;
    }
    var task := ApplyUpdate(db.tasks[taskId], data);
    db.tasks := db.tasks[taskId := task];
    return Ok(TaskToOut(taskId, task, db.users));
  }

  /** `delete_task` (admin only): 404 for a missing task; otherwise that row goes and
      no other. */
  method DeleteTask(db: Store, caller: User, taskId: int) returns (r: Result<()>)
    requires caller.role == Admin
    modifies db`tasks
    ensures taskId !in old(db.tasks) ==> r == NotFound && db.tasks == old(db.tasks)
    ensures taskId in old(db.tasks) ==> r == Ok(()) && db.tasks == old(db.tasks) - {taskId}
  {
    if taskId !in db.tasks {
      return NotFound;
    }
    db.tasks := db.tasks - {taskId};
    return Ok(());
  }

  /** `mark_task_done`: 404, then 403 when `can_modify_task` refuses, both leaving the
      tasks as they were; otherwise only the status changes, to DONE. */
  method MarkTaskDone(db: Store, taskId: int, uid: int, user: User) returns (r: Result<TaskOut>)
    modifies db`tasks
    ensures taskId !in old(db.tasks) ==> r == NotFound && db.tasks == old(db.tasks)
    ensures taskId in old(db.tasks) && !CanModifyTask(old(db.tasks)[taskId], uid, user) ==>
      r == Forbidden && db.tasks == old(db.tasks)
    ensures taskId in old(db.tasks) && CanModifyTask(old(db.tasks)[taskId], uid, user) ==>
      db.tasks == old(db.tasks)[taskId := MarkedDone(old(db.tasks)[taskId])]
      && r == Ok(TaskToOut(taskId, db.tasks[taskId], db.users))
  {
    if taskId !in db.tasks {
      return NotFound;
    }
    if !CanModifyTask(db.tasks[taskId], uid, user) {
      return Forbidden;
    }
    var task := MarkedDone(db.tasks[taskId]);
    db.tasks := db.tasks[taskId := task];
    return Ok(TaskToOut(taskId, task, db.users));
  }

  /** `mark_task_cannot_do`: the same guards in the same order; on success status is
      CANNOT_DO, the reason is stored, nothing else in the task changes, and one admin
      alert is queued. */
  method MarkTaskCannotDo(db: Store, taskId: int, uid: int, user: User, reason: string) returns (r: Result<TaskOut>)
    modifies db`tasks, db`outbox
    ensures taskId !in old(db.tasks) ==> r == NotFound && db.tasks == old(db.tasks) && db.outbox == old(db.outbox)
    ensures taskId in old(db.tasks) && !CanModifyTask(old(db.tasks)[taskId], uid, user) ==>
      r == Forbidden && db.tasks == old(db.tasks) && db.outbox == old(db.outbox)
    ensures taskId in old(db.tasks) && CanModifyTask(old(db.tasks)[taskId], uid, user) ==>
      db.tasks == old(db.tasks)[taskId := MarkedCannotDo(old(db.tasks)[taskId], reason)]
      && r == Ok(TaskToOut(taskId, db.tasks[taskId], db.users))
      && db.outbox == old(db.outbox) + [AdminAlert(user.displayName, db.tasks[taskId].title,
                                                   EventNameOr(db.events, db.tasks[taskId].eventId), reason)]
  {
    if taskId !in db.tasks {
      return NotFound;
    }
    if !CanModifyTask(db.tasks[taskId], uid, user) {
      return Forbidden;
    }
    var task := MarkedCannotDo(db.tasks[taskId], reason);
    db.tasks := db.tasks[taskId := task];
    db.outbox := db.outbox + [AdminAlert(user.displayName, task.title, EventNameOr(db.events, task.eventId), reason)];
    return Ok(TaskToOut(taskId, task, db.users));
  }

  /** `set_task_reminder`: the same guards; on success the reminder time is the new one
      and the sent flag is reset, so the scheduler may fire it again. */
  method SetTaskReminder(db: Store, taskId: int, uid: int, user: User, reminderTime: int) returns (r: Result<TaskOut>)
    modifies db`tasks
    ensures taskId !in old(db.tasks) ==> r == NotFound && db.tasks == old(db.tasks)
    ensures taskId in old(db.tasks) && !CanModifyTask(old(db.tasks)[taskId], uid, user) ==>
      r == Forbidden && db.tasks == old(db.tasks)
    ensures taskId in old(db.tasks) && CanModifyTask(old(db.tasks)[taskId], uid, user) ==>
      db.tasks == old(db.tasks)[taskId := WithReminder(old(db.tasks)[taskId], reminderTime)]
      && r == Ok(TaskToOut(taskId, db.tasks[taskId], db.users))
  {
    if taskId !in db.tasks {
      return NotFound;
    }
    if !CanModifyTask(db.tasks[taskId], uid, user) {
      return Forbidden;
    }
    var task := WithReminder(db.tasks[taskId], reminderTime);
    db.tasks := db.tasks[taskId := task];
    return Ok(TaskToOut(taskId, task, db.users));
  }
}
