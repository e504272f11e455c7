/** The periodic reminder scan: every due task's recipients are pinged once and the
    task is marked as reminded, one commit per task. */
module Scheduler {
  import opened Types
  import opened Db
  import opened Query
  import Tasks

  /** The scan's filter: a reminder time at or before `now` (a task without one never
      matches), not yet sent, and the task still PENDING. */
  predicate IsDue(t: Task, now: int) {
    t.reminderTime.Some? && t.reminderTime.value <= now && !t.reminderSent && t.status == Pending
  }

  function DueAt(now: int): Task -> bool {
    (t: Task) => IsDue(t, now)
  }

  /** A MEDIA-team user (by the `team` enum column) with a Discord id. */
  predicate MediaWithDiscord(u: User) {
    u.teamTag == Some(MEDIA) && NonEmpty(u.discordId)
  }

  /** Who is pinged for a task: the direct assignee alone when the task has one (and only
      if that user exists and has a Discord id); otherwise, for a task tagged MEDIA, every
      MEDIA user with a Discord id; otherwise nobody. */
  function Recipients(t: Task, users: map<int, User>): set<int> {
    if Truthy(t.assignedTo) then
      (if t.assignedTo.value in users && NonEmpty(users[t.assignedTo.value].discordId)
       then {t.assignedTo.value} else {})
    else if t.assignedTeamTag == Some(MEDIA) then
      Where(users, MediaWithDiscord)
    else {}
  }

  /** Every recipient exists and has a Discord id; a direct assignment shadows the team
      tag, so it yields at most one recipient whatever the tag says; a task with neither
      reaches nobody. */
  lemma RecipientsShape(t: Task, users: map<int, User>, tag: Option<string>)
    ensures forall u :: u in Recipients(t, users) ==> u in users && NonEmpty(users[u].discordId)
    ensures Truthy(t.assignedTo) ==>
      Recipients(t, users) == Recipients(t.(assignedTeamTag := tag), users)
      && Recipients(t, users) <= {t.assignedTo.value}
    ensures !Truthy(t.assignedTo) && t.assignedTeamTag != Some(MEDIA) ==> Recipients(t, users) == {}
    ensures !Truthy(t.assignedTo) && t.assignedTeamTag == Some(MEDIA) ==>
      forall u :: u in Recipients(t, users) <==> u in users && MediaWithDiscord(users[u])
  {
  }

  /** Only PENDING tasks are due: a task marked done or cannot-do never is, and neither is
      a task whose reminder was sent. Re-arming a reminder at or before `now` on a pending
      task makes it due again. */
  lemma DueOnlyWhenPending(t: Task, now: int, reason: string, time: int)
    ensures !IsDue(Tasks.MarkedDone(t), now) && !IsDue(Tasks.MarkedCannotDo(t, reason), now)
    ensures !IsDue(t.(reminderSent := true), now)
    ensures t.status == Pending && time <= now ==> IsDue(Tasks.WithReminder(t, time), now)
    ensures IsDue(t, now) ==> IsDue(t, now + 1)
  {
  }

  /** The reminder calls made for one task: one per recipient, each carrying the
      recipient's Discord id, the task title and the event name. */
  ghost predicate BatchOk(batch: seq<Notification>, t: Task, users: map<int, User>, events: map<int, Event>) {
    multiset(UserIdsOf(batch)) == multiset(Recipients(t, users))
    && forall i :: 0 <= i < |batch| ==>
      batch[i].Reminder? && batch[i].userId in users && users[batch[i].userId].discordId.Some?
      && batch[i].discordId == users[batch[i].userId].discordId.value
      && batch[i].taskTitle == t.title && batch[i].eventName == EventNameOr(events, t.eventId)
  }

  ghost function UserIdsOf(batch: seq<Notification>): seq<int> {
    seq(|batch|, i requires 0 <= i < |batch| => if batch[i].Reminder? then batch[i].userId else 0)
  }

  ghost function Flatten(batches: seq<seq<Notification>>): seq<Notification> {
    if batches == [] then [] else Flatten(batches[..|batches| - 1]) + batches[|batches| - 1]
  }

  /** The tasks after the reminded ones got `reminder_sent = True`. */
  function MarkSent(tasks: map<int, Task>, done: seq<int>): map<int, Task> {
    map k | k in tasks :: if k in done then tasks[k].(reminderSent := true) else tasks[k]
  }

  lemma MarkSentStep(tasks: map<int, Task>, done: seq<int>, k: int)
    requires k in tasks
    ensures MarkSent(tasks, done + [k]) == MarkSent(tasks, done)[k := tasks[k].(reminderSent := true)]
  {
  }

  /** Recipient resolution for one task (lines 33-43), in the order the user query
      returns them. */
  method ResolveRecipients(t: Task, users: map<int, User>) returns (us: seq<int>)
    ensures multiset(us) == multiset(Recipients(t, users))
  {
    if Truthy(t.assignedTo) {
      var id := t.assignedTo.value;
      if id in users && NonEmpty(users[id].discordId) {
        us := [id];
      } else {
        us := [];
      }
    } else if t.assignedTeamTag == Some(MEDIA) {
      us := SelectKeys(users, MediaWithDiscord);
    } else {
      us := [];
    }
  }

  /** The pings for one task (lines 31-47): one `send_reminder` per recipient. */
  method RemindOne(db: Store, task: Task) returns (ghost batch: seq<Notification>)
    modifies db`outbox
    ensures db.outbox == old(db.outbox) + batch && BatchOk(batch, task, db.users, db.events)
  {
    var eventName := EventNameOr(db.events, task.eventId);
    var us := ResolveRecipients(task, db.users);
    batch := [];
    var j := 0;
    while j < |us|
      invariant 0 <= j <= |us| && |batch| == j && UserIdsOf(batch) == us[..j]
      invariant db.outbox == old(db.outbox) + batch
      invariant forall m :: 0 <= m < j ==>
        batch[m].Reminder? && batch[m].userId in db.users && db.users[batch[m].userId].discordId.Some?
        && batch[m].discordId == db.users[batch[m].userId].discordId.value
        && batch[m].taskTitle == task.title && batch[m].eventName == eventName
    {
      InSetMultiset(us, Recipients(task, db.users), us[j]);
      RecipientsShape(task, db.users, None);
      var u := db.users[us[j]];
      var n := Reminder(us[j], u.discordId.value, task.title, eventName);
      db.outbox := db.outbox + [n];
      batch := batch + [n];
      j := j + 1;
    }
    assert us[..j] == us;
  }

  /** One iteration of the scan (lines 29-51): the pings for the task, then, when the
      commit goes through, its `reminder_sent` set; a failed commit leaves the task as it
      was. */
  method RemindAndMark(db: Store, id: int, commit: bool) returns (ghost batch: seq<Notification>)
    requires id in db.tasks
    modifies db`tasks, db`outbox
    ensures db.outbox == old(db.outbox) + batch && BatchOk(batch, old(db.tasks)[id], db.users, db.events)
    ensures commit ==> db.tasks == old(db.tasks)[id := old(db.tasks)[id].(reminderSent := true)]
    ensures !commit ==> db.tasks == old(db.tasks)
  {
    var task := db.tasks[id];
    batch := RemindOne(db, task);
    if commit {
      db.tasks := db.tasks[id := task.(reminderSent := true)];
    }
  }

  /** `check_reminders`. The due tasks are taken in the order the query returns them;
      for each, every recipient is pinged and then the task is marked sent and committed.
      `failAt`, when set, is the position of the task whose commit raises: its pings have
      gone out, its mark is rolled back and the scan stops, while the tasks committed
      before it stay marked. `processed` are the committed tasks, `failed` the one rolled
      back. */
  method CheckReminders(db: Store, now: int, failAt: Option<nat>)
    returns (processed: seq<int>, failed: Option<int>, ghost batches: seq<seq<Notification>>)
    modifies db`tasks, db`outbox
    ensures ScanOutcome(old(db.tasks), now, failAt, processed, failed, batches, db.tasks, db.users, db.events)
    ensures db.outbox == old(db.outbox) + Flatten(batches)
  {
    ghost var t0 := db.tasks;
    var ks := SelectKeys(db.tasks, DueAt(now));
    DueKeys(t0, ks, now);
    processed, failed, batches := [], None, [];
    var i := 0;
    while i < |ks|
      invariant 0 <= i <= |ks| && failed.None? && (failAt.Some? ==> i <= failAt.value)
      invariant ScanState(t0, ks, i, db.tasks, batches, db.users, db.events)
      invariant db.outbox == old(db.outbox) + Flatten(batches)
    {
      var commit := !(failAt.Some? && failAt.value == i);
      ghost var prev := batches;
      ghost var batch := ScanTask(db, t0, ks, i, commit, batches);
      batches := batches + [batch];
      OutboxStep(old(db.outbox), prev, batch);
      if !commit {
        processed, failed := ks[..i], Some(ks[i]);
        ScanFailed(t0, ks, i, now, failAt, db.tasks, prev, batch, db.users, db.events);
        return;
      }
      i := i + 1;
    }
    processed := ks;
    ScanDone(t0, ks, now, failAt, db.tasks, batches, db.users, db.events);
  }

  /** The `i`-th due task of the scan: its pings, and its mark when it is committed. */
  method ScanTask(db: Store, ghost t0: map<int, Task>, ks: seq<int>, i: int, commit: bool,
                  ghost batches: seq<seq<Notification>>) returns (ghost batch: seq<Notification>)
    requires ScanState(t0, ks, i, db.tasks, batches, db.users, db.events) && i < |ks|
    requires forall a, b :: 0 <= a < b < |ks| ==> ks[a] != ks[b]
    modifies db`tasks, db`outbox
    ensures db.outbox == old(db.outbox) + batch && BatchOk(batch, t0[ks[i]], db.users, db.events)
    ensures commit ==> ScanState(t0, ks, i + 1, db.tasks, batches + [batch], db.users, db.events)
    ensures !commit ==> db.tasks == old(db.tasks)
  {
    ScanNext(t0, ks, i, db.tasks, batches, db.users, db.events);
    ghost var before := db.tasks;
    batch := RemindAndMark(db, ks[i], commit);
    if commit {
      ScanStep(t0, ks, i, before, batches, batch, db.users, db.events);
    }
  }

  /** What a scan leaves behind, given the tasks `t0` it started from: the committed
      tasks `processed` are distinct due tasks; with no failure they are all the due tasks
      and afterwards none is due; a failure stops the scan at position `failAt`, on a due
      task that was not committed; exactly the committed tasks have `reminder_sent` set and
      nothing else in the tasks changed; one batch of pings went out per attempted task. */
  ghost predicate ScanOutcome(t0: map<int, Task>, now: int, failAt: Option<nat>, processed: seq<int>,
                              failed: Option<int>, batches: seq<seq<Notification>>,
                              tasks: map<int, Task>, users: map<int, User>, events: map<int, Event>) {
    (forall i, j :: 0 <= i < j < |processed| ==> processed[i] != processed[j])
    && (forall i :: 0 <= i < |processed| ==> processed[i] in t0 && IsDue(t0[processed[i]], now))
    && (failAt.None? ==> failed.None?)
    && (failed.None? ==> multiset(processed) == multiset(Where(t0, DueAt(now))) && Where(tasks, DueAt(now)) == {})
    && (failed.Some? ==>
          failAt == Some(|processed|) && failed.value in t0 && IsDue(t0[failed.value], now)
          && failed.value !in processed)
    && tasks == MarkSent(t0, processed)
    && (var attempted := processed + (if failed.Some? then [failed.value] else []);
        |batches| == |attempted|
        && forall i :: 0 <= i < |attempted| ==> attempted[i] in t0 && BatchOk(batches[i], t0[attempted[i]], users, events))
  }

  lemma ScanDone(t0: map<int, Task>, ks: seq<int>, now: int, failAt: Option<nat>, tasks: map<int, Task>,
                 batches: seq<seq<Notification>>, users: map<int, User>, events: map<int, Event>)
    requires multiset(ks) == multiset(Where(t0, DueAt(now)))
    requires forall a, b :: 0 <= a < b < |ks| ==> ks[a] != ks[b]
    requires forall a :: 0 <= a < |ks| ==> ks[a] in t0 && IsDue(t0[ks[a]], now)
    requires ScanState(t0, ks, |ks|, tasks, batches, users, events)
    ensures ScanOutcome(t0, now, failAt, ks, None, batches, tasks, users, events)
  {
    assert ks[..|ks|] == ks;
    NoneDueAfterScan(t0, ks, now);
    assert ks + [] == ks;
  }

  lemma ScanFailed(t0: map<int, Task>, ks: seq<int>, i: int, now: int, failAt: Option<nat>, tasks: map<int, Task>,
                   batches: seq<seq<Notification>>, batch: seq<Notification>,
                   users: map<int, User>, events: map<int, Event>)
    requires forall a, b :: 0 <= a < b < |ks| ==> ks[a] != ks[b]
    requires forall a :: 0 <= a < |ks| ==> ks[a] in t0 && IsDue(t0[ks[a]], now)
    requires ScanState(t0, ks, i, tasks, batches, users, events) && i < |ks| && failAt == Some(i)
    requires BatchOk(batch, t0[ks[i]], users, events)
    ensures ScanOutcome(t0, now, failAt, ks[..i], Some(ks[i]), batches + [batch], tasks, users, events)
  {
    assert ks[i] !in ks[..i];
    assert ks[..i] + [ks[i]] == ks[..i + 1];
  }

  /** The state of the scan after its first `i` due tasks. */
  ghost predicate ScanState(t0: map<int, Task>, ks: seq<int>, i: int, tasks: map<int, Task>,
                            batches: seq<seq<Notification>>, users: map<int, User>, events: map<int, Event>) {
    0 <= i <= |ks| && |batches| == i && tasks == MarkSent(t0, ks[..i])
    && (forall j :: 0 <= j < |ks| ==> ks[j] in t0)
    && (forall j :: 0 <= j < i ==> BatchOk(batches[j], t0[ks[j]], users, events))
  }

  /** The selected keys are due tasks, each once. */
  lemma DueKeys(t0: map<int, Task>, ks: seq<int>, now: int)
    requires multiset(ks) == multiset(Where(t0, DueAt(now)))
    ensures forall a, b :: 0 <= a < b < |ks| ==> ks[a] != ks[b]
    ensures forall a :: 0 <= a < |ks| ==> ks[a] in t0 && IsDue(t0[ks[a]], now)
  {
    forall a, b | 0 <= a < b < |ks| ensures ks[a] != ks[b] {
      DistinctFromSet(ks, Where(t0, DueAt(now)), a, b);
    }
    forall a | 0 <= a < |ks| ensures ks[a] in t0 && IsDue(t0[ks[a]], now) {
      InSetMultiset(ks, Where(t0, DueAt(now)), ks[a]);
    }
  }

  /** The next task has not been touched yet. */
  lemma ScanNext(t0: map<int, Task>, ks: seq<int>, i: int, tasks: map<int, Task>,
                 batches: seq<seq<Notification>>, users: map<int, User>, events: map<int, Event>)
    requires ScanState(t0, ks, i, tasks, batches, users, events) && i < |ks|
    requires forall a, b :: 0 <= a < b < |ks| ==> ks[a] != ks[b]
    ensures ks[i] in tasks && tasks[ks[i]] == t0[ks[i]]
  {
    assert ks[i] !in ks[..i];
  }

  lemma ScanStep(t0: map<int, Task>, ks: seq<int>, i: int, tasks: map<int, Task>,
                 batches: seq<seq<Notification>>, batch: seq<Notification>,
                 users: map<int, User>, events: map<int, Event>)
    requires ScanState(t0, ks, i, tasks, batches, users, events) && i < |ks|
    requires forall a, b :: 0 <= a < b < |ks| ==> ks[a] != ks[b]
    requires BatchOk(batch, t0[ks[i]], users, events)
    ensures ScanState(t0, ks, i + 1, tasks[ks[i] := t0[ks[i]].(reminderSent := true)], batches + [batch], users, events)
  {
    MarkSentStep(t0, ks[..i], ks[i]);
    assert ks[..i + 1] == ks[..i] + [ks[i]];
  }

  lemma FlattenSnoc(batches: seq<seq<Notification>>, batch: seq<Notification>)
    ensures Flatten(batches + [batch]) == Flatten(batches) + batch
  {
    assert (batches + [batch])[..|batches|] == batches;
  }

  /** The outbox after one more batch. */
  lemma OutboxStep(outbox: seq<Notification>, batches: seq<seq<Notification>>, batch: seq<Notification>)
    ensures outbox + Flatten(batches) + batch == outbox + Flatten(batches + [batch])
  {
    FlattenSnoc(batches, batch);
  }

  /** Once every due task is marked sent, none is due any more. */
  lemma NoneDueAfterScan(tasks: map<int, Task>, ks: seq<int>, now: int)
    requires multiset(ks) == multiset(Where(tasks, DueAt(now)))
    ensures Where(MarkSent(tasks, ks), DueAt(now)) == {}
  {
    forall k | k in MarkSent(tasks, ks) ensures !IsDue(MarkSent(tasks, ks)[k], now) {
      InSetMultiset(ks, Where(tasks, DueAt(now)), k);
    }
  }
}
