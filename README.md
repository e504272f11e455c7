# Al-Amanah task tracker: a verified model of the router logic

Al-Amanah is a FastAPI and SQLAlchemy application. An organisation uses it to plan its
semesters. A semester holds weeks, a week holds events, and an event holds tasks. Each
task is assigned to one member directly, to a team, or to a pool of members. Members
mark tasks done or "cannot do", comment on them, and get Discord reminders. Admins
manage users, teams, rosters and calendars, apply event templates, export and import
whole semesters, read statistics, and browse the audit log.

This project models the logic of the routers and of the reminder scan. The model works
on one in-memory store, the class `Db.Store` in `store.dfy`. The store holds:

- a map from primary key to row for semesters, weeks, events, tasks, users, teams and
  comments;
- the roster as a set of (semester, user) pairs;
- the task pool as a set of (task, user) pairs;
- the audit log as a sequence;
- the next primary key;
- a ghost outbox that records every webhook call made.

Each router function is a module-level method that takes the store, much as the
original takes `db: Session`. Its `modifies` clause names the tables it writes. It
returns a `Result`: `Ok`, `NotFound` (HTTP 404), `Forbidden` (403) or `BadRequest` (400).
An admin-only endpoint requires `caller.role == Admin`, which is what the
`get_admin_user` dependency guarantees.

This revision of the code mixes two schema generations. A `Task` therefore carries both the string
tag `assignedTeamTag` and the key `assignedTeamId`. A `User` carries both the enum tag
`teamTag` and the key `teamId`. Each router reads the column it reads in the source:

- `can_modify_task`, the dashboard and the reminder scan follow the MEDIA tags;
- `can_view_task`, team deletion, templates, export and statistics follow the keys.

Python truthiness is written out. `Truthy` treats `None` and `0` as false. `NonEmpty`
treats `None` and `""` as false.

One module per source file:

| file | module | source |
|---|---|---|
| types.dfy | `Types` | rows, enums and request bodies (`models/`, `schemas/`) |
| store.dfy | `Db` | the session and its tables |
| query.dfy | `Query` | `filter`, `order_by` and `sort` as relations on the tables |
| text.dfy | `Text` | `str.strip()`, case-insensitive and lexicographic comparison |
| calendar.dfy | `Calendar` | the semester → week → event → task tree and its cascades |
| tasks.dfy | `Tasks` | `routers/tasks.py` |
| comments.dfy | `Comments` | `routers/comments.py` |
| dashboard.dfy | `Dashboard` | `routers/dashboard.py` |
| scheduler.dfy | `Scheduler` | `services/scheduler.py` |
| templates.dfy | `Templates` | `routers/templates.py` |
| semesters.dfy | `Semesters` | `routers/semesters.py` |
| weeks.dfy | `Weeks` | `routers/weeks.py` |
| events.dfy | `Events` | `routers/events.py` |
| teams.dfy | `Teams` | `routers/teams.py` |
| users.dfy | `Users` | `routers/users.py` |
| roster.dfy | `Roster` | `routers/roster.py` |
| export.dfy | `Export` | `build_semester_export`, `export_semester` |
| importer.dfy | `Import` | `import_data` |
| stats.dfy | `Stats` | `routers/stats.py` |
| audit.dfy | `Audit` | `routers/audit.py` |

Some behaviour the model reproduces on purpose, because the code does it:

- `update_week` re-checks neither the date bounds nor the week-number uniqueness that
  `create_week` enforces (`Weeks.UpdateMayBreakWeekRules`).
- `update_team` checks only exact name equality, while `create_team` compares names up
  to case (`Teams.RenameMayBreakCaseDistinctness`).
- Viewing a task and modifying it are different rules. A pool member may view a task
  but not modify it. A MEDIA member may modify a MEDIA-tagged task without a team key
  but cannot view it (`Comments.ViewAndModifyDiffer`).
- A task created from a template carries only a team key. The reminder scan follows the
  string tag, so the scan reaches nobody for such a task (`Templates.StubTaskFacts`).
- `import_data` counts a semester as created before its commit. A semester whose commit
  fails is rolled back but stays counted (`Import.ImportOneOutcome`).
- Semester id `0` is falsy, so a `semester_id=0` statistics filter selects everything
  (`Stats.SemesterScope`).

## Model

| member | source | states |
|---|---|---|
| Db.Store.constructor | backend/app/main.py:33-35 | A fresh database has empty tables, an empty roster, pool, audit log and outbox, and satisfies the key invariant. |
| Db.Store.NewId | backend/app/routers/tasks.py:66-68 | An inserted row gets a positive key used by no table, and the counter moves past it. |
| Query.SortBy | backend/app/routers/stats.py:173 | An in-memory sort returns a permutation of its input, sorted under any total preorder. |
| Query.Insert | backend/app/routers/stats.py:173 | Inserting one element into a sorted list adds exactly that element and keeps the list sorted. |
| Query.SelectKeys | backend/app/routers/tasks.py:51 | An unordered filter query yields every matching key exactly once. |
| Query.SelectOrdered | backend/app/routers/weeks.py:23 | An ordered filter query yields every matching key exactly once, with keys ascending in the sort column. |
| Query.AscendingIsPreorder | backend/app/routers/events.py:23 | Ordering rows by an integer column, ascending, is a total preorder. |
| Query.PermutationKeepsDistinct | backend/app/routers/stats.py:173 | Sorting a list without repeated entries keeps it without repetitions. |
| Query.InSetMultiset | backend/app/routers/roster.py:181-184 | A key list with the multiset of a key set contains exactly that set's keys. |
| Query.DistinctFromSet | backend/app/routers/roster.py:181-184 | A key list with the multiset of a key set repeats no key. |
| Query.SizeFromSet | backend/app/routers/stats.py:105-110 | A key list with the multiset of a key set has the set's size. |
| Text.LeadingEnd | backend/app/routers/teams.py:48 | The left cut of `strip()` skips only whitespace and stops at the first other character or at the end. |
| Text.TrailingStart | backend/app/routers/teams.py:48 | The right cut of `strip()` removes only whitespace and stops after the last other character, or at the left cut. |
| Text.StripShape | backend/app/routers/teams.py:48 | `strip()` returns a slice of its input with only whitespace cut on either side, and the result neither starts nor ends with whitespace. |
| Text.StripEmptyIffBlank | backend/app/routers/comments.py:94 | `not s.strip()` holds exactly when the string is whitespace only. |
| Text.StripIdempotent | backend/app/routers/comments.py:100 | Stripping twice is the same as stripping once. |
| Text.LexLeTotal | backend/app/routers/teams.py:38 | The name ordering compares any two names. |
| Text.LexLeTransitive | backend/app/routers/teams.py:38 | The name ordering is transitive. |
| Text.LexLeAntisymmetric | backend/app/routers/teams.py:38 | Two names ordered both ways are equal. |
| Calendar.DeleteEventKeepsAttached | backend/app/models/event.py:6-16 | Deleting an event with its tasks leaves no orphan. A task survives exactly when it belongs to another event. |
| Calendar.DeleteWeekKeepsAttached | backend/app/models/week.py:6-16 | Deleting a week with its events and their tasks leaves no orphan. An event or task survives exactly when it hangs under another week. |
| Calendar.DeleteSemesterKeepsAttached | backend/app/models/semester.py:6-15 | Deleting a semester with its subtree leaves no orphan. A task survives exactly when its week belongs to another semester. |
| Tasks.AssigneeNamePrecedence | backend/app/routers/tasks.py:14-21 | The assignee's display name wins whatever the team tag says, and is None for a missing user. "<tag> Team" is used only without a direct assignee. Otherwise there is no name. |
| Tasks.UpdateTouchesOnlySentFields | backend/app/routers/tasks.py:84-85 | An update writes exactly the sent fields. Status, reminder, reason, event, team key and completer are kept, so there is no reset to PENDING. Repeating the update changes nothing more. |
| Tasks.TransitionsTouchOnlyTheirFields | backend/app/routers/tasks.py:131-188 | Marking done changes only the status and is idempotent. Cannot-do changes only status and reason. A reminder changes only time and sent flag, and clears the flag. |
| Tasks.ListTasks | backend/app/routers/tasks.py:41-52 | 404 exactly when the event is missing. Otherwise the result is Ok, and every task of the event appears once, with its assignee name. |
| Tasks.CreateTask | backend/app/routers/tasks.py:55-70 | A missing event gives 404 and adds nothing. Otherwise exactly one task is added under a new key: PENDING, reminder unsent. |
| Tasks.UpdateTask | backend/app/routers/tasks.py:73-89 | A missing task gives 404 and nothing changes. Otherwise only that task changes, by the sent fields. |
| Tasks.DeleteTask | backend/app/routers/tasks.py:92-104 | A missing task gives 404. Otherwise that task alone is removed. |
| Tasks.MarkTaskDone | backend/app/routers/tasks.py:118-134 | 404, then 403 when `can_modify_task` refuses, both leaving the tasks unchanged. Otherwise only the status changes, to DONE. |
| Tasks.MarkTaskCannotDo | backend/app/routers/tasks.py:137-170 | The same guards, in the same order. On success the status is CANNOT_DO, the reason is stored, nothing else in the task changes, and one admin alert names the caller, task, event and reason. |
| Tasks.SetTaskReminder | backend/app/routers/tasks.py:173-191 | The same guards. On success the reminder time is the new one and the sent flag is false. |
| Comments.ViewChannels | backend/app/routers/comments.py:31-44 | A pool row or a direct assignment alone grants the view. For a non-admin who is neither, the view requires a non-null team key equal to the user's. A null team key never grants it. |
| Comments.ViewAndModifyDiffer | backend/app/routers/comments.py:31-44 | The view rule differs from `can_modify_task` in both directions. A pool member may view but not modify. A MEDIA member may modify a MEDIA-tagged task without a team key but not view it. |
| Comments.GetComments | backend/app/routers/comments.py:47-76 | 404 exactly for a missing task, and 403 exactly when it is not viewable. Otherwise the result is Ok, and every comment of the task appears once, oldest first, with `can_delete` true iff the caller wrote it or is an admin. |
| Comments.StoredContentCanonical | backend/app/routers/comments.py:94-100 | Stored content is non-empty and already stripped. |
| Comments.AddComment | backend/app/routers/comments.py:79-114 | 404, then 403, then 400 for whitespace-only content, each storing nothing. Otherwise one new comment by the caller, with the stripped content, at `now`. |
| Comments.InsertComment | backend/app/routers/comments.py:98-103 | Adding a comment stores it under a key no comment had. |
| Comments.DeleteComment | backend/app/routers/comments.py:117-139 | 404 unless the comment exists under that task. 403 unless the caller wrote it or is an admin. Otherwise exactly that comment is removed. |
| Dashboard.ShowsExactlyModifiable | backend/app/routers/dashboard.py:95-104 | The dashboard shows a user exactly the tasks `can_modify_task` lets them modify. |
| Dashboard.VisibleByRole | backend/app/routers/dashboard.py:95-104 | An admin sees every task of the event. A non-admin outside MEDIA sees exactly the tasks assigned to them directly. |
| Dashboard.EventTasks | backend/app/routers/dashboard.py:89-130 | An event's task list is exactly its visible tasks, each once, with assignee names. It is empty iff none is visible. |
| Dashboard.WeekEvents | backend/app/routers/dashboard.py:84-140 | A week's events are listed by ascending datetime. An event appears iff it has a visible task or the caller is an admin. |
| Dashboard.WeekEventsComplete | backend/app/routers/dashboard.py:85-140 | Once the loop has visited every event of the week, its entries are the week's event list. |
| Dashboard.GetDashboard | backend/app/routers/dashboard.py:56-156 | Without an active semester: no name, no id, no weeks, and the role. Otherwise an active semester's name and id, and each of its weeks once by week number, with `is_current` iff start ≤ today ≤ end, and its listed events. |
| Dashboard.WeekRows | backend/app/routers/dashboard.py:72-150 | Every week of the semester appears exactly once, by week number, with its dates, `is_current` iff start ≤ today ≤ end, and its listed events. |
| Scheduler.RecipientsShape | backend/app/services/scheduler.py:33-43 | Every recipient exists and has a Discord id. A direct assignment shadows the team tag and yields at most that user. A MEDIA tag yields exactly the MEDIA users with a Discord id. Anything else yields nobody. |
| Scheduler.DueOnlyWhenPending | backend/app/services/scheduler.py:23-27 | Done, cannot-do and already-sent tasks are never due. Re-arming a pending task at or before `now` makes it due again. |
| Scheduler.ResolveRecipients | backend/app/services/scheduler.py:33-43 | The recipient list holds each resolved recipient once. |
| Scheduler.RemindOne | backend/app/services/scheduler.py:45-47 | One `send_reminder` per recipient, with that user's Discord id, the task title and the event name ("Unknown Event" when the event is missing). |
| Scheduler.RemindAndMark | backend/app/services/scheduler.py:29-51 | The pings go out. A commit that goes through marks just this task sent. A failed commit leaves the tasks unchanged. |
| Scheduler.ScanTask | backend/app/services/scheduler.py:29-51 | One turn of the scan keeps the loop invariant: the tasks before it are marked, the others untouched, and one batch per attempted task is in the outbox. |
| Scheduler.CheckReminders | backend/app/services/scheduler.py:16-58 | Each due task is processed once. Without a failure, every due task is marked sent and none stays due. A failing commit rolls back only the current task and stops the scan, and earlier tasks stay marked. Non-due tasks are untouched, and the outbox gains exactly the batches of the attempted tasks. |
| Scheduler.ScanDone | backend/app/services/scheduler.py:29-52 | A scan that reaches the end has processed every due task, and none is due any more. |
| Scheduler.ScanFailed | backend/app/services/scheduler.py:51-56 | A scan stopped at a failing task has marked the tasks before it, and only those, and has attempted the failing one. |
| Scheduler.NoneDueAfterScan | backend/app/services/scheduler.py:23-50 | Once every due task is marked sent, no task is due. |
| Templates.FindIn | backend/app/routers/templates.py:145-147 | The lookup returns a catalog entry with that exact id, and None iff no entry has it. |
| Templates.FindUnique | backend/app/routers/templates.py:145 | When the ids are pairwise distinct, the lookup returns exactly the entry that carries the id. |
| Templates.CatalogIdsDistinct | backend/app/routers/templates.py:30-121 | The catalog has eight entries with pairwise distinct ids. |
| Templates.CatalogShape | backend/app/routers/templates.py:30-145 | Looking up "custom" finds the entry with no stubs, and "jumuah" the one with five. |
| Templates.CatalogTeamNames | backend/app/routers/templates.py:30-121 | Every stub names no team or the team "Media". |
| Templates.FindTeamIgnoreCase | backend/app/routers/templates.py:153-154 | The found team's name matches up to case. None iff no team matches. |
| Templates.BuildTeamCache | backend/app/routers/templates.py:149-154 | The cache has exactly the distinct non-empty team names of the stubs. Each is looked up once and maps to a matching team, or to None when none matches. |
| Templates.StubTaskFacts | backend/app/routers/templates.py:173-186 | A template task is PENDING, copies its stub's title, description and type, and has no team key when the name is empty or did not resolve. The reminder scan reaches nobody for it. |
| Templates.InsertStubTasks | backend/app/routers/templates.py:172-186 | One new task per stub, in stub order, under new keys, attached to the event. No other task changes. |
| Templates.AddStubTask | backend/app/routers/templates.py:178-186 | Adds exactly the stub's task, under a key no task used before; every other task is unchanged and the store stays well formed. |
| Templates.CreateFromTemplate | backend/app/routers/templates.py:138-194 | An unknown id gives 404, and then an unparsable datetime gives 400, both writing nothing. Otherwise one event with name `event_name or template.name` and location `location or default_location`, plus exactly `len(template.tasks)` tasks. |
| Templates.Instantiate | backend/app/routers/templates.py:161-188 | Adds exactly one event under a key no event used before, with the name and location fallbacks, then one task per stub attached to it. The result reports that key, the name and the number of stubs. |
| Semesters.CreateActivity | backend/app/routers/semesters.py:21-35 | An active new semester, which is the default, is the only active one afterwards. An inactive one changes no other row. At most one active semester is preserved. |
| Semesters.UpdateActivity | backend/app/routers/semesters.py:38-63 | `is_active: true` leaves the target the only active semester. The target changes only in the sent fields. Others are at most deactivated. At most one active semester is preserved. |
| Semesters.CreateSemester | backend/app/routers/semesters.py:21-35 | The table becomes the table after the create, with the new semester under a new key. At most one active semester is preserved. |
| Semesters.UpdateSemester | backend/app/routers/semesters.py:38-63 | A missing id gives 404 and changes nothing. Otherwise the table is the one after the update. At most one active semester is preserved. |
| Semesters.DeleteSemester | backend/app/routers/semesters.py:66-78 | A missing id gives 404. Otherwise the semester and its whole subtree are removed and nothing else. At most one active semester and the tree shape are preserved. |
| Weeks.CreateKeepsWeekRules | backend/app/routers/weeks.py:38-55 | A week that passes both checks keeps week numbers unique and weeks within dates in its semester. Other semesters are untouched. |
| Weeks.UpdateMayBreakWeekRules | backend/app/routers/weeks.py:59-75 | An update may move a week outside its semester's dates, and it is accepted. |
| Weeks.ListWeeks | backend/app/routers/weeks.py:13-23 | 404 exactly for a missing semester. Otherwise Ok with its weeks, each once, by ascending week number. |
| Weeks.CreateWeek | backend/app/routers/weeks.py:26-56 | 404, then 400 for dates outside the semester's, then 400 for a taken week number in that semester, each adding nothing. Otherwise the week is added. The week rules are preserved for every semester. |
| Weeks.UpdateWeek | backend/app/routers/weeks.py:59-75 | A missing id gives 404. Otherwise only the sent fields of that week change, unchecked. |
| Weeks.DeleteWeek | backend/app/routers/weeks.py:78-90 | A missing id gives 404. Otherwise the week, its events and their tasks go, and nothing else. The tree stays attached. |
| Events.EventUpdateFields | backend/app/routers/events.py:51-56 | An update writes exactly the sent name and datetime, never moves the event to another week, and is idempotent. |
| Events.ListEvents | backend/app/routers/events.py:13-23 | 404 exactly for a missing week. Otherwise Ok with its events, each once, by ascending datetime. |
| Events.CreateEvent | backend/app/routers/events.py:26-41 | 404 for a missing week, adding nothing. Otherwise one event of that week under a new key. The tree stays attached. |
| Events.UpdateEvent | backend/app/routers/events.py:44-60 | A missing id gives 404. Otherwise only the sent fields of that event change. |
| Events.DeleteEvent | backend/app/routers/events.py:63-75 | A missing id gives 404. Otherwise the event and exactly its tasks are removed. The tree stays attached. |
| Teams.ByNameIsPreorder | backend/app/routers/teams.py:38 | Ordering teams by name is a total preorder. |
| Teams.ListTeams | backend/app/routers/teams.py:32-38 | Every team once, ordered by name. |
| Teams.FindNameIgnoringCase | backend/app/routers/teams.py:53 | The found team's name matches up to case. None iff no team matches. |
| Teams.FindOtherNamed | backend/app/routers/teams.py:77-80 | The found team is another team with exactly that name. None iff there is none. |
| Teams.InsertKeepsNamesDistinct | backend/app/routers/teams.py:53-61 | A team whose name matches no stored name up to case keeps names distinct, both up to case and exactly. |
| Teams.CaseDistinctIsDistinct | backend/app/routers/teams.py:53-55 | Names distinct up to case are distinct. |
| Teams.RenameMayBreakCaseDistinctness | backend/app/routers/teams.py:76-81 | A rename that passes the exact-match check can make two names equal up to case. |
| Teams.CreateTeam | backend/app/routers/teams.py:41-61 | 400 for a blank name, then 400 for a name taken up to case, both leaving the teams unchanged. Otherwise a team with the stripped name and given color. Case-distinct names are preserved. |
| Teams.UpdateTeam | backend/app/routers/teams.py:64-88 | 404, then 400 when a non-empty new name is another team's exact name. Otherwise only that team is renamed or recoloured, as sent. Exact name distinctness is preserved. |
| Teams.DetachFacts | backend/app/routers/teams.py:103-105 | After the detach no user refers to the team, other users are unchanged, and members still refer only to stored teams. |
| Teams.DeleteTeam | backend/app/routers/teams.py:91-107 | A missing id gives 404. Otherwise the team's members lose their team key, no other user changes, and the team is removed. |
| Users.UpdateKeepsIdentity | backend/app/routers/users.py:52-61 | An update never changes the username. A sent password is stored only as its hash. Without one the hash is kept. |
| Users.InsertKeepsUnique | backend/app/routers/users.py:28-40 | Adding a user whose username is free keeps usernames unique. |
| Users.SameUsernameKeepsUnique | backend/app/routers/users.py:56-63 | Replacing a row by one with the same username keeps usernames unique. |
| Users.CreateUser | backend/app/routers/users.py:21-42 | 400 for a taken username, leaving the users unchanged. Otherwise one new user whose stored hash is the password's hash. Usernames stay unique. |
| Users.UpdateUser | backend/app/routers/users.py:45-65 | A missing id gives 404. Otherwise only that user changes, in the sent fields. Usernames stay unique. |
| Users.DeleteUser | backend/app/routers/users.py:68-80 | A missing id gives 404. Otherwise that user alone is removed. |
| Roster.RequestedStep | backend/app/routers/roster.py:84-102 | The pairs requested by one more id are those before plus that id's pair if the user exists. |
| Roster.RosterStep | backend/app/routers/roster.py:84-102 | A missing user or a stored pair is skipped and leaves the roster unchanged. Any other id adds one new pair. |
| Roster.AddToRoster | backend/app/routers/roster.py:67-105 | 404 for a missing semester, adding nothing. Otherwise added + skipped = number of ids, the roster gains exactly the pairs of existing requested users, and it grows by `added`. |
| Roster.AddAllToRoster | backend/app/routers/roster.py:108-140 | 404 for a missing semester. Otherwise added + skipped = number of non-admins, the roster gains exactly their pairs and grows by `added`, and no admin pair changes. |
| Roster.RemoveFromRoster | backend/app/routers/roster.py:143-161 | 404 when the pair is absent. Otherwise exactly that pair is removed. |
| Roster.GetAvailableUsers | backend/app/routers/roster.py:164-198 | 404 exactly for a missing semester. Otherwise Ok with exactly the non-admin users not on its roster, each once. |
| Export.ReferenceNames | backend/app/routers/export.py:120-139 | An assignee, completer or team is exported as a name iff its id is set and its row exists, and then as that row's name. |
| Export.PairedUsernames | backend/app/routers/export.py:131-170 | The exported usernames are those of the paired users that exist, one per pair. |
| Export.ExportOneTask | backend/app/routers/export.py:119-151 | An exported task carries the task's columns, its referenced names and its pool usernames. |
| Export.ExportEventTasks | backend/app/routers/export.py:116-153 | An event's exported tasks are its tasks, each once. |
| Export.ExportOneEvent | backend/app/routers/export.py:112-157 | An exported event carries its name, datetime and tasks. |
| Export.ExportWeekEvents | backend/app/routers/export.py:112-157 | A week's exported events are its events, each once, by ascending datetime. |
| Export.ExportOneWeek | backend/app/routers/export.py:108-164 | An exported week carries its number, dates and events by ascending datetime. |
| Export.ExportSemesterWeeks | backend/app/routers/export.py:108-164 | A semester's exported weeks are its weeks, each once, by ascending week number, each with events by datetime. |
| Export.BuildSemesterExport | backend/app/routers/export.py:106-182 | The export holds the semester's own columns, its weeks by week number, their events by datetime with tasks, and its roster usernames. |
| Export.ExportOne | backend/app/routers/export.py:71-87 | 404 exactly for a missing semester. Otherwise Ok with that semester's export tree. |
| Import.FindUser | backend/app/routers/export.py:223-257 | The lookup finds the user with that exact username, if any. |
| Import.FindTeam | backend/app/routers/export.py:260-262 | The lookup finds the team with that exact name, if any. |
| Import.UserNamedIs | backend/app/routers/export.py:223-224 | With unique usernames, the user found by a username is the one that has it. |
| Import.TeamNamedIs | backend/app/routers/export.py:260-262 | With distinct names, the team found by a name is the one that has it. |
| Import.ImportRoster | backend/app/routers/export.py:222-226 | The roster gains the pairs of the usernames that resolve. Unresolved names are dropped, and a pair already present is a clash. |
| Import.ImportPool | backend/app/routers/export.py:285-290 | The pool gains the pairs of the usernames that resolve. Unresolved names are dropped, and a pair already present is a clash. |
| Import.ResolveTask | backend/app/routers/export.py:254-283 | The new task's assignee, team and completer are the rows named, or None when a name is empty or does not resolve. |
| Import.ImportTask | backend/app/routers/export.py:252-290 | Importing a task adds it and its pool to the tables. |
| Import.ImportTasks | backend/app/routers/export.py:252-292 | Importing an event's tasks adds them in file order. |
| Import.ImportEvent | backend/app/routers/export.py:241-249 | Importing an event adds it, without a location, and then its tasks. |
| Import.ImportEvents | backend/app/routers/export.py:241-292 | Importing a week's events adds them in file order. |
| Import.ImportWeek | backend/app/routers/export.py:229-238 | Importing a week adds it and then its events. |
| Import.ImportWeeks | backend/app/routers/export.py:229-292 | Importing a semester's weeks adds them in file order. |
| Import.ImportSemester | backend/app/routers/export.py:211-292 | Importing a semester adds it, inactive, and then its roster and weeks. |
| Import.HasSemesterNamed | backend/app/routers/export.py:201-202 | The check is true iff a stored semester has that name. |
| Import.CommitSemester | backend/app/routers/export.py:211-299 | The semester's rows are committed. When the commit clashes, every table is rolled back, and the failure is reported. |
| Import.Rollback | backend/app/routers/export.py:297-299 | The rollback restores the tables to their contents before the semester. |
| Import.ImportNext | backend/app/routers/export.py:200-299 | One turn of the loop is the next step of `ImportAll`. |
| Import.ImportLoop | backend/app/routers/export.py:200-299 | The loop produces exactly the tables and result of `ImportAll` over the whole file. |
| Import.ImportData | backend/app/routers/export.py:184-307 | The result and tables are those of `ImportAll`. An attached tree stays attached, and no stored row or pair is lost. created + skipped-for-name = number of semesters in the file. |
| Import.AddPairsGrows | backend/app/routers/export.py:222-290 | Adding pairs never removes one and never clears the clash flag. |
| Import.AddTaskSound | backend/app/routers/export.py:252-290 | An imported task keeps the tables sound, only adds rows, and takes a new key. |
| Import.AddTasksSound | backend/app/routers/export.py:252-292 | An event's imported tasks keep the tables sound and only add rows. |
| Import.AddEventSound | backend/app/routers/export.py:241-249 | An imported event keeps the tables sound, only adds rows, and takes a new key. |
| Import.AddEventsSound | backend/app/routers/export.py:241-292 | A week's imported events keep the tables sound and only add rows. |
| Import.AddWeekSound | backend/app/routers/export.py:229-238 | An imported week keeps the tables sound, only adds rows, and takes a new key. |
| Import.AddWeeksSound | backend/app/routers/export.py:229-292 | A semester's imported weeks keep the tables sound and only add rows. |
| Import.AddSemesterSound | backend/app/routers/export.py:211-219 | An imported semester keeps the tables sound and is stored, inactive, under the next key. |
| Import.ExtendsTransitive | backend/app/routers/export.py:200-299 | "Only adds rows" composes across steps. |
| Import.ImportOneOutcome | backend/app/routers/export.py:201-299 | The tables change iff the name is new and the commit succeeds, and then they hold the semester, inactive. Otherwise exactly one error is appended. A stored name is skipped uncounted. Every other semester is counted, even when rolled back. |
| Import.ImportOneSound | backend/app/routers/export.py:200-299 | One semester of the file keeps the tables sound and only adds rows. |
| Import.ImportAllSound | backend/app/routers/export.py:200-299 | The whole import keeps the tables sound and only adds rows. |
| Import.SkipsAppend | backend/app/routers/export.py:203-208 | Appending an error adds one skip exactly when it is a skip for an existing name. |
| Import.CountOne | backend/app/routers/export.py:201-219 | One semester adds one to created or to skipped-for-name. |
| Import.CountsUpTo | backend/app/routers/export.py:200-219 | After n semesters, created + skipped-for-name = n. |
| Import.ImportCounts | backend/app/routers/export.py:200-307 | Over the whole file, created + skipped-for-name = number of semesters. |
| Import.ImportKeepsOneActive | backend/app/routers/export.py:215 | Importing never breaks "at most one semester is active". |
| Import.TaskRoundTrip | backend/app/routers/export.py:119-290 | An imported task, exported again, gives back every column of the file's task, provided each name it carries is non-empty and names a stored user or team. Its exported pool usernames are, as a set, exactly the file's pool usernames that name a stored user. |
| Import.UserNamedIn | backend/app/routers/export.py:286-287 | A username resolves exactly when some user carries it, and then to a user with that name. |
| Import.PoolPairsResolved | backend/app/routers/export.py:283-290 | The pool pairs added for a new task are exactly the pairs with the users its pool usernames resolve to. |
| Import.ResolvedUsernames | backend/app/routers/export.py:285-288 | The resolved pool users' usernames are exactly the file's pool usernames that some user carries. |
| Stats.Rate | backend/app/routers/stats.py:120 | The completion rate is 0 when nothing is counted, a percentage between 0 and 100 otherwise, and 100 when everything is done. |
| Stats.RateMonotone | backend/app/routers/stats.py:120 | More completed tasks over the same total give a rate at least as high. |
| Stats.SemesterScope | backend/app/routers/stats.py:105-110 | With a truthy semester id, a task counts iff its event lies in one of that semester's weeks. A semester without weeks or events counts nothing. Id 0 counts everything. |
| Stats.CountMonotone | backend/app/routers/stats.py:112-118 | A narrower filter counts no more tasks. |
| Stats.StatusPartition | backend/app/routers/stats.py:115-118 | Done + pending + cannot-do = the total in scope. |
| Stats.GetOverview | backend/app/routers/stats.py:94-131 | The status counts add up to the task total, and the rate is a percentage that is 0 without tasks. User and semester counts are the table sizes. An empty semester scope counts no event and no task. |
| Stats.UserStatsBounds | backend/app/routers/stats.py:145-160 | A user's completed and cannot-do tasks are among those assigned to them, and the rate is a percentage. |
| Stats.RankingsArePreorders | backend/app/routers/stats.py:173-215 | Rate descending, then completed descending, is a total preorder for users and for teams. |
| Stats.GetUserStats | backend/app/routers/stats.py:134-174 | Exactly one entry per non-admin user, counting that user's direct tasks in scope, sorted by rate and then completed, descending. |
| Stats.UserRows | backend/app/routers/stats.py:141-170 | The loop yields one entry for every non-admin user and for no one else, each that user's counts in scope, no entry twice. |
| Stats.UserRowsReordered | backend/app/routers/stats.py:172-173 | Reordering the entries for the sort loses, adds and duplicates no user's entry. |
| Stats.TeamStatsBounds | backend/app/routers/stats.py:186-204 | A team's completed tasks are among its tasks, its members are users, and the rate is a percentage. |
| Stats.GetTeamStats | backend/app/routers/stats.py:177-216 | Exactly one entry per team, counting tasks by team key and members by team key, sorted by rate and then completed, descending. |
| Stats.TeamRows | backend/app/routers/stats.py:184-213 | The loop yields one entry for every team and no other, each that team's counts in scope, no entry twice. |
| Stats.TeamRowsReordered | backend/app/routers/stats.py:215 | Reordering the entries for the sort loses, adds and duplicates no team's entry. |
| Stats.SemesterStatsBounds | backend/app/routers/stats.py:229-239 | A semester's completed tasks are among its tasks. Without events it has no tasks and rate 0. |
| Stats.GetSemesterStats | backend/app/routers/stats.py:219-251 | Exactly one entry per semester, latest start date first. |
| Stats.ActivityBounds | backend/app/routers/stats.py:266-280 | A week's created count is the number of tasks of its events, and completed ≤ created. |
| Stats.GetWeeklyActivity | backend/app/routers/stats.py:254-286 | Exactly one entry per week of the semester, by week number, with completed ≤ created, and zeros for a week without events. |
| Stats.GetActiveSemester | backend/app/routers/stats.py:81-91 | None iff no semester is active. Otherwise an active semester's id and name. |
| Audit.Filtered | backend/app/routers/audit.py:49-57 | The filtered log holds each matching entry as often as the log does, and nothing else. |
| Audit.FilteredExactly | backend/app/routers/audit.py:52-57 | An entry is in the filtered log iff it is logged and matches every given filter (AND). |
| Audit.NewerFirstIsPreorder | backend/app/routers/audit.py:64 | Newest first is a total preorder. |
| Audit.PageCount | backend/app/routers/audit.py:61 | `total_pages` is the ceiling of total / per_page: enough pages, none of them empty, and 0 exactly when there is nothing. |
| Audit.Ordered | backend/app/routers/audit.py:64 | The ordered log is a permutation of the filtered log, newest first. |
| Audit.Slice | backend/app/routers/audit.py:64-66 | `offset().limit()` takes the entries from the offset on, at most `limit` of them, and nothing past the end. |
| Audit.PageItems | backend/app/routers/audit.py:64-88 | A page has at most `per_page` rows, all matching, newest first. It is empty iff the offset is past the last matching entry. |
| Audit.PageBounds | backend/app/routers/audit.py:61-66 | Page `page` starts before the end iff it is one of the `total_pages` pages. |
| Audit.GetAuditLogs | backend/app/routers/audit.py:38-90 | `total` counts all matching entries whatever the page, and `total_pages` is its ceiling over `per_page`. The items are at most `per_page` matching rows, newest first. They are empty exactly past the last page. A page before the last is full, and the last holds the rest. |
| Audit.PageLength | backend/app/routers/audit.py:64-66 | A page starting inside the matching entries holds `per_page` rows, or all that remain when fewer are left. |
| Audit.PagesCover | backend/app/routers/audit.py:60-66 | Row j of page `page` is entry `(page-1)*per_page + j` of the newest-first filtered log, so the pages partition it. |
| Audit.Distinct | backend/app/routers/audit.py:99-100 | `DISTINCT` keeps every value once and adds none. |
| Audit.GetActionTypes | backend/app/routers/audit.py:93-100 | Every logged action appears, once, and nothing else. |
| Audit.GetEntityTypes | backend/app/routers/audit.py:103-110 | Every logged entity type appears, once, and nothing else. |

## Left out

- Sessions, cookies and password checking (`middleware/auth.py`). The current user is a
  parameter. `get_admin_user` becomes a `requires caller.role == Admin` on the admin
  endpoints, and the 403 it raises for a member is not modelled.
- Password hashing is an uninterpreted function `hash` passed in. bcrypt is not part of
  this model.
- Discord webhooks (`services/discord.py`) and FastAPI `BackgroundTasks`. They are
  recorded as a ghost outbox of calls, and the HTTP traffic, timeouts and retries are
  not modelled.
- The scheduler lifecycle (`start_scheduler`, `stop_scheduler`), app startup, CORS and
  settings.
- Clocks: `now` and `today` are parameters. Dates and datetimes are integers. ISO
  parsing and formatting are not modelled. A template request carries the parsed
  datetime, or None when it does not parse.
- Import file validation: dates, datetimes and enum names in an import file are taken
  as already parsed. A malformed date or an unknown enum name, which raises inside the
  `try` block and rolls the semester back, is not modelled.
- Floating point: `Stats.Rate` is the exact rational percentage. `round(_, 1)` is not
  applied, so two rates that round to the same value may still be ordered apart.
- `ilike` is modelled as equality after lower-casing the ASCII letters `A`-`Z`. Its `%`
  and `_` wildcards and the case folding of other letters are not modelled.
- SQLAlchemy flush, autoflush and commit timing. Each endpoint is one atomic step.
  The exceptions are the per-task commit of the reminder scan and the per-semester
  commit of the import. In the import, a duplicate roster or pool pair is the only
  commit failure modelled: it rolls the whole semester back, including the key counter.
  `Import.Counted` then still counts every week, event and task of the failed semester.
  That matches a session with autoflush off, as in `backend/tests/conftest.py:40`.
  With SQLAlchemy's default autoflush, the duplicate pair raises at the next query
  instead, and the source's counters stop partway through the semester.
- Database-level `ondelete` rules are not enforced, because SQLite runs without foreign
  keys. Only the ORM relationship cascades (semester → weeks → events → tasks) are
  modelled. Deleting a user or a task leaves its comments, roster and pool rows in place.
- The store uses one key counter for all tables. A database hands out keys per table.
- `Scheduler.CheckReminders`: an exception other than a failing commit is not modelled.
  `send_reminder` swallows its own errors. The position of the failing commit is the
  parameter `failAt`.
- Query order: a query without `order_by` returns keys in some order the model leaves
  open. Ties under `order_by` and under `sort` are likewise left open, except in
  `Audit.Ordered`, which is an insertion sort and so a fixed order. Its contract does
  not say how it orders entries with the same `created_at`.
- `Audit.Distinct` keeps values in order of first occurrence. SQL `DISTINCT` promises no
  order.
- `Audit.GetAuditLogs`: `page >= 1` and `10 <= per_page <= 100` are FastAPI's `Query`
  validation and become a `requires`. The 422 response for other values is not modelled.
- The older `Team.MEDIA` enum tag and the newer `team_id` key exist side by side. Each
  router reads the column it names. `Stats.GetUserStats` reports the enum tag as the team name.
- `Users.CreateUser`: the source's `create_user` reads `user_data.team`
  (`backend/app/routers/users.py:37`), a field `UserCreate` does not have. As written,
  every create with a free username therefore raises `AttributeError`, an HTTP 500. The
  model follows the behaviour `backend/tests/test_users.py:48-60` expects: it takes the
  team key from `team_id` and leaves the tag unset.
- `Templates.CreateFromTemplate`: the week id is not checked, just as in the source. A
  stub's `task_type` is taken as a valid enum name.
- Explicit JSON `null` in an update request: a nullable field (`discord_id`, `team_id`,
  a task's `description`, `assigned_to`, `assigned_team`) takes it as "set to null", and
  the model writes `None`. For a non-nullable field (`display_name`, `role`, `password`,
  `title`, `task_type`, an event's `name` or `datetime`, a semester's `name` or
  `is_active`, a week's `week_number`, week or semester dates) the
  source writes NULL and the commit fails on the NOT NULL column, or `hash_password(None)`
  raises. That server error is not modelled.
- Roster.AddToRoster: a user id repeated within one request counts as skipped the second
  time. That holds only when the session autoflushes the pending row before the
  `existing` query (SQLAlchemy's default). With autoflush off, as in
  `backend/tests/conftest.py:40`, both rows are added and the commit fails on
  `uq_semester_user`, a server error the model does not capture.
- Endpoints outside this model: `list_semesters`, `list_users`, `get_roster`,
  `export_all`, `get_templates`, the auth routes, and writing audit rows
  (`services/audit.py`). The audit log is read as given.
- `database.py` is not part of this model.
