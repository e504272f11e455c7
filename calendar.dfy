/** The semester -> week -> event -> task tree: the filters that select a node's
    children, the keys the ORM's delete cascade removes under a node, and the
    invariant that every child row's parent row is stored. */
module Calendar {
  import opened Types

  /** The filter `Week.semester_id == semester_id`. */
  function OfSemester(semesterId: int): Week -> bool {
    (w: Week) => w.semesterId == semesterId
  }

  function WeekNumber(w: Week): int {
    w.weekNumber
  }

  /** The filter `Event.week_id == week_id`. */
  function OfWeek(weekId: int): Event -> bool {
    (e: Event) => e.weekId == weekId
  }

  function Datetime(e: Event): int {
    e.datetime
  }

  /** Every week's semester, every event's week and every task's event is stored. */
  predicate Attached(semesters: map<int, Semester>, weeks: map<int, Week>, events: map<int, Event>,
                     tasks: map<int, Task>) {
    (forall k :: k in weeks ==> weeks[k].semesterId in semesters)
    && (forall k :: k in events ==> events[k].weekId in weeks)
    && (forall k :: k in tasks ==> tasks[k].eventId in events)
  }

  /** The weeks of the given semesters (`cascade="all, delete-orphan"` on `Semester.weeks`). */
  function WeeksUnder(weeks: map<int, Week>, semesterIds: set<int>): set<int> {
    set k | k in weeks && weeks[k].semesterId in semesterIds
  }

  /** The events of the given weeks (the cascade on `Week.events`). */
  function EventsUnder(events: map<int, Event>, weekIds: set<int>): set<int> {
    set k | k in events && events[k].weekId in weekIds
  }

  /** The tasks of the given events (the cascade on `Event.tasks`). */
  function TasksUnder(tasks: map<int, Task>, eventIds: set<int>): set<int> {
    set k | k in tasks && tasks[k].eventId in eventIds
  }

  /** Deleting an event with its tasks keeps the tree attached, and a task survives
      exactly when it belongs to another event. */
  lemma DeleteEventKeepsAttached(semesters: map<int, Semester>, weeks: map<int, Week>, events: map<int, Event>,
                                 tasks: map<int, Task>, id: int)
    requires Attached(semesters, weeks, events, tasks)
    ensures Attached(semesters, weeks, events - {id}, tasks - TasksUnder(tasks, {id}))
    ensures forall k :: k in tasks ==> (k in tasks - TasksUnder(tasks, {id}) <==> tasks[k].eventId != id)
  {
  }

  /** Deleting a week with its events and their tasks keeps the tree attached; no
      surviving event belongs to the week and no surviving task to one of its events. */
  lemma DeleteWeekKeepsAttached(semesters: map<int, Semester>, weeks: map<int, Week>, events: map<int, Event>,
                                tasks: map<int, Task>, id: int)
    requires Attached(semesters, weeks, events, tasks)
    ensures var es := EventsUnder(events, {id});
      Attached(semesters, weeks - {id}, events - es, tasks - TasksUnder(tasks, es))
    ensures forall k :: k in events ==> (k in events - EventsUnder(events, {id}) <==> events[k].weekId != id)
    ensures forall k :: k in tasks && tasks[k].eventId in events ==>
      (k in tasks - TasksUnder(tasks, EventsUnder(events, {id})) <==> events[tasks[k].eventId].weekId != id)
  {
  }

  /** Deleting a semester with its whole subtree keeps the tree attached; a task
      survives exactly when its event's week belongs to another semester. */
  lemma DeleteSemesterKeepsAttached(semesters: map<int, Semester>, weeks: map<int, Week>, events: map<int, Event>,
                                    tasks: map<int, Task>, id: int)
    requires Attached(semesters, weeks, events, tasks)
    ensures var ws := WeeksUnder(weeks, {id});
      var es := EventsUnder(events, ws);
      Attached(semesters - {id}, weeks - ws, events - es, tasks - TasksUnder(tasks, es))
    ensures forall k :: k in tasks ==>
      var ws := WeeksUnder(weeks, {id});
      (k in tasks - TasksUnder(tasks, EventsUnder(events, ws)) <==>
         weeks[events[tasks[k].eventId].weekId].semesterId != id)
  {
  }
}
