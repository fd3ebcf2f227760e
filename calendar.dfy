/** The calendar view of the dashboard: the user's tasks projected to calendar
    events by due date, and a task added by selecting a calendar slot. */
module Calendar {
  import opened Store
  import opened Text
  import opened Seqs

  /** A task as the calendar view types it: only `id`, `title` and `due_date`. */
  datatype Task = Task(id: string, title: string, dueDate: Option<string>)

  /** A calendar event. `start` and `end` are both built from the task's
      `due_date`; the date itself stays an uninterpreted string. */
  datatype Event = Event(id: string, title: string, start: string, end: string)

  /** `t.due_date` is truthy: `null`, `undefined` and `""` are the falsy values
      a due date can take. */
  predicate HasDate(t: Task)
    ensures HasDate(t) <==> t.dueDate != None && t.dueDate != Some("")
  {
    match t.dueDate
    case None => false
    case Some(d) => |d| > 0
  }

  /** The due date of a task, `""` when there is none. */
  function DateOf(t: Task): string
  {
    if t.dueDate.Some? then t.dueDate.value else []
  }

  /** The event for a dated task: its id and title, starting and ending on its due date. */
  function EventOf(t: Task): (e: Event)
    ensures HasDate(t) ==> Some(e.start) == t.dueDate && Some(e.end) == t.dueDate
    ensures e.id == t.id && e.title == t.title
  {
    Event(t.id, t.title, DateOf(t), DateOf(t))
  }

  /** `tasks.filter(t => t.due_date).map(...)`: at most one event per task. */
  function Events(ts: seq<Task>): (r: seq<Event>)
    ensures |r| <= |ts|
  {
    Map(EventOf, Filter(HasDate, ts))
  }

  /** The events of a list are the events of its parts, in order. */
  lemma EventsAppend(xs: seq<Task>, ys: seq<Task>)
    ensures Events(xs + ys) == Events(xs) + Events(ys)
  {
    FilterAppend(HasDate, xs, ys);
    MapAppend(EventOf, Filter(HasDate, xs), Filter(HasDate, ys));
  }

  /** A single task yields one event when it has a due date and none otherwise. */
  lemma EventsOne(t: Task)
    ensures Events([t]) == if HasDate(t) then [EventOf(t)] else []
  {
    assert [t][1..] == [];
  }

  /** Exactly the dated tasks yield events: each event comes from a dated task
      of the list, starts when it ends, and every dated task has its event. */
  lemma EventsExactly(ts: seq<Task>)
    ensures forall e :: e in Events(ts) ==>
              e.start == e.end && exists t :: t in ts && HasDate(t) && e == EventOf(t)
    ensures forall t :: t in ts && HasDate(t) ==> EventOf(t) in Events(ts)
  {
    var dated := Filter(HasDate, ts);
    FilterMember(HasDate, ts);
    forall e | e in Events(ts)
      ensures e.start == e.end && exists t :: t in ts && HasDate(t) && e == EventOf(t)
    {
      var i :| 0 <= i < |dated| && Events(ts)[i] == e;
      assert dated[i] in dated;
    }
    forall t | t in ts && HasDate(t)
      ensures EventOf(t) in Events(ts)
    {
      var i :| 0 <= i < |dated| && dated[i] == t;
      assert Events(ts)[i] == EventOf(t);
    }
  }

  /** Whether each task of a list has a due date, in order. */
  ghost function Datedness(ts: seq<Task>): seq<bool>
  {
    seq(|ts|, i requires 0 <= i < |ts| => HasDate(ts[i]))
  }

  /** There are as many events as dated tasks. */
  lemma {:induction false} EventCount(ts: seq<Task>)
    ensures |Events(ts)| == multiset(Datedness(ts))[true]
  {
    if ts != [] {
      EventCount(ts[1..]);
      assert Datedness(ts) == [HasDate(ts[0])] + Datedness(ts[1..]);
    }
  }

  /** Tasks with a null, missing or empty due date never reach the calendar. */
  lemma UndatedDropped(ts: seq<Task>, t: Task)
    requires !HasDate(t)
    ensures Events(ts + [t]) == Events(ts)
    ensures Events([t] + ts) == Events(ts)
  {
    EventsAppend(ts, [t]);
    EventsAppend([t], ts);
    EventsOne(t);
  }

  /** The row an accepted prompt answer is inserted as, or nothing when the
      prompt was cancelled or answered with blanks. */
  function PromptedRow(uid: string, answer: Option<string>, slot: string): (r: Option<NewRow>)
    ensures r.None? <==> answer.None? || IsBlank(answer.value)
    ensures r.Some? ==> r.value.title == Trim(answer.value) && r.value.title != []
    ensures r.Some? ==> r.value.userId == uid && r.value.status == Todo && r.value.dueDate == Some(slot)
  {
    if answer.None? then None
    else
      TrimEmptyIffBlank(answer.value);
      if Trim(answer.value) == [] then None
      else Some(NewRow(Trim(answer.value), uid, Todo, Some(slot)))
  }

  /** Adding a row from a slot adds at most its one event, at the end. */
  lemma AddedRowEvents(ts: seq<Task>, reply: InsertReply<Task>)
    ensures Events(Appended(ts, reply)) ==
              Events(ts) + (if reply.Inserted? && HasDate(reply.row) then [EventOf(reply.row)] else [])
  {
    if reply.Inserted? {
      EventsAppend(ts, [reply.row]);
      EventsOne(reply.row);
    } else {
      assert Events(ts) + [] == Events(ts);
    }
  }

  /** The alert the user sees after a slot is selected, if any. */
  datatype Notice = SignInRequired | SaveFailed | Added | NoNotice

  class View {
    var tasks: seq<Task>
    var user: Option<string>

    constructor ()
      ensures tasks == [] && user == None
    {
      tasks := [];
      user := None;
    }

    /** The mount effect: with a signed-in user, remember it and fetch that
        user's tasks; without one, nothing happens. */
    method Mount(signedIn: Option<string>, select: string -> Option<seq<Task>>)
      modifies this
      ensures signedIn.None? ==> user == old(user) && tasks == old(tasks)
      ensures signedIn.Some? ==> user == signedIn && tasks == OrEmpty(select(signedIn.value))
    {
      if signedIn.Some? {
        user := signedIn;
        FetchTasks(signedIn.value, select);
      }
    }

    /** `fetchTasks`: the list becomes what the store returns for the user, or
        empty when it returns no data. */
    method FetchTasks(uid: string, select: string -> Option<seq<Task>>)
      modifies this`tasks
      ensures tasks == OrEmpty(select(uid))
    {
      var data := select(uid);
      tasks := OrEmpty(data);
    }

    /** `addTaskFromCalendar`. Without a user it asks the user to sign in; on a
        cancelled or blank prompt it does nothing; otherwise it inserts the row
        for the slot and, unless the store reports an error, appends the row
        that comes back. The list changes only by that append. */
    method AddTaskFromCalendar(slot: string, answer: Option<string>, insert: NewRow -> InsertReply<Task>)
      returns (sent: Option<Request>, notice: Notice)
      modifies this`tasks
      ensures user.None? ==> sent == None && notice == SignInRequired && tasks == old(tasks)
      ensures user.Some? && PromptedRow(user.value, answer, slot).None? ==>
                sent == None && notice == NoNotice && tasks == old(tasks)
      ensures user.Some? && PromptedRow(user.value, answer, slot).Some? ==>
                var row := PromptedRow(user.value, answer, slot).value;
                sent == Some(Insert(row))
                && tasks == Appended(old(tasks), insert(row))
                && notice == match insert(row)
                             case Failed(_) => SaveFailed
                             case Inserted(_) => Added
                             case NoData => NoNotice
    {
      if user.None? {
        return None, SignInRequired;
      }
      var row := PromptedRow(user.value, answer, slot);
      if row.None? {
        return None, NoNotice;
      }
      sent := Some(Insert(row.value));
      var reply := insert(row.value);
      if reply.Failed? {
        notice := SaveFailed;
        return;
      }
      if reply.Inserted? {
        tasks := tasks + [reply.row];
        notice := Added;
      } else {
        notice := NoNotice;
      }
    }
  }
}
