/** The kanban board of the dashboard: an in-memory, ordered list of the signed-in
    user's tasks, three columns over it (one per status), a column cursor, a
    per-status count for the pie chart, and the handlers that add, move and
    delete tasks. */
module Kanban {
  import opened Store
  import opened Text
  import opened Seqs

  /** A task as the board holds it; `due_date` and `user_id` may be absent. */
  datatype Task = Task(id: string, title: string, status: Status, dueDate: Option<string>, userId: Option<string>)

  /** One entry of the `columns` table: the status it shows, its heading and its border style. */
  datatype Column = Column(key: Status, title: string, color: string)

  const Columns: seq<Column> := [
    Column(Todo, "Por hacer", "border-l-4 border-amber-400"),
    Column(Doing, "En progreso", "border-l-4 border-yellow-400"),
    Column(Done, "Completado", "border-l-4 border-green-400")
  ]

  /** Every status has exactly one column. */
  function ColumnOf(s: Status): (i: nat)
    ensures i < |Columns| && Columns[i].key == s
    ensures forall j :: 0 <= j < |Columns| && Columns[j].key == s ==> j == i
  {
    match s
    case Todo => 0
    case Doing => 1
    case Done => 2
  }

  // ------------------------------------------------------------------
  // moveTask: tasks.map(t => t.id === id ? { ...t, status } : t)

  function Restatus(id: string, s: Status): Task -> Task
  {
    (t: Task) => if t.id == id then t.(status := s) else t
  }

  /** Same length, same ids in the same order; a task with the given id gets
      status `s` and keeps its other fields; every other task is unchanged. */
  function SetStatus(ts: seq<Task>, id: string, s: Status): (r: seq<Task>)
    ensures |r| == |ts|
    ensures forall i :: 0 <= i < |ts| ==> r[i].id == ts[i].id
    ensures forall i :: 0 <= i < |ts| && ts[i].id == id ==>
              r[i].status == s && r[i].title == ts[i].title
              && r[i].dueDate == ts[i].dueDate && r[i].userId == ts[i].userId
    ensures forall i :: 0 <= i < |ts| && ts[i].id != id ==> r[i] == ts[i]
  {
    Map(Restatus(id, s), ts)
  }

  /** Of two moves of the same id, the later one wins. */
  lemma MoveTwice(ts: seq<Task>, id: string, s: Status, s': Status)
    ensures SetStatus(SetStatus(ts, id, s), id, s') == SetStatus(ts, id, s')
  {
  }

  // ------------------------------------------------------------------
  // deleteTask: tasks.filter(t => t.id !== id)

  function IdIsNot(id: string): Task -> bool
  {
    (t: Task) => t.id != id
  }

  /** No task with the given id is left. */
  function WithoutId(ts: seq<Task>, id: string): (r: seq<Task>)
    ensures |r| <= |ts|
    ensures forall i :: 0 <= i < |r| ==> r[i].id != id
  {
    Filter(IdIsNot(id), ts)
  }

  /** The ids of a list, in order. */
  ghost function Ids(ts: seq<Task>): seq<string>
  {
    seq(|ts|, i requires 0 <= i < |ts| => ts[i].id)
  }

  /** Deleting keeps exactly the tasks with another id, in their original order. */
  lemma DeleteKeepsOthers(ts: seq<Task>, id: string)
    ensures forall t :: t in WithoutId(ts, id) <==> t in ts && t.id != id
    ensures Subsequence(WithoutId(ts, id), ts)
  {
    FilterMember(IdIsNot(id), ts);
    FilterSubsequence(IdIsNot(id), ts);
  }

  /** Deleting shortens the list by the number of tasks carrying the id. */
  lemma {:induction false} DeleteLength(ts: seq<Task>, id: string)
    ensures |WithoutId(ts, id)| == |ts| - multiset(Ids(ts))[id]
  {
    if ts != [] {
      DeleteLength(ts[1..], id);
      assert Ids(ts) == [ts[0].id] + Ids(ts[1..]);
    }
  }

  // ------------------------------------------------------------------
  // Columns: tasks.filter(t => t.status === current.key)

  function StatusIs(s: Status): Task -> bool
  {
    (t: Task) => t.status == s
  }

  /** The tasks of one status, in list order. */
  function OfStatus(ts: seq<Task>, s: Status): (r: seq<Task>)
    ensures |r| <= |ts|
    ensures forall i :: 0 <= i < |r| ==> r[i].status == s
  {
    Filter(StatusIs(s), ts)
  }

  /** The tasks of column `c`, in list order. */
  function Visible(ts: seq<Task>, c: int): (r: seq<Task>)
    requires 0 <= c < |Columns|
    ensures |r| <= |ts|
    ensures forall i :: 0 <= i < |r| ==> r[i].status == Columns[c].key
  {
    OfStatus(ts, Columns[c].key)
  }

  /** The visible list is exactly the tasks whose status is the column's key, in list order. */
  lemma VisibleExactly(ts: seq<Task>, c: int)
    requires 0 <= c < |Columns|
    ensures forall t :: t in Visible(ts, c) <==> t in ts && t.status == Columns[c].key
    ensures Subsequence(Visible(ts, c), ts)
  {
    FilterMember(StatusIs(Columns[c].key), ts);
    FilterSubsequence(StatusIs(Columns[c].key), ts);
  }

  /** After a move, every task with that id shows in the target column and in no other. */
  lemma MovedTaskChangesColumn(ts: seq<Task>, id: string, s: Status, other: Status)
    requires other != s
    ensures forall t :: t in ts && t.id == id ==> t.(status := s) in OfStatus(SetStatus(ts, id, s), s)
    ensures forall t :: t in OfStatus(SetStatus(ts, id, s), other) ==> t.id != id
  {
    var r := SetStatus(ts, id, s);
    FilterMember(StatusIs(s), r);
    FilterMember(StatusIs(other), r);
    forall t | t in ts && t.id == id
      ensures t.(status := s) in r
    {
      var i :| 0 <= i < |ts| && ts[i] == t;
      assert r[i] == t.(status := s);
    }
    forall t | t in OfStatus(r, other)
      ensures t.id != id
    {
      var i :| 0 <= i < |r| && r[i] == t;
    }
  }

  // ------------------------------------------------------------------
  // pieData: one slice per column, valued by filter(...).length

  datatype Slice = Slice(name: string, value: nat)

  /** One slice per column, in column order, named after the column. */
  function PieData(ts: seq<Task>): (r: seq<Slice>)
    ensures |r| == |Columns|
    ensures forall i :: 0 <= i < |r| ==> r[i].name == Columns[i].title
  {
    [ Slice("Por hacer", |OfStatus(ts, Todo)|),
      Slice("En progreso", |OfStatus(ts, Doing)|),
      Slice("Completado", |OfStatus(ts, Done)|) ]
  }

  /** The statuses of a list, in order. */
  ghost function Statuses(ts: seq<Task>): seq<Status>
  {
    seq(|ts|, i requires 0 <= i < |ts| => ts[i].status)
  }

  /** The length of a status filter is the number of tasks with that status. */
  lemma {:induction false} CountIsMultiplicity(ts: seq<Task>, s: Status)
    ensures |OfStatus(ts, s)| == multiset(Statuses(ts))[s]
  {
    if ts != [] {
      CountIsMultiplicity(ts[1..], s);
      assert Statuses(ts) == [ts[0].status] + Statuses(ts[1..]);
    }
  }

  /** The three status counts add up to the length of the list. */
  lemma {:induction false} CountsSum(ts: seq<Task>)
    ensures |OfStatus(ts, Todo)| + |OfStatus(ts, Doing)| + |OfStatus(ts, Done)| == |ts|
  {
    if ts != [] {
      CountsSum(ts[1..]);
    }
  }

  /** Each slice counts the tasks of its column's status, and the slices cover the list. */
  lemma PieCounts(ts: seq<Task>)
    ensures forall i :: 0 <= i < |Columns| ==> PieData(ts)[i].value == multiset(Statuses(ts))[Columns[i].key]
    ensures PieData(ts)[0].value + PieData(ts)[1].value + PieData(ts)[2].value == |ts|
  {
    CountIsMultiplicity(ts, Todo);
    CountIsMultiplicity(ts, Doing);
    CountIsMultiplicity(ts, Done);
    CountsSum(ts);
  }

  /** Moving tasks never changes how many tasks the pie chart counts. */
  lemma MovePreservesTotal(ts: seq<Task>, id: string, s: Status)
    ensures PieData(SetStatus(ts, id, s))[0].value + PieData(SetStatus(ts, id, s))[1].value
            + PieData(SetStatus(ts, id, s))[2].value == |ts|
  {
    PieCounts(SetStatus(ts, id, s));
  }

  // ------------------------------------------------------------------
  // The column cursor and its two arrow buttons

  /** `Math.max(0, c - 1)`: stays in range, stays at 0, otherwise one step left. */
  function Prev(c: int): (r: int)
    requires 0 <= c < |Columns|
    ensures 0 <= r < |Columns|
    ensures c == 0 ==> r == c
    ensures c > 0 ==> r == c - 1
  {
    if 0 >= c - 1 then 0 else c - 1
  }

  /** `Math.min(columns.length - 1, c + 1)`: stays in range, stays at the last
      column, otherwise one step right. */
  function Next(c: int): (r: int)
    requires 0 <= c < |Columns|
    ensures 0 <= r < |Columns|
    ensures c == |Columns| - 1 ==> r == c
    ensures c < |Columns| - 1 ==> r == c + 1
  {
    if |Columns| - 1 <= c + 1 then |Columns| - 1 else c + 1
  }

  /** The left arrow is disabled on the first column, the only place where
      clicking it would not move the cursor. */
  predicate PrevEnabled(c: int)
    requires 0 <= c < |Columns|
    ensures PrevEnabled(c) <==> Prev(c) != c
  {
    c != 0
  }

  /** The right arrow is disabled on the last column, the only place where
      clicking it would not move the cursor. */
  predicate NextEnabled(c: int)
    requires 0 <= c < |Columns|
    ensures NextEnabled(c) <==> Next(c) != c
  {
    c != |Columns| - 1
  }

  /** An arrow is enabled exactly when clicking it would move the cursor, and a
      step one way is undone by a step the other way. */
  lemma CursorSteps(c: int)
    requires 0 <= c < |Columns|
    ensures PrevEnabled(c) <==> Prev(c) != c
    ensures NextEnabled(c) <==> Next(c) != c
    ensures PrevEnabled(c) ==> Next(Prev(c)) == c
    ensures NextEnabled(c) ==> Prev(Next(c)) == c
  {
  }

  // ------------------------------------------------------------------
  // Move buttons: back to `todo` unless in `todo`, on to `done` unless in `done`

  /** The targets column `key` offers, left arrow first: never the column itself,
      never `doing`. */
  function MoveTargets(key: Status): (r: seq<Status>)
    ensures forall s :: s in r <==> s != key && s != Doing
    ensures |r| == if key == Doing then 2 else 1
  {
    (if key != Todo then [Todo] else []) + (if key != Done then [Done] else [])
  }

  /** A move button on a shown task never targets the task's own status. */
  lemma MoveLeavesColumn(ts: seq<Task>, c: int, t: Task, s: Status)
    requires 0 <= c < |Columns|
    requires t in Visible(ts, c)
    requires s in MoveTargets(Columns[c].key)
    ensures s != t.status
  {
    VisibleExactly(ts, c);
  }

  // ------------------------------------------------------------------
  // addTask: the row it inserts

  /** The insert `addTask` issues for the drafts, or nothing when the trimmed
      draft is empty or nobody is signed in. */
  function DraftRow(draft: string, date: string, user: Option<string>): (r: Option<NewRow>)
    ensures r.None? <==> IsBlank(draft) || user.None?
    ensures r.Some? ==> r.value.title == Trim(draft) && r.value.title != []
    ensures r.Some? ==> r.value.userId == user.value && r.value.status == Todo
    ensures r.Some? ==> (r.value.dueDate.None? <==> date == [])
    ensures r.Some? && date != [] ==> r.value.dueDate == Some(date)
  {
    TrimEmptyIffBlank(draft);
    if Trim(draft) == [] || user.None? then None
    else Some(NewRow(Trim(draft), user.value, Todo, if date == [] then None else Some(date)))
  }

  // ------------------------------------------------------------------
  // The component's state and handlers

  class Board {
    var tasks: seq<Task>
    var user: Option<string>
    var newTask: string
    var newDate: string
    var loading: bool
    var currentColumn: int

    /** The cursor always names a column. */
    ghost predicate Valid()
      reads this
    {
      0 <= currentColumn < |Columns|
    }

    constructor ()
      ensures Valid()
      ensures tasks == [] && user == None && newTask == [] && newDate == []
      ensures loading && currentColumn == 0
    {
      tasks := [];
      user := None;
      newTask := [];
      newDate := [];
      loading := true;
      currentColumn := 0;
    }

    /** `columns[currentColumn]`: the column of the cursor, whose status maps
        back to the cursor. */
    function Current(): (col: Column)
      reads this
      requires Valid()
      ensures col in Columns && ColumnOf(col.key) == currentColumn
    {
      Columns[currentColumn]
    }

    /** The task cards the board renders: none while loading, otherwise exactly
        the tasks of the current column, in list order. */
    function Shown(): (r: seq<Task>)
      reads this
      requires Valid()
      ensures loading ==> r == []
      ensures !loading ==> forall t :: t in r <==> t in tasks && t.status == Current().key
      ensures Subsequence(r, tasks)
    {
      VisibleExactly(tasks, currentColumn);
      if loading then [] else Visible(tasks, currentColumn)
    }

    /** The mount effect: with a signed-in user, remember it and fetch that
        user's tasks; without one, nothing happens. */
    method Mount(signedIn: Option<string>, select: string -> Option<seq<Task>>)
      requires Valid()
      modifies this`user, this`tasks, this`loading
      ensures Valid()
      ensures signedIn.None? ==> user == old(user) && tasks == old(tasks) && loading == old(loading)
      ensures signedIn.Some? ==> user == signedIn && tasks == OrEmpty(select(signedIn.value)) && !loading
    {
      if signedIn.Some? {
        user := signedIn;
        FetchTasks(signedIn.value, select);
      }
    }

    /** `fetchTasks`: the list becomes what the store returns for the user, or
        empty when it returns no data. */
    method FetchTasks(uid: string, select: string -> Option<seq<Task>>)
      requires Valid()
      modifies this`tasks, this`loading
      ensures Valid()
      ensures tasks == OrEmpty(select(uid)) && !loading
    {
      loading := true;
      var data := select(uid);
      tasks := OrEmpty(data);
      loading := false;
    }

    /** The title input's `onChange`. */
    method EditTitle(value: string)
      modifies this`newTask
      ensures newTask == value
    {
      newTask := value;
    }

    /** The date input's `onChange`. */
    method EditDate(value: string)
      modifies this`newDate
      ensures newDate == value
    {
      newDate := value;
    }

    /** `addTask`: declines (nothing sent, nothing changed) on a blank draft or
        without a user; otherwise sends the draft row, appends the returned row
        if any, and clears both drafts whatever came back. */
    method AddTask(insert: NewRow -> InsertReply<Task>) returns (sent: Option<Request>)
      requires Valid()
      modifies this`tasks, this`newTask, this`newDate
      ensures Valid()
      ensures sent.None? <==> IsBlank(old(newTask)) || user.None?
      ensures sent.None? ==> tasks == old(tasks) && newTask == old(newTask) && newDate == old(newDate)
      ensures sent.Some? ==>
                var row := DraftRow(old(newTask), old(newDate), user).value;
                sent == Some(Insert(row)) && tasks == Appended(old(tasks), insert(row))
                && newTask == [] && newDate == []
    {
      var draft := DraftRow(newTask, newDate, user);
      if draft.None? {
        return None;
      }
      var reply := insert(draft.value);
      tasks := Appended(tasks, reply);
      newTask := [];
      newDate := [];
      sent := Some(Insert(draft.value));
    }

    /** `moveTask`: sends the update and patches the list whatever the reply. */
    method MoveTask(id: string, s: Status, reply: Outcome) returns (sent: Request)
      requires Valid()
      modifies this`tasks
      ensures Valid()
      ensures sent == UpdateStatus(id, s)
      ensures tasks == SetStatus(old(tasks), id, s)
    {
      sent := UpdateStatus(id, s);
      tasks := SetStatus(tasks, id, s);
    }

    /** `deleteTask`: sends the delete and patches the list whatever the reply. */
    method DeleteTask(id: string, reply: Outcome) returns (sent: Request)
      requires Valid()
      modifies this`tasks
      ensures Valid()
      ensures sent == Delete(id)
      ensures tasks == WithoutId(old(tasks), id)
    {
      sent := Delete(id);
      tasks := WithoutId(tasks, id);
    }

    /** The left arrow: ignored while disabled, otherwise one column left. */
    method PrevColumn()
      requires Valid()
      modifies this`currentColumn
      ensures Valid()
      ensures currentColumn == Prev(old(currentColumn))
    {
      if PrevEnabled(currentColumn) {
        currentColumn := Prev(currentColumn);
      }
    }

    /** The right arrow: ignored while disabled, otherwise one column right. */
    method NextColumn()
      requires Valid()
      modifies this`currentColumn
      ensures Valid()
      ensures currentColumn == Next(old(currentColumn))
    {
      if NextEnabled(currentColumn) {
        currentColumn := Next(currentColumn);
      }
    }
  }
}
