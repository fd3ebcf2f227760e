/** The remote `tasks` table as the dashboard views see it. The hosted store
    itself is not modelled: a view hands it a request and gets back a reply,
    and the replies are parameters of the handlers. */
module Store {

  datatype Option<+T> = None | Some(value: T)

  /** The `status` column: exactly three values, one per kanban column. */
  datatype Status = Todo | Doing | Done

  /** The row a view asks the store to insert: `title`, `user_id`, `status`
      and `due_date` (absent when the JavaScript value is `null`). */
  datatype NewRow = NewRow(title: string, userId: string, status: Status, dueDate: Option<string>)

  /** What `insert([row]).select()` yields: the inserted row, no data, or an error. */
  datatype InsertReply<+T> = Inserted(row: T) | NoData | Failed(message: string)

  /** What an `update(...)` or `delete()` call yields. */
  datatype Outcome = Succeeded | Errored(message: string)

  /** A write a handler sends to the store. */
  datatype Request =
    | Insert(row: NewRow)
    | UpdateStatus(id: string, status: Status)   // update({ status }).eq('id', id)
    | Delete(id: string)                         // delete().eq('id', id)

  /** `[...tasks, data[0]]` when a row came back, `tasks` otherwise: the old list
      is kept as a prefix and at most the one returned row follows it. */
  function Appended<T>(ts: seq<T>, reply: InsertReply<T>): (r: seq<T>)
    ensures |r| == |ts| + (if reply.Inserted? then 1 else 0)
    ensures r[..|ts|] == ts
    ensures reply.Inserted? ==> r[|ts|] == reply.row
  {
    if reply.Inserted? then ts + [reply.row] else ts
  }

  /** `data || []`: the fetched rows, or none when the store returned no data. */
  function OrEmpty<T>(data: Option<seq<T>>): (r: seq<T>)
    ensures data.Some? ==> r == data.value
    ensures data.None? ==> r == []
  {
    if data.Some? then data.value else []
  }
}
