/** The earlier `taskRepository`: every statement runs directly on the pool and is
    committed on its own, and failures are reported as plain error texts built with
    `fmt.Errorf`. It writes the same `tasks` table as the transactional revision. */
module LegacyTaskRepo {
  import opened Wrappers
  import opened AppErrors
  import opened Models
  import opened Storage
  import opened GoFormat
  import opened TaskTable

  /** `fmt.Errorf("<context>: %v", err)`. */
  function Wrapped(context: string, e: GoError): string {
    context + ": " + ErrorText(e)
  }

  /** The text of every `GetAllTasksForUser` failure: the user id, quoted, then the
      driver's text. */
  function TasksByUserError(userId: string, e: GoError): string {
    "tasksByUser " + Quote(userId) + ": " + ErrorText(e)
  }

  /** The failure text names the user it was about, and carries the driver's text
      unchanged: both can be read back from it. */
  lemma TasksByUserErrorReadsBack(userId: string, e: GoError)
    ensures var s := TasksByUserError(userId, e);
            |s| >= 12 && s[..12] == "tasksByUser " &&
            Unquote(s[12..]) == Some((userId, ": " + ErrorText(e)))
  {
    var p, rest := "tasksByUser ", Quote(userId) + (": " + ErrorText(e));
    assert TasksByUserError(userId, e) == p + rest;
    assert |p| == 12;
    assert (p + rest)[..12] == p && (p + rest)[12..] == rest;
    UnquoteQuote(userId, ": " + ErrorText(e));
  }

  class LegacyTaskRepository {
    var table: map<string, TaskRow>

    ghost predicate Valid()
      reads this
    {
      ValidTable(table)
    }

    constructor (rows: map<string, TaskRow>)
      requires ValidTable(rows)
      ensures Valid() && table == rows
    {
      table := rows;
    }

    /** `Create`: one INSERT under the fresh id `newId`, with priority and status
        written through `String()`, so an out-of-range value is stored as "medium" or
        "pending". Returns the id, or "" and a "createTask: " error when the INSERT
        fails. */
    method Create(task: DBTask, newId: string, stamp: Instant, fault: Fault)
      returns (id: string, err: Option<string>)
      requires Valid() && newId !in table
      modifies this
      ensures Valid()
      ensures FailsAt(fault, Exec) ==>
                id == "" && err == Some(Wrapped("createTask", fault.err)) && table == old(table)
      ensures !FailsAt(fault, Exec) ==>
                id == newId && err.None? && table == old(table)[newId := InsertedRow(task, stamp)]
      ensures !FailsAt(fault, Exec) ==>
                table[newId].priority == PriorityString(task.priority)
                && table[newId].status == StatusString(task.status)
    {
      var taskId := newId;
      if FailsAt(fault, Exec) {
        return "", Some(Wrapped("createTask", fault.err));
      }
      table := table[taskId := InsertedRow(task, stamp)];
      return taskId, None;
    }

    /** `GetAllTasksForUser`: the user's tasks in the cursor's order; the slice stays
        nil when no row matches. Any query, scan or cursor error returns a nil slice
        and a "tasksByUser" error, never a partial result. */
    method GetAllTasksForUser(userId: string, cursor: seq<string>, fault: Fault)
      returns (tasks: Option<seq<DBTask>>, err: Option<string>)
      requires Valid()
      requires EnumeratesExactly(cursor, IdsOwnedBy(table, userId))
      ensures err.None? <==> !FailsWhileReading(fault, |cursor|)
      ensures err.Some? ==> tasks.None? && err.value == TasksByUserError(userId, fault.err)
      ensures err.None? ==> (tasks.None? <==> IdsOwnedBy(table, userId) == {})
      ensures err.None? ==>
                && |Items(tasks)| == |cursor|
                && forall k :: 0 <= k < |cursor| ==>
                     cursor[k] in table && Items(tasks)[k] == TaskOf(cursor[k], table[cursor[k]])
    {
      tasks := None;
      if FailsAt(fault, Query) {
        return None, Some(TasksByUserError(userId, fault.err));
      }
      var i := 0;
      while i < |cursor|
        invariant 0 <= i <= |cursor|
        invariant tasks.None? <==> i == 0
        invariant |Items(tasks)| == i
        invariant forall k :: 0 <= k < i ==>
                    cursor[k] in table && Items(tasks)[k] == TaskOf(cursor[k], table[cursor[k]])
        invariant !FailsIn(fault, set k | 0 <= k < i :: ScanRow(k))
      {
        if FailsAt(fault, ScanRow(i)) {
          return None, Some(TasksByUserError(userId, fault.err));
        }
        var scanned := ScanTaskRow(cursor[i], table[cursor[i]]);
        tasks := Some(Items(tasks) + [scanned.value]);
        i := i + 1;
      }
      if FailsAt(fault, Cursor) {
        return None, Some(TasksByUserError(userId, fault.err));
      }
      if cursor != [] {
        assert cursor[0] in IdsOwnedBy(table, userId);
      }
      return tasks, None;
    }

    /** `Update`: one UPDATE of the seven columns, committed as soon as it runs, so the
        change stands even when reading the rows-affected count then fails. An absent
        id gives "updateTask: no task found with id <id>". */
    method Update(task: DBTask, fault: Fault) returns (err: Option<string>)
      requires Valid()
      modifies this
      ensures Valid()
      ensures FailsAt(fault, Exec) ==>
                table == old(table) && err == Some(Wrapped("updateTask", fault.err))
      ensures !FailsAt(fault, Exec) && task.id in old(table) ==>
                table == old(table)[task.id := UpdatedRow(old(table)[task.id], task)]
      ensures !FailsAt(fault, Exec) && task.id !in old(table) ==> table == old(table)
      ensures FailsAt(fault, RowsAffected) ==>
                err == Some(Wrapped("updateTask: could not fetch rows affected", fault.err))
      ensures !FailsIn(fault, {Exec, RowsAffected}) ==>
                (err.None? <==> task.id in old(table))
                && (task.id !in old(table) ==>
                      err == Some("updateTask: no task found with id " + task.id))
    {
      if FailsAt(fault, Exec) {
        return Some(Wrapped("updateTask", fault.err));
      }
      var affected := if task.id in table then 1 else 0;
      if task.id in table {
        table := table[task.id := UpdatedRow(table[task.id], task)];
      }
      if FailsAt(fault, RowsAffected) {
        return Some(Wrapped("updateTask: could not fetch rows affected", fault.err));
      }
      if affected == 0 {
        return Some("updateTask: no task found with id " + task.id);
      }
      return None;
    }

    /** `Delete`: one DELETE, committed as soon as it runs. An absent id gives a text
        that speaks of a category: "deleteTask: no category found with id <id>". */
    method Delete(id: string, fault: Fault) returns (err: Option<string>)
      requires Valid()
      modifies this
      ensures Valid()
      ensures FailsAt(fault, Exec) ==>
                table == old(table) && err == Some(Wrapped("deleteTask", fault.err))
      ensures !FailsAt(fault, Exec) ==> table == old(table) - {id}
      ensures FailsAt(fault, RowsAffected) ==>
                err == Some(Wrapped("deleteTask: could not fetch rows affected", fault.err))
      ensures !FailsIn(fault, {Exec, RowsAffected}) ==>
                (err.None? <==> id in old(table))
                && (id !in old(table) ==> err == Some("deleteTask: no category found with id " + id))
    {
      if FailsAt(fault, Exec) {
        return Some(Wrapped("deleteTask", fault.err));
      }
      var affected := if id in table then 1 else 0;
      table := table - {id};
      if FailsAt(fault, RowsAffected) {
        return Some(Wrapped("deleteTask: could not fetch rows affected", fault.err));
      }
      if affected == 0 {
        return Some("deleteTask: no category found with id " + id);
      }
      return None;
    }
  }
}
