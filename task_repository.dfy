/** `taskRepository`: tasks persisted through transactions. `Begin` takes a copy of
    the table, statements change the copy, `Commit` installs it, and the deferred
    `Rollback` discards it on every early return. Every driver failure is returned
    through `HandleDatabaseError`. */
module TaskRepo {
  import opened Wrappers
  import opened AppErrors
  import opened DatabaseErrors
  import opened Models
  import opened Storage
  import opened TaskTable

  /** The error `validateRowsAffected` synthesises when no row matched. */
  function NoTaskFound(id: string): GoError {
    DriverError(NoRowFoundText("task", id))
  }

  /** `validateRowsAffected`: no error exactly when the driver reports the count and
      it is positive. A zero count is classified from a synthesised error that is not
      `sql.ErrNoRows`, so it is never NOT_FOUND. */
  function ValidateRowsAffected(affected: nat, fault: Fault, operation: string, id: string)
    : (e: Option<AppError>)
    ensures e.None? <==> !FailsAt(fault, RowsAffected) && affected > 0
    ensures FailsAt(fault, RowsAffected) ==> e == Some(HandleDatabaseError(operation, fault.err))
    ensures !FailsAt(fault, RowsAffected) && affected == 0 ==>
              e == Some(HandleDatabaseError(operation, NoTaskFound(id)))
              && e.value.kind == DatabaseError && e.value.statusCode == StatusInternalServerError
  {
    if FailsAt(fault, RowsAffected) then Some(HandleDatabaseError(operation, fault.err))
    else if affected == 0 then Some(HandleDatabaseError(operation, NoTaskFound(id)))
    else None
  }

  /** The read-back after the INSERT selects only id and created_at into a zero task. */
  function CreatedTask(id: string, row: TaskRow): DBTask {
    EmptyTask.(id := id, createdAt := row.createdAt)
  }

  class TaskRepository {
    var table: map<string, TaskRow>

    ghost predicate Valid()
      reads this
    {
      ValidTable(table)
    }

    constructor (rows: map<string, TaskRow>)
      requires ValidTable(rows)
      ensures Valid() && table == rows
    {
      table := rows;
    }

    /** `Create`: inserts the caller's task under the fresh id `newId` (standing for
        `uuid.NewString()`; the caller's id is ignored) and returns a task holding only
        that id and the database's `created_at`. Any failure leaves the table as it
        was. */
    method Create(task: DBTask, newId: string, stamp: Instant, fault: Fault)
      returns (r: Result<DBTask, AppError>)
      requires Valid() && newId !in table
      modifies this
      ensures Valid()
      ensures r.Success? <==> !FailsIn(fault, {Begin, Exec, ReadBack, Commit})
      ensures r.Success? ==> table == old(table)[newId := InsertedRow(task, stamp)]
      ensures r.Success? ==> r.value == EmptyTask.(id := newId, createdAt := Some(stamp))
      ensures r.Failure? ==>
                table == old(table) && r.error == HandleDatabaseError("CreateTask", fault.err)
    {
      if FailsAt(fault, Begin) {
        return Failure(HandleDatabaseError("CreateTask", fault.err));
      }
      var tx := table;
      var taskId := newId;
      if FailsAt(fault, Exec) {
        return Failure(HandleDatabaseError("CreateTask", fault.err));
      }
      tx := tx[taskId := InsertedRow(task, stamp)];
      if FailsAt(fault, ReadBack) {
        return Failure(HandleDatabaseError("CreateTask", fault.err));
      }
      var created := CreatedTask(taskId, tx[taskId]);
      if FailsAt(fault, Commit) {
        return Failure(HandleDatabaseError("CreateTask", fault.err));
      }
      table := tx;
      return Success(created);
    }

    /** `GetAllForUser`: the cursor yields the ids of the user's rows in the
        database's order; each row is scanned and appended. The result is exactly the
        user's tasks (an empty, non-nil slice when there are none), and any query,
        scan or cursor error returns no partial result. */
    method GetAllForUser(userId: string, cursor: seq<string>, fault: Fault)
      returns (r: Result<seq<DBTask>, AppError>)
      requires Valid()
      requires EnumeratesExactly(cursor, IdsOwnedBy(table, userId))
      ensures r.Success? <==> !FailsWhileReading(fault, |cursor|)
      ensures r.Failure? ==> r.error == HandleDatabaseError("GetAllTasksForUser", fault.err)
      ensures r.Success? ==>
                && |r.value| == |cursor|
                && forall k :: 0 <= k < |cursor| ==>
                     cursor[k] in table && r.value[k] == TaskOf(cursor[k], table[cursor[k]])
      ensures r.Success? ==> forall t :: t in r.value ==> t.userId == userId && t.id in table
      ensures r.Success? ==>
                forall id :: id in table && table[id].userId == userId ==>
                  exists k :: 0 <= k < |r.value| && r.value[k].id == id
    {
      if FailsAt(fault, Query) {
        return Failure(HandleDatabaseError("GetAllTasksForUser", fault.err));
      }
      var tasks: seq<DBTask> := [];
      var i := 0;
      while i < |cursor|
        invariant 0 <= i <= |cursor|
        invariant |tasks| == i
        invariant forall k :: 0 <= k < i ==>
                    cursor[k] in table && tasks[k] == TaskOf(cursor[k], table[cursor[k]])
        invariant !FailsIn(fault, set k | 0 <= k < i :: ScanRow(k))
      {
        var id := cursor[i];
        if FailsAt(fault, ScanRow(i)) {
          return Failure(HandleDatabaseError("GetAllTasksForUser", fault.err));
        }
        var scanned := ScanTaskRow(id, table[id]);
        tasks := tasks + [scanned.value];
        i := i + 1;
      }
      if FailsAt(fault, Cursor) {
        return Failure(HandleDatabaseError("GetAllTasksForUser", fault.err));
      }
      forall id | id in table && table[id].userId == userId
        ensures exists k :: 0 <= k < |tasks| && tasks[k].id == id
      {
        assert id in IdsOwnedBy(table, userId);
        var k :| 0 <= k < |cursor| && cursor[k] == id;
        assert tasks[k].id == id;
      }
      return Success(tasks);
    }

    /** `GetById`: the row with that id, or NOT_FOUND from `sql.ErrNoRows` when there
        is none. */
    method GetById(id: string, fault: Fault) returns (r: Result<DBTask, AppError>)
      requires Valid()
      ensures FailsAt(fault, Query) ==> r == Failure(HandleDatabaseError("GetTaskByID", fault.err))
      ensures !FailsAt(fault, Query) ==> (r.Success? <==> id in table)
      ensures !FailsAt(fault, Query) && id in table ==> r == Success(TaskOf(id, table[id]))
      ensures !FailsAt(fault, Query) && id !in table ==>
                r == Failure(HandleDatabaseError("GetTaskByID", ErrNoRows))
                && r.error.kind == NotFoundError && r.error.statusCode == StatusNotFound
    {
      if FailsAt(fault, Query) {
        return Failure(HandleDatabaseError("GetTaskByID", fault.err));
      }
      if id !in table {
        return Failure(HandleDatabaseError("GetTaskByID", ErrNoRows));
      }
      var scanned := ScanTaskRow(id, table[id]);
      return Success(scanned.value);
    }

    /** `Update`: rewrites title, description, priority, status, due_date,
        completed_at and updated_at of the row with the caller's id, and nothing
        else. An absent id rolls back with a 500 database error, not NOT_FOUND. */
    method Update(task: DBTask, fault: Fault) returns (err: Option<AppError>)
      requires Valid()
      modifies this
      ensures Valid()
      ensures err.None? <==>
                task.id in old(table) && !FailsIn(fault, {Begin, Exec, RowsAffected, Commit})
      ensures err.None? ==> table == old(table)[task.id := UpdatedRow(old(table)[task.id], task)]
      ensures err.Some? ==> table == old(table)
      ensures FailsIn(fault, {Begin, Exec, RowsAffected}) ==>
                err == Some(HandleDatabaseError("UpdateTask", fault.err))
      ensures !FailsIn(fault, {Begin, Exec, RowsAffected}) && task.id !in old(table) ==>
                err == Some(HandleDatabaseError("UpdateTask", NoTaskFound(task.id)))
      ensures task.id in old(table) && FailsAt(fault, Commit) ==>
                err == Some(HandleDatabaseError("UpdateTask", fault.err))
    {
      if FailsAt(fault, Begin) {
        return Some(HandleDatabaseError("UpdateTask", fault.err));
      }
      var tx := table;
      if FailsAt(fault, Exec) {
        return Some(HandleDatabaseError("UpdateTask", fault.err));
      }
      var affected := if task.id in tx then 1 else 0;
      if task.id in tx {
        tx := tx[task.id := UpdatedRow(tx[task.id], task)];
      }
      var rowsErr := ValidateRowsAffected(affected, fault, "UpdateTask", task.id);
      if rowsErr.Some? {
        return rowsErr;
      }
      if FailsAt(fault, Commit) {
        return Some(HandleDatabaseError("UpdateTask", fault.err));
      }
      table := tx;
      return None;
    }

    /** `Delete`: removes exactly the row with that id. An absent id rolls back with a
        500 database error, not NOT_FOUND. */
    method Delete(id: string, fault: Fault) returns (err: Option<AppError>)
      requires Valid()
      modifies this
      ensures Valid()
      ensures err.None? <==> id in old(table) && !FailsIn(fault, {Begin, Exec, RowsAffected, Commit})
      ensures err.None? ==> table == old(table) - {id}
      ensures err.Some? ==> table == old(table)
      ensures FailsIn(fault, {Begin, Exec, RowsAffected}) ==>
                err == Some(HandleDatabaseError("DeleteTask", fault.err))
      ensures !FailsIn(fault, {Begin, Exec, RowsAffected}) && id !in old(table) ==>
                err == Some(HandleDatabaseError("DeleteTask", NoTaskFound(id)))
      ensures id in old(table) && FailsAt(fault, Commit) ==>
                err == Some(HandleDatabaseError("DeleteTask", fault.err))
    {
      if FailsAt(fault, Begin) {
        return Some(HandleDatabaseError("DeleteTask", fault.err));
      }
      var tx := table;
      if FailsAt(fault, Exec) {
        return Some(HandleDatabaseError("DeleteTask", fault.err));
      }
      var affected := if id in tx then 1 else 0;
      tx := tx - {id};
      var rowsErr := ValidateRowsAffected(affected, fault, "DeleteTask", id);
      if rowsErr.Some? {
        return rowsErr;
      }
      if FailsAt(fault, Commit) {
        return Some(HandleDatabaseError("DeleteTask", fault.err));
      }
      table := tx;
      return None;
    }
  }
}
