/** The `tasks` table: the shape of a stored row, the row each statement writes, and
    the one column mapping every read uses. Shared by the transactional repository
    and its earlier non-transactional revision, which write the same columns. */
module TaskTable {
  import opened Wrappers
  import opened AppErrors
  import opened Models

  /** A stored row, keyed by its id. Priority and status hold the text the driver
      wrote through `Value()` (or `String()`). */
  datatype TaskRow = TaskRow(
    userId: string,
    categoryId: string,
    title: string,
    description: string,
    priority: string,
    status: string,
    dueDate: Option<Instant>,
    completedAt: Option<Instant>,
    createdAt: Option<Instant>,
    updatedAt: Option<Instant>)

  /** Every row the repositories write holds enum texts that parse. */
  predicate ValidRow(row: TaskRow) {
    IsPriorityText(row.priority) && IsStatusText(row.status)
  }

  predicate ValidTable(table: map<string, TaskRow>) {
    forall id :: id in table ==> ValidRow(table[id])
  }

  /** The ids of the rows owned by a user. */
  function IdsOwnedBy(table: map<string, TaskRow>, userId: string): set<string> {
    set id | id in table && table[id].userId == userId
  }

  /** The row the INSERT writes: user_id, category_id, title, description, priority,
      status and due_date from the caller, priority and status as their `Value()`
      text; created_at is the database's `stamp`; completed_at and updated_at are not
      in the statement and stay NULL. */
  function InsertedRow(task: DBTask, stamp: Instant): (row: TaskRow)
    ensures ValidRow(row)
    ensures row.completedAt.None? && row.updatedAt.None? && row.createdAt == Some(stamp)
  {
    TaskRow(task.userId, task.categoryId, task.title, task.description,
            PriorityValue(task.priority).0.text, StatusValue(task.status).0.text,
            task.dueDate, None, Some(stamp), None)
  }

  /** The row after the UPDATE: title, description, priority, status, due_date,
      completed_at and updated_at come from the caller; user_id, category_id and
      created_at are kept. */
  function UpdatedRow(row: TaskRow, task: DBTask): (r: TaskRow)
    ensures ValidRow(r)
    ensures r.userId == row.userId && r.categoryId == row.categoryId && r.createdAt == row.createdAt
  {
    row.(title := task.title, description := task.description,
         priority := PriorityString(task.priority), status := StatusString(task.status),
         dueDate := task.dueDate, completedAt := task.completedAt, updatedAt := task.updatedAt)
  }

  /** The scan of the eleven columns into a zero `DBTask`, priority and status through
      their `Scan`. It fails exactly when a stored enum text does not parse, and then
      with the `Scan` error. */
  function ScanTaskRow(id: string, row: TaskRow): (r: Result<DBTask, GoError>)
    ensures r.Success? <==> ValidRow(row)
    ensures r.Success? ==> r.value.id == id && r.value.userId == row.userId
                           && r.value.categoryId == row.categoryId
                           && PriorityString(r.value.priority) == row.priority
                           && StatusString(r.value.status) == row.status
  {
    var (p, perr) := ScanPriority(EmptyTask.priority, TextValue(row.priority));
    if perr.Some? then Failure(DriverError(perr.value))
    else
      var (s, serr) := ScanStatus(EmptyTask.status, TextValue(row.status));
      if serr.Some? then Failure(DriverError(serr.value))
      else
        Success(DBTask(id, row.userId, row.categoryId, row.title, row.description, p, s,
                       row.dueDate, row.completedAt, row.createdAt, row.updatedAt))
  }

  /** The task a valid row reads as. */
  function TaskOf(id: string, row: TaskRow): DBTask
    requires ValidRow(row)
  {
    ScanTaskRow(id, row).value
  }

  /** Reading back an inserted row gives the caller's task under the new id and the
      database's timestamp, with out-of-range enums normalised and the two columns
      the INSERT omits empty. */
  lemma InsertedRowReadsBack(id: string, task: DBTask, stamp: Instant)
    ensures ScanTaskRow(id, InsertedRow(task, stamp)) ==
              Success(task.(id := id, priority := NormalPriority(task.priority),
                            status := NormalStatus(task.status),
                            completedAt := None, createdAt := Some(stamp), updatedAt := None))
  {
    ScanOfValue(EmptyTask.priority, task.priority, EmptyTask.status, task.status);
  }

  /** Reading an updated row gives the caller's seven fields (enums normalised) and the
      row's own id, owner, category and creation time. */
  lemma UpdatedRowReadsBack(id: string, row: TaskRow, task: DBTask)
    ensures ScanTaskRow(id, UpdatedRow(row, task)) ==
              Success(task.(id := id, userId := row.userId, categoryId := row.categoryId,
                            priority := NormalPriority(task.priority),
                            status := NormalStatus(task.status), createdAt := row.createdAt))
  {
    ScanOfValue(EmptyTask.priority, task.priority, EmptyTask.status, task.status);
  }
}
