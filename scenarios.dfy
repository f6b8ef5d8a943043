/** Calls of the transactional task repository in sequence, as a client makes them:
    what one call writes, the next one reads. */
module Scenarios {
  import opened Wrappers
  import opened AppErrors
  import opened DatabaseErrors
  import opened Models
  import opened Storage
  import opened TaskTable
  import opened TaskRepo
  import UserTable
  import UserRepo

  /** A created task reads back as the caller's task under the new id, with the
      database's creation time, enums normalised and no completion or update time. */
  method CreateThenGet(repo: TaskRepository, task: DBTask, newId: string, stamp: Instant)
    returns (r: Result<DBTask, AppError>)
    requires repo.Valid() && newId !in repo.table
    modifies repo
    ensures r == Success(task.(id := newId, priority := NormalPriority(task.priority),
                               status := NormalStatus(task.status),
                               completedAt := None, createdAt := Some(stamp), updatedAt := None))
  {
    var created := repo.Create(task, newId, stamp, NoFault);
    r := repo.GetById(created.value.id, NoFault);
    TaskTable.InsertedRowReadsBack(newId, task, stamp);
  }

  /** After a delete the task is gone: reading it is NOT_FOUND, rendered as "Resource
      not found, sql: no rows in result set", and deleting it again is a 500 database
      error rather than NOT_FOUND. */
  method DeleteTwice(repo: TaskRepository, id: string)
    returns (get: Result<DBTask, AppError>, again: Option<AppError>)
    requires repo.Valid() && id in repo.table
    modifies repo
    ensures get.Failure? && get.error.kind == NotFoundError
    ensures ErrorMessage(get.error) == NotFoundMessage + ", " + ErrNoRowsText
    ensures again.Some? && again.value.kind == DatabaseError
    ensures again.value.statusCode == StatusInternalServerError
  {
    var first := repo.Delete(id, NoFault);
    get := repo.GetById(id, NoFault);
    again := repo.Delete(id, NoFault);
  }

  /** A client's session: create a user, create a task for that user, list the
      user's tasks, delete the task and read it again. The user gets the new id and
      a creation time, the listing holds exactly the one task titled "T", and the
      read after the delete is NOT_FOUND. */
  method ClientSession(users: UserRepo.UserRepository, tasks: TaskRepository, userId: string,
                       taskId: string, stamp: Instant)
    returns (user: Result<DBUser, AppError>, listed: Result<seq<DBTask>, AppError>,
             afterDelete: Result<DBTask, AppError>)
    requires users.Valid() && tasks.Valid()
    requires userId !in users.table && !UserTable.EmailTaken(users.table, "a@x.com")
    requires taskId !in tasks.table && IdsOwnedBy(tasks.table, userId) == {}
    modifies users, tasks
    ensures user.Success? && user.value.id == userId && user.value.createdAt == Some(stamp)
    ensures listed.Success? && |listed.value| == 1
    ensures listed.value[0].id == taskId && listed.value[0].title == "T"
    ensures afterDelete.Failure? && afterDelete.error.kind == NotFoundError
  {
    user := users.Create(EmptyUser.(email := "a@x.com", firstName := "A"), userId, stamp, NoFault);
    var task := EmptyTask.(userId := user.value.id, title := "T", priority := Medium,
                           status := Pending);
    var created := tasks.Create(task, taskId, stamp, NoFault);
    assert IdsOwnedBy(tasks.table, userId) == {taskId};
    listed := tasks.GetAllForUser(userId, [taskId], NoFault);
    TaskTable.InsertedRowReadsBack(taskId, task, stamp);
    var deleted := tasks.Delete(created.value.id, NoFault);
    afterDelete := tasks.GetById(taskId, NoFault);
  }
}
