/** `userRepository`: users persisted through transactions, as for tasks: `Begin`
    copies the table, `Commit` installs the copy, the deferred `Rollback` discards
    it. Email is unique: the database rejects an INSERT or UPDATE that would repeat
    one, which the fault oracle must reflect. */
module UserRepo {
  import opened Wrappers
  import opened AppErrors
  import opened DatabaseErrors
  import opened Models
  import opened Storage
  import opened UserTable

  /** The error `validateRowsAffected` synthesises when no row matched. */
  function NoUserFound(id: string): GoError {
    DriverError(NoRowFoundText("user", id))
  }

  /** `validateRowsAffected`: no error exactly when the driver reports a positive
      count; a zero count is a 500 database error, never NOT_FOUND. */
  function ValidateRowsAffected(affected: nat, fault: Fault, operation: string, id: string)
    : (e: Option<AppError>)
    ensures e.None? <==> !FailsAt(fault, RowsAffected) && affected > 0
    ensures FailsAt(fault, RowsAffected) ==> e == Some(HandleDatabaseError(operation, fault.err))
    ensures !FailsAt(fault, RowsAffected) && affected == 0 ==>
              e == Some(HandleDatabaseError(operation, NoUserFound(id)))
              && e.value.kind == DatabaseError && e.value.statusCode == StatusInternalServerError
  {
    if FailsAt(fault, RowsAffected) then Some(HandleDatabaseError(operation, fault.err))
    else if affected == 0 then Some(HandleDatabaseError(operation, NoUserFound(id)))
    else None
  }

  class UserRepository {
    var table: map<string, UserRow>

    ghost predicate Valid()
      reads this
    {
      UniqueEmails(table)
    }

    constructor (rows: map<string, UserRow>)
      requires UniqueEmails(rows)
      ensures Valid() && table == rows
    {
      table := rows;
    }

    /** `Create`: inserts email, password hash and names under the fresh id `newId`
        (for `uuid.NewString()`) and returns a user holding only that id and
        `created_at`. A failed step, such as the rejected insert of a duplicate email,
        persists nothing. */
    method Create(user: DBUser, newId: string, stamp: Instant, fault: Fault)
      returns (r: Result<DBUser, AppError>)
      requires Valid() && newId !in table
      requires EmailTaken(table, user.email) ==> FailsIn(fault, {Begin, Exec})
      modifies this
      ensures Valid()
      ensures r.Success? <==> !FailsIn(fault, {Begin, Exec, ReadBack, Commit})
      ensures r.Success? ==> table == old(table)[newId := InsertedRow(user, stamp)]
      ensures r.Success? ==> r.value == EmptyUser.(id := newId, createdAt := Some(stamp))
      ensures r.Failure? ==>
                table == old(table) && r.error == HandleDatabaseError("CreateUser", fault.err)
    {
      if FailsAt(fault, Begin) {
        return Failure(HandleDatabaseError("CreateUser", fault.err));
      }
      var tx := table;
      var userId := newId;
      if FailsAt(fault, Exec) {
        return Failure(HandleDatabaseError("CreateUser", fault.err));
      }
      InsertKeepsUnique(tx, userId, InsertedRow(user, stamp));
      tx := tx[userId := InsertedRow(user, stamp)];
      if FailsAt(fault, ReadBack) {
        return Failure(HandleDatabaseError("CreateUser", fault.err));
      }
      var created := EmptyUser.(id := userId, createdAt := tx[userId].createdAt);
      if FailsAt(fault, Commit) {
        return Failure(HandleDatabaseError("CreateUser", fault.err));
      }
      table := tx;
      return Success(created);
    }

    /** `GetById`: the row with that id, or NOT_FOUND when there is none. */
    method GetById(id: string, fault: Fault) returns (r: Result<DBUser, AppError>)
      ensures FailsAt(fault, Query) ==> r == Failure(HandleDatabaseError("GetUserByID", fault.err))
      ensures !FailsAt(fault, Query) ==> (r.Success? <==> id in table)
      ensures !FailsAt(fault, Query) && id in table ==> r == Success(UserOf(id, table[id]))
      ensures !FailsAt(fault, Query) && id !in table ==>
                r == Failure(HandleDatabaseError("GetUserByID", ErrNoRows))
                && r.error.kind == NotFoundError
    {
      if FailsAt(fault, Query) {
        return Failure(HandleDatabaseError("GetUserByID", fault.err));
      }
      if id !in table {
        return Failure(HandleDatabaseError("GetUserByID", ErrNoRows));
      }
      return Success(UserOf(id, table[id]));
    }

    /** `GetByEmail`: the one row holding that email, or NOT_FOUND when there is
        none. */
    method GetByEmail(email: string, fault: Fault) returns (r: Result<DBUser, AppError>)
      requires Valid()
      ensures FailsAt(fault, Query) ==>
                r == Failure(HandleDatabaseError("GetUserByEmail", fault.err))
      ensures !FailsAt(fault, Query) ==> (r.Success? <==> EmailTaken(table, email))
      ensures r.Success? ==>
                && r.value.id in table && r.value == UserOf(r.value.id, table[r.value.id])
                && r.value.email == email
                && forall id :: id in table && table[id].email == email ==> id == r.value.id
      ensures !FailsAt(fault, Query) && !EmailTaken(table, email) ==>
                r == Failure(HandleDatabaseError("GetUserByEmail", ErrNoRows))
                && r.error.kind == NotFoundError
    {
      if FailsAt(fault, Query) {
        return Failure(HandleDatabaseError("GetUserByEmail", fault.err));
      }
      if !EmailTaken(table, email) {
        return Failure(HandleDatabaseError("GetUserByEmail", ErrNoRows));
      }
      var id :| id in table && table[id].email == email;
      return Success(UserOf(id, table[id]));
    }

    /** `Delete`: removes exactly the row with that id; an absent id rolls back with a
        500 database error. */
    method Delete(id: string, fault: Fault) returns (err: Option<AppError>)
      requires Valid()
      modifies this
      ensures Valid()
      ensures err.None? <==> id in old(table) && !FailsIn(fault, {Begin, Exec, RowsAffected, Commit})
      ensures err.None? ==> table == old(table) - {id}
      ensures err.Some? ==> table == old(table)
      ensures FailsIn(fault, {Begin, Exec, RowsAffected}) ==>
                err == Some(HandleDatabaseError("DeleteUser", fault.err))
      ensures !FailsIn(fault, {Begin, Exec, RowsAffected}) && id !in old(table) ==>
                err == Some(HandleDatabaseError("DeleteUser", NoUserFound(id)))
      ensures id in old(table) && FailsAt(fault, Commit) ==>
                err == Some(HandleDatabaseError("DeleteUser", fault.err))
    {
      if FailsAt(fault, Begin) {
        return Some(HandleDatabaseError("DeleteUser", fault.err));
      }
      var tx := table;
      if FailsAt(fault, Exec) {
        return Some(HandleDatabaseError("DeleteUser", fault.err));
      }
      var affected := if id in tx then 1 else 0;
      tx := tx - {id};
      var rowsErr := ValidateRowsAffected(affected, fault, "DeleteUser", id);
      if rowsErr.Some? {
        return rowsErr;
      }
      if FailsAt(fault, Commit) {
        return Some(HandleDatabaseError("DeleteUser", fault.err));
      }
      table := tx;
      return None;
    }

    /** `Update`: rewrites email, first_name and last_name of the row with the
        caller's id; the password hash and every other row are unchanged. An absent
        id rolls back with a 500 database error. */
    method Update(user: DBUser, fault: Fault) returns (err: Option<AppError>)
      requires Valid()
      requires user.id in table && EmailTakenByOther(table, user.id, user.email) ==>
                 FailsIn(fault, {Begin, Exec})
      modifies this
      ensures Valid()
      ensures err.None? <==>
                user.id in old(table) && !FailsIn(fault, {Begin, Exec, RowsAffected, Commit})
      ensures err.None? ==> table == old(table)[user.id := UpdatedRow(old(table)[user.id], user)]
      ensures err.Some? ==> table == old(table)
      ensures FailsIn(fault, {Begin, Exec, RowsAffected}) ==>
                err == Some(HandleDatabaseError("UpdateUser", fault.err))
      ensures !FailsIn(fault, {Begin, Exec, RowsAffected}) && user.id !in old(table) ==>
                err == Some(HandleDatabaseError("UpdateUser", NoUserFound(user.id)))
      ensures user.id in old(table) && FailsAt(fault, Commit) ==>
                err == Some(HandleDatabaseError("UpdateUser", fault.err))
    {
      if FailsAt(fault, Begin) {
        return Some(HandleDatabaseError("UpdateUser", fault.err));
      }
      var tx := table;
      if FailsAt(fault, Exec) {
        return Some(HandleDatabaseError("UpdateUser", fault.err));
      }
      var affected := if user.id in tx then 1 else 0;
      if user.id in tx {
        ReplaceKeepsUnique(tx, user.id, UpdatedRow(tx[user.id], user));
        tx := tx[user.id := UpdatedRow(tx[user.id], user)];
      }
      var rowsErr := ValidateRowsAffected(affected, fault, "UpdateUser", user.id);
      if rowsErr.Some? {
        return rowsErr;
      }
      if FailsAt(fault, Commit) {
        return Some(HandleDatabaseError("UpdateUser", fault.err));
      }
      table := tx;
      return None;
    }
  }
}
