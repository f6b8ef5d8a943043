/** The earlier `userRepository`: statements run directly on the pool, failures are
    plain error texts, and `Create` writes the new id into the caller's record. */
module LegacyUserRepo {
  import opened Wrappers
  import opened AppErrors
  import opened Models
  import opened Storage
  import opened UserTable

  /** The caller's `*models.DBUser`, which `Create` updates in place. */
  class UserRef {
    var user: DBUser

    constructor (u: DBUser)
      ensures user == u
    {
      user := u;
    }
  }

  /** The text of a `GetById` failure: "no such user" for `sql.ErrNoRows`, otherwise
      the driver's text, after "usersById <id>: ". */
  function UsersByIdError(id: string, e: GoError): (s: string)
    ensures e.ErrNoRows? ==> s == "usersById " + id + ": no such user"
    ensures e.DriverError? ==> s == "usersById " + id + ": " + e.text
  {
    if e == ErrNoRows then "usersById " + id + ": no such user"
    else "usersById " + id + ": " + ErrorText(e)
  }

  class LegacyUserRepository {
    var table: map<string, UserRow>

    ghost predicate Valid()
      reads this
    {
      UniqueEmails(table)
    }

    constructor (rows: map<string, UserRow>)
      requires UniqueEmails(rows)
      ensures Valid() && table == rows
    {
      table := rows;
    }

    /** `Create`: sets the caller's id to the fresh `newId` before the INSERT, so the
        caller's record carries it even when the INSERT then fails (as it does for a
        duplicate email). Returns the id, or "" and a "createUser: " error. */
    method Create(ref: UserRef, newId: string, stamp: Instant, fault: Fault)
      returns (id: string, err: Option<string>)
      requires Valid() && newId !in table
      requires EmailTaken(table, ref.user.email) ==> FailsAt(fault, Exec)
      modifies this, ref
      ensures Valid()
      ensures ref.user == old(ref.user).(id := newId)
      ensures FailsAt(fault, Exec) ==>
                id == "" && err == Some("createUser: " + ErrorText(fault.err)) && table == old(table)
      ensures !FailsAt(fault, Exec) ==>
                id == newId && err.None?
                && table == old(table)[newId := InsertedRow(old(ref.user), stamp)]
    {
      ref.user := ref.user.(id := newId);
      if FailsAt(fault, Exec) {
        return "", Some("createUser: " + ErrorText(fault.err));
      }
      InsertKeepsUnique(table, ref.user.id, InsertedRow(ref.user, stamp));
      table := table[ref.user.id := InsertedRow(ref.user, stamp)];
      return ref.user.id, None;
    }

    /** `GetById`: the user with that id, or a zero user and a "usersById" error; an
        absent id reads "usersById <id>: no such user". */
    method GetById(id: string, fault: Fault) returns (user: DBUser, err: Option<string>)
      ensures err.None? <==> !FailsAt(fault, Query) && id in table
      ensures err.None? ==> user == UserOf(id, table[id])
      ensures err.Some? ==> user == EmptyUser
      ensures FailsAt(fault, Query) ==> err == Some(UsersByIdError(id, fault.err))
      ensures !FailsAt(fault, Query) && id !in table ==>
                err == Some("usersById " + id + ": no such user")
    {
      if FailsAt(fault, Query) {
        return EmptyUser, Some(UsersByIdError(id, fault.err));
      }
      if id !in table {
        return EmptyUser, Some(UsersByIdError(id, ErrNoRows));
      }
      return UserOf(id, table[id]), None;
    }

    /** `Delete`: one DELETE, committed as soon as it runs. An absent id gives
        "deleteUser: no user found with id <id>". */
    method Delete(id: string, fault: Fault) returns (err: Option<string>)
      requires Valid()
      modifies this
      ensures Valid()
      ensures FailsAt(fault, Exec) ==>
                table == old(table) && err == Some("deleteUser: " + ErrorText(fault.err))
      ensures !FailsAt(fault, Exec) ==> table == old(table) - {id}
      ensures FailsAt(fault, RowsAffected) ==>
                err == Some("deleteUser: could not fetch rows affected: " + ErrorText(fault.err))
      ensures !FailsIn(fault, {Exec, RowsAffected}) ==>
                (err.None? <==> id in old(table))
                && (id !in old(table) ==> err == Some("deleteUser: no user found with id " + id))
    {
      if FailsAt(fault, Exec) {
        return Some("deleteUser: " + ErrorText(fault.err));
      }
      var affected := if id in table then 1 else 0;
      table := table - {id};
      if FailsAt(fault, RowsAffected) {
        return Some("deleteUser: could not fetch rows affected: " + ErrorText(fault.err));
      }
      if affected == 0 {
        return Some("deleteUser: no user found with id " + id);
      }
      return None;
    }

    /** `Update`: one UPDATE of email, first_name and last_name, committed as soon as
        it runs. An absent id gives "updateUser: no user found with id <id>". */
    method Update(user: DBUser, fault: Fault) returns (err: Option<string>)
      requires Valid()
      requires user.id in table && EmailTakenByOther(table, user.id, user.email) ==>
                 FailsAt(fault, Exec)
      modifies this
      ensures Valid()
      ensures FailsAt(fault, Exec) ==>
                table == old(table) && err == Some("updateUser: " + ErrorText(fault.err))
      ensures !FailsAt(fault, Exec) && user.id in old(table) ==>
                table == old(table)[user.id := UpdatedRow(old(table)[user.id], user)]
      ensures !FailsAt(fault, Exec) && user.id !in old(table) ==> table == old(table)
      ensures FailsAt(fault, RowsAffected) ==>
                err == Some("updateUser: could not fetch rows affected: " + ErrorText(fault.err))
      ensures !FailsIn(fault, {Exec, RowsAffected}) ==>
                (err.None? <==> user.id in old(table))
                && (user.id !in old(table) ==>
                      err == Some("updateUser: no user found with id " + user.id))
    {
      if FailsAt(fault, Exec) {
        return Some("updateUser: " + ErrorText(fault.err));
      }
      var affected := if user.id in table then 1 else 0;
      if user.id in table {
        ReplaceKeepsUnique(table, user.id, UpdatedRow(table[user.id], user));
        table := table[user.id := UpdatedRow(table[user.id], user)];
      }
      if FailsAt(fault, RowsAffected) {
        return Some("updateUser: could not fetch rows affected: " + ErrorText(fault.err));
      }
      if affected == 0 {
        return Some("updateUser: no user found with id " + user.id);
      }
      return None;
    }
  }

  /** A deleted user can no longer be read: `GetById` then fails with "no such user". */
  method DeleteThenGet(repo: LegacyUserRepository, id: string) returns (err: Option<string>)
    requires repo.Valid() && id in repo.table
    modifies repo
    ensures id !in repo.table
    ensures err == Some("usersById " + id + ": no such user")
  {
    var delErr := repo.Delete(id, NoFault);
    assert delErr.None?;
    var user;
    user, err := repo.GetById(id, NoFault);
  }
}
