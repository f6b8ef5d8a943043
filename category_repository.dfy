/** `categoryRepository`: categories persisted through transactions for Create and
    Update, while Delete runs one auto-committed statement on the pool. */
module CategoryRepo {
  import opened Wrappers
  import opened AppErrors
  import opened DatabaseErrors
  import opened Models
  import opened Storage
  import opened CategoryTable

  /** The error `validateRowsAffected` synthesises when no row matched. */
  function NoCategoryFound(id: string): GoError {
    DriverError(NoRowFoundText("category", id))
  }

  /** `validateRowsAffected`: no error exactly when the driver reports a positive
      count; a zero count is a 500 database error, never NOT_FOUND. */
  function ValidateRowsAffected(affected: nat, fault: Fault, operation: string, id: string)
    : (e: Option<AppError>)
    ensures e.None? <==> !FailsAt(fault, RowsAffected) && affected > 0
    ensures FailsAt(fault, RowsAffected) ==> e == Some(HandleDatabaseError(operation, fault.err))
    ensures !FailsAt(fault, RowsAffected) && affected == 0 ==>
              e == Some(HandleDatabaseError(operation, NoCategoryFound(id)))
              && e.value.kind == DatabaseError && e.value.statusCode == StatusInternalServerError
  {
    if FailsAt(fault, RowsAffected) then Some(HandleDatabaseError(operation, fault.err))
    else if affected == 0 then Some(HandleDatabaseError(operation, NoCategoryFound(id)))
    else None
  }

  /** What a call of `Delete` ends in: a returned error (or none), or a panic. */
  datatype DeleteOutcome = Returned(err: Option<AppError>) | Panicked

  /** `Delete` as written: when the statement matched no row it passes the error
      variable of the successful `RowsAffected` call, which is nil, to
      `HandleDatabaseError`, whose `err.Error()` then panics. */
  function DeleteOutcomeAsWritten(table: map<string, CategoryRow>, id: string, fault: Fault)
    : (o: DeleteOutcome)
    ensures o == Panicked <==> !FailsIn(fault, {Exec, RowsAffected}) && id !in table
  {
    if FailsAt(fault, Exec) then Returned(Some(HandleDatabaseError("DeleteCategory", fault.err)))
    else if FailsAt(fault, RowsAffected) then
      Returned(Some(HandleDatabaseError("DeleteCategory", fault.err)))
    else
      var affected := if id in table then 1 else 0;
      if affected == 0 then
        var nilErr: Option<GoError> := None;
        match HandleNilableError("DeleteCategory", nilErr)
        case None => Panicked
        case Some(e) => Returned(Some(e))
      else Returned(None)
  }

  /** Deleting an absent category with a healthy driver panics instead of returning
      an error. */
  lemma DeleteMissingPanics(table: map<string, CategoryRow>, id: string)
    requires id !in table
    ensures DeleteOutcomeAsWritten(table, id, NoFault) == Panicked
  {
  }

  /** The panic is the only outcome the evident intent does not share: wherever the
      code as written returns, it returns what the corrected `Delete` returns, and
      where it panics the corrected `Delete` returns the "no category found" error. */
  lemma AsWrittenDeleteDiffersOnlyByPanic(table: map<string, CategoryRow>, id: string, fault: Fault)
    ensures DeleteOutcomeAsWritten(table, id, fault).Returned? ==>
              DeleteOutcomeAsWritten(table, id, fault).err == DeleteError(table, id, fault)
    ensures DeleteOutcomeAsWritten(table, id, fault).Panicked? ==>
              DeleteError(table, id, fault) == Some(HandleDatabaseError("DeleteCategory", NoCategoryFound(id)))
  {
  }

  /** The error the corrected `Delete` returns: a failing driver call is classified,
      and a statement that matched no row is reported like every other
      rows-affected check, from "no category found with id <id>". */
  function DeleteError(table: map<string, CategoryRow>, id: string, fault: Fault)
    : (e: Option<AppError>)
    ensures e.None? <==> id in table && !FailsIn(fault, {Exec, RowsAffected})
    ensures FailsIn(fault, {Exec, RowsAffected}) ==>
              e == Some(HandleDatabaseError("DeleteCategory", fault.err))
    ensures !FailsIn(fault, {Exec, RowsAffected}) && id !in table ==>
              e == Some(HandleDatabaseError("DeleteCategory", NoCategoryFound(id)))
              && e.value.statusCode == StatusInternalServerError
  {
    if FailsAt(fault, Exec) then Some(HandleDatabaseError("DeleteCategory", fault.err))
    else ValidateRowsAffected(if id in table then 1 else 0, fault, "DeleteCategory", id)
  }

  class CategoryRepository {
    var table: map<string, CategoryRow>

    constructor (rows: map<string, CategoryRow>)
      ensures table == rows
    {
      table := rows;
    }

    /** `Create`: inserts owner, name and color under the fresh id `newId` (for
        `uuid.NewString()`) and returns a category holding only that id and
        `created_at`. A failed step persists nothing. */
    method Create(category: DBCategory, newId: string, stamp: Instant, fault: Fault)
      returns (r: Result<DBCategory, AppError>)
      requires newId !in table
      modifies this
      ensures r.Success? <==> !FailsIn(fault, {Begin, Exec, ReadBack, Commit})
      ensures r.Success? ==> table == old(table)[newId := InsertedRow(category, stamp)]
      ensures r.Success? ==> r.value == EmptyCategory.(id := newId, createdAt := Some(stamp))
      ensures r.Failure? ==>
                table == old(table) && r.error == HandleDatabaseError("CreateCategory", fault.err)
    {
      if FailsAt(fault, Begin) {
        return Failure(HandleDatabaseError("CreateCategory", fault.err));
      }
      var tx := table;
      var categoryId := newId;
      if FailsAt(fault, Exec) {
        return Failure(HandleDatabaseError("CreateCategory", fault.err));
      }
      tx := tx[categoryId := InsertedRow(category, stamp)];
      if FailsAt(fault, ReadBack) {
        return Failure(HandleDatabaseError("CreateCategory", fault.err));
      }
      var created := EmptyCategory.(id := categoryId, createdAt := tx[categoryId].createdAt);
      if FailsAt(fault, Commit) {
        return Failure(HandleDatabaseError("CreateCategory", fault.err));
      }
      table := tx;
      return Success(created);
    }

    /** `GetAllForUser`: exactly the user's categories, in the cursor's order, as an
        empty (non-nil) slice when there are none; any query, scan or cursor error
        returns no partial result. */
    method GetAllForUser(userId: string, cursor: seq<string>, fault: Fault)
      returns (r: Result<seq<DBCategory>, AppError>)
      requires EnumeratesExactly(cursor, CategoryIdsOwnedBy(table, userId))
      ensures r.Success? <==> !FailsWhileReading(fault, |cursor|)
      ensures r.Failure? ==> r.error == HandleDatabaseError("GetAllCategoriesForUser", fault.err)
      ensures r.Success? ==>
                && |r.value| == |cursor|
                && forall k :: 0 <= k < |cursor| ==>
                     cursor[k] in table && r.value[k] == CategoryOf(cursor[k], table[cursor[k]])
      ensures r.Success? ==> forall c :: c in r.value ==> c.userId == userId && c.id in table
      ensures r.Success? ==>
                forall id :: id in table && table[id].userId == userId ==>
                  exists k :: 0 <= k < |r.value| && r.value[k].id == id
    {
      if FailsAt(fault, Query) {
        return Failure(HandleDatabaseError("GetAllCategoriesForUser", fault.err));
      }
      var categories: seq<DBCategory> := [];
      var i := 0;
      while i < |cursor|
        invariant 0 <= i <= |cursor|
        invariant |categories| == i
        invariant forall k :: 0 <= k < i ==>
                    cursor[k] in table && categories[k] == CategoryOf(cursor[k], table[cursor[k]])
        invariant !FailsIn(fault, set k | 0 <= k < i :: ScanRow(k))
      {
        var id := cursor[i];
        if FailsAt(fault, ScanRow(i)) {
          return Failure(HandleDatabaseError("GetAllCategoriesForUser", fault.err));
        }
        categories := categories + [CategoryOf(id, table[id])];
        i := i + 1;
      }
      if FailsAt(fault, Cursor) {
        return Failure(HandleDatabaseError("GetAllCategoriesForUser", fault.err));
      }
      forall id | id in table && table[id].userId == userId
        ensures exists k :: 0 <= k < |categories| && categories[k].id == id
      {
        assert id in CategoryIdsOwnedBy(table, userId);
        var k :| 0 <= k < |cursor| && cursor[k] == id;
        assert categories[k].id == id;
      }
      return Success(categories);
    }

    /** `GetById`: the row with that id, or NOT_FOUND when there is none. */
    method GetById(id: string, fault: Fault) returns (r: Result<DBCategory, AppError>)
      ensures FailsAt(fault, Query) ==>
                r == Failure(HandleDatabaseError("GetCategoryByID", fault.err))
      ensures !FailsAt(fault, Query) ==> (r.Success? <==> id in table)
      ensures !FailsAt(fault, Query) && id in table ==> r == Success(CategoryOf(id, table[id]))
      ensures !FailsAt(fault, Query) && id !in table ==>
                r == Failure(HandleDatabaseError("GetCategoryByID", ErrNoRows))
                && r.error.kind == NotFoundError
    {
      if FailsAt(fault, Query) {
        return Failure(HandleDatabaseError("GetCategoryByID", fault.err));
      }
      if id !in table {
        return Failure(HandleDatabaseError("GetCategoryByID", ErrNoRows));
      }
      return Success(CategoryOf(id, table[id]));
    }

    /** `Update`: rewrites name and color of the row with the caller's id; an absent
        id rolls back with a 500 database error. */
    method Update(category: DBCategory, fault: Fault) returns (err: Option<AppError>)
      modifies this
      ensures err.None? <==>
                category.id in old(table) && !FailsIn(fault, {Begin, Exec, RowsAffected, Commit})
      ensures err.None? ==>
                table == old(table)[category.id := UpdatedRow(old(table)[category.id], category)]
      ensures err.Some? ==> table == old(table)
      ensures FailsIn(fault, {Begin, Exec, RowsAffected}) ==>
                err == Some(HandleDatabaseError("UpdateCategory", fault.err))
      ensures !FailsIn(fault, {Begin, Exec, RowsAffected}) && category.id !in old(table) ==>
                err == Some(HandleDatabaseError("UpdateCategory", NoCategoryFound(category.id)))
      ensures category.id in old(table) && FailsAt(fault, Commit) ==>
                err == Some(HandleDatabaseError("UpdateCategory", fault.err))
    {
      if FailsAt(fault, Begin) {
        return Some(HandleDatabaseError("UpdateCategory", fault.err));
      }
      var tx := table;
      if FailsAt(fault, Exec) {
        return Some(HandleDatabaseError("UpdateCategory", fault.err));
      }
      var affected := if category.id in tx then 1 else 0;
      if category.id in tx {
        tx := tx[category.id := UpdatedRow(tx[category.id], category)];
      }
      var rowsErr := ValidateRowsAffected(affected, fault, "UpdateCategory", category.id);
      if rowsErr.Some? {
        return rowsErr;
      }
      if FailsAt(fault, Commit) {
        return Some(HandleDatabaseError("UpdateCategory", fault.err));
      }
      table := tx;
      return None;
    }

    /** `Delete`, corrected: one auto-committed DELETE, so the row is gone as soon as
        the statement runs, even when the rows-affected check then fails; a statement
        that matched no row returns the synthesised "no category found" error where
        the code as written panics. */
    method Delete(id: string, fault: Fault) returns (err: Option<AppError>)
      modifies this
      ensures err == DeleteError(old(table), id, fault)
      ensures FailsAt(fault, Exec) ==> table == old(table)
      ensures !FailsAt(fault, Exec) ==> table == old(table) - {id}
    {
      if FailsAt(fault, Exec) {
        return Some(HandleDatabaseError("DeleteCategory", fault.err));
      }
      var affected := if id in table then 1 else 0;
      table := table - {id};
      if FailsAt(fault, RowsAffected) {
        return Some(HandleDatabaseError("DeleteCategory", fault.err));
      }
      if affected == 0 {
        return Some(HandleDatabaseError("DeleteCategory", NoCategoryFound(id)));
      }
      return None;
    }
  }
}
