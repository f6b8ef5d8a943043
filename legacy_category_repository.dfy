/** The earlier `categoryRepository`: categories scoped by their owner. Update and
    Delete match on both id and user_id, so they never reach another user's row.
    Statements run directly on the pool and failures are plain error texts. */
module LegacyCategoryRepo {
  import opened Wrappers
  import opened AppErrors
  import opened Models
  import opened Storage
  import opened GoFormat
  import opened CategoryTable

  /** The text of every `GetAllCategoriesForUser` failure. */
  function CategoriesByUserError(userId: string, e: GoError): string {
    "categoriesByUser " + Quote(userId) + ": " + ErrorText(e)
  }

  /** The row with that id exists and belongs to that user. */
  predicate OwnedBy(table: map<string, CategoryRow>, id: string, userId: string) {
    id in table && table[id].userId == userId
  }

  class LegacyCategoryRepository {
    var table: map<string, CategoryRow>

    constructor (rows: map<string, CategoryRow>)
      ensures table == rows
    {
      table := rows;
    }

    /** `Create`: one INSERT of owner, name and color under the fresh id `newId`.
        Returns the id, or "" and an error whose prefix reads "createUser: ". */
    method Create(name: string, color: string, userId: string, newId: string,
                  stamp: Instant, fault: Fault)
      returns (id: string, err: Option<string>)
      requires newId !in table
      modifies this
      ensures FailsAt(fault, Exec) ==>
                id == "" && err == Some("createUser: " + ErrorText(fault.err)) && table == old(table)
      ensures !FailsAt(fault, Exec) ==>
                id == newId && err.None?
                && table == old(table)[newId := CategoryRow(userId, name, color, Some(stamp))]
    {
      var categoryId := newId;
      if FailsAt(fault, Exec) {
        return "", Some("createUser: " + ErrorText(fault.err));
      }
      table := table[categoryId := CategoryRow(userId, name, color, Some(stamp))];
      return categoryId, None;
    }

    /** `GetAllCategoriesForUser`: the user's categories in the cursor's order, as a
        nil slice when there are none; any query, scan or cursor error returns a nil
        slice and a "categoriesByUser" error. */
    method GetAllCategoriesForUser(userId: string, cursor: seq<string>, fault: Fault)
      returns (categories: Option<seq<DBCategory>>, err: Option<string>)
      requires EnumeratesExactly(cursor, CategoryIdsOwnedBy(table, userId))
      ensures err.None? <==> !FailsWhileReading(fault, |cursor|)
      ensures err.Some? ==>
                categories.None? && err.value == CategoriesByUserError(userId, fault.err)
      ensures err.None? ==> (categories.None? <==> CategoryIdsOwnedBy(table, userId) == {})
      ensures err.None? ==>
                && |Items(categories)| == |cursor|
                && forall k :: 0 <= k < |cursor| ==>
                     cursor[k] in table
                     && Items(categories)[k] == CategoryOf(cursor[k], table[cursor[k]])
    {
      categories := None;
      if FailsAt(fault, Query) {
        return None, Some(CategoriesByUserError(userId, fault.err));
      }
      var i := 0;
      while i < |cursor|
        invariant 0 <= i <= |cursor|
        invariant categories.None? <==> i == 0
        invariant |Items(categories)| == i
        invariant forall k :: 0 <= k < i ==>
                    cursor[k] in table
                    && Items(categories)[k] == CategoryOf(cursor[k], table[cursor[k]])
        invariant !FailsIn(fault, set k | 0 <= k < i :: ScanRow(k))
      {
        if FailsAt(fault, ScanRow(i)) {
          return None, Some(CategoriesByUserError(userId, fault.err));
        }
        categories := Some(Items(categories) + [CategoryOf(cursor[i], table[cursor[i]])]);
        i := i + 1;
      }
      if FailsAt(fault, Cursor) {
        return None, Some(CategoriesByUserError(userId, fault.err));
      }
      if cursor != [] {
        assert cursor[0] in CategoryIdsOwnedBy(table, userId);
      }
      return categories, None;
    }

    /** `Update`: sets name and color of the row with that id only when it belongs to
        `userId`; another user's row is untouched and reported as not found. */
    method Update(name: string, color: string, id: string, userId: string, fault: Fault)
      returns (err: Option<string>)
      modifies this
      ensures FailsAt(fault, Exec) ==>
                table == old(table) && err == Some("updateCategory: " + ErrorText(fault.err))
      ensures !FailsAt(fault, Exec) && OwnedBy(old(table), id, userId) ==>
                table == old(table)[id := old(table)[id].(name := name, color := color)]
      ensures !FailsAt(fault, Exec) && !OwnedBy(old(table), id, userId) ==> table == old(table)
      ensures FailsAt(fault, RowsAffected) ==>
                err == Some("updateCategory: could not fetch rows affected: " + ErrorText(fault.err))
      ensures !FailsIn(fault, {Exec, RowsAffected}) ==>
                (err.None? <==> OwnedBy(old(table), id, userId))
                && (!OwnedBy(old(table), id, userId) ==>
                      err == Some("updateCategory: no category found with id " + id))
    {
      if FailsAt(fault, Exec) {
        return Some("updateCategory: " + ErrorText(fault.err));
      }
      var affected := if OwnedBy(table, id, userId) then 1 else 0;
      if OwnedBy(table, id, userId) {
        table := table[id := table[id].(name := name, color := color)];
      }
      if FailsAt(fault, RowsAffected) {
        return Some("updateCategory: could not fetch rows affected: " + ErrorText(fault.err));
      }
      if affected == 0 {
        return Some("updateCategory: no category found with id " + id);
      }
      return None;
    }

    /** `Delete`: removes the row with that id only when it belongs to `userId`;
        another user's row is kept and reported as not found. */
    method Delete(id: string, userId: string, fault: Fault) returns (err: Option<string>)
      modifies this
      ensures FailsAt(fault, Exec) ==>
                table == old(table) && err == Some("deleteCategory: " + ErrorText(fault.err))
      ensures !FailsAt(fault, Exec) && OwnedBy(old(table), id, userId) ==>
                table == old(table) - {id}
      ensures !FailsAt(fault, Exec) && !OwnedBy(old(table), id, userId) ==> table == old(table)
      ensures FailsAt(fault, RowsAffected) ==>
                err == Some("deleteCategory: could not fetch rows affected: " + ErrorText(fault.err))
      ensures !FailsIn(fault, {Exec, RowsAffected}) ==>
                (err.None? <==> OwnedBy(old(table), id, userId))
                && (!OwnedBy(old(table), id, userId) ==>
                      err == Some("deleteCategory: no category found with id " + id))
    {
      if FailsAt(fault, Exec) {
        return Some("deleteCategory: " + ErrorText(fault.err));
      }
      var affected := if OwnedBy(table, id, userId) then 1 else 0;
      if OwnedBy(table, id, userId) {
        table := table - {id};
      }
      if FailsAt(fault, RowsAffected) {
        return Some("deleteCategory: could not fetch rows affected: " + ErrorText(fault.err));
      }
      if affected == 0 {
        return Some("deleteCategory: no category found with id " + id);
      }
      return None;
    }
  }
}
