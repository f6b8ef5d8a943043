/** The `categories` table: row shape, the rows the statements write and the column
    mapping of the reads. */
module CategoryTable {
  import opened Wrappers
  import opened Models

  /** A stored row, keyed by its id. */
  datatype CategoryRow = CategoryRow(
    userId: string,
    name: string,
    color: string,
    createdAt: Option<Instant>)

  /** The ids of the rows owned by a user. */
  function CategoryIdsOwnedBy(table: map<string, CategoryRow>, userId: string): set<string> {
    set id | id in table && table[id].userId == userId
  }

  /** The row the INSERT writes: user_id, name and color from the caller; created_at
      is the database's `stamp`. */
  function InsertedRow(category: DBCategory, stamp: Instant): CategoryRow {
    CategoryRow(category.userId, category.name, category.color, Some(stamp))
  }

  /** The row after the UPDATE of name and color; owner and creation time are kept. */
  function UpdatedRow(row: CategoryRow, category: DBCategory): (r: CategoryRow)
    ensures r.userId == row.userId && r.createdAt == row.createdAt
  {
    row.(name := category.name, color := category.color)
  }

  /** The scan of the five columns id, user_id, name, color, created_at. */
  function CategoryOf(id: string, row: CategoryRow): DBCategory {
    DBCategory(id, row.userId, row.name, row.color, row.createdAt)
  }

  /** Reading an inserted row gives the caller's category under the new id with the
      database's creation time. */
  lemma InsertedRowReadsBack(id: string, category: DBCategory, stamp: Instant)
    ensures CategoryOf(id, InsertedRow(category, stamp)) ==
              category.(id := id, createdAt := Some(stamp))
  {
  }
}
