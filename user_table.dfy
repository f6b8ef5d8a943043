/** The `users` table: row shape, the rows the statements write and the column
    mapping of the reads. The unique index on `email` is the table's invariant. */
module UserTable {
  import opened Wrappers
  import opened Models

  /** A stored row, keyed by its id. */
  datatype UserRow = UserRow(
    email: string,
    passwordHash: string,
    firstName: string,
    lastName: string,
    createdAt: Option<Instant>,
    updatedAt: Option<Instant>)

  /** The unique index on `email`. */
  predicate UniqueEmails(table: map<string, UserRow>) {
    forall a, b :: a in table && b in table && table[a].email == table[b].email ==> a == b
  }

  predicate EmailTaken(table: map<string, UserRow>, email: string) {
    exists id :: id in table && table[id].email == email
  }

  /** Another row than `id` already holds `email`. */
  predicate EmailTakenByOther(table: map<string, UserRow>, id: string, email: string) {
    exists other :: other in table && other != id && table[other].email == email
  }

  /** The row the INSERT writes: email, password_hash, first_name and last_name from
      the caller; created_at and updated_at are the database's `stamp`. */
  function InsertedRow(user: DBUser, stamp: Instant): UserRow {
    UserRow(user.email, user.passwordHash, user.firstName, user.lastName, Some(stamp), Some(stamp))
  }

  /** The row after the UPDATE of email, first_name and last_name. */
  function UpdatedRow(row: UserRow, user: DBUser): (r: UserRow)
    ensures r.passwordHash == row.passwordHash && r.createdAt == row.createdAt
    ensures r.updatedAt == row.updatedAt
  {
    row.(email := user.email, firstName := user.firstName, lastName := user.lastName)
  }

  /** The scan of the seven columns id, email, password_hash, first_name, last_name,
      created_at, updated_at. */
  function UserOf(id: string, row: UserRow): DBUser {
    DBUser(id, row.email, row.passwordHash, row.firstName, row.lastName, row.createdAt, row.updatedAt)
  }

  /** Reading an inserted row gives the caller's user under the new id, with the
      database's timestamps. */
  lemma InsertedRowReadsBack(id: string, user: DBUser, stamp: Instant)
    ensures UserOf(id, InsertedRow(user, stamp)) ==
              user.(id := id, createdAt := Some(stamp), updatedAt := Some(stamp))
  {
  }

  /** Inserting a row whose email is free keeps emails unique. */
  lemma InsertKeepsUnique(table: map<string, UserRow>, id: string, row: UserRow)
    requires UniqueEmails(table) && id !in table && !EmailTaken(table, row.email)
    ensures UniqueEmails(table[id := row])
  {
  }

  /** Replacing a row by one whose email no other row holds keeps emails unique. */
  lemma ReplaceKeepsUnique(table: map<string, UserRow>, id: string, row: UserRow)
    requires UniqueEmails(table) && !EmailTakenByOther(table, id, row.email)
    ensures UniqueEmails(table[id := row])
  {
  }
}
