/** The database as the repositories see it. The SQL driver is replaced by an
    oracle that says which step of a call fails and with what error; everything
    else (which rows match, how many rows a statement affects) follows from the
    table the repository holds. */
module Storage {
  import opened Wrappers
  import opened AppErrors

  /** The driver calls a repository operation makes. `ScanRow(k)` is the scan of the
      k-th row a cursor yields; `Cursor` is the error `rows.Err()` reports after
      iteration. */
  datatype Step =
    | Begin
    | Exec
    | ReadBack
    | RowsAffected
    | Commit
    | Query
    | ScanRow(index: nat)
    | Cursor

  /** The failure oracle: no failure, or the one step that fails and its error. A
      failure at a step the operation does not perform has no effect. */
  datatype Fault = NoFault | FailAt(step: Step, err: GoError)

  predicate FailsAt(f: Fault, s: Step) {
    f.FailAt? && f.step == s
  }

  predicate FailsIn(f: Fault, steps: set<Step>) {
    f.FailAt? && f.step in steps
  }

  /** A cursor that yields the rows of a table whose keys form `ids` yields each of
      those keys exactly once, in an order the database chooses. */
  predicate EnumeratesExactly(cursor: seq<string>, ids: set<string>) {
    && (forall i, j :: 0 <= i < j < |cursor| ==> cursor[i] != cursor[j])
    && (forall k :: 0 <= k < |cursor| ==> cursor[k] in ids)
    && (forall id :: id in ids ==> id in cursor)
  }

  /** A cursor fault inside the rows of a cursor of length `n`. */
  predicate FailsWhileReading(f: Fault, n: nat) {
    f.FailAt? && (f.step == Query || f.step == Cursor || (f.step.ScanRow? && f.step.index < n))
  }

  /** The elements of a Go slice that may be nil (`None`). */
  function Items<T>(s: Option<seq<T>>): seq<T> {
    if s.Some? then s.value else []
  }
}
