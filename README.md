# Task management persistence core, in Dafny

This project models the deterministic logic of the task-management service. That logic sits between its entity records and the SQL driver:

- **Error classification.** `HandleDatabaseError` turns any storage failure into one of four application errors: NOT_FOUND for `sql.ErrNoRows`, and DATABASE_ERROR with the message "Service temporarily unavailable", "Request timeout" or "Database operation failed". The model also covers the `AppError` record, its three constructors and its `Error()` rendering.
- **Task enums.** `String`, `Value`, `Parse*` and `Scan` for `TaskPriority` and `TaskStatus`.
- **Three repositories, each in two revisions.** The current transactional `task`, `user` and `category` repositories, and the earlier flat, non-transactional ones.
- **Configuration.** Loading settings from the environment, and the ordered validation that includes `strconv.Atoi`.
- **Task handler checks.** The task-id extraction from the path, and the two BadRequest guards of the task handlers.

Each repository is a class that holds its table as `map<string, Row>`:

- **Transactions.** `Begin` copies the table, statements change the copy, `Commit` installs it, and an early return is the deferred `Rollback`.
- **Non-transactional statements.** The earlier revision and the category `Delete` change the table as soon as the statement runs.
- **The driver.** A failure oracle (`Storage.Fault`) stands in for it: it names the one step that fails (`Begin`, `Exec`, the read-back, `RowsAffected`, `Commit`, the query, the k-th row scan, the cursor) and the error it fails with.
- **Parameters.** A fresh id (`requires newId !in table`) stands for `uuid.NewString()`. A timestamp stands for the database's `created_at`. A cursor that enumerates exactly the matching ids stands for the database's row order.
- **Unique emails.** The unique index on user email is an invariant (`UserTable.UniqueEmails`). The oracle must make an insert or update that would repeat an email fail.

What the contracts establish:

- **Classifier.** It is total and has exactly four outcomes. The `operation` argument does not affect it. "connection" is tested before "timeout". A database error never carries the driver's text.
- **Enums.** The codecs round-trip in both directions. Out-of-range values normalise to Medium or Pending. `Scan` leaves its receiver unchanged on error.
- **Repository writes.** A failed transactional call persists nothing. Each write changes exactly the listed columns of one row. Create returns only the id and `created_at`.
- **Repository reads.** `GetAllForUser` returns exactly the user's rows, or no partial result. The earlier revision returns a nil slice when no row matches.
- **Configuration.** `Load` succeeds on an empty environment. It can only fail on a port. Validation ignores root password, server host, environment and log level.
- **Handler guards.** `extractTaskID` inverts the `Location` header.

Module layout, one file each:

- `Wrappers`, `GoStrings` (`strings` functions), `GoFormat` (`%q` and its inverse), `GoAtoi`.
- `AppErrors`, `DatabaseErrors`, `Models`, `Storage`.
- `TaskTable`, `UserTable` and `CategoryTable`: row shapes shared by both revisions.
- `TaskRepo`, `UserRepo`, `CategoryRepo`.
- `LegacyTaskRepo`, `LegacyUserRepo`, `LegacyCategoryRepo`.
- `Config`, `TaskHandlers`, `Scenarios`.

The model follows the code wherever it departs from the stated design intent. The design treats zero affected rows on Update or Delete as Not-Found. The code does something else. `validateRowsAffected` builds a plain error "no <noun> found with id <id>" and passes it to the classifier. That error is not `sql.ErrNoRows`, so the result is a DATABASE_ERROR with status 500. Its message even depends on the id: an id containing "connection" or "timeout" reads as an outage or a timeout (`DatabaseErrors.NoRowFoundClassification`).

Other behaviours of the code that the model keeps as written:

- The earlier task `Delete` reports "no category found with id <id>".
- The earlier category `Create` prefixes its errors with "createUser: ".
- The earlier user `Create` writes the new id into the caller's record before the insert, even when the insert then fails.

## Model

| member | source | states |
|---|---|---|
| AppErrors.TypeName | internal/errors/errors.go:10-14 | each error type has a non-empty wire name |
| AppErrors.TypeNameInjective | internal/errors/errors.go:10-14 | distinct error types have distinct wire names |
| AppErrors.NewDatabaseError | internal/errors/errors.go:32-39 | type DATABASE_ERROR, status 500, message and cause stored unchanged, Code and Details empty |
| AppErrors.NewNotFoundError | internal/errors/errors.go:41-48 | type NOT_FOUND, status 404, message and cause stored unchanged, Code and Details empty |
| AppErrors.NewInternalError | internal/errors/errors.go:50-57 | type INTERNAL_ERROR, status 500, message and cause stored unchanged, Code and Details empty |
| AppErrors.ServerErrorIffNotNotFound | internal/errors/errors.go:32-57 | a constructed error has status 500 or more exactly when it is a database or internal error |
| AppErrors.ErrorMessage | internal/errors/errors.go:25-30 | `Error()` always starts with the message; it is the bare message exactly when there is no cause; trimming "message, " recovers the cause's text |
| DatabaseErrors.HandleDatabaseError | internal/errors/database.go:14-28 | NOT_FOUND "Resource not found" with the cause kept exactly when the error is `sql.ErrNoRows`; otherwise DATABASE_ERROR with no cause, "Service temporarily unavailable" iff the text contains "connection", "Request timeout" iff it contains "timeout" but not "connection", "Database operation failed" otherwise |
| DatabaseErrors.ExactlyFourOutcomes | internal/errors/database.go:15-27 | the result is one of exactly four fixed errors |
| DatabaseErrors.OperationIrrelevant | internal/errors/database.go:14-27 | the operation name never changes the result |
| DatabaseErrors.ConnectionBeforeTimeout | internal/errors/database.go:19-23 | a text containing both words is classified as unavailable, not as a timeout |
| DatabaseErrors.HandleNilableError | internal/errors/database.go:16-19 | a nil error makes the classifier panic; any other error is classified |
| DatabaseErrors.NoRowFoundClassification | internal/repository/task/task_repository_impl.go:55-57 | the zero-rows error of every repository is DATABASE_ERROR, never NOT_FOUND, and its message depends only on whether the id contains "connection" or "timeout" |
| Models.PriorityString | internal/models/task.go:26-37 | "low" iff Low, "high" iff High, "medium" for Medium and every out-of-range value |
| Models.StatusString | internal/models/task.go:39-50 | "in_progress" iff InProgress, "completed" iff Completed, "pending" for Pending and every out-of-range value |
| Models.ParsePriorityStatus | internal/models/task.go:94-105 | accepts exactly "low", "medium" and "high" and re-encodes to the same text; anything else is "invalid priority status: <s>" with Medium |
| Models.ParseTaskStatus | internal/models/task.go:56-67 | accepts exactly the three status texts and re-encodes to the same text; anything else is "invalid task status: <s>" with Pending |
| Models.PriorityRoundTrip | internal/models/task.go:26-37 | parsing the text of any priority gives it back, normalised, without error |
| Models.StatusRoundTrip | internal/models/task.go:39-50 | parsing the text of any status gives it back, normalised, without error |
| Models.PriorityValue | internal/models/task.go:90-92 | `Value()` is the `String()` text and never an error |
| Models.StatusValue | internal/models/task.go:52-54 | `Value()` is the `String()` text and never an error |
| Models.ScanPriority | internal/models/task.go:107-126 | only strings and byte slices are accepted; on any error the receiver keeps its value, otherwise it takes the parsed value |
| Models.ScanStatus | internal/models/task.go:69-88 | only strings and byte slices are accepted; on any error the receiver keeps its value, otherwise it takes the parsed value |
| Models.ScanOfValue | internal/models/task.go:107-126 | scanning what `Value()` wrote restores the value, normalised, without error |
| Models.PriorityVar.Scan | internal/models/task.go:107-126 | the receiver and the returned error are those of `ScanPriority` on the old receiver |
| Models.StatusVar.Scan | internal/models/task.go:69-88 | the receiver and the returned error are those of `ScanStatus` on the old receiver |
| TaskTable.InsertedRow | internal/repository/task/task_repository_impl.go:13 | the inserted row holds valid enum texts, `created_at` from the database, and no `completed_at` or `updated_at` |
| TaskTable.UpdatedRow | internal/repository/task/task_repository_impl.go:17 | the update keeps owner, category and creation time, and leaves valid enum texts |
| TaskTable.ScanTaskRow | internal/repository/task/task_repository_impl.go:33-48 | the scan succeeds exactly when both stored enum texts parse, and then carries the row's id, owner, category and enum texts |
| TaskTable.InsertedRowReadsBack | internal/repository/task/task_repository_impl.go:61-87 | an inserted row reads back as the caller's task under the new id, enums normalised, with the database's `created_at` |
| TaskTable.UpdatedRowReadsBack | internal/repository/task/task_repository_impl.go:121-153 | an updated row reads back with the caller's seven fields and the row's own id, owner, category and `created_at` |
| TaskRepo.ValidateRowsAffected | internal/repository/task/task_repository_impl.go:50-59 | no error iff the count is readable and positive; a zero count is a 500 DATABASE_ERROR built from "no task found with id <id>" |
| TaskRepo.TaskRepository.Create | internal/repository/task/task_repository_impl.go:61-87 | success iff no step fails; then exactly one row is added under the fresh id and only id and `created_at` are returned; on failure the table is unchanged and the error is classified |
| TaskRepo.TaskRepository.GetAllForUser | internal/repository/task/task_repository_impl.go:89-109 | exactly the user's tasks in cursor order (empty, not nil, when none); any query, scan or cursor error gives no partial result |
| TaskRepo.TaskRepository.GetById | internal/repository/task/task_repository_impl.go:111-119 | the stored task, or NOT_FOUND (404) when the id is absent |
| TaskRepo.TaskRepository.Update | internal/repository/task/task_repository_impl.go:121-153 | on success only the seven columns of that row change; an absent id or any failure leaves the table unchanged, the absent id with a 500 DATABASE_ERROR |
| TaskRepo.TaskRepository.Delete | internal/repository/task/task_repository_impl.go:155-177 | on success exactly that row is removed; an absent id or any failure leaves the table unchanged, the absent id with a 500 DATABASE_ERROR |
| UserTable.UpdatedRow | internal/repository/user/user_repository_impl.go:19 | the update keeps password hash and both timestamps |
| UserTable.InsertedRowReadsBack | internal/repository/user/user_repository_impl.go:14 | an inserted user reads back as the caller's user under the new id with the database's timestamps |
| UserRepo.ValidateRowsAffected | internal/repository/user/user_repository_impl.go:53-62 | no error iff the count is readable and positive; a zero count is a 500 DATABASE_ERROR built from "no user found with id <id>" |
| UserRepo.UserRepository.Create | internal/repository/user/user_repository_impl.go:64-97 | success iff no step fails; then exactly one row with email, hash and names is added and only id and `created_at` are returned; a failed insert, such as a duplicate email, persists nothing; emails stay unique |
| UserRepo.UserRepository.GetById | internal/repository/user/user_repository_impl.go:99-110 | the stored user, or NOT_FOUND when the id is absent |
| UserRepo.UserRepository.GetByEmail | internal/repository/user/user_repository_impl.go:112-123 | the one user holding that email, or NOT_FOUND when none does |
| UserRepo.UserRepository.Delete | internal/repository/user/user_repository_impl.go:125-154 | on success exactly that row is removed; an absent id or any failure leaves the table unchanged, the absent id with a 500 DATABASE_ERROR |
| UserRepo.UserRepository.Update | internal/repository/user/user_repository_impl.go:156-192 | on success only email and names of that row change; an absent id or any failure leaves the table unchanged; emails stay unique |
| CategoryTable.UpdatedRow | internal/repository/category/category_repository_impl.go:18 | the update keeps owner and creation time |
| CategoryTable.InsertedRowReadsBack | internal/repository/category/category_repository_impl.go:14 | an inserted category reads back as the caller's category under the new id with the database's `created_at` |
| CategoryRepo.ValidateRowsAffected | internal/repository/category/category_repository_impl.go:52-61 | no error iff the count is readable and positive; a zero count is a 500 DATABASE_ERROR built from "no category found with id <id>" |
| CategoryRepo.DeleteOutcomeAsWritten | internal/repository/category/category_repository_impl.go:179-201 | the code as written panics exactly when the statement and the count succeed and no row matched |
| CategoryRepo.DeleteMissingPanics | internal/repository/category/category_repository_impl.go:189-196 | deleting an absent category with a healthy driver panics |
| CategoryRepo.AsWrittenDeleteDiffersOnlyByPanic | internal/repository/category/category_repository_impl.go:179-201 | where the code as written returns, it returns what the corrected Delete returns; where it panics, the corrected Delete returns the "no category found" error |
| CategoryRepo.DeleteError | internal/repository/category/category_repository_impl.go:179-201 | no error iff the row exists and neither the statement nor the count fails; a zero count gives the "no category found with id" DATABASE_ERROR |
| CategoryRepo.CategoryRepository.Create | internal/repository/category/category_repository_impl.go:63-100 | success iff no step fails; then exactly one row is added and only id and `created_at` are returned; on failure the table is unchanged |
| CategoryRepo.CategoryRepository.GetAllForUser | internal/repository/category/category_repository_impl.go:102-128 | exactly the user's categories in cursor order (empty, not nil, when none); no partial result on error |
| CategoryRepo.CategoryRepository.GetById | internal/repository/category/category_repository_impl.go:130-143 | the stored category, or NOT_FOUND when the id is absent |
| CategoryRepo.CategoryRepository.Update | internal/repository/category/category_repository_impl.go:145-177 | on success only name and color of that row change; an absent id or any failure leaves the table unchanged, the absent id with a 500 DATABASE_ERROR |
| CategoryRepo.CategoryRepository.Delete | internal/repository/category/category_repository_impl.go:179-201 | corrected: returns `DeleteError`; with no transaction the row is gone once the statement runs, even if the count then fails |
| GoFormat.EscapeChar | internal/repository/task_repository_impl.go:46 | each character is written as one to four characters |
| GoFormat.Quote | internal/repository/task_repository_impl.go:46 | `%q` output starts and ends with a double quote |
| GoFormat.UnquoteQuote | internal/repository/task_repository_impl.go:46 | reading a quoted string back gives the string and exactly the text after it |
| GoFormat.QuotedPrefixUnique | internal/repository/task_repository_impl.go:46 | two texts that start with quoted strings agree only if the quoted strings and the rest agree |
| GoFormat.QuotePlain | internal/repository/task_repository_impl.go:46 | a printable ASCII id without quotes or backslashes is quoted unchanged |
| LegacyTaskRepo.TasksByUserErrorReadsBack | internal/repository/task_repository_impl.go:46 | a "tasksByUser" error names its user and carries the driver's text, both recoverable |
| LegacyTaskRepo.LegacyTaskRepository.Create | internal/repository/task_repository_impl.go:19-38 | one row under the fresh id with enums stored through `String()`, or "" and a "createTask: " error with the table unchanged |
| LegacyTaskRepo.LegacyTaskRepository.GetAllTasksForUser | internal/repository/task_repository_impl.go:40-75 | the user's tasks in cursor order, a nil slice exactly when none match; any error gives a nil slice and the "tasksByUser" text |
| LegacyTaskRepo.LegacyTaskRepository.Update | internal/repository/task_repository_impl.go:77-113 | only the seven columns of that row change, and the change stands even if the count fails; an absent id gives "updateTask: no task found with id <id>" |
| LegacyTaskRepo.LegacyTaskRepository.Delete | internal/repository/task_repository_impl.go:115-131 | exactly that row is removed once the statement runs; an absent id gives "deleteTask: no category found with id <id>" |
| LegacyUserRepo.UsersByIdError | internal/repository/user_repository_impl.go:43-48 | "usersById <id>: no such user" for `sql.ErrNoRows`, otherwise the driver's text after "usersById <id>: " |
| LegacyUserRepo.LegacyUserRepository.Create | internal/repository/user_repository_impl.go:19-28 | the caller's record gets the fresh id whether or not the insert succeeds; returns the id, or "" and a "createUser: " error with the table unchanged |
| LegacyUserRepo.LegacyUserRepository.GetById | internal/repository/user_repository_impl.go:30-50 | the stored user, or a zero user with "usersById <id>: no such user" for an absent id |
| LegacyUserRepo.LegacyUserRepository.Delete | internal/repository/user_repository_impl.go:52-68 | exactly that row is removed once the statement runs; an absent id gives "deleteUser: no user found with id <id>" |
| LegacyUserRepo.LegacyUserRepository.Update | internal/repository/user_repository_impl.go:70-86 | only email and names of that row change, and the change stands even if the count fails; an absent id gives "updateUser: no user found with id <id>" |
| LegacyUserRepo.DeleteThenGet | internal/repository/user/user_repository_test.go:99-104 | after a delete, reading the user fails with "usersById <id>: no such user" |
| LegacyCategoryRepo.LegacyCategoryRepository.Create | internal/repository/category_repository_impl.go:19-28 | one row under the fresh id, or "" and an error prefixed "createUser: " with the table unchanged |
| LegacyCategoryRepo.LegacyCategoryRepository.GetAllCategoriesForUser | internal/repository/category_repository_impl.go:30-53 | the user's categories in cursor order, a nil slice exactly when none match; any error gives a nil slice and the "categoriesByUser" text |
| LegacyCategoryRepo.LegacyCategoryRepository.Update | internal/repository/category_repository_impl.go:55-73 | name and color change only when the row belongs to that user; another user's row is untouched and reported as "no category found with id <id>" |
| LegacyCategoryRepo.LegacyCategoryRepository.Delete | internal/repository/category_repository_impl.go:75-91 | the row is removed only when it belongs to that user; otherwise nothing changes and "deleteCategory: no category found with id <id>" is returned |
| GoAtoi.AtoiAccepts | internal/config/config.go:77-82 | `strconv.Atoi` succeeds exactly on an optional sign and decimal digits whose value fits in 64 bits, and returns that value |
| GoAtoi.RangeBeforeSyntax | internal/config/config.go:77-82 | on long input an overflow is reported before a later non-digit: twenty nines then a letter is out of range |
| Config.GetEnvWithDefault | internal/config/config.go:99-103 | the variable's value when set and non-empty, the default otherwise; never empty when the default is not |
| Config.Validate | internal/config/config.go:63-85 | passes exactly when user, password, host and name are non-empty and both ports are read by `Atoi`. Otherwise it reports the first failure, each guarded by the earlier checks passing: "DB_USER is required", "DB_PASS is required", "DB_HOST is required", "DB is required", then "DB_PORT must be a valid integer: " and Atoi's error, then the same for SERVER_PORT |
| Config.Load | internal/config/config.go:34-61 | succeeds exactly when validation of the environment's configuration passes; otherwise "config validation failed: " and the first failure |
| Config.ValidateIgnoresOtherSettings | internal/config/config.go:63-85 | root password, server host, environment and log level never change validation |
| Config.LoadEmptyEnv | internal/config/config.go:34-61 | with no variable set, `Load` succeeds with all defaults |
| Config.LoadFailsOnlyOnPorts | internal/config/config.go:34-85 | from `Load` every "is required" setting is present. A failure is exactly "config validation failed: DB_PORT must be a valid integer: …" when the DB port is unreadable, and otherwise the SERVER_PORT message for an unreadable server port |
| Config.NumericPortsValidate | internal/config/config.go:77-82 | any in-range decimal ports pass, whatever their sign or size as TCP ports |
| Config.EnvironmentPredicates | internal/config/config.go:87-93 | development and production never hold together; an unset ENV is development |
| Config.ServerAddress | internal/config/config.go:95-97 | host, colon, port; for a host without a colon the address splits back at its first colon |
| TaskHandlers.ExtractTaskID | internal/handlers/task.go:25-30 | the id is the path without one leading "/tasks/" and without one trailing "/" whenever one is present: "/tasks/" + id + "/" for a longer prefixed path ending in "/", "/tasks/" + id otherwise, and the same without the prefix |
| TaskHandlers.ExtractRoundTrip | internal/handlers/task.go:25-30 | an id not ending in "/" is recovered from its path with or without a trailing slash and from its `Location` header |
| TaskHandlers.DoubleSlash | internal/handlers/task.go:26-27 | "/tasks/x//" yields "x/" |
| TaskHandlers.NoPrefixKeepsPath | internal/handlers/task.go:25-30 | a path without the prefix only loses one trailing slash |
| TaskHandlers.TaskIdGuard | internal/handlers/task.go:41-47 | BadRequest "Task ID is required" exactly when the extracted id is empty; otherwise the id goes on |
| TaskHandlers.EmptyIdPaths | internal/handlers/task.go:41-47 | "/tasks/", "/tasks//", "/" and "" are rejected |
| TaskHandlers.QueryGet | internal/handlers/task.go:74 | the first value of the key, or "" |
| TaskHandlers.UserIdGuard | internal/handlers/task.go:73-79 | BadRequest "User ID parameter is required" exactly when `userId` is missing or its first value is empty |
| TaskHandlers.FirstUserIdDecides | internal/handlers/task.go:73-79 | an empty first `userId` is rejected even when a later one is not |
| Scenarios.CreateThenGet | internal/repository/task/task_repository_impl.go:61-119 | a created task reads back as the caller's task under the new id with normalised enums and the database's `created_at` |
| Scenarios.DeleteTwice | internal/repository/task/task_repository_test.go:127-132 | after a delete the read is NOT_FOUND ("Resource not found, sql: no rows in result set") and a second delete is a 500 DATABASE_ERROR |
| Scenarios.ClientSession | internal/repository/task/task_repository_test.go:109-133 | create user, create task, list, delete, read: the listing holds exactly the one task "T" and the final read is NOT_FOUND |

## Left out

- Logging: the `slog` calls, the warning that the deferred `Rollback` logs after a successful commit, and the two `fmt.Println` writes to standard output in the earlier category `Update` (internal/repository/category_repository_impl.go:56 and :64). Timing is left out too. None of these affects a result or the table.
- The SQL text and the driver: a table plus a failure oracle replaces them. The oracle fails at most one step per call.
- `uuid.NewString` and the database clock: the model takes them as parameters.
- MySQL reports changed rows, not matched rows, as rows affected. An UPDATE that rewrites identical values could therefore be counted as zero rows. The model counts a matched row as one affected row.
- Rows that are not closed on the early error returns of the cursor loops: a resource leak with no effect on results.
- Foreign keys between tasks, users and categories, and any cascade: the database schema (init-db.sql) is not part of this model.
- `TaskTable.InsertedRow`: without the schema, the columns the INSERT does not write are assumed to default to NULL (`completed_at`, `updated_at`) and to the insert time (`created_at`). `TaskTable.InsertedRowReadsBack` and `Scenarios.CreateThenGet` rest on these defaults.
- `UserTable.InsertedRow`: `created_at` and `updated_at` are both assumed to default to the insert time. `UserTable.InsertedRowReadsBack` rests on this.
- `UserTable.UpdatedRow`: `updated_at` is assumed to be left as it was by the UPDATE. A column declared `ON UPDATE CURRENT_TIMESTAMP` would take the update time instead.
- `Models.BytesToString`: a `[]byte` column is read one byte per character. Go's `string(b)` decodes UTF-8, so for non-ASCII bytes the text in "invalid priority status: <s>" and "invalid task status: <s>" differs. Acceptance and rejection are the same either way, because every accepted text is ASCII.
- Concurrency and isolation between requests: each call runs alone against the table.
- HTTP plumbing of the handlers: method dispatch, body reading, JSON, response writing and `NewBadRequestError`. That error is not defined in the code shown here, so only its message is modelled.
- `DBTask.String`, `DBCategory.String` and the response constructors: time formatting and `time.Now()`.
- Scan failures for columns other than priority and status, such as NULL into a string or unparsable times. Row scans fail only through the oracle.
- `LegacyUserRepo.LegacyUserRepository.GetById`: a scan that fails part-way leaves the earlier columns filled in Go. The model returns a zero user on every error.
- `GoFormat.Quote`: printable non-ASCII characters are kept as Go keeps them. Non-printable ones above U+007F, which Go writes as `\u` or `\U` escapes, are kept unescaped.
- `GoAtoi.Atoi`: the choice between the fast and slow path uses the length in characters, not bytes. The two differ only for non-ASCII text, which both paths reject before any overflow.
- The test at internal/repository/task/task_repository_test.go:130-132 expects the text "taskById <id>: no such task". No revision of the code produces it, so it is not modelled.

## Findings

| source | as written | input that shows it | evidently intended | confidence | as-written member | corrected member |
|---|---|---|---|---|---|---|
| internal/repository/category/category_repository_impl.go:189-196 | when no row matched, `Delete` passes the nil error of the successful `RowsAffected` call to `HandleDatabaseError`, whose `err.Error()` dereferences it and panics | `Delete` of an id with no row, with a healthy driver | return a 500 DATABASE_ERROR built from "no category found with id <id>", as `validateRowsAffected` does for Update | high; not executed | CategoryRepo.DeleteOutcomeAsWritten | CategoryRepo.CategoryRepository.Delete |
