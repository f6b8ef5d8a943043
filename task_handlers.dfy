/** The request checks of the task handlers that run before any service call: the
    task id taken from the path, and the `userId` query parameter. */
module TaskHandlers {
  import opened Wrappers
  import opened GoStrings

  const TasksPrefix := "/tasks/"

  /** `extractTaskID`: the path without at most one leading "/tasks/", then without at
      most one trailing "/". */
  function ExtractTaskID(path: string): (id: string)
    ensures HasPrefix(path, TasksPrefix) ==>
              path == TasksPrefix + id || path == TasksPrefix + id + "/"
    ensures !HasPrefix(path, TasksPrefix) ==> path == id || path == id + "/"
    ensures HasPrefix(path, TasksPrefix) && |path| > |TasksPrefix| && HasSuffix(path, "/") ==>
              path == TasksPrefix + id + "/"
    ensures HasPrefix(path, TasksPrefix) && (|path| == |TasksPrefix| || !HasSuffix(path, "/")) ==>
              path == TasksPrefix + id
    ensures !HasPrefix(path, TasksPrefix) && HasSuffix(path, "/") ==> path == id + "/"
    ensures !HasPrefix(path, TasksPrefix) && !HasSuffix(path, "/") ==> path == id
  {
    var taskId := TrimPrefix(path, TasksPrefix);
    TrimSuffix(taskId, "/")
  }

  /** The `Location` header of a created task. */
  function Location(id: string): string {
    TasksPrefix + id
  }

  /** An id that does not end in "/" is recovered from its path with or without a
      trailing slash, and so from the `Location` header. */
  lemma ExtractRoundTrip(id: string)
    requires !HasSuffix(id, "/")
    ensures ExtractTaskID(TasksPrefix + id) == id
    ensures ExtractTaskID(TasksPrefix + id + "/") == id
    ensures ExtractTaskID(Location(id)) == id
  {
    var p := TasksPrefix + id;
    assert p[..|TasksPrefix|] == TasksPrefix && p[|TasksPrefix|..] == id;
    var q := TasksPrefix + id + "/";
    assert q[..|TasksPrefix|] == TasksPrefix && q[|TasksPrefix|..] == id + "/";
    assert (id + "/")[..|id|] == id;
  }

  /** Only one trailing slash goes: "/tasks/x//" names the id "x/". */
  lemma DoubleSlash()
    ensures ExtractTaskID("/tasks/x//") == "x/"
  {
    assert "/tasks/x//"[..7] == TasksPrefix;
  }

  /** A path without the prefix only loses one trailing slash. */
  lemma NoPrefixKeepsPath(path: string)
    requires !HasPrefix(path, TasksPrefix)
    ensures ExtractTaskID(path) == TrimSuffix(path, "/")
  {
  }

  /** What a guard decides: a BadRequest with its message, or the value to go on
      with. */
  datatype Guarded = BadRequest(message: string) | Proceed(value: string)

  /** The guard of `GetTaskByID`: an empty id is a BadRequest "Task ID is required"
      and no service call is made. */
  function TaskIdGuard(path: string): (g: Guarded)
    ensures g.BadRequest? <==> ExtractTaskID(path) == ""
    ensures g.BadRequest? ==> g.message == "Task ID is required"
    ensures g.Proceed? ==> g.value == ExtractTaskID(path) && g.value != ""
  {
    var taskId := ExtractTaskID(path);
    if taskId == "" then BadRequest("Task ID is required") else Proceed(taskId)
  }

  /** The bare prefix, with or without one more slash, and the root path are all
      rejected. */
  lemma EmptyIdPaths()
    ensures TaskIdGuard("/tasks/").BadRequest?
    ensures TaskIdGuard("/tasks//").BadRequest?
    ensures TaskIdGuard("/").BadRequest?
    ensures TaskIdGuard("").BadRequest?
  {
    assert "/tasks/"[..7] == TasksPrefix;
    assert "/tasks//"[..7] == TasksPrefix;
  }

  /** A parsed query string: each key with its values in order. */
  type Query = map<string, seq<string>>

  /** `url.Values.Get`: the first value of the key, or "". */
  function QueryGet(q: Query, key: string): (v: string)
    ensures key !in q || q[key] == [] ==> v == ""
    ensures key in q && q[key] != [] ==> v == q[key][0]
  {
    if key in q && |q[key]| > 0 then q[key][0] else ""
  }

  /** The guard of `GetTasks`: an empty `userId` is a BadRequest "User ID parameter is
      required" and no service call is made. */
  function UserIdGuard(q: Query): (g: Guarded)
    ensures g.BadRequest? <==> MissingUserId(q)
    ensures g.BadRequest? ==> g.message == "User ID parameter is required"
    ensures g.Proceed? ==> g.value == q["userId"][0]
  {
    var userId := QueryGet(q, "userId");
    if userId == "" then BadRequest("User ID parameter is required") else Proceed(userId)
  }

  /** The `userId` parameter is missing, has no value, or its first value is empty. */
  predicate MissingUserId(q: Query) {
    "userId" !in q || q["userId"] == [] || q["userId"][0] == ""
  }

  /** Only the first value counts: an empty first `userId` is rejected even when a
      later one is not. */
  lemma FirstUserIdDecides(later: string)
    ensures UserIdGuard(map["userId" := ["", later]]).BadRequest?
  {
  }
}
