/** The entity records and the task enums with their storage codecs: `String`,
    `Value`, `Parse*` and `Scan` for `TaskPriority` and `TaskStatus`. */
module Models {
  import opened Wrappers

  /** `TaskPriority` and `TaskStatus` are Go `int`s: every integer is a value of the
      type, not only the three named constants. */
  newtype TaskPriority = int
  newtype TaskStatus = int

  const Low: TaskPriority := 0
  const Medium: TaskPriority := 1
  const High: TaskPriority := 2

  const Pending: TaskStatus := 0
  const InProgress: TaskStatus := 1
  const Completed: TaskStatus := 2

  /** The texts the storage column accepts. */
  predicate IsPriorityText(s: string) {
    s == "low" || s == "medium" || s == "high"
  }

  predicate IsStatusText(s: string) {
    s == "pending" || s == "in_progress" || s == "completed"
  }

  /** What an out-of-range value turns into once written and read back. */
  function NormalPriority(p: TaskPriority): TaskPriority {
    if Low <= p <= High then p else Medium
  }

  function NormalStatus(s: TaskStatus): TaskStatus {
    if Pending <= s <= Completed then s else Pending
  }

  /** `TaskPriority.String`: the three constants by name, any other integer as
      "medium". */
  function PriorityString(p: TaskPriority): (s: string)
    ensures IsPriorityText(s)
    ensures s == "low" <==> p == Low
    ensures s == "high" <==> p == High
    ensures s == "medium" <==> p != Low && p != High
  {
    if p == Low then "low"
    else if p == Medium then "medium"
    else if p == High then "high"
    else "medium"
  }

  /** `TaskStatus.String`: the three constants by name, any other integer as
      "pending". */
  function StatusString(s: TaskStatus): (t: string)
    ensures IsStatusText(t)
    ensures t == "in_progress" <==> s == InProgress
    ensures t == "completed" <==> s == Completed
    ensures t == "pending" <==> s != InProgress && s != Completed
  {
    if s == Pending then "pending"
    else if s == InProgress then "in_progress"
    else if s == Completed then "completed"
    else "pending"
  }

  /** `ParsePriorityStatus`: accepts exactly the three texts, and re-encodes to the
      text it read; any other text is an error, with Medium as the value. */
  function ParsePriorityStatus(s: string): (r: (TaskPriority, Option<string>))
    ensures r.1.None? <==> IsPriorityText(s)
    ensures r.1.None? ==> PriorityString(r.0) == s && Low <= r.0 <= High
    ensures r.1.Some? ==> r.0 == Medium && r.1.value == "invalid priority status: " + s
  {
    if s == "low" then (Low, None)
    else if s == "medium" then (Medium, None)
    else if s == "high" then (High, None)
    else (Medium, Some("invalid priority status: " + s))
  }

  /** `ParseTaskStatus`: accepts exactly the three texts, and re-encodes to the text it
      read; any other text is an error, with Pending as the value. */
  function ParseTaskStatus(s: string): (r: (TaskStatus, Option<string>))
    ensures r.1.None? <==> IsStatusText(s)
    ensures r.1.None? ==> StatusString(r.0) == s && Pending <= r.0 <= Completed
    ensures r.1.Some? ==> r.0 == Pending && r.1.value == "invalid task status: " + s
  {
    if s == "pending" then (Pending, None)
    else if s == "in_progress" then (InProgress, None)
    else if s == "completed" then (Completed, None)
    else (Pending, Some("invalid task status: " + s))
  }

  /** Encoding then decoding gives back every in-range priority, and Medium for any
      other integer, never an error. */
  lemma PriorityRoundTrip(p: TaskPriority)
    ensures ParsePriorityStatus(PriorityString(p)) == (NormalPriority(p), None)
  {
  }

  /** Encoding then decoding gives back every in-range status, and Pending for any
      other integer, never an error. */
  lemma StatusRoundTrip(s: TaskStatus)
    ensures ParseTaskStatus(StatusString(s)) == (NormalStatus(s), None)
  {
  }

  /** A value the database driver hands to `Scan`, or receives from `Value`. */
  datatype DriverValue = TextValue(text: string) | BytesValue(bytes: seq<bv8>) | OtherValue(typeName: string)

  /** Go's `string(b)` for a byte slice, byte by byte (exact for ASCII). */
  function BytesToString(b: seq<bv8>): (s: string)
    ensures |s| == |b|
  {
    seq(|b|, i requires 0 <= i < |b| => (b[i] as int) as char)
  }

  /** The text inside a driver value, when it is a string or a byte slice. */
  function ScanText(v: DriverValue): Option<string> {
    match v
    case TextValue(t) => Some(t)
    case BytesValue(b) => Some(BytesToString(b))
    case OtherValue(_) => None
  }

  /** `TaskPriority.Value`: the `String()` text, never an error. */
  function PriorityValue(p: TaskPriority): (r: (DriverValue, Option<string>))
    ensures r.1.None? && r.0.TextValue? && IsPriorityText(r.0.text)
    ensures r.0 == TextValue(PriorityString(p))
  {
    (TextValue(PriorityString(p)), None)
  }

  /** `TaskStatus.Value`: the `String()` text, never an error. */
  function StatusValue(s: TaskStatus): (r: (DriverValue, Option<string>))
    ensures r.1.None? && r.0.TextValue? && IsStatusText(r.0.text)
    ensures r.0 == TextValue(StatusString(s))
  {
    (TextValue(StatusString(s)), None)
  }

  /** The effect of `(*TaskPriority).Scan` on a receiver holding `current`: the new
      receiver value and the returned error. Only strings and byte slices are
      accepted; on any error the receiver keeps its value. */
  function ScanPriority(current: TaskPriority, v: DriverValue): (r: (TaskPriority, Option<string>))
    ensures r.1.None? <==> ScanText(v).Some? && IsPriorityText(ScanText(v).value)
    ensures r.1.None? ==> r.0 == ParsePriorityStatus(ScanText(v).value).0
    ensures r.1.Some? ==> r.0 == current
    ensures v.OtherValue? ==> r.1 == Some("invalid type for TaskPriority: " + v.typeName)
  {
    match ScanText(v)
    case None => (current, Some("invalid type for TaskPriority: " + v.typeName))
    case Some(text) =>
      var (parsed, err) := ParsePriorityStatus(text);
      if err.Some? then (current, err) else (parsed, None)
  }

  /** The effect of `(*TaskStatus).Scan` on a receiver holding `current`. */
  function ScanStatus(current: TaskStatus, v: DriverValue): (r: (TaskStatus, Option<string>))
    ensures r.1.None? <==> ScanText(v).Some? && IsStatusText(ScanText(v).value)
    ensures r.1.None? ==> r.0 == ParseTaskStatus(ScanText(v).value).0
    ensures r.1.Some? ==> r.0 == current
    ensures v.OtherValue? ==> r.1 == Some("invalid type for TaskStatus: " + v.typeName)
  {
    match ScanText(v)
    case None => (current, Some("invalid type for TaskStatus: " + v.typeName))
    case Some(text) =>
      var (parsed, err) := ParseTaskStatus(text);
      if err.Some? then (current, err) else (parsed, None)
  }

  /** What `Value` writes, `Scan` reads back as the normalised value, whatever the
      receiver held before. */
  lemma ScanOfValue(current: TaskPriority, p: TaskPriority, s0: TaskStatus, s: TaskStatus)
    ensures ScanPriority(current, PriorityValue(p).0) == (NormalPriority(p), None)
    ensures ScanStatus(s0, StatusValue(s).0) == (NormalStatus(s), None)
  {
    PriorityRoundTrip(p);
    StatusRoundTrip(s);
  }

  /** A `TaskPriority` variable that `Scan` writes through its pointer. */
  class PriorityVar {
    var value: TaskPriority

    constructor (v: TaskPriority)
      ensures value == v
    {
      value := v;
    }

    method Scan(src: DriverValue) returns (err: Option<string>)
      modifies this
      ensures (value, err) == ScanPriority(old(value), src)
    {
      var text: string;
      match src {
        case TextValue(t) => text := t;
        case BytesValue(b) => text := BytesToString(b);
        case OtherValue(name) =>
          return Some("invalid type for TaskPriority: " + name);
      }
      var parsed, parseErr := ParsePriorityStatus(text).0, ParsePriorityStatus(text).1;
      if parseErr.Some? {
        return parseErr;
      }
      value := parsed;
      return None;
    }
  }

  /** A `TaskStatus` variable that `Scan` writes through its pointer. */
  class StatusVar {
    var value: TaskStatus

    constructor (v: TaskStatus)
      ensures value == v
    {
      value := v;
    }

    method Scan(src: DriverValue) returns (err: Option<string>)
      modifies this
      ensures (value, err) == ScanStatus(old(value), src)
    {
      var text: string;
      match src {
        case TextValue(t) => text := t;
        case BytesValue(b) => text := BytesToString(b);
        case OtherValue(name) =>
          return Some("invalid type for TaskStatus: " + name);
      }
      var parsed, parseErr := ParseTaskStatus(text).0, ParseTaskStatus(text).1;
      if parseErr.Some? {
        return parseErr;
      }
      value := parsed;
      return None;
    }
  }

  /** An opaque point in time assigned by the database or the caller. */
  datatype Instant = Instant(ticks: int)

  /** `DBTask`; the `*time.Time` fields are optional (nil is `None`). */
  datatype DBTask = DBTask(
    id: string,
    userId: string,
    categoryId: string,
    title: string,
    description: string,
    priority: TaskPriority,
    status: TaskStatus,
    dueDate: Option<Instant>,
    completedAt: Option<Instant>,
    createdAt: Option<Instant>,
    updatedAt: Option<Instant>)

  /** The zero `DBTask{}`. */
  const EmptyTask := DBTask("", "", "", "", "", Low, Pending, None, None, None, None)

  /** `DBUser`, with the fields and column order the user repository scans. */
  datatype DBUser = DBUser(
    id: string,
    email: string,
    passwordHash: string,
    firstName: string,
    lastName: string,
    createdAt: Option<Instant>,
    updatedAt: Option<Instant>)

  const EmptyUser := DBUser("", "", "", "", "", None, None)

  /** `DBCategory` */
  datatype DBCategory = DBCategory(
    id: string,
    userId: string,
    name: string,
    color: string,
    createdAt: Option<Instant>)

  const EmptyCategory := DBCategory("", "", "", "", None)
}
