/** `HandleDatabaseError`: the classifier that turns any storage failure into one of
    four fixed application errors, by identity with `sql.ErrNoRows` and then by
    case-sensitive substring tests on the error text. */
module DatabaseErrors {
  import opened Wrappers
  import opened GoStrings
  import opened AppErrors

  const ConnectionWord := "connection"
  const TimeoutWord := "timeout"

  const NotFoundMessage := "Resource not found"
  const UnavailableMessage := "Service temporarily unavailable"
  const TimeoutMessage := "Request timeout"
  const FailedMessage := "Database operation failed"

  /** The three database outcomes; none of them carries the driver's error. */
  const Unavailable := NewDatabaseError(UnavailableMessage, None)
  const TimedOut := NewDatabaseError(TimeoutMessage, None)
  const Failed := NewDatabaseError(FailedMessage, None)

  /** The classifier. `operation` names the failing repository call; it does not
      influence the result. */
  function HandleDatabaseError(operation: string, err: GoError): (r: AppError)
    ensures Constructed(r) && r.kind != InternalError
    ensures r.kind == NotFoundError <==> err == ErrNoRows
    ensures r.kind == NotFoundError ==> r.message == NotFoundMessage && r.err == Some(err)
    ensures r.kind == DatabaseError ==> r.err == None && ErrorMessage(r) == r.message
    ensures r.message == UnavailableMessage <==>
              err != ErrNoRows && Contains(ErrorText(err), ConnectionWord)
    ensures r.message == TimeoutMessage <==>
              err != ErrNoRows && !Contains(ErrorText(err), ConnectionWord)
              && Contains(ErrorText(err), TimeoutWord)
    ensures r.message == FailedMessage <==>
              err != ErrNoRows && !Contains(ErrorText(err), ConnectionWord)
              && !Contains(ErrorText(err), TimeoutWord)
  {
    if err == ErrNoRows then NewNotFoundError(NotFoundMessage, Some(err))
    else if Contains(ErrorText(err), ConnectionWord) then Unavailable
    else if Contains(ErrorText(err), TimeoutWord) then TimedOut
    else Failed
  }

  /** The result is always one of exactly four errors. */
  lemma ExactlyFourOutcomes(operation: string, err: GoError)
    ensures HandleDatabaseError(operation, err) in
              {NewNotFoundError(NotFoundMessage, Some(ErrNoRows)), Unavailable, TimedOut, Failed}
  {
  }

  /** The operation name never changes the classification. */
  lemma OperationIrrelevant(op1: string, op2: string, err: GoError)
    ensures HandleDatabaseError(op1, err) == HandleDatabaseError(op2, err)
  {
  }

  /** The "connection" test comes first: an error mentioning both words reads as
      unavailability, not as a timeout. */
  lemma ConnectionBeforeTimeout(operation: string, a: string, b: string, c: string)
    ensures HandleDatabaseError(operation, DriverError(a + ConnectionWord + b + TimeoutWord + c))
            == Unavailable
  {
    var text := a + ConnectionWord + b + TimeoutWord + c;
    ContainsConnectionOf(a, b + TimeoutWord + c);
    assert text == a + ConnectionWord + (b + TimeoutWord + c);
  }

  /** `a + "connection" + b` contains "connection". */
  lemma ContainsConnectionOf(a: string, b: string)
    ensures Contains(a + ConnectionWord + b, ConnectionWord)
  {
    var w := ConnectionWord + b;
    assert w[..|ConnectionWord|] == ConnectionWord;
    assert Contains(w, ConnectionWord);
    ContainsInSuffix(a, w, ConnectionWord);
    assert a + ConnectionWord + b == a + w;
  }

  /** The classifier applied to a Go `error` that may be nil. A nil error fails the
      `ErrNoRows` test and `err.Error()` then dereferences it: the call panics,
      shown here as `None`. */
  function HandleNilableError(operation: string, err: Option<GoError>): (r: Option<AppError>)
    ensures r.None? <==> err.None?
    ensures err.Some? ==> r == Some(HandleDatabaseError(operation, err.value))
  {
    match err
    case None => None
    case Some(e) => Some(HandleDatabaseError(operation, e))
  }

  /** The error text a repository's rows-affected check synthesises when a statement
      matched no row. */
  function NoRowFoundText(noun: string, id: string): string {
    "no " + noun + " found with id " + id
  }

  /** The nouns the three repositories use in that text. */
  predicate RepositoryNoun(noun: string) {
    noun == "task" || noun == "user" || noun == "category"
  }

  /** A zero-rows outcome is never NOT_FOUND: it is a 500 database error whose message
      depends only on the id the caller supplied. An id containing "connection" or
      "timeout" turns it into "Service temporarily unavailable" or "Request timeout";
      any other id gives "Database operation failed". */
  lemma NoRowFoundClassification(operation: string, noun: string, id: string)
    requires RepositoryNoun(noun)
    ensures HandleDatabaseError(operation, DriverError(NoRowFoundText(noun, id))) ==
              if Contains(id, ConnectionWord) then Unavailable
              else if Contains(id, TimeoutWord) then TimedOut
              else Failed
  {
    var p := "no " + noun + " found with id ";
    assert NoRowFoundText(noun, id) == p + id;
    PrefixFreeOfWord(noun, ConnectionWord);
    PrefixFreeOfWord(noun, TimeoutWord);
    PrefixKeepsWords(p, id, ConnectionWord);
    PrefixKeepsWords(p, id, TimeoutWord);
  }

  /** Prepending a string that ends in a space and does not contain a word without
      spaces changes nothing about whether the word occurs. */
  lemma {:induction false} PrefixKeepsWords(p: string, s: string, w: string)
    requires |w| > 0 && |p| > 0 && p[|p| - 1] == ' ' && ' ' !in w
    requires !Contains(p, w)
    ensures Contains(p + s, w) <==> Contains(s, w)
  {
    if Contains(s, w) {
      ContainsInSuffix(p, s, w);
    } else {
      NoStraddle(p, s, w);
    }
  }

  /** Neither word occurs in the fixed part of the synthesised text: it is made of
      space-terminated pieces, each shorter than the word or lacking one of its
      letters. */
  lemma {:induction false} PrefixFreeOfWord(noun: string, w: string)
    requires RepositoryNoun(noun)
    requires w == ConnectionWord || w == TimeoutWord
    ensures !Contains("no " + noun + " found with id ", w)
  {
    NounPieceFree(noun, w);
    FixedPiecesFree(w);
    PiecesFree("no ", noun + " ", "found ", "with ", "id ", w);
    MessagePieces(noun);
  }

  /** The noun with its space does not contain either word. */
  lemma {:induction false} NounPieceFree(noun: string, w: string)
    requires RepositoryNoun(noun)
    requires w == ConnectionWord || w == TimeoutWord
    ensures !Contains(noun + " ", w)
  {
    var b := noun + " ";
    if noun == "category" && w == TimeoutWord {
      assert w[2] == 'm' && 'm' !in b;
      if Contains(b, w) {
        ContainsOnlyCharsOf(b, w, 2);
      }
    } else {
      ShortFree(b, w);
    }
  }

  /** The fixed words of the message are each shorter than either word. */
  lemma FixedPiecesFree(w: string)
    requires w == ConnectionWord || w == TimeoutWord
    ensures !Contains("no ", w) && !Contains("found ", w) && !Contains("with ", w) && !Contains("id ", w)
  {
    ShortFree("no ", w);
    ShortFree("found ", w);
    ShortFree("with ", w);
    ShortFree("id ", w);
  }

  lemma MessagePieces(noun: string)
    ensures "no " + (noun + " " + ("found " + ("with " + "id "))) == "no " + noun + " found with id "
  {
  }

  /** Five space-terminated pieces free of a word without spaces concatenate to a
      string free of it. */
  lemma {:induction false} PiecesFree(a: string, b: string, c: string, d: string, e: string, w: string)
    requires |w| > 0 && ' ' !in w
    requires |a| > 0 && |b| > 0 && |c| > 0 && |d| > 0
    requires a[|a| - 1] == ' ' && b[|b| - 1] == ' ' && c[|c| - 1] == ' ' && d[|d| - 1] == ' '
    requires !Contains(a, w) && !Contains(b, w) && !Contains(c, w) && !Contains(d, w)
    requires !Contains(e, w)
    ensures !Contains(a + (b + (c + (d + e))), w)
  {
    NoStraddle(d, e, w);
    NoStraddle(c, d + e, w);
    NoStraddle(b, c + (d + e), w);
    NoStraddle(a, b + (c + (d + e)), w);
  }

  /** A string shorter than the word cannot contain it. */
  lemma {:induction false} ShortFree(s: string, w: string)
    requires |s| < |w|
    ensures !Contains(s, w)
  {
    if Contains(s, w) {
      ContainsLength(s, w);
    }
  }
}
