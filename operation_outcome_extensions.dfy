/**
 The OperationOutcome builder extensions: each one adds issues to the outcome it
 is given, in place, and hands the same outcome back so that calls can be chained.

 C# overloads become distinct names: Error(string) is `Error`, Error(Exception)
 is `ErrorFromException`, Message(string) is `Message` and
 Message(HttpStatusCode, string) is `MessageWithCode`.
 */
module OperationOutcomeExtensions {
  import opened DotNet
  import opened FhirModel

  // ---------------------------------------------------------------------------
  // Severity of a status code

  /**
   The severity the extensions give a status code, as written: the switch is keyed
   on `code % 100` (C#'s truncating remainder), whose value lies strictly between
   -100 and 100, so none of the labels 100..500 can match.
   */
  function IssueSeverityOf(code: HttpStatusCode): (r: IssueSeverity)
    ensures r == Information
  {
    match TruncatedRemainder(code, 100)
    case 100 | 200 => Information
    case 300 => Warning
    case 400 => IssueSeverity.Error
    case 500 => Fatal
    case _ => Information
  }

  /**
   The banding the case labels describe, keyed on the status class (the code less
   its remainder by 100) instead of the remainder: the status-code classes of
   section 6 of RFC 7231.
   */
  function StatusClassSeverity(code: HttpStatusCode): IssueSeverity
  {
    match code - TruncatedRemainder(code, 100)
    case 100 | 200 => Information
    case 300 => Warning
    case 400 => IssueSeverity.Error
    case 500 => Fatal
    case _ => Information
  }

  /** The status-class banding: 1xx and 2xx informational, 3xx warning, 4xx error, 5xx fatal. */
  lemma StatusClassSeverityBands(code: HttpStatusCode)
    ensures 100 <= code < 300 ==> StatusClassSeverity(code) == Information
    ensures 300 <= code < 400 ==> StatusClassSeverity(code) == Warning
    ensures 400 <= code < 500 ==> StatusClassSeverity(code) == IssueSeverity.Error
    ensures 500 <= code < 600 ==> StatusClassSeverity(code) == Fatal
    ensures code < 100 || 600 <= code ==> StatusClassSeverity(code) == Information
  {
  }

  /**
   The mapping as written agrees with the status-class banding exactly on the codes
   the banding calls informational; every 3xx, 4xx and 5xx code is misreported.
   */
  lemma IssueSeverityOfAgreesOnlyOnInformational(code: HttpStatusCode)
    ensures IssueSeverityOf(code) == StatusClassSeverity(code) <==> StatusClassSeverity(code) == Information
    ensures 300 <= code < 600 ==> IssueSeverityOf(code) != StatusClassSeverity(code)
  {
    StatusClassSeverityBands(code);
  }

  // ---------------------------------------------------------------------------
  // The issue list as the builders change it

  /** The Issue field after Init: an absent list becomes empty, a present one stays as it is. */
  function Initialized(issue: Option<seq<Issue>>): (r: Option<seq<Issue>>)
    ensures issue.None? ==> r == Some([])
    ensures issue.Some? ==> r == issue
  {
    Some(IssuesOf(issue))
  }

  /** Init is idempotent. */
  lemma InitIdempotent(issue: Option<seq<Issue>>)
    ensures Initialized(Initialized(issue)) == Initialized(issue)
  {
  }

  /**
   The Issue field after `added` has been appended to it, an absent list being
   created first: the list is present, the earlier issues are kept in order, and
   `added` follows them.
   */
  function Appended(issue: Option<seq<Issue>>, added: seq<Issue>): (r: Option<seq<Issue>>)
    ensures r.Some?
    ensures |r.value| == |IssuesOf(issue)| + |added|
    ensures r.value[..|IssuesOf(issue)|] == IssuesOf(issue)
    ensures r.value[|IssuesOf(issue)|..] == added
  {
    Some(IssuesOf(issue) + added)
  }

  /** Appending twice is appending the two lists in order. */
  lemma AppendedTwice(issue: Option<seq<Issue>>, first: seq<Issue>, second: seq<Issue>)
    ensures Appended(Appended(issue, first), second) == Appended(issue, first + second)
  {
    assert IssuesOf(issue) + first + second == IssuesOf(issue) + (first + second);
  }

  /** The error text for an exception: its message alone for a SparkException, else prefixed by its type name. */
  function ExceptionMessage(exception: Exception): (r: string)
    ensures |r| >= |exception.message| && r[|r| - |exception.message|..] == exception.message
    ensures exception.isSpark <==> |r| == |exception.message|
    ensures !exception.isSpark ==> |r| == |exception.typeName| + 2 + |exception.message|
    ensures !exception.isSpark ==>
      |r| >= |exception.typeName| + 2 && r[..|exception.typeName| + 2] == exception.typeName + ": "
  {
    if exception.isSpark then exception.message
    else FormatNameAndMessage(exception.typeName, exception.message)
  }

  /** The issues ErrorFromException appends: the error, then the stack trace unless it is a SparkException. */
  function ExceptionIssues(exception: Exception): seq<Issue>
  {
    [Issue(IssueSeverity.Error, ExceptionMessage(exception))]
      + (if exception.isSpark then [] else [Issue(Information, exception.stackTrace)])
  }

  /**
   Recording an exception adds exactly one Error issue whatever the exception, and
   adds an Information issue (the stack trace) exactly when it is not a SparkException;
   no Warning or Fatal issue is added.
   */
  lemma ExceptionRecordsExactlyOneError(issue: Option<seq<Issue>>, exception: Exception)
    ensures CountSeverity(Appended(issue, ExceptionIssues(exception)).value, IssueSeverity.Error)
         == CountSeverity(IssuesOf(issue), IssueSeverity.Error) + 1
    ensures CountSeverity(Appended(issue, ExceptionIssues(exception)).value, Information)
         == CountSeverity(IssuesOf(issue), Information) + (if exception.isSpark then 0 else 1)
    ensures CountSeverity(Appended(issue, ExceptionIssues(exception)).value, Warning)
         == CountSeverity(IssuesOf(issue), Warning)
    ensures CountSeverity(Appended(issue, ExceptionIssues(exception)).value, Fatal)
         == CountSeverity(IssuesOf(issue), Fatal)
  {
    var added := ExceptionIssues(exception);
    forall severity: IssueSeverity
      ensures CountSeverity(IssuesOf(issue) + added, severity)
           == CountSeverity(IssuesOf(issue), severity) + CountSeverity(added, severity)
    {
      CountSeverityConcat(IssuesOf(issue), added, severity);
    }
    if !exception.isSpark {
      forall severity: IssueSeverity
        ensures CountSeverity(added, severity)
             == CountSeverity([added[0]], severity) + CountSeverity([added[1]], severity)
      {
        assert added == [added[0]] + [added[1]];
        CountSeverityConcat([added[0]], [added[1]], severity);
      }
    }
  }

  /**
   A message with a status code never records a Warning, Error or Fatal issue, not
   even for a 4xx or 5xx code: only the Information count grows, by one.
   */
  lemma MessageWithCodeRecordsNoFailure(issue: Option<seq<Issue>>, code: HttpStatusCode, message: string)
    ensures CountSeverity(Appended(issue, [Issue(IssueSeverityOf(code), message)]).value, Information)
         == CountSeverity(IssuesOf(issue), Information) + 1
    ensures forall severity | severity != Information ::
      CountSeverity(Appended(issue, [Issue(IssueSeverityOf(code), message)]).value, severity)
      == CountSeverity(IssuesOf(issue), severity)
  {
    var added := [Issue(IssueSeverityOf(code), message)];
    forall severity: IssueSeverity
      ensures CountSeverity(IssuesOf(issue) + added, severity)
           == CountSeverity(IssuesOf(issue), severity) + CountSeverity(added, severity)
    {
      CountSeverityConcat(IssuesOf(issue), added, severity);
    }
  }

  // ---------------------------------------------------------------------------
  // The builders

  /** Makes the issue list present; returns the outcome it was given. */
  method Init(outcome: OperationOutcome) returns (r: OperationOutcome)
    modifies outcome
    ensures r == outcome
    ensures old(outcome.issue).None? ==> outcome.issue == Some([])
    ensures old(outcome.issue).Some? ==> outcome.issue == old(outcome.issue)
    ensures outcome.issue == Initialized(old(outcome.issue))
  {
    if outcome.issue.None? {
      outcome.issue := Some([]);
    }
    return outcome;
  }

  /** Appends one Error issue carrying `message`; returns the outcome it was given. */
  method Error(outcome: OperationOutcome, message: string) returns (r: OperationOutcome)
    modifies outcome
    ensures r == outcome
    ensures outcome.issue == Appended(old(outcome.issue), [Issue(IssueSeverity.Error, message)])
    ensures |outcome.issue.value| == |IssuesOf(old(outcome.issue))| + 1
    ensures outcome.issue.value[..|IssuesOf(old(outcome.issue))|] == IssuesOf(old(outcome.issue))
    ensures outcome.issue.value[|IssuesOf(old(outcome.issue))|] == Issue(IssueSeverity.Error, message)
  {
    var _ := Init(outcome);
    var item := Issue(IssueSeverity.Error, message);
    outcome.issue := Some(outcome.issue.value + [item]);
    return outcome;
  }

  /** Appends one Information issue carrying `message`; returns the outcome it was given. */
  method Message(outcome: OperationOutcome, message: string) returns (r: OperationOutcome)
    modifies outcome
    ensures r == outcome
    ensures outcome.issue == Appended(old(outcome.issue), [Issue(Information, message)])
    ensures |outcome.issue.value| == |IssuesOf(old(outcome.issue))| + 1
    ensures outcome.issue.value[..|IssuesOf(old(outcome.issue))|] == IssuesOf(old(outcome.issue))
    ensures outcome.issue.value[|IssuesOf(old(outcome.issue))|] == Issue(Information, message)
  {
    if outcome.issue.None? {
      var _ := Init(outcome);
    }
    var item := Issue(Information, message);
    outcome.issue := Some(outcome.issue.value + [item]);
    return outcome;
  }

  /**
   Appends one issue carrying `message` with the severity IssueSeverityOf gives
   `code`, which is always Information; returns the outcome it was given.
   */
  method MessageWithCode(outcome: OperationOutcome, code: HttpStatusCode, message: string) returns (r: OperationOutcome)
    modifies outcome
    ensures r == outcome
    ensures outcome.issue == Appended(old(outcome.issue), [Issue(IssueSeverityOf(code), message)])
    ensures outcome.issue == Appended(old(outcome.issue), [Issue(Information, message)])
    ensures |outcome.issue.value| == |IssuesOf(old(outcome.issue))| + 1
    ensures outcome.issue.value[..|IssuesOf(old(outcome.issue))|] == IssuesOf(old(outcome.issue))
  {
    if outcome.issue.None? {
      var _ := Init(outcome);
    }
    var item := Issue(IssueSeverityOf(code), message);
    outcome.issue := Some(outcome.issue.value + [item]);
    return outcome;
  }

  /**
   Records an exception: one Error issue with the exception's text (its message for a
   SparkException, "TypeName: message" otherwise), followed, for any exception that is
   not a SparkException, by an Information issue holding the stack trace. Returns the
   outcome it was given.
   */
  method ErrorFromException(outcome: OperationOutcome, exception: Exception) returns (r: OperationOutcome)
    modifies outcome
    ensures r == outcome
    ensures outcome.issue == Appended(old(outcome.issue), ExceptionIssues(exception))
    ensures |outcome.issue.value| == |IssuesOf(old(outcome.issue))| + (if exception.isSpark then 1 else 2)
    ensures outcome.issue.value[..|IssuesOf(old(outcome.issue))|] == IssuesOf(old(outcome.issue))
    ensures exception.isSpark ==>
      outcome.issue.value[|IssuesOf(old(outcome.issue))|] == Issue(IssueSeverity.Error, exception.message)
    ensures !exception.isSpark ==>
      outcome.issue.value[|IssuesOf(old(outcome.issue))|]
        == Issue(IssueSeverity.Error, exception.typeName + ": " + exception.message)
    ensures !exception.isSpark ==>
      outcome.issue.value[|IssuesOf(old(outcome.issue))| + 1] == Issue(Information, exception.stackTrace)
  {
    var message;
    if exception.isSpark {
      message := exception.message;
    } else {
      message := FormatNameAndMessage(exception.typeName, exception.message);
    }
    var baseResult := Error(outcome, message);
    if !exception.isSpark {
      var stackTrace := Issue(Information, exception.stackTrace);
      baseResult.issue := Some(baseResult.issue.value + [stackTrace]);
      AppendedTwice(old(outcome.issue), [Issue(IssueSeverity.Error, message)], [stackTrace]);
    } else {
      assert ExceptionIssues(exception) == [Issue(IssueSeverity.Error, message)];
    }
    return baseResult;
  }
}
