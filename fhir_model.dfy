/**
 The slice of the HL7 FHIR OperationOutcome resource that the extensions touch:
 an outcome holds a list of issues, each with a severity and a details text.
 The list itself may be absent (a null reference), which is modelled as None.
 */
module FhirModel {

  datatype Option<T> = None | Some(value: T)

  /** OperationOutcome.IssueSeverity. */
  datatype IssueSeverity = Information | Warning | Error | Fatal

  /** OperationOutcome.OperationOutcomeIssueComponent, reduced to the two fields the extensions set. */
  datatype Issue = Issue(severity: IssueSeverity, details: string)

  /** The outcome resource; only its Issue list is modelled. */
  class OperationOutcome {
    var issue: Option<seq<Issue>>

    /** A freshly constructed outcome has no issue list yet. */
    constructor ()
      ensures issue == None
    {
      issue := None;
    }
  }

  /** The issues a possibly absent list holds: an absent list holds none. */
  function IssuesOf(issue: Option<seq<Issue>>): (s: seq<Issue>)
    ensures issue.None? ==> s == []
    ensures issue.Some? ==> s == issue.value
  {
    if issue.Some? then issue.value else []
  }

  /** The number of issues of severity `severity`. */
  function CountSeverity(issues: seq<Issue>, severity: IssueSeverity): (n: nat)
    ensures n <= |issues|
    ensures n == 0 <==> forall i :: 0 <= i < |issues| ==> issues[i].severity != severity
  {
    if issues == [] then 0
    else (if issues[0].severity == severity then 1 else 0) + CountSeverity(issues[1..], severity)
  }

  /** Counting distributes over concatenation of issue lists. */
  lemma {:induction false} CountSeverityConcat(a: seq<Issue>, b: seq<Issue>, severity: IssueSeverity)
    ensures CountSeverity(a + b, severity) == CountSeverity(a, severity) + CountSeverity(b, severity)
  {
    if a != [] {
      assert (a + b)[1..] == a[1..] + b;
      CountSeverityConcat(a[1..], b, severity);
    } else {
      assert a + b == b;
    }
  }
}
