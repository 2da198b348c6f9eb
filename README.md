# OperationOutcome issue builders (Spark FHIR server)

A Dafny model of the extension methods that Spark uses to build HL7 FHIR
`OperationOutcome` resources, the severity-tagged diagnostic documents the
server returns to clients. An outcome holds a list of issues, which may be
absent (null). Each issue has a severity (Information, Warning, Error or
Fatal) and a details text. The builders change the outcome in place and
return the same outcome, so calls can be chained:

- `Init` creates the issue list when it is absent.
- `Error(string)` appends one Error issue.
- `Message(string)` appends one Information issue.
- `Message(HttpStatusCode, string)` appends one issue whose severity comes from
  the status code.
- `Error(Exception)` appends the exception's text as an Error issue. For an
  exception that is not a `SparkException` it also appends the stack trace as
  an Information issue.

Files and modules:

- `dotnet.dfy`, module `DotNet`: the .NET pieces the builders use. This is the
  32-bit integer behind `HttpStatusCode`, C#'s truncating `/` and `%`, an
  exception reduced to a record, and `string.Format("{0}: {1}", …)`.
- `fhir_model.dfy`, module `FhirModel`: the severity, the issue, and the
  `OperationOutcome` class. The class has one field, `issue: Option<seq<Issue>>`,
  where `None` stands for a null list. It also defines counting issues by
  severity.
- `operation_outcome_extensions.dfy`, module `OperationOutcomeExtensions`: the
  severity mapping, the builders, and the lemmas about them. The builders are
  methods with `modifies outcome`. Each one returns the outcome it was given
  (`ensures r == outcome`). Each one states the new issue list in terms of the
  old one, through the functions `Initialized` and `Appended`.

Dafny has no overloading, so the C# overloads get distinct names:
`Error(string)` is `Error`, `Error(Exception)` is `ErrorFromException`,
`Message(string)` is `Message` and `Message(HttpStatusCode, string)` is
`MessageWithCode`.

The severity mapping. The case labels 100..500 of `IssueSeverityOf` describe a
banding over the status-code classes of section 6 of RFC 7231: 1xx/2xx
informational, 3xx warning, 4xx error, 5xx fatal. The code, however, switches
on `code % 100`. C#'s `%` truncates toward zero, so that value lies strictly
between -100 and 100 and can never equal a label. The mapping therefore returns Information for
every code. The model follows the code: `IssueSeverityOf` is the mapping as
written, and `MessageWithCode` uses it. The intended banding is defined
separately as `StatusClassSeverity`, and the lemma
`IssueSeverityOfAgreesOnlyOnInformational` shows where the two part ways.

## Model

| member | source | states |
|---|---|---|
| `DotNet.TruncatedRemainder` | Spark.Service/Service/OperationOutcomeExtensions.cs:28 | C#'s `%`: the remainder left by the quotient truncated toward zero. It lies strictly between -b and b and takes the sign of the dividend. |
| `DotNet.FormatNameAndMessage` | Spark.Service/Service/OperationOutcomeExtensions.cs:64 | `"{0}: {1}"` formatting: the type name, then `": "`, then the message, with the matching length. |
| `OperationOutcomeExtensions.IssueSeverityOf` | Spark.Service/Service/OperationOutcomeExtensions.cs:26-37 | The switch on `code % 100` as written; its result is Information for every status code. |
| `OperationOutcomeExtensions.ExceptionMessage` | Spark.Service/Service/OperationOutcomeExtensions.cs:59-64 | The error text for an exception always ends with its message. It is exactly the message iff the exception is a SparkException; otherwise it is the type name, then `": "`, then the message, and its length is the sum of those three lengths, so it is exactly `TypeName: message`. |
| `OperationOutcomeExtensions.StatusClassSeverityBands` | Spark.Service/Service/OperationOutcomeExtensions.cs:31-36 | The banding the case labels describe: 1xx/2xx Information, 3xx Warning, 4xx Error, 5xx Fatal, anything else Information. |
| `OperationOutcomeExtensions.IssueSeverityOfAgreesOnlyOnInformational` | Spark.Service/Service/OperationOutcomeExtensions.cs:28-37 | The as-written mapping equals the status-class banding iff the banding says Information. Every 3xx, 4xx and 5xx code is misreported. |
| `OperationOutcomeExtensions.Initialized` | Spark.Service/Service/OperationOutcomeExtensions.cs:49-52 | After Init a null list is empty and a present list is unchanged. |
| `OperationOutcomeExtensions.InitIdempotent` | Spark.Service/Service/OperationOutcomeExtensions.cs:47-54 | Applying Init twice leaves the same list as applying it once. |
| `OperationOutcomeExtensions.Appended` | Spark.Service/Service/OperationOutcomeExtensions.cs:82-87 | Appending to a possibly null list: the result is present, its length is the old length (0 if null) plus the number added, the earlier issues come first in order, and the added ones follow. |
| `OperationOutcomeExtensions.AppendedTwice` | Spark.Service/Service/OperationOutcomeExtensions.cs:66-74 | Appending the error and then the stack trace equals appending both at once, in that order. |
| `OperationOutcomeExtensions.ExceptionRecordsExactlyOneError` | Spark.Service/Service/OperationOutcomeExtensions.cs:57-78 | Recording any exception adds exactly one Error issue. It adds one Information issue (the stack trace) iff the exception is not a SparkException. It adds no Warning or Fatal issue. |
| `OperationOutcomeExtensions.MessageWithCodeRecordsNoFailure` | Spark.Service/Service/OperationOutcomeExtensions.cs:102-111 | A message with any status code, 4xx and 5xx included, adds one Information issue and no Warning, Error or Fatal issue. |
| `OperationOutcomeExtensions.Init` | Spark.Service/Service/OperationOutcomeExtensions.cs:47-54 | A null list becomes empty, a present list is left as it is, and the same outcome is returned. |
| `OperationOutcomeExtensions.Error` | Spark.Service/Service/OperationOutcomeExtensions.cs:80-89 | Appends exactly one issue, with severity Error and the message as details. The list is then present and one longer, the earlier issues are unchanged and in order, and the same outcome is returned. |
| `OperationOutcomeExtensions.Message` | Spark.Service/Service/OperationOutcomeExtensions.cs:91-100 | Appends exactly one issue, with severity Information and the message as details. The earlier issues are kept, and the same outcome is returned. |
| `OperationOutcomeExtensions.MessageWithCode` | Spark.Service/Service/OperationOutcomeExtensions.cs:102-111 | Appends exactly one issue with the message as details. Its severity is `IssueSeverityOf(code)`, which is Information. The earlier issues are kept, and the same outcome is returned. |
| `OperationOutcomeExtensions.ErrorFromException` | Spark.Service/Service/OperationOutcomeExtensions.cs:57-78 | For a SparkException: appends one Error issue whose details are the exception message, and no stack trace. For any other exception: appends an Error issue with details `TypeName: message`, then an Information issue holding the stack trace. Earlier issues are kept, and the same outcome (the one `Error` returned) is returned. |

## Left out

- `ToHttpResponseMessage` and `setContentHeaders` (OperationOutcomeExtensions.cs lines 41-44 and 113-127) are not modelled. They serialize the outcome to XML or JSON through the FHIR serializer and build an HTTP response with media-type headers. That is I/O and foreign library code with no logic of its own to state.
- `src/Spark.Engine/Interfaces/IFhirStoreOld.cs` is not part of this model. It declares the versioned store's operations without any implementation, so there is no behaviour to model.
- The issue list is a value (`seq`) held in the outcome's field. A `List` object shared with other holders, and changed through them, is not modelled.
- Of the FHIR `OperationOutcome` resource, only the `Issue` field is modelled. Of each issue, only `Severity` and `Details` are modelled.
- Exceptions are records `(isSpark, typeName, message, stackTrace)`. The class hierarchy, `GetType().Name` and `StackTrace` are reduced to those fields.
- A null stack trace, null message or null details text is not modelled: every text is a string.
- A null `outcome` or `exception` argument is not modelled. In C# either throws a NullReferenceException (a null exception is not a SparkException, so `GetType()` is called on it). The methods take a non-null outcome, and an exception is always a record.
