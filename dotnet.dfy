/**
 The parts of the .NET runtime that the OperationOutcome extensions rely on:
 the integer behind an HttpStatusCode, C#'s remainder operator, an exception
 as the few observable facts the extensions read from it, and the one
 string.Format pattern they use.
 */
module DotNet {

  /** An HttpStatusCode is an enum over a 32-bit signed int; a cast can put any int in it. */
  type HttpStatusCode = c: int | -0x8000_0000 <= c < 0x8000_0000

  /** C#'s `/` on int, for a positive divisor: the quotient truncates toward zero. */
  function TruncatedQuotient(a: int, b: int): int
    requires b > 0
  {
    if a >= 0 then a / b else -((-a) / b)
  }

  /**
   C#'s `%` on int, for a positive divisor: what is left over by the truncated
   quotient, so it takes the sign of the dividend (unlike Dafny's Euclidean `%`).
   */
  function TruncatedRemainder(a: int, b: int): (r: int)
    requires b > 0
    ensures a == b * TruncatedQuotient(a, b) + r
    ensures -b < r < b
    ensures a > 0 ==> r >= 0
    ensures a < 0 ==> r <= 0
  {
    if a >= 0 then a % b else -((-a) % b)
  }

  /**
   An exception as the extensions see it: whether it is a SparkException (or a
   subclass of it), the name of its runtime type, its Message and its StackTrace.
   */
  datatype Exception = Exception(isSpark: bool, typeName: string, message: string, stackTrace: string)

  /** `string.Format("{0}: {1}", name, message)`. */
  function FormatNameAndMessage(name: string, message: string): (r: string)
    ensures |r| == |name| + 2 + |message|
    ensures r[..|name|] == name
    ensures r[|name|..|name| + 2] == ": "
    ensures r[|name| + 2..] == message
  {
    name + ": " + message
  }
}
