/** The error translator of the provider (`parseError`, fixed by
    contentful/errors_test.go): a Contentful error becomes an ordered list of
    severity-tagged diagnostics, one warning per error detail followed by the
    error itself. */
module Diagnostics {

  datatype Severity = Error | Warning

  /** A Terraform diagnostic; only severity and summary are observed. */
  datatype Diagnostic = Diagnostic(severity: Severity, summary: string)

  /** `common.ErrorDetail`: a detail message and the path of the offending value. */
  datatype ErrorDetail = ErrorDetail(path: seq<string>, details: string)

  /** The error handed to `parseError`: none, an opaque error with its message, or
      a Contentful `ErrorResponse` (by value or by pointer) with its message and
      its details (no details when the details block is absent). */
  datatype ContentfulError =
    | NoError
    | Plain(message: string)
    | Response(message: string, details: seq<ErrorDetail>)

  /** `strings.Join`: the parts with `sep` between neighbours. */
  function Join(parts: seq<string>, sep: string): (r: string)
    decreases |parts|
  {
    if parts == [] then ""
    else if |parts| == 1 then parts[0]
    else parts[0] + sep + Join(parts[1..], sep)
  }

  /** Joining one more part adds the separator and the part at the end. */
  lemma {:induction false} JoinAppend(parts: seq<string>, p: string, sep: string)
    requires parts != []
    ensures Join(parts + [p], sep) == Join(parts, sep) + sep + p
    decreases |parts|
  {
    if |parts| == 1 {
      assert (parts + [p])[1..] == [p];
    } else {
      assert (parts + [p])[1..] == parts[1..] + [p];
      JoinAppend(parts[1..], p, sep);
    }
  }

  /** The warning text of one detail: the detail, then its dot-joined path in
      parentheses, `()` when there is no path. */
  function DetailSummary(d: ErrorDetail): string {
    d.details + " (" + Join(d.path, ".") + ")"
  }

  /** One warning per detail, in order. */
  function Warnings(ds: seq<ErrorDetail>): (r: seq<Diagnostic>)
    ensures |r| == |ds|
    ensures forall i :: 0 <= i < |ds| ==> r[i] == Diagnostic(Warning, DetailSummary(ds[i]))
    decreases |ds|
  {
    if ds == [] then [] else [Diagnostic(Warning, DetailSummary(ds[0]))] + Warnings(ds[1..])
  }

  /** `diag.Diagnostics.HasError`. */
  predicate HasError(ds: seq<Diagnostic>) {
    exists i :: 0 <= i < |ds| && ds[i].severity == Error
  }

  /** `parseError`: nothing for no error; one error for an opaque error; for an
      error response, a warning per detail in order and then one error carrying
      the message, always last. */
  function ParseError(e: ContentfulError): (r: seq<Diagnostic>)
    ensures r == [] <==> e.NoError?
    ensures HasError(r) <==> !e.NoError?
    ensures e.Plain? ==> r == [Diagnostic(Error, e.message)]
    ensures e.Response? ==>
              && |r| == |e.details| + 1
              && (forall i :: 0 <= i < |e.details| ==> r[i] == Diagnostic(Warning, DetailSummary(e.details[i])))
              && r[|e.details|] == Diagnostic(Error, e.message)
    ensures forall i :: 0 <= i < |r| - 1 ==> r[i].severity == Warning
  {
    match e
    case NoError => []
    case Plain(message) =>
      var r := [Diagnostic(Error, message)];
      assert r[0].severity == Error;
      r
    case Response(message, details) =>
      var r := Warnings(details) + [Diagnostic(Error, message)];
      assert r[|details|].severity == Error;
      r
  }

  /** `TestParseError_Nil`. */
  lemma ParseNilError()
    ensures ParseError(NoError) == []
  {
  }

  /** `TestParseError_RegularErr`. */
  lemma ParseRegularError()
    ensures var d := ParseError(Plain("regular error"));
            HasError(d) && d[0].summary == "regular error"
  {
  }

  /** `TestParseError_WithoutWarning`. */
  lemma ParseErrorWithoutWarning()
    ensures var d := ParseError(Response("error message", []));
            && HasError(d) && |d| == 1
            && d[0].summary == "error message" && d[0].severity == Error
  {
  }

  /** `TestParseError_WithWarning_WithoutPath`. */
  lemma ParseErrorWithWarningWithoutPath()
    ensures var d := ParseError(Response("error message", [ErrorDetail([], "error detail")]));
            && HasError(d) && |d| == 2
            && d[0].summary == "error detail ()" && d[0].severity == Warning
            && d[1].summary == "error message" && d[1].severity == Error
  {
  }

  /** `TestParseError_WithWarning_WithPath`. */
  lemma ParseErrorWithWarningWithPath()
    ensures var d := ParseError(Response("error message", [ErrorDetail(["path", "to", "error"], "error detail")]));
            && HasError(d) && |d| == 2
            && d[0].summary == "error detail (path.to.error)" && d[0].severity == Warning
            && d[1].summary == "error message" && d[1].severity == Error
  {
    JoinAppend(["path", "to"], "error", ".");
    assert ["path", "to"] + ["error"] == ["path", "to", "error"];
    assert ["path"] + ["to"] == ["path", "to"];
    JoinAppend(["path"], "to", ".");
  }

  /** Two details, one with a path and one without, give two warnings in detail
      order and then the error. */
  lemma ParseErrorWithTwoDetails()
    ensures ParseError(Response("message", [ErrorDetail(["a", "b"], "detail1"), ErrorDetail([], "detail2")])) ==
            [Diagnostic(Warning, "detail1 (a.b)"), Diagnostic(Warning, "detail2 ()"), Diagnostic(Error, "message")]
  {
    assert ["a"] + ["b"] == ["a", "b"];
    JoinAppend(["a"], "b", ".");
    var d1 := ErrorDetail(["a", "b"], "detail1");
    var d2 := ErrorDetail([], "detail2");
    assert DetailSummary(d1) == "detail1 (a.b)";
    assert DetailSummary(d2) == "detail2 ()";
    var d := ParseError(Response("message", [d1, d2]));
    assert |d| == 3 && d[0] == Diagnostic(Warning, "detail1 (a.b)") && d[1] == Diagnostic(Warning, "detail2 ()");
  }
}
