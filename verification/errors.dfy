/** ParserError: the structured error the address parser returns. */
module Errors {
  import opened Wrappers
  import Strings

  /** A short summary and a longer detail, both meant for display. */
  datatype ParserError = ParserError(summary: string, detail: string)

  /** The rendered text of an error: the summary, a colon and a space, then the detail. */
  function Error(e: ParserError): (s: string)
    ensures |s| == |e.summary| + |e.detail| + 2
    ensures Strings.HasPrefix(s, e.summary)
    ensures s[|e.summary|..|e.summary| + 2] == ": "
    ensures Strings.HasSuffix(s, e.detail)
  {
    e.summary + ": " + e.detail
  }

  /** Reads a rendered error back: the summary is everything before the first colon,
      which must be followed by a space. */
  function ReadError(s: string): Option<ParserError> {
    if ':' !in s then None
    else
      var i := Strings.IndexOf(s, ':');
      if i + 1 < |s| && s[i + 1] == ' ' then Some(ParserError(s[..i], s[i + 2..])) else None
  }

  /** When the summary has no colon, the rendering loses nothing: reading it back gives
      the same error. */
  lemma ReadRenderedError(e: ParserError)
    requires ':' !in e.summary
    ensures ReadError(Error(e)) == Some(e)
  {
    var s := Error(e);
    assert s[|e.summary|] == ':';
    var i := Strings.IndexOf(s, ':');
    assert s[..|e.summary|] == e.summary;
    assert s[i + 2..] == e.detail;
  }

  /** Two errors with colon-free summaries render alike exactly when they are equal:
      the rendering depends on the two fields and on nothing else. */
  lemma ErrorInjective(e1: ParserError, e2: ParserError)
    requires ':' !in e1.summary && ':' !in e2.summary
    ensures Error(e1) == Error(e2) <==> e1 == e2
  {
    ReadRenderedError(e1);
    ReadRenderedError(e2);
  }
}
