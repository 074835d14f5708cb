/**
  * The service's exception hierarchy: every error carries a message and an optional
  * suggestion, and renders (`str(e)`, `format_error()`) as a markdown "Error" block.
  */
module Errors {
  import opened Wrappers
  import opened Text

  /** Which subclass of `MCPError` was raised. */
  datatype Kind = NotFound | AccessDenied | QueryValidation | Connection | Database | InvalidParameter

  datatype MCPError = MCPError(kind: Kind, message: string, suggestion: Option<string>)

  const Header := "## Error\n\n"
  const SuggestionMarker := "\n\n**Suggestion**: "

  /** Python truthiness of an optional string: present and non-empty. */
  predicate Truthy(o: Option<string>) {
    o.Some? && o.value != ""
  }

  /**
    * `format_error`: the header, the message, and the suggestion paragraph only when the
    * suggestion is truthy.
    */
  function FormatError(e: MCPError): (text: string)
    ensures StartsWith(text, Header + e.message)
    ensures Truthy(e.suggestion) <==> |text| > |Header + e.message|
    ensures Truthy(e.suggestion) ==> text[|Header + e.message|..] == SuggestionMarker + e.suggestion.value
  {
    Header + e.message + (if Truthy(e.suggestion) then SuggestionMarker + e.suggestion.value else "")
  }

  /** `s.find(sub, i)`: the first position at or after `i` where `sub` occurs, if any. */
  function FindFrom(s: string, sub: string, i: nat): (r: Option<nat>)
    ensures r.Some? ==> i <= r.value && OccursAt(s, sub, r.value)
    ensures r.Some? ==> forall j :: i <= j < r.value ==> !OccursAt(s, sub, j)
    ensures r.None? ==> forall j :: i <= j ==> !OccursAt(s, sub, j)
    decreases |s| - i
  {
    if i + |sub| > |s| then None
    else if OccursAt(s, sub, i) then Some(i)
    else
      assert s[i..i] == [];
      FindFrom(s, sub, i + 1)
  }

  /**
    * Reads a rendered error back into its message and suggestion: the text after the header,
    * cut at the first suggestion marker.
    */
  function ParseError(text: string): Option<(string, Option<string>)> {
    if !StartsWith(text, Header) then None
    else
      var rest := text[|Header|..];
      match FindFrom(rest, SuggestionMarker, 0)
      case Some(i) => Some((rest[..i], Some(rest[i + |SuggestionMarker|..])))
      case None => Some((rest, None))
  }

  /** No proper suffix of the marker is a prefix of it, so an occurrence cannot straddle the message's end. */
  lemma {:induction false} MarkerDoesNotOverlapItself(d: nat)
    requires 1 <= d < |SuggestionMarker|
    ensures SuggestionMarker[d] != '\n' || (d + 1 < |SuggestionMarker| && SuggestionMarker[d + 1] != '\n')
  {
    assert SuggestionMarker[2..] == "**Suggestion**: ";
    assert '\n' !in SuggestionMarker[2..];
    if d >= 2 {
      assert SuggestionMarker[d] == SuggestionMarker[2..][d - 2];
    }
  }

  /** An occurrence of the marker cannot start inside a message and run into a marker after it. */
  lemma {:induction false} MarkerCannotStraddle(rest: string, n: nat, j: nat)
    requires j < n <= |rest| && n < j + |SuggestionMarker|
    requires StartsWith(rest[n..], SuggestionMarker)
    ensures !OccursAt(rest, SuggestionMarker, j)
  {
    var M := SuggestionMarker;
    var d := n - j;
    MarkerDoesNotOverlapItself(d);
    assert rest[n..][0] == '\n' && rest[n..][1] == '\n';
    if j + |M| <= |rest| {
      var w := rest[j..j + |M|];
      if M[d] != '\n' {
        assert w[d] == rest[n];
        assert w[d] != M[d];
      } else {
        assert w[d + 1] == rest[n + 1];
        assert w[d + 1] != M[d + 1];
      }
    }
  }

  /** A message without the marker, followed by nothing or by the marker, has no marker inside it. */
  lemma {:induction false} NoMarkerInMessage(m: string, tail: string)
    requires !Contains(m, SuggestionMarker)
    requires tail == [] || StartsWith(tail, SuggestionMarker)
    ensures forall j :: 0 <= j < |m| ==> !OccursAt(m + tail, SuggestionMarker, j)
  {
    var rest, M := m + tail, SuggestionMarker;
    forall j | 0 <= j < |m|
      ensures !OccursAt(rest, M, j)
    {
      if j + |M| <= |m| {
        if rest[j..j + |M|] == M {
          assert m[j..j + |M|] == rest[j..j + |M|];
          assert OccursAt(m, M, j);
        }
      } else if tail != [] {
        assert rest[|m|..] == tail;
        MarkerCannotStraddle(rest, |m|, j);
      }
    }
  }

  /** In a message followed by the marker, the first marker is the one after the message. */
  lemma {:induction false} MarkerAfterMessage(m: string, v: string)
    requires !Contains(m, SuggestionMarker)
    ensures FindFrom(m + (SuggestionMarker + v), SuggestionMarker, 0) == Some(|m|)
  {
    var M := SuggestionMarker;
    var rest := m + (M + v);
    assert rest[|m|..] == M + v;
    NoMarkerInMessage(m, M + v);
    assert rest[|m|..|m| + |M|] == M;
    assert OccursAt(rest, M, |m|);
  }

  /** A message without the marker has no marker to find. */
  lemma {:induction false} NoMarkerFound(m: string)
    requires !Contains(m, SuggestionMarker)
    ensures FindFrom(m, SuggestionMarker, 0) == None
  {
  }

  /**
    * The rendering is unambiguous: a message free of the suggestion marker and its (normalised)
    * suggestion are recovered from the text.
    */
  lemma {:induction false} FormatErrorRoundTrip(e: MCPError)
    requires !Contains(e.message, SuggestionMarker)
    requires e.suggestion.Some? ==> e.suggestion.value != ""
    ensures ParseError(FormatError(e)) == Some((e.message, e.suggestion))
  {
    var m := e.message;
    if Truthy(e.suggestion) {
      var v := e.suggestion.value;
      var rest := m + (SuggestionMarker + v);
      assert FormatError(e) == Header + rest;
      assert (Header + rest)[..|Header|] == Header;
      assert (Header + rest)[|Header|..] == rest;
      MarkerAfterMessage(m, v);
      assert rest[..|m|] == m;
      assert rest[|m| + |SuggestionMarker|..] == v;
    } else {
      assert FormatError(e) == Header + m;
      assert (Header + m)[..|Header|] == Header;
      assert (Header + m)[|Header|..] == m;
      NoMarkerFound(m);
    }
  }

  /** `DatabaseNotFoundError`: the same text whether the object is absent or not authorised. */
  function DatabaseNotFoundError(objectType: string, objectName: string): (e: MCPError)
    ensures e.kind == NotFound && Truthy(e.suggestion)
  {
    MCPError(NotFound,
      Capitalize(objectType) + " '" + objectName + "' not found or access denied.",
      Some("Use sqlanywhere_list_" + objectType + "s to see available " + objectType + "s."))
  }

  /** `AccessDeniedError` */
  function AccessDeniedError(objectType: string, objectName: string): (e: MCPError)
    ensures e.kind == AccessDenied && Truthy(e.suggestion)
  {
    MCPError(AccessDenied,
      "Access denied to " + objectType + " '" + objectName + "'.",
      Some("This object is not owned by an authorized user. "
        + "Check SQLANYWHERE_AUTHORIZED_USERS environment variable."))
  }

  const QueryValidationSuggestion :=
    "Ensure the query is a valid SELECT statement and does not contain "
    + "dangerous keywords (DROP, DELETE, INSERT, UPDATE, etc.)."

  /** `QueryValidationError(query, reason)`: the query itself is accepted but never shown. */
  function QueryValidationError(query: string, reason: string): (e: MCPError)
    ensures e.kind == QueryValidation && Truthy(e.suggestion)
  {
    MCPError(QueryValidation, "Query validation failed: " + reason, Some(QueryValidationSuggestion))
  }

  const ConnectionSuggestion :=
    "Please verify:\n"
    + "1. SQL Anywhere ODBC driver is installed\n"
    + "2. Database server is running\n"
    + "3. Connection parameters are correct"

  /** `ConnectionError(message, details)` */
  function ConnectionError(message: string, details: Option<string>): (e: MCPError)
    ensures e.kind == Connection && Truthy(e.suggestion)
  {
    MCPError(Connection,
      if Truthy(details) then message + "\n\n" + details.value else message,
      Some(ConnectionSuggestion))
  }

  /** `DatabaseError(operation, original_error)`, with `str(original_error)` given as text. */
  function DatabaseError(operation: string, originalError: string): (e: MCPError)
    ensures e.kind == Database && Truthy(e.suggestion)
  {
    MCPError(Database, "Database " + operation + " failed: " + originalError,
      Some("Check the query syntax and ensure the database is in a consistent state."))
  }

  /** `InvalidParameterError(parameter_name, reason)` */
  function InvalidParameterError(parameterName: string, reason: string): (e: MCPError)
    ensures e.kind == InvalidParameter && Truthy(e.suggestion)
  {
    MCPError(InvalidParameter, "Invalid parameter '" + parameterName + "': " + reason,
      Some("Check the tool's input schema for valid parameter values."))
  }

  // ---------------------------------------------------------------------------
  // What the subclasses render
  // ---------------------------------------------------------------------------

  /** Text without a line break cannot hold the marker, which starts with one. */
  lemma {:induction false} OneLineHasNoMarker(s: string)
    requires '\n' !in s
    ensures !Contains(s, SuggestionMarker)
  {
    forall i | 0 <= i <= |s| - |SuggestionMarker|
      ensures !OccursAt(s, SuggestionMarker, i)
    {
      assert s[i] in s;
    }
  }

  /** A one-line head followed by marker-free text is marker-free. */
  lemma {:induction false} NoMarkerAfterLine(a: string, b: string)
    requires '\n' !in a && !Contains(b, SuggestionMarker)
    ensures !Contains(a + b, SuggestionMarker)
  {
    var s, M := a + b, SuggestionMarker;
    forall i | 0 <= i <= |s| - |M|
      ensures !OccursAt(s, M, i)
    {
      if i < |a| {
        assert s[i] == a[i] && a[i] in a;
        assert s[i..i + |M|][0] == s[i] && M[0] == '\n';
      } else {
        assert s[i..i + |M|] == b[i - |a|..i - |a| + |M|];
        assert !OccursAt(b, M, i - |a|);
      }
    }
  }

  lemma {:induction false} CapitalizeOneLine(s: string)
    requires '\n' !in s
    ensures '\n' !in Capitalize(s)
  {
    if s != [] {
      assert s[0] in s;
      forall i | 0 <= i < |s| - 1
        ensures Lower(s[1..])[i] != '\n'
      {
        assert s[1..][i] in s;
      }
    }
  }

  /**
    * A not-found error for a one-line object type and name reads back as its message and
    * suggestion, and the message names the object as given.
    */
  lemma {:induction false} NotFoundReadsBack(objectType: string, objectName: string)
    requires '\n' !in objectType && '\n' !in objectName
    ensures var e := DatabaseNotFoundError(objectType, objectName);
      ParseError(FormatError(e)) == Some((e.message, e.suggestion)) &&
      e.message[|objectType| + 2..|objectType| + 2 + |objectName|] == objectName
  {
    var e := DatabaseNotFoundError(objectType, objectName);
    CapitalizeOneLine(objectType);
    var tail := "' not found or access denied.";
    assert e.message == Capitalize(objectType) + " '" + objectName + tail;
    assert '\n' !in tail;
    assert '\n' !in e.message;
    OneLineHasNoMarker(e.message);
    FormatErrorRoundTrip(e);
  }

  /** An access-denied error for a one-line object type and name reads back as its message and suggestion. */
  lemma {:induction false} AccessDeniedReadsBack(objectType: string, objectName: string)
    requires '\n' !in objectType && '\n' !in objectName
    ensures var e := AccessDeniedError(objectType, objectName);
      ParseError(FormatError(e)) == Some((e.message, e.suggestion))
  {
    var e := AccessDeniedError(objectType, objectName);
    var head := "Access denied to ";
    assert e.message == head + objectType + " '" + objectName + "'.";
    assert '\n' !in head && '\n' !in " '" && '\n' !in "'.";
    assert '\n' !in e.message;
    OneLineHasNoMarker(e.message);
    FormatErrorRoundTrip(e);
  }

  const QueryValidationPrefix := "Query validation failed: "

  /**
    * A validation error reads back as the reason after a fixed prefix, whatever the query: the
    * query is never part of the error.
    */
  lemma {:induction false} QueryValidationReadsBack(query: string, reason: string)
    requires !Contains(reason, SuggestionMarker)
    ensures QueryValidationError(query, reason) == QueryValidationError("", reason)
    ensures ParseError(FormatError(QueryValidationError(query, reason))) ==
      Some((QueryValidationPrefix + reason, Some(QueryValidationSuggestion)))
  {
    var e := QueryValidationError(query, reason);
    assert '\n' !in QueryValidationPrefix;
    NoMarkerAfterLine(QueryValidationPrefix, reason);
    FormatErrorRoundTrip(e);
  }

  /** The details of a connection error are shown exactly when they are truthy, after a blank line. */
  lemma {:induction false} ConnectionDetailsShown(message: string, details: Option<string>)
    ensures ConnectionError(message, details).message == message <==> !Truthy(details)
    ensures Truthy(details) ==>
      StartsWith(ConnectionError(message, details).message, message + "\n\n") &&
      ConnectionError(message, details).message[|message| + 2..] == details.value
  {
    var m := ConnectionError(message, details).message;
    if Truthy(details) {
      assert |m| == |message| + 2 + |details.value|;
      assert m[..|message| + 2] == message + "\n\n";
      assert m[|message| + 2..] == details.value;
    }
  }

  /** A database error for a one-line operation reads back, the driver's text after a fixed head. */
  lemma {:induction false} DatabaseErrorReadsBack(operation: string, originalError: string)
    requires '\n' !in operation && !Contains(originalError, SuggestionMarker)
    ensures var e := DatabaseError(operation, originalError);
      ParseError(FormatError(e)) == Some((e.message, e.suggestion)) &&
      e.message[|operation| + 18..] == originalError
  {
    var e := DatabaseError(operation, originalError);
    var head := "Database " + operation + " failed: ";
    assert e.message == head + originalError;
    assert '\n' !in "Database " && '\n' !in " failed: ";
    assert '\n' !in head;
    NoMarkerAfterLine(head, originalError);
    FormatErrorRoundTrip(e);
  }

  /** An invalid-parameter error for a one-line name reads back, the reason after a fixed head. */
  lemma {:induction false} InvalidParameterReadsBack(parameterName: string, reason: string)
    requires '\n' !in parameterName && !Contains(reason, SuggestionMarker)
    ensures var e := InvalidParameterError(parameterName, reason);
      ParseError(FormatError(e)) == Some((e.message, e.suggestion)) &&
      e.message[|parameterName| + 22..] == reason
  {
    var e := InvalidParameterError(parameterName, reason);
    var head := "Invalid parameter '" + parameterName + "': ";
    assert e.message == head + reason;
    assert '\n' !in "Invalid parameter '" && '\n' !in "': ";
    assert '\n' !in head;
    NoMarkerAfterLine(head, reason);
    FormatErrorRoundTrip(e);
  }
}
