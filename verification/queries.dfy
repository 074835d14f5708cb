/**
  * The query tools of `queries.py`: the gate every raw query passes before it reaches the
  * database (a `SELECT` prefix, then a whole-word keyword denylist), the row limit, the
  * structured query builder that assembles a `SELECT` and hands it to the same gate, and the
  * lighter `validate_query` check that reports instead of raising.
  */
module Queries {
  import opened Wrappers
  import opened Text
  import opened Rows
  import opened Patterns
  import opened Errors
  import opened Db
  import opened Markdown
  import opened Formatters

  // ---------------------------------------------------------------------------
  // The gate of execute_query
  // ---------------------------------------------------------------------------

  /** The words of `dangerous_patterns`, in the order they are tried. */
  const DangerousKeywords := ["DROP", "DELETE", "INSERT", "UPDATE", "CREATE", "ALTER", "TRUNCATE",
                              "GRANT", "REVOKE", "EXEC", "EXECUTE"]

  const NotSelectReason :=
    "Only SELECT queries are allowed for security reasons. The query must start with 'SELECT'."

  /** The reason names the pattern as written, `\bWORD\b`. */
  function KeywordReason(keyword: string): string {
    "Dangerous keyword detected: \\b" + keyword + "\\b. Only SELECT queries are allowed."
  }

  /** `query.strip().upper()` */
  function Cleaned(query: string): string {
    Upper(Strip(query))
  }

  /** The cleaned query starts with `SELECT`. */
  predicate IsSelect(query: string) {
    StartsWith(Cleaned(query), "SELECT")
  }

  /** The position of the first keyword found as a whole word (`|keywords|` when none is). */
  function FirstHit(text: string, keywords: seq<string>): (i: nat)
    ensures i <= |keywords|
    ensures forall k :: 0 <= k < i ==> !ContainsWord(text, keywords[k])
    ensures i < |keywords| ==> ContainsWord(text, keywords[i])
  {
    if keywords == [] then 0
    else if ContainsWord(text, keywords[0]) then 0
    else 1 + FirstHit(text, keywords[1..])
  }

  /**
    * Why `execute_query` refuses a query, or `None` when it lets it through: the prefix check
    * first, then the denylist in order, naming the first keyword found.
    */
  function GateReason(query: string): Option<string> {
    if !IsSelect(query) then Some(NotSelectReason)
    else
      var i := FirstHit(Cleaned(query), DangerousKeywords);
      if i < |DangerousKeywords| then Some(KeywordReason(DangerousKeywords[i])) else None
  }

  /** A query passes the gate exactly when it is a `SELECT` holding none of the eleven words. */
  lemma {:induction false} GateAdmits(query: string)
    ensures GateReason(query).None? <==>
      IsSelect(query) &&
      forall k :: 0 <= k < |DangerousKeywords| ==> !ContainsWord(Cleaned(query), DangerousKeywords[k])
  {
  }

  /**
    * A refused `SELECT` names the first keyword of the list that occurs, whatever the position
    * of the keywords in the query.
    */
  lemma {:induction false} GateNamesFirstKeyword(query: string)
    requires IsSelect(query) && GateReason(query).Some?
    ensures exists k :: (0 <= k < |DangerousKeywords| &&
      GateReason(query) == Some(KeywordReason(DangerousKeywords[k])) &&
      ContainsWord(Cleaned(query), DangerousKeywords[k]) &&
      forall j :: 0 <= j < k ==> !ContainsWord(Cleaned(query), DangerousKeywords[j]))
  {
    var k := FirstHit(Cleaned(query), DangerousKeywords);
    assert GateReason(query) == Some(KeywordReason(DangerousKeywords[k]));
  }

  /** Every word of the denylist is made of upper-case word characters. */
  lemma {:induction false} DenylistIsKeywords()
    ensures forall k :: 0 <= k < |DangerousKeywords| ==> IsKeyword(DangerousKeywords[k])
  {
  }

  /**
    * The gate refuses every query in which one of the eleven words stands as a whole word,
    * anywhere and in any case: whitespace around the query and upper-casing change no word.
    */
  lemma {:induction false} KeywordRefused(query: string, k: int)
    requires 0 <= k < |DangerousKeywords| && ContainsWord(query, DangerousKeywords[k])
    ensures GateReason(query).Some?
  {
    DenylistIsKeywords();
    ContainsWordStrip(query, DangerousKeywords[k]);
    ContainsWordUpper(Strip(query), DangerousKeywords[k]);
  }

  /**
    * Inside a quoted string literal too: `SELECT * FROM t WHERE note = 'drop'` never reaches
    * the database.
    */
  lemma {:induction false} KeywordInLiteralRefused(query: string, k: int, i: int)
    requires 0 <= k < |DangerousKeywords|
    requires OccursAt(Upper(query), "'" + DangerousKeywords[k] + "'", i)
    ensures GateReason(query).Some?
  {
    QuotedIsWord(query, DangerousKeywords[k], i);
    KeywordRefused(query, k);
  }

  /** `\bEXEC\b` does not match where `EXECUTE` stands: only the longer word is reported there. */
  lemma {:induction false} ExecIsNotExecute(s: string, i: int)
    requires WordAt(s, "EXECUTE", i)
    ensures !WordAt(s, "EXEC", i)
  {
    assert Upper(s)[i + 4] == 'U';
    assert s[i + 4] == 'U' || s[i + 4] == 'u';
  }

  // ---------------------------------------------------------------------------
  // The row limit
  // ---------------------------------------------------------------------------

  /**
    * The limit `execute_query` hands to the fetch: the configured default when none is asked
    * for, otherwise the requested limit itself; above the ceiling it is refused, never clamped.
    */
  function ResolveLimit(limit: Option<int>, config: Config): (r: Result<int, MCPError>)
    ensures limit.None? ==> r == Ok(config.defaultMaxRows)
    ensures r.Err? <==> limit.Some? && limit.value > config.maxRowsLimit
    ensures limit.Some? && r.Ok? ==> r.value == limit.value && r.value <= config.maxRowsLimit
  {
    if limit.None? then Ok(config.defaultMaxRows)
    else if limit.value > config.maxRowsLimit then
      Err(InvalidParameterError("limit", "Requested limit " + IntToString(limit.value)
        + " exceeds maximum allowed limit of " + IntToString(config.maxRowsLimit)))
    else Ok(limit.value)
  }

  // ---------------------------------------------------------------------------
  // execute_query
  // ---------------------------------------------------------------------------

  /** What the database does with a query that reaches it: answers with a cursor, or raises. */
  datatype Driver = Answers(cursor: Cursor) | Fails(error: string)

  /** More rows exist than a truthy limit lets through. */
  predicate Truncated(cursor: Cursor, limit: int) {
    limit != 0 && |cursor.available| > limit
  }

  /**
    * The answer to a query the database executed under `limit`: the no-rows text, or the
    * results of the rows kept, the truncation note naming the limit when more rows exist.
    */
  function Rendered(cursor: Cursor, limit: nat, elapsed: string): string
    requires Aligned(cursor)
  {
    var n := FetchedCount(cursor, Some(limit));
    var rows := Zipped(cursor, n);
    if rows == [] then NoRowsText(elapsed)
    else
      ZippedKeys(cursor, n);
      assert KeyedBy(rows, Keys(rows[0])) by {
        forall i | 0 <= i < |rows| ensures HasKeys(rows[i], Keys(rows[0])) {
          assert Keys(rows[i]) == Keys(rows[0]);
        }
      }
      Lines(QueryResultLines(rows, n, elapsed, Truncated(cursor, limit), Some(limit)))
  }

  /** The statement reaches the database: it passes the gate and its limit resolves. */
  predicate Reaches(query: string, limit: Option<int>, config: Config) {
    GateReason(query).None? && ResolveLimit(limit, config).Ok?
  }

  /**
    * What `execute_query` answers: the gate's refusal, else the limit's refusal, else the
    * driver's failure wrapped as a database error, else the rendered rows.
    */
  function Outcome(query: string, limit: Option<int>, config: Config, driver: Driver, elapsed: string)
    : Result<string, MCPError>
    requires ResolveLimit(limit, config).Ok? ==> ResolveLimit(limit, config).value >= 0
    requires driver.Answers? ==> Aligned(driver.cursor)
  {
    var reason := GateReason(query);
    var resolved := ResolveLimit(limit, config);
    if reason.Some? then Err(QueryValidationError(query, reason.value))
    else if resolved.Err? then Err(resolved.error)
    else Run(driver, resolved.value, elapsed)
  }

  /** The `try` block: the driver's failure wrapped as a database error, or the rendered rows. */
  function Run(driver: Driver, limit: nat, elapsed: string): Result<string, MCPError>
    requires driver.Answers? ==> Aligned(driver.cursor)
  {
    match driver
    case Fails(error) => Err(DatabaseError("query execution", error))
    case Answers(cursor) => Ok(Rendered(cursor, limit, elapsed))
  }

  /** Runs a statement that passed the gate under a resolved limit. */
  method RunQuery(driver: Driver, limit: nat, elapsed: string) returns (r: Result<string, MCPError>)
    requires driver.Answers? ==> Aligned(driver.cursor)
    ensures r == Run(driver, limit, elapsed)
  {
    if driver.Fails? {
      return Err(DatabaseError("query execution", driver.error));
    }
    var rows, rowCount, hasMore := FetchWithMetadata(driver.cursor, Some(limit));
    ZippedKeys(driver.cursor, |rows|);
    if rows != [] {
      forall i | 0 <= i < |rows| ensures HasKeys(rows[i], Keys(rows[0])) {
        assert Keys(rows[i]) == Keys(rows[0]);
      }
    }
    var text := FormatQueryResults(rows, rowCount, elapsed, hasMore, Some(limit));
    r := Ok(text);
  }

  /**
    * `execute_query`. `executed` says whether the query reached the database; `elapsed` is the
    * execution time as the `.3f` text. The markdown is the one `format_query_results_markdown`
    * builds: its note needs `has_more` and a truthy limit, and `has_more` already implies one.
    */
  method ExecuteQuery(query: string, limit: Option<int>, config: Config, driver: Driver, elapsed: string)
    returns (r: Result<string, MCPError>, executed: bool)
    requires ResolveLimit(limit, config).Ok? ==> ResolveLimit(limit, config).value >= 0
    requires driver.Answers? ==> Aligned(driver.cursor)
    ensures executed <==> Reaches(query, limit, config)
    ensures r == Outcome(query, limit, config, driver, elapsed)
  {
    var reason := GateReason(query);
    if reason.Some? {
      return Err(QueryValidationError(query, reason.value)), false;
    }
    var resolved := ResolveLimit(limit, config);
    if resolved.Err? {
      return Err(resolved.error), false;
    }
    executed := true;
    r := RunQuery(driver, resolved.value, elapsed);
  }

  // ---------------------------------------------------------------------------
  // query_builder
  // ---------------------------------------------------------------------------

  /** The builder's own ceiling on `TOP`, independent of the configured one. */
  const BuilderMaxLimit := 10000

  function TableNameReason(tableName: string): string {
    "Invalid table name: '" + tableName + "'. Table name must include schema/owner prefix in format "
    + "'schema.TableName'. Examples: 'monitor.Part', 'dbo.Customers', 'ExtensionsUser.Config'"
  }

  /**
    * The first check of `query_builder` that fails, in the order it runs them: table name,
    * columns, limit, WHERE, ORDER BY. `None` when the query gets built.
    */
  function BuilderError(tableName: string, columns: string, where: Option<string>,
                        orderBy: Option<string>, limit: Option<int>): Option<MCPError>
  {
    var tokens := ColumnTokens(columns);
    if !TableNameMatches(tableName) then
      Some(InvalidParameterError("table_name", TableNameReason(tableName)))
    else if !ColumnsAccepted(columns) then
      Some(InvalidParameterError("columns", "Invalid column name: '" + tokens[FirstBadToken(tokens)] + "'"))
    else if IsGiven(limit) && limit.value > BuilderMaxLimit then
      Some(InvalidParameterError("limit", "Limit " + IntToString(limit.value) + " exceeds maximum of 10000"))
    else if Truthy(where) && HasForbiddenWhereToken(where.value) then
      Some(InvalidParameterError("where", "Invalid characters in WHERE clause"))
    else if Truthy(orderBy) && !OrderByMatches(orderBy.value) then
      Some(InvalidParameterError("order_by", "Invalid ORDER BY clause: '" + orderBy.value + "'"))
    else None
  }

  /** `SELECT [TOP n ]` */
  function SelectHead(limit: Option<int>): string {
    if IsGiven(limit) then "SELECT TOP " + IntToString(limit.value) + " " else "SELECT "
  }

  /** `[ WHERE w]` */
  function WhereClause(where: Option<string>): string {
    if Truthy(where) then " WHERE " + where.value else ""
  }

  /** `[ ORDER BY o]` */
  function OrderClause(orderBy: Option<string>): string {
    if Truthy(orderBy) then " ORDER BY " + orderBy.value else ""
  }

  /** The statement the builder assembles. */
  function SelectText(tableName: string, columns: string, where: Option<string>,
                      orderBy: Option<string>, limit: Option<int>): string
  {
    SelectHead(limit) + columns + " FROM " + tableName + WhereClause(where) + OrderClause(orderBy)
  }

  /**
    * `query_builder`: the checks in order, the statement assembled piece by piece, then handed
    * to `execute_query` with the same limit. It reaches the database only when the builder's
    * checks, the gate and the configured ceiling all let it through.
    */
  method QueryBuilder(tableName: string, columns: string, where: Option<string>, orderBy: Option<string>,
                      limit: Option<int>, config: Config, driver: Driver, elapsed: string)
    returns (r: Result<string, MCPError>, executed: bool)
    requires ResolveLimit(limit, config).Ok? ==> ResolveLimit(limit, config).value >= 0
    requires driver.Answers? ==> Aligned(driver.cursor)
    ensures executed <==> BuilderError(tableName, columns, where, orderBy, limit).None? &&
                          Reaches(SelectText(tableName, columns, where, orderBy, limit), limit, config)
    ensures r == match BuilderError(tableName, columns, where, orderBy, limit)
      case Some(error) => Err(error)
      case None => Outcome(SelectText(tableName, columns, where, orderBy, limit), limit, config, driver, elapsed)
  {
    var error := BuilderError(tableName, columns, where, orderBy, limit);
    if error.Some? {
      return Err(error.value), false;
    }
    var query: string;
    if IsGiven(limit) {
      query := "SELECT TOP " + IntToString(limit.value) + " " + columns + " FROM " + tableName;
    } else {
      query := "SELECT " + columns + " FROM " + tableName;
    }
    ghost var head := query;
    if Truthy(where) {
      query := query + (" WHERE " + where.value);
    } else {
      assert query == head + WhereClause(where);
    }
    ghost var headWhere := query;
    if Truthy(orderBy) {
      query := query + (" ORDER BY " + orderBy.value);
    } else {
      assert query == headWhere + OrderClause(orderBy);
    }
    r, executed := ExecuteQuery(query, limit, config, driver, elapsed);
  }

  /** A statement starting `SELECT ` passes the prefix check whatever follows. */
  lemma {:induction false} SelectPrefixKept(query: string)
    requires StartsWith(query, "SELECT ")
    ensures IsSelect(query)
  {
    assert query[0] == 'S';
    assert LStrip(query) == query;
    var r := RStrip(query);
    assert query[5] == 'T' && query[..6] == "SELECT";
    assert |r| >= 6 && r[..6] == query[..6];
    UpperSlice(r, 0, 6);
  }

  /** Every statement the builder assembles passes the `SELECT` prefix check. */
  lemma {:induction false} BuiltQueryIsSelect(tableName: string, columns: string, where: Option<string>,
                           orderBy: Option<string>, limit: Option<int>)
    ensures IsSelect(SelectText(tableName, columns, where, orderBy, limit))
  {
    var text := SelectText(tableName, columns, where, orderBy, limit);
    assert text[..7] == SelectHead(limit)[..7];
    SelectPrefixKept(text);
  }

  /** A keyword standing as a word in a piece cut off by non-word characters is one in the whole. */
  lemma {:induction false} KeywordInPieceRefused(before: string, piece: string, after: string, k: int)
    requires 0 <= k < |DangerousKeywords| && ContainsWord(piece, DangerousKeywords[k])
    requires before == [] || !IsWordChar(before[|before| - 1])
    requires after == [] || !IsWordChar(after[0])
    ensures GateReason(before + piece + after).Some?
  {
    var s := before + piece + after;
    var w := DangerousKeywords[k];
    var j :| 0 <= j <= |piece| - |w| && WordAt(piece, w, j);
    assert s[|before|..|before| + |piece|] == piece;
    WordOfSlice(s, |before|, |before| + |piece|, w, j);
    KeywordRefused(s, k);
  }

  lemma {:induction false} ColumnKeywordRefused(head: string, columns: string, tableName: string, where: Option<string>,
                             orderBy: Option<string>, k: int)
    requires 0 <= k < |DangerousKeywords| && ContainsWord(columns, DangerousKeywords[k])
    requires head != [] && head[|head| - 1] == ' '
    ensures GateReason(head + columns + " FROM " + tableName + WhereClause(where) + OrderClause(orderBy)).Some?
  {
    var rest := " FROM " + tableName + WhereClause(where) + OrderClause(orderBy);
    assert head + columns + " FROM " + tableName + WhereClause(where) + OrderClause(orderBy) == head + columns + rest;
    KeywordInPieceRefused(head, columns, rest, k);
  }

  lemma {:induction false} TableKeywordRefused(before: string, tableName: string, where: Option<string>, orderBy: Option<string>, k: int)
    requires 0 <= k < |DangerousKeywords| && ContainsWord(tableName, DangerousKeywords[k])
    ensures GateReason(before + " FROM " + tableName + WhereClause(where) + OrderClause(orderBy)).Some?
  {
    var tail := WhereClause(where) + OrderClause(orderBy);
    assert tail == [] || tail[0] == ' ';
    assert before + " FROM " + tableName + WhereClause(where) + OrderClause(orderBy) ==
      (before + " FROM ") + tableName + tail;
    KeywordInPieceRefused(before + " FROM ", tableName, tail, k);
  }

  lemma {:induction false} WhereKeywordRefused(before: string, where: string, orderBy: Option<string>, k: int)
    requires 0 <= k < |DangerousKeywords| && ContainsWord(where, DangerousKeywords[k])
    ensures GateReason(before + (" WHERE " + where) + OrderClause(orderBy)).Some?
  {
    var order := OrderClause(orderBy);
    assert order == [] || order[0] == ' ';
    var front := before + " WHERE ";
    assert before + (" WHERE " + where) == front + where;
    KeywordInPieceRefused(front, where, order, k);
  }

  /**
    * The builder does not screen for the denylist itself, but what it builds still passes the
    * gate: a keyword in the column list, the table name or the WHERE text (a column named
    * `Update`, a condition `note = 'drop'`) keeps the statement from the database.
    */
  lemma {:induction false} BuiltKeywordRefused(tableName: string, columns: string, where: Option<string>,
                            orderBy: Option<string>, limit: Option<int>, k: int)
    requires 0 <= k < |DangerousKeywords|
    requires ContainsWord(columns, DangerousKeywords[k]) || ContainsWord(tableName, DangerousKeywords[k]) ||
      (Truthy(where) && ContainsWord(where.value, DangerousKeywords[k]))
    ensures GateReason(SelectText(tableName, columns, where, orderBy, limit)).Some?
  {
    var head := SelectHead(limit);
    if ContainsWord(columns, DangerousKeywords[k]) {
      ColumnKeywordRefused(head, columns, tableName, where, orderBy, k);
    } else if ContainsWord(tableName, DangerousKeywords[k]) {
      TableKeywordRefused(head + columns, tableName, where, orderBy, k);
    } else {
      WhereKeywordRefused(head + columns + " FROM " + tableName, where.value, orderBy, k);
    }
  }

  /** `Update` is a column list the builder accepts. */
  lemma {:induction false} UpdateIsColumn()
    ensures ColumnsAccepted("Update")
  {
    var u := "Update";
    assert IsIdentifier(u) by {
      forall i | 1 <= i < |u|
        ensures IsWordChar(u[i])
      {
        assert 'a' <= u[i] <= 'z';
      }
    }
    SingleColumnAccepted(u);
  }

  /** A column named `Update` passes the builder's column check but never reaches the database. */
  lemma {:induction false} UpdateColumnRefused(tableName: string, where: Option<string>, orderBy: Option<string>, limit: Option<int>)
    ensures GateReason(SelectText(tableName, "Update", where, orderBy, limit)).Some?
  {
    var u := "Update";
    assert Upper(u) == "UPDATE" by {
      assert Upper(u)[0] == 'U' && Upper(u)[1] == 'P' && Upper(u)[2] == 'D';
      assert Upper(u)[3] == 'A' && Upper(u)[4] == 'T' && Upper(u)[5] == 'E';
    }
    assert WordAt(u, DangerousKeywords[3], 0);
    BuiltKeywordRefused(tableName, u, where, orderBy, limit, 3);
  }

  // ---------------------------------------------------------------------------
  // validate_query
  // ---------------------------------------------------------------------------

  /** The shorter list of `validate_query`: the first seven words of the gate's list. */
  const ValidationKeywords := ["DROP", "DELETE", "INSERT", "UPDATE", "CREATE", "ALTER", "TRUNCATE"]

  /** The four answers of `validate_query`. */
  datatype Verdict = NoSelect | Dangerous(keyword: string) | NoFrom | Valid

  const InvalidLead := "\U{274C} **Invalid**: "
  const ValidLead := "\U{2705} **Valid**: "

  /** What follows the lead of each answer. */
  function Body(v: Verdict): string {
    match v
    case NoSelect => "Query must start with SELECT"
    case Dangerous(keyword) => "Dangerous keyword '" + keyword + "' detected"
    case NoFrom => "SELECT query must include FROM clause"
    case Valid => "Query appears to be a safe SELECT query (basic validation passed)"
  }

  /** The text `validate_query` returns for each answer. */
  function Message(v: Verdict): string {
    (if v.Valid? then ValidLead else InvalidLead) + Body(v)
  }

  /**
    * `validate_query`: the same `SELECT` prefix, the seven words searched in the stripped (not
    * upper-cased) text case-insensitively, then a whole-word `FROM`.
    */
  function ValidateQuery(query: string): Verdict {
    var text := Strip(query);
    if !IsSelect(query) then NoSelect
    else
      var i := FirstHit(text, ValidationKeywords);
      if i < |ValidationKeywords| then Dangerous(ValidationKeywords[i])
      else if !ContainsWord(text, "FROM") then NoFrom
      else Valid
  }

  lemma {:induction false} ValidationKeywordsArePrefix()
    ensures ValidationKeywords == DangerousKeywords[..7]
  {
  }

  /** Searching the stripped text ignoring case finds what the gate finds in the cleaned text. */
  lemma {:induction false} CleanedWords(query: string, k: int)
    requires 0 <= k < |DangerousKeywords|
    ensures ContainsWord(Strip(query), DangerousKeywords[k]) <==> ContainsWord(Cleaned(query), DangerousKeywords[k])
  {
    ContainsWordUpper(Strip(query), DangerousKeywords[k]);
  }

  /**
    * Whenever `validate_query` names a dangerous keyword, `execute_query` refuses the query and
    * names the same keyword: the seven words are the head of the gate's list, searched the same
    * way.
    */
  lemma {:induction false} ValidationAgreesWithGate(query: string)
    requires ValidateQuery(query).Dangerous?
    ensures GateReason(query) == Some(KeywordReason(ValidateQuery(query).keyword))
  {
    ValidationKeywordsArePrefix();
    var i := FirstHit(Strip(query), ValidationKeywords);
    forall k | 0 <= k <= i
      ensures ContainsWord(Cleaned(query), DangerousKeywords[k]) <==> k == i
    {
      CleanedWords(query, k);
    }
    assert FirstHit(Cleaned(query), DangerousKeywords) == i;
  }

  /**
    * What `validate_query` calls valid, `execute_query` still refuses exactly when one of the four
    * words the shorter list lacks (`GRANT`, `REVOKE`, `EXEC`, `EXECUTE`) occurs.
    */
  lemma {:induction false} ValidYetRefused(query: string)
    requires ValidateQuery(query) == Valid
    ensures GateReason(query).Some? <==>
      exists k :: 7 <= k < |DangerousKeywords| && ContainsWord(Cleaned(query), DangerousKeywords[k])
  {
    ValidationKeywordsArePrefix();
    forall k | 0 <= k < 7
      ensures !ContainsWord(Cleaned(query), DangerousKeywords[k])
    {
      CleanedWords(query, k);
    }
    var i := FirstHit(Cleaned(query), DangerousKeywords);
    if i < |DangerousKeywords| {
      assert 7 <= i;
    }
  }

  lemma {:induction false} BodiesDiffer(v: Verdict, u: Verdict)
    requires Body(v) == Body(u) && !v.Valid? && !u.Valid?
    ensures v == u
  {
    assert Body(v)[0] == Body(u)[0];
    if v.Dangerous? && u.Dangerous? {
      var p := "Dangerous keyword '";
      assert Body(v) == p + v.keyword + "' detected";
      assert Body(u) == p + u.keyword + "' detected";
      assert Body(v)[|p|..|Body(v)| - 10] == v.keyword;
      assert Body(u)[|p|..|Body(u)| - 10] == u.keyword;
    }
  }

  /** The four answers read differently, and a refusal names its keyword recoverably. */
  lemma {:induction false} MessagesDiffer(v: Verdict, u: Verdict)
    requires Message(v) == Message(u)
    ensures v == u
  {
    assert Message(v)[0] == Message(u)[0];
    if !v.Valid? && !u.Valid? {
      assert Body(v) == Message(v)[|InvalidLead|..];
      assert Body(u) == Message(u)[|InvalidLead|..];
      BodiesDiffer(v, u);
    }
  }
}
