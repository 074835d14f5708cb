# sqlanywhere-mcp, modelled in Dafny

sqlanywhere-mcp is an MCP server. It exposes a SQL Anywhere database's schema, and a
SELECT-only query surface, as tools that an agent calls. This project models the parts of the
server that decide what reaches the database and what text comes back:

- **The query gate** (`queries.py`). `execute_query` accepts only a `SELECT`. It refuses any
  query that holds one of eleven denylisted words as a whole word. It then resolves the row
  limit against the configured ceiling.
- **The structured query builder** (`queries.py`). `query_builder` checks the table name,
  columns, limit, WHERE and ORDER BY, in that order. It assembles
  `SELECT [TOP n] cols FROM t [WHERE w] [ORDER BY o]` and hands the text to the same gate.
- **The lighter check** (`queries.py`). `validate_query` reports instead of raising.
- **The tool input models** (`models.py`). These are pydantic models with
  `str_strip_whitespace`, length and range bounds, field validators and model validators.
- **The connection manager's configuration** (`db.py`). This covers the authorized-user
  list, the ODBC connection string built from the environment, and the integer settings.
  It also covers the row fetch with its one-row probe for `has_more`.
- **The markdown formatters** (`formatters.py`).
- **The error hierarchy** (`errors.py`) and its rendering.

The modules follow the source files:

| Module | Contents |
|---|---|
| `Text` | The Python string operations the source relies on (`strip`, `upper`, `split`, `join`, `int()`, `str()`, `{n:,}`), over ASCII. |
| `Patterns` | The source's regular expressions written out as predicates. This includes Python's rule that `$` also matches before one final newline. |
| `Markdown` | A table row and a document of lines, each with a reader that takes it apart again. The formatters' outputs are stated as "reads back as" through these readers. |
| `Rows` | A result row as an insertion-ordered `dict`. |
| `Grouping` | The first-appearance grouping used for primary keys and indexes. |
| `Errors` | `MCPError`, `format_error` and the six subclasses. |
| `Db` | Configuration, the connection string and the row fetch. |
| `Queries` | The gate, the limit, `execute_query`, `query_builder` and `validate_query`. |
| `Models` | The input models. |
| `Formatters` | Every formatter. |
| `Wrappers` | `Option` and `Result`. |

Where the source changes values step by step, the model uses methods whose loops carry
invariants: the formatters' row loops, the grouping into `dict`s, the connection-string
assembly and the row fetch. Each such method is proved equal to a specification function.
The properties the source promises are proved about that function. Pure computations are
modelled as functions with lemmas.

### Behaviour worth noting

The model follows the code in each case below.

- **No owner authorization.** The server's tool descriptions promise that raw queries are
  checked for the owners they name after `FROM`/`JOIN` (`server.py:806-807` and
  `server.py:861-862`). `queries.py` has no such check, so the model has none.
- **The builder's output is not always accepted by the gate.** A column named `Update` passes
  both the builder and its input model, yet the gate refuses the assembled statement, because
  the word `UPDATE` occurs in it (`Queries.UpdateColumnRefused`).
- **The owner prefix is optional in the builder.** The builder's error message demands a prefix
  of the form `schema.TableName`, but its pattern makes the owner optional. The input model
  demands a `.`, but accepts two of them. The two checks therefore disagree in both
  directions (`Models.BareNameModelOnly`, `Models.TwoDotsBuilderOnly`).
- **The authorized-user list can be empty.** The default `monitor,ExtensionsUser` applies only
  when the variable is unset. A value of `""` or `","` yields an empty list
  (`Db.BlankSettingNoUsers`).
- **Two notions of whitespace.** The framework trims every string field of the space and
  `\t`..`\r` only, while the validators' `v.strip()` also removes the separators
  `\x1c`..`\x1f`. So `owner="\x1f"` is refused with "Cannot be empty string", not for its
  length (`Models.SeparatorOwnerRefused`). An `index_name` of `"\x1f"` is accepted, because
  that model has no validator, while a `table_name` of `"\x1f"` is refused
  (`Models.SeparatorNameDetails`). An accepted value is handed on with any separators at its
  ends.
- **The limit is never clamped.** A requested limit above the ceiling is refused with an error,
  not lowered to the ceiling (`Queries.ResolveLimit`).

## Model

| member | source | states |
|---|---|---|
| Text.StripIsStripped | sqlanywhere-mcp/sqlanywhere_mcp/db.py:33 | `str.strip()` leaves no whitespace at either end. |
| Text.StripFixed | sqlanywhere-mcp/sqlanywhere_mcp/db.py:33 | Stripping a string that is already stripped changes nothing. |
| Text.SplitJoin | sqlanywhere-mcp/sqlanywhere_mcp/db.py:33 | Splitting on a one-character separator undoes joining with it, when no part holds the separator. |
| Text.Split | sqlanywhere-mcp/sqlanywhere_mcp/db.py:33 | The parts of `str.split` never hold the separator, and joining them gives back the text. |
| Text.UpperTwice | sqlanywhere-mcp/sqlanywhere_mcp/queries.py:24 | Upper-casing is idempotent. |
| Text.ParseIntToString | sqlanywhere-mcp/sqlanywhere_mcp/db.py:20-22 | `int(str(n)) == n` for every integer, negative ones included. |
| Text.ThousandsDigits | sqlanywhere-mcp/sqlanywhere_mcp/formatters.py:86 | Dropping the group commas from `f"{n:,}"` gives `str(n)`. |
| Text.ThousandsShape | sqlanywhere-mcp/sqlanywhere_mcp/formatters.py:86 | `f"{n:,}"` starts with `-` exactly when `n` is negative. The rest is one to three leading digits followed by groups of a comma and three digits, with no leading zero unless `n` is 0. Together with `Text.ThousandsDigits` this fixes the text completely. |
| Markdown.CellsOfTableLine | sqlanywhere-mcp/sqlanywhere_mcp/formatters.py:38-44 | A table row of plain cells reads back as exactly those cells, in order. |
| Markdown.CellsOfRuleLine | sqlanywhere-mcp/sqlanywhere_mcp/formatters.py:40 | The rule under `n` headers reads back as `n` cells of `---`. |
| Markdown.LinesReadBack | sqlanywhere-mcp/sqlanywhere_mcp/formatters.py:46 | A document of one-line items splits back into those items. |
| Markdown.DocumentReadsBack | sqlanywhere-mcp/sqlanywhere_mcp/formatters.py:38-46 | Head lines followed by table rows read back as the rows, after the head. |
| Patterns.ColumnTokens | sqlanywhere-mcp/sqlanywhere_mcp/queries.py:159 | One token per comma-separated part, each stripped. |
| Patterns.FirstBadToken | sqlanywhere-mcp/sqlanywhere_mcp/queries.py:160-165 | Every token before the result is an identifier, and the token at the result is not: it is the column the error names. |
| Patterns.SingleColumnAccepted | sqlanywhere-mcp/sqlanywhere_mcp/queries.py:158-161 | A single identifier is an accepted column list. |
| Patterns.ContainsWordUpper | sqlanywhere-mcp/sqlanywhere_mcp/queries.py:48 | The case-insensitive whole-word search finds the same words in a text and in its upper-cased form. |
| Patterns.ContainsWordStrip | sqlanywhere-mcp/sqlanywhere_mcp/queries.py:24 | Stripping neither removes nor creates a whole-word keyword. |
| Patterns.QuotedIsWord | sqlanywhere-mcp/sqlanywhere_mcp/queries.py:48 | A keyword between single quotes stands on word boundaries. |
| Queries.FirstHit | sqlanywhere-mcp/sqlanywhere_mcp/queries.py:47-53 | No keyword before the result occurs, and the keyword at the result does. |
| Queries.GateAdmits | sqlanywhere-mcp/sqlanywhere_mcp/queries.py:24-53 | A query passes the gate exactly when its stripped, upper-cased text starts with `SELECT` and holds none of the eleven words. |
| Queries.GateNamesFirstKeyword | sqlanywhere-mcp/sqlanywhere_mcp/queries.py:47-53 | A refused `SELECT` names the first word of the list that occurs, and no earlier word occurs. |
| Queries.DenylistIsKeywords | sqlanywhere-mcp/sqlanywhere_mcp/queries.py:33-45 | Every denylisted word is a run of upper-case word characters. |
| Queries.KeywordRefused | sqlanywhere-mcp/sqlanywhere_mcp/queries.py:33-53 | A denylisted word standing as a whole word anywhere, in any case, gets the query refused. |
| Queries.KeywordInLiteralRefused | sqlanywhere-mcp/sqlanywhere_mcp/queries.py:47-53 | A denylisted word inside a quoted literal gets the query refused too. |
| Queries.ExecIsNotExecute | sqlanywhere-mcp/sqlanywhere_mcp/queries.py:43-44 | `\bEXEC\b` does not match where `EXECUTE` stands. |
| Queries.ResolveLimit | sqlanywhere-mcp/sqlanywhere_mcp/queries.py:58-66 | No limit gives the configured default. A limit above the ceiling is refused, exactly then. Otherwise the limit passes unchanged. |
| Queries.RunQuery | sqlanywhere-mcp/sqlanywhere_mcp/queries.py:68-112 | A driver failure becomes a database error for "query execution"; otherwise the rows fetched under the limit are rendered. |
| Queries.ExecuteQuery | sqlanywhere-mcp/sqlanywhere_mcp/queries.py:9-112 | The query reaches the database exactly when it passes the gate and its limit resolves. The answer is the gate's refusal, else the limit's refusal, else the driver's failure, else the rendered rows. |
| Queries.QueryBuilder | sqlanywhere-mcp/sqlanywhere_mcp/queries.py:115-197 | The first failing check, in source order, is reported. Otherwise the assembled `SELECT [TOP n] cols FROM t [WHERE w] [ORDER BY o]` goes through `execute_query` with the same limit, and reaches the database exactly when the gate and the ceiling let it through. |
| Queries.SelectPrefixKept | sqlanywhere-mcp/sqlanywhere_mcp/queries.py:174-176 | A statement starting `SELECT ` passes the prefix check. |
| Queries.BuiltQueryIsSelect | sqlanywhere-mcp/sqlanywhere_mcp/queries.py:168-194 | Every statement the builder assembles passes the `SELECT` prefix check. |
| Queries.BuiltKeywordRefused | sqlanywhere-mcp/sqlanywhere_mcp/queries.py:174-197 | A denylisted word in the columns, the table name or the WHERE text keeps the assembled statement from the database. |
| Queries.UpdateIsColumn | sqlanywhere-mcp/sqlanywhere_mcp/queries.py:158-165 | `Update` is a column list the builder accepts. |
| Queries.UpdateColumnRefused | sqlanywhere-mcp/sqlanywhere_mcp/queries.py:174-197 | A statement built with the column `Update` is refused by the gate. |
| Queries.ValidationKeywordsArePrefix | sqlanywhere-mcp/sqlanywhere_mcp/queries.py:219 | The seven words of `validate_query` are the first seven of the gate's list. |
| Queries.CleanedWords | sqlanywhere-mcp/sqlanywhere_mcp/queries.py:212-222 | Searching the stripped text ignoring case finds the words the gate finds in the stripped, upper-cased text. |
| Queries.ValidationAgreesWithGate | sqlanywhere-mcp/sqlanywhere_mcp/queries.py:200-223 | When `validate_query` names a dangerous word, `execute_query` refuses the query and names the same word. |
| Queries.ValidYetRefused | sqlanywhere-mcp/sqlanywhere_mcp/queries.py:212-229 | A query `validate_query` calls valid is refused by the gate exactly when GRANT, REVOKE, EXEC or EXECUTE occurs in it. |
| Queries.MessagesDiffer | sqlanywhere-mcp/sqlanywhere_mcp/queries.py:215-229 | The answers of `validate_query` are distinct texts, and a refusal's text determines its keyword. |
| Db.StrippedNonEmpty | sqlanywhere-mcp/sqlanywhere_mcp/db.py:33 | Every kept part is non-empty and stripped, and there are no more users than parts. |
| Db.StrippedNonEmptyKeeps | sqlanywhere-mcp/sqlanywhere_mcp/db.py:33 | Every part whose stripped text is non-empty is kept, stripped, at the position counting the non-blank parts before it. |
| Db.StrippedNonEmptyFromParts | sqlanywhere-mcp/sqlanywhere_mcp/db.py:33 | Every kept user is the stripped text of some part, and sits at the position counting the non-blank parts before that part. |
| Db.StrippedNonEmptyInOrder | sqlanywhere-mcp/sqlanywhere_mcp/db.py:33 | Of two non-blank parts, the earlier one's user comes first. |
| Db.StrippedNonEmptyMembers | sqlanywhere-mcp/sqlanywhere_mcp/db.py:33 | A text is kept exactly when it is non-empty and the stripped text of some part. |
| Db.StrippedNonEmptyAppend | sqlanywhere-mcp/sqlanywhere_mcp/db.py:33 | Filtering a concatenation of part lists is the concatenation of the filtered lists. |
| Db.ParseAuthorizedUsers | sqlanywhere-mcp/sqlanywhere_mcp/db.py:25-33 | Every authorized user is non-empty, stripped and free of commas. |
| Db.AuthorizedUserMembers | sqlanywhere-mcp/sqlanywhere_mcp/db.py:32-33 | A name is authorized exactly when it is the non-empty stripped text of a comma-separated part of the setting, or of the default when it is unset. |
| Db.BlankSettingNoUsers | sqlanywhere-mcp/sqlanywhere_mcp/db.py:32-33 | A setting of `""` or `","` authorizes nobody: the default is not used. |
| Db.DefaultUsers | sqlanywhere-mcp/sqlanywhere_mcp/db.py:32-33 | With the variable unset, the list is `["monitor", "ExtensionsUser"]`. |
| Db.UsersRoundTrip | sqlanywhere-mcp/sqlanywhere_mcp/db.py:32-33 | A parsed list written back comma-separated parses to itself. |
| Db.KeepsCleanUsers | sqlanywhere-mcp/sqlanywhere_mcp/db.py:33 | Parts that are already non-empty and stripped are all kept, in order. |
| Db.BuildConnectionString | sqlanywhere-mcp/sqlanywhere_mcp/db.py:35-99 | A non-empty override is returned verbatim without a warning. Otherwise a missing database name is an error. Otherwise the result is the fields joined with `;`, and the warning is issued exactly when no server name is set. |
| Db.FieldsWithoutSemicolon | sqlanywhere-mcp/sqlanywhere_mcp/db.py:67-97 | No field holds a `;` when no variable does. |
| Db.ConnectionFieldsRoundTrip | sqlanywhere-mcp/sqlanywhere_mcp/db.py:67-99 | Splitting the built string on `;` gives the fields back when no variable holds a `;`. |
| Db.ConnectionFieldOrder | sqlanywhere-mcp/sqlanywhere_mcp/db.py:59-97 | The keys are DRIVER, DBN, UID, PWD, ServerName, Host and ENCRYPT, in that order, each optional one present exactly when its condition holds. |
| Db.DefaultIntegers | sqlanywhere-mcp/sqlanywhere_mcp/db.py:20-22 | The three integer defaults read as 30, 1000 and 10000. |
| Db.LoadConfig | sqlanywhere-mcp/sqlanywhere_mcp/db.py:16-23 | The configuration loads exactly when the connection string builds and all three integers parse. Unset variables give 30, 1000 and 10000, set ones their `int()` value, and the users are the parsed list. |
| Db.ZippedValues | sqlanywhere-mcp/sqlanywhere_mcp/db.py:282-283 | With distinct column names, each zipped row maps every column to the value the driver delivered in that position. |
| Db.ZippedKeys | sqlanywhere-mcp/sqlanywhere_mcp/db.py:282-283 | Rows zipped from an aligned cursor all have the first row's keys. |
| Db.ZipRows | sqlanywhere-mcp/sqlanywhere_mcp/db.py:283 | The comprehension zips every fetched row with the column names. |
| Db.FetchWithMetadata | sqlanywhere-mcp/sqlanywhere_mcp/db.py:272-287 | With a truthy limit, `has_more` holds exactly when more rows than the limit exist, and the first `min(available, limit)` rows are kept. Otherwise every row is kept and `has_more` is false. `row_count` is the number of rows kept. |
| Rows.Put | sqlanywhere-mcp/sqlanywhere_mcp/db.py:283 | After `d[k] = v`, `d[k]` is `v`. An existing key keeps its position and a new key goes last. |
| Rows.PutKeepsOther | sqlanywhere-mcp/sqlanywhere_mcp/db.py:283 | `d[k] = v` leaves the value of every other key unchanged. |
| Rows.FromZipGet | sqlanywhere-mcp/sqlanywhere_mcp/db.py:283 | In `dict(zip(columns, values))`, a column holds the value paired with it unless a later pair names the same column. With distinct columns this holds for every pair. |
| Rows.FromZipKeys | sqlanywhere-mcp/sqlanywhere_mcp/db.py:283 | The keys of a zipped row depend only on the column names. |
| Grouping.FirstAppearance | sqlanywhere-mcp/sqlanywhere_mcp/formatters.py:143-150 | The grouped names are exactly the names of the rows. |
| Grouping.FirstAppearanceDistinct | sqlanywhere-mcp/sqlanywhere_mcp/formatters.py:143-150 | No name is listed twice. |
| Grouping.FirstAppearanceOrder | sqlanywhere-mcp/sqlanywhere_mcp/formatters.py:143-150 | Names are listed in the order of their first appearance. |
| Grouping.ColumnsOfPresent | sqlanywhere-mcp/sqlanywhere_mcp/formatters.py:143-147 | A name has columns exactly when some row carries it. |
| Grouping.GroupColumns | sqlanywhere-mcp/sqlanywhere_mcp/formatters.py:140-147 | The `dict`'s keys are the names in first-appearance order, and each holds its rows' columns in input order. |
| Grouping.FirstValueIsFirst | sqlanywhere-mcp/sqlanywhere_mcp/formatters.py:166-168 | The value kept for a name is the one on its first row. |
| Errors.FormatError | sqlanywhere-mcp/sqlanywhere_mcp/errors.py:24-29 | The text is the header and the message, extended by the suggestion paragraph exactly when the suggestion is truthy. |
| Errors.FormatErrorRoundTrip | sqlanywhere-mcp/sqlanywhere_mcp/errors.py:24-29 | A message free of the suggestion marker, and its suggestion, are recovered from the rendered text. |
| Errors.DatabaseNotFoundError | sqlanywhere-mcp/sqlanywhere_mcp/errors.py:32-46 | A not-found error always carries a suggestion. |
| Errors.AccessDeniedError | sqlanywhere-mcp/sqlanywhere_mcp/errors.py:49-64 | An access-denied error always carries a suggestion. |
| Errors.QueryValidationError | sqlanywhere-mcp/sqlanywhere_mcp/errors.py:67-82 | A validation error always carries a suggestion. |
| Errors.ConnectionError | sqlanywhere-mcp/sqlanywhere_mcp/errors.py:85-104 | A connection error always carries the three-step suggestion. |
| Errors.DatabaseError | sqlanywhere-mcp/sqlanywhere_mcp/errors.py:107-121 | A database error always carries a suggestion. |
| Errors.InvalidParameterError | sqlanywhere-mcp/sqlanywhere_mcp/errors.py:124-138 | An invalid-parameter error always carries a suggestion. |
| Errors.NotFoundReadsBack | sqlanywhere-mcp/sqlanywhere_mcp/errors.py:43-46 | The rendered error reads back as its message and suggestion, and the message names the object as given. |
| Errors.AccessDeniedReadsBack | sqlanywhere-mcp/sqlanywhere_mcp/errors.py:60-64 | The rendered error reads back as its message and suggestion, and the message names the object as given. |
| Errors.QueryValidationReadsBack | sqlanywhere-mcp/sqlanywhere_mcp/errors.py:70-82 | The error does not depend on the query, and reads back as the reason after the fixed prefix. |
| Errors.ConnectionDetailsShown | sqlanywhere-mcp/sqlanywhere_mcp/errors.py:96-104 | The message is changed exactly when the details are truthy, and then they follow it after a blank line. |
| Errors.DatabaseErrorReadsBack | sqlanywhere-mcp/sqlanywhere_mcp/errors.py:118-121 | The rendered error reads back, with the driver's text after a head naming the operation. |
| Errors.InvalidParameterReadsBack | sqlanywhere-mcp/sqlanywhere_mcp/errors.py:135-138 | The rendered error reads back, with the reason after a head naming the parameter. |
| Formatters.CellTexts | sqlanywhere-mcp/sqlanywhere_mcp/formatters.py:43 | One text per value, in order. |
| Formatters.FormatMarkdownTable | sqlanywhere-mcp/sqlanywhere_mcp/formatters.py:23-46 | No rows give `*No data*`; otherwise the header, the rule and one line per row. |
| Formatters.CellTextMeaning | sqlanywhere-mcp/sqlanywhere_mcp/formatters.py:43 | `None` shows as `NULL`, any other value as its text. |
| Formatters.MarkdownTableReadsBack | sqlanywhere-mcp/sqlanywhere_mcp/formatters.py:38-46 | The table reads back as the headers, exactly `len(headers)` rule cells, then each row's values with `None` as `NULL`. |
| Formatters.SectionHeading | sqlanywhere-mcp/sqlanywhere_mcp/formatters.py:49-61 | The first line starts with exactly `max(level, 0)` hashes, then the title. |
| Formatters.CountTextNotAvailable | sqlanywhere-mcp/sqlanywhere_mcp/formatters.py:86 | A missing or zero count shows as `N/A`; any other count reads back, without its commas, as itself. |
| Formatters.TableRows | sqlanywhere-mcp/sqlanywhere_mcp/formatters.py:85-87 | One row per table: name, owner, type, count text. |
| Formatters.FormatTableList | sqlanywhere-mcp/sqlanywhere_mcp/formatters.py:68-89 | The title with the total, the header, then one row per table. |
| Formatters.TableRowLines | sqlanywhere-mcp/sqlanywhere_mcp/formatters.py:85-88 | The loop emits one table row per table. |
| Formatters.TableListReadsBack | sqlanywhere-mcp/sqlanywhere_mcp/formatters.py:68-89 | After four lines, the list reads back as one row per table. |
| Formatters.NamedRows | sqlanywhere-mcp/sqlanywhere_mcp/formatters.py:201-203 | One row per view or procedure: name, owner. |
| Formatters.NamedRowLines | sqlanywhere-mcp/sqlanywhere_mcp/formatters.py:201-203 | The loop emits one table row per entry. |
| Formatters.FormatViewList | sqlanywhere-mcp/sqlanywhere_mcp/formatters.py:184-204 | The title with the total, the header, then one row per view. |
| Formatters.FormatProcedureList | sqlanywhere-mcp/sqlanywhere_mcp/formatters.py:240-260 | The title with the total, the header, then one row per procedure. |
| Formatters.ViewListReadsBack | sqlanywhere-mcp/sqlanywhere_mcp/formatters.py:184-204 | After four lines, the list reads back as one row per view. |
| Formatters.ProcedureListReadsBack | sqlanywhere-mcp/sqlanywhere_mcp/formatters.py:240-260 | After four lines, the list reads back as one row per procedure. |
| Formatters.IndexRows | sqlanywhere-mcp/sqlanywhere_mcp/formatters.py:325-328 | One row per index, with `Yes` exactly for the flag `Y`. |
| Formatters.IndexRowLines | sqlanywhere-mcp/sqlanywhere_mcp/formatters.py:325-328 | The loop emits one table row per index. |
| Formatters.FormatIndexList | sqlanywhere-mcp/sqlanywhere_mcp/formatters.py:308-329 | The title with the total, the header, then one row per index. |
| Formatters.IndexListReadsBack | sqlanywhere-mcp/sqlanywhere_mcp/formatters.py:308-329 | After four lines, the list reads back as one row per index. |
| Formatters.ColumnRows | sqlanywhere-mcp/sqlanywhere_mcp/formatters.py:131-137 | One row per column, in order. |
| Formatters.KeyBullets | sqlanywhere-mcp/sqlanywhere_mcp/formatters.py:149-151 | One bullet per key, listing that key's columns joined by commas. |
| Formatters.ForeignKeyBullets | sqlanywhere-mcp/sqlanywhere_mcp/formatters.py:157-159 | One bullet per foreign key, in input order. |
| Formatters.IndexPairs | sqlanywhere-mcp/sqlanywhere_mcp/formatters.py:169 | Each index column is shown with `ASC` for order `A` and `DESC` otherwise. |
| Formatters.PrimaryKeySectionGrouped | sqlanywhere-mcp/sqlanywhere_mcp/formatters.py:140-151 | Each key is listed once, in first-appearance order, with exactly its columns in input order, never none. |
| Formatters.IndexSectionGrouped | sqlanywhere-mcp/sqlanywhere_mcp/formatters.py:162-175 | Each index is listed once, in first-appearance order, with its columns in input order and its first row's flag. |
| Formatters.IndexKeepsFirstFlag | sqlanywhere-mcp/sqlanywhere_mcp/formatters.py:166-168 | An index keeps the unique flag of the first row that names it. |
| Formatters.GroupIndexes | sqlanywhere-mcp/sqlanywhere_mcp/formatters.py:164-169 | The `idx_dict` loop: keys in first-appearance order, each holding its group. |
| Formatters.ColumnLines | sqlanywhere-mcp/sqlanywhere_mcp/formatters.py:125-138 | The columns block equals its specification. |
| Formatters.ColumnRowLines | sqlanywhere-mcp/sqlanywhere_mcp/formatters.py:131-137 | The loop emits one table row per column. |
| Formatters.PrimaryKeyLines | sqlanywhere-mcp/sqlanywhere_mcp/formatters.py:140-152 | The primary-key block equals its specification. |
| Formatters.KeyBulletLines | sqlanywhere-mcp/sqlanywhere_mcp/formatters.py:149-151 | The loop over the grouped keys emits their bullets. |
| Formatters.ForeignKeyLines | sqlanywhere-mcp/sqlanywhere_mcp/formatters.py:154-160 | The foreign-key block equals its specification. |
| Formatters.IndexLines | sqlanywhere-mcp/sqlanywhere_mcp/formatters.py:162-176 | The index block equals its specification. |
| Formatters.IndexBulletLines | sqlanywhere-mcp/sqlanywhere_mcp/formatters.py:171-175 | The loop over the grouped indexes emits their bullets. |
| Formatters.FormatTableDetails | sqlanywhere-mcp/sqlanywhere_mcp/formatters.py:92-177 | The details are the title, the summary and the four sections, each present only when non-empty. |
| Formatters.ViewColumnRows | sqlanywhere-mcp/sqlanywhere_mcp/formatters.py:229-231 | One row per view column. |
| Formatters.ViewColumnLines | sqlanywhere-mcp/sqlanywhere_mcp/formatters.py:229-231 | The loop emits one table row per column. |
| Formatters.FormatViewDetails | sqlanywhere-mcp/sqlanywhere_mcp/formatters.py:207-233 | A title, then the column table only when there are columns. |
| Formatters.ViewDetailsReadsBack | sqlanywhere-mcp/sqlanywhere_mcp/formatters.py:207-233 | After six lines, the view reads back as one row per column: name, type, `YES`/`NO`. |
| Formatters.ParameterModeCases | sqlanywhere-mcp/sqlanywhere_mcp/formatters.py:286-291 | `INOUT` exactly when both flags are `Y`, `OUT` exactly when only the out flag is, `IN` exactly when the out flag is not. |
| Formatters.ParameterRows | sqlanywhere-mcp/sqlanywhere_mcp/formatters.py:285-293 | One row per parameter. |
| Formatters.ParameterLines | sqlanywhere-mcp/sqlanywhere_mcp/formatters.py:285-293 | The loop emits one table row per parameter. |
| Formatters.FormatProcedureDetails | sqlanywhere-mcp/sqlanywhere_mcp/formatters.py:263-301 | The parameter table, or the line saying there are none. |
| Formatters.NoParametersLine | sqlanywhere-mcp/sqlanywhere_mcp/formatters.py:279-299 | The fifth line says there are no parameters exactly when the list is empty, and the line count follows. |
| Formatters.ProcedureDetailsReadsBack | sqlanywhere-mcp/sqlanywhere_mcp/formatters.py:263-301 | After six lines, the procedure reads back as one row per parameter (name, type, mode), followed by one blank line. |
| Formatters.IndexDetailRows | sqlanywhere-mcp/sqlanywhere_mcp/formatters.py:364-367 | One row per index column. |
| Formatters.IndexDetailLines | sqlanywhere-mcp/sqlanywhere_mcp/formatters.py:364-367 | The loop emits one table row per column. |
| Formatters.FormatIndexDetails | sqlanywhere-mcp/sqlanywhere_mcp/formatters.py:332-368 | The title lines, then the column table only when there are columns. |
| Formatters.IndexDetailsReadsBack | sqlanywhere-mcp/sqlanywhere_mcp/formatters.py:332-368 | After eight lines, the index reads back as one row per column: name, `ASC`/`DESC`, position. |
| Formatters.IndexDetailsUniqueLine | sqlanywhere-mcp/sqlanywhere_mcp/formatters.py:355 | The third line says `Yes` exactly for a unique index. |
| Formatters.DatabaseInfoCounts | sqlanywhere-mcp/sqlanywhere_mcp/formatters.py:375-425 | The summary has 20 lines. Its last three give back the table, view and procedure counts, and the page-size line gives back the page size. |
| Formatters.CutBounds | sqlanywhere-mcp/sqlanywhere_mcp/formatters.py:483-484 | A shown value is at most 100 characters. A short one is unchanged; a long one is its first 97 characters and `...`, exactly 100. |
| Formatters.ResultCells | sqlanywhere-mcp/sqlanywhere_mcp/formatters.py:476-485 | One rendered value per column, looked up by name. |
| Formatters.ResultRows | sqlanywhere-mcp/sqlanywhere_mcp/formatters.py:474-486 | One list of values per row. |
| Formatters.RowValues | sqlanywhere-mcp/sqlanywhere_mcp/formatters.py:476-485 | The inner loop collects the row's values under the columns. |
| Formatters.ResultRowLines | sqlanywhere-mcp/sqlanywhere_mcp/formatters.py:474-486 | The outer loop emits one table row per result row. |
| Formatters.ResultTableLines | sqlanywhere-mcp/sqlanywhere_mcp/formatters.py:466-486 | The header from the first row's keys, the rule, then the rows. |
| Formatters.FormatQueryResults | sqlanywhere-mcp/sqlanywhere_mcp/formatters.py:432-488 | No rows give the five-line no-rows text; otherwise the head and the table. |
| Formatters.QueryNoteShown | sqlanywhere-mcp/sqlanywhere_mcp/formatters.py:455-464 | The head reports the row count, and carries the truncation note naming the limit exactly when more rows exist and the limit is truthy. |
| Formatters.QueryResultsReadBack | sqlanywhere-mcp/sqlanywhere_mcp/formatters.py:466-488 | After the head, the results read back as the first row's keys, one `---` per key, then each row's values in key order, with `None` as `NULL` and long values cut. |
| Models.Measured | sqlanywhere-mcp/sqlanywhere_mcp/models.py:40-41 | A trimmed string field is accepted exactly when its length is within bounds and its validator raises nothing, and is handed on unchanged. |
| Models.IntField | sqlanywhere-mcp/sqlanywhere_mcp/models.py:42 | An integer field is accepted exactly within `ge..le`. |
| Models.OptIntField | sqlanywhere-mcp/sqlanywhere_mcp/models.py:417 | An optional integer field is accepted when absent, or exactly within `ge..le`. |
| Models.Trim | sqlanywhere-mcp/sqlanywhere_mcp/models.py:35 | `str_strip_whitespace` leaves neither a space nor one of `\t`..`\r` at either end. |
| Models.TrimParts | sqlanywhere-mcp/sqlanywhere_mcp/models.py:35 | The trimmed field is the raw text with only that whitespace removed from around it. |
| Models.StripOfTrim | sqlanywhere-mcp/sqlanywhere_mcp/models.py:35-50 | The validators' `v.strip()` of the trimmed value equals `v.strip()` of the raw text. |
| Models.BlankAfterTrim | sqlanywhere-mcp/sqlanywhere_mcp/models.py:35-50 | A trimmed value that `v.strip()` still empties starts and ends with one of `\x1c`..`\x1f`. |
| Models.BlankCheckDecides | sqlanywhere-mcp/sqlanywhere_mcp/models.py:45-52 | A not-empty validator changes the outcome exactly for a value that fits its length bounds once trimmed yet strips to nothing; it then refuses it with its message. |
| Models.BlankRefusedByLength | sqlanywhere-mcp/sqlanywhere_mcp/models.py:40 | A value made only of spaces and `\t`..`\r` is refused as too short, whatever the validator. |
| Models.FilterFieldAccepted | sqlanywhere-mcp/sqlanywhere_mcp/models.py:40-52 | A filter is accepted exactly when it is absent, or has 1..200 characters once trimmed and does not strip to nothing. It is then handed on trimmed. |
| Models.BlankFilterRefused | sqlanywhere-mcp/sqlanywhere_mcp/models.py:40-52 | A whitespace-only filter is refused: too short when the trim empties it, too long past 200 characters, and otherwise with "Cannot be empty string". |
| Models.ListInputAccepted | sqlanywhere-mcp/sqlanywhere_mcp/models.py:32-59 | A list input is accepted exactly when both filters are accepted, the limit is within 1..10000, and at most one filter is given. It then carries the trimmed filters and the limit, 100 by default. |
| Models.BlankOwnerRefused | sqlanywhere-mcp/sqlanywhere_mcp/models.py:45-52 | A whitespace-only `owner` is refused, first of all violations, for the reason `Models.BlankFilterRefused` gives. |
| Models.BlankSearchRefused | sqlanywhere-mcp/sqlanywhere_mcp/models.py:45-52 | A whitespace-only `search` is refused for the reason `Models.BlankFilterRefused` gives. |
| Models.SeparatorOwnerRefused | sqlanywhere-mcp/sqlanywhere_mcp/models.py:35-50 | An `owner` of one `\x1f` survives the trim and is refused by the validator with "Cannot be empty string", and for nothing else. |
| Models.BothFiltersRefused | sqlanywhere-mcp/sqlanywhere_mcp/models.py:57-58 | Two valid filters together are refused by the model validator alone. |
| Models.DetailsInputAccepted | sqlanywhere-mcp/sqlanywhere_mcp/models.py:62-79 | A details name is accepted exactly when it has 1..200 characters once trimmed and, where a not-empty validator exists, does not strip to nothing. It is handed on trimmed. The validator changes the outcome exactly for a name that fits yet strips to nothing. |
| Models.SeparatorNameDetails | sqlanywhere-mcp/sqlanywhere_mcp/models.py:379-387 | An `index_name` of one `\x1f` is accepted and handed on as is; a `table_name` of one `\x1f` is refused by its validator. |
| Models.IndexTableFieldAccepted | sqlanywhere-mcp/sqlanywhere_mcp/models.py:366-376 | The index listing's table filter is accepted exactly when absent, or of 1..200 characters once trimmed and not stripping to nothing. It is handed on trimmed. |
| Models.IndexListInputAccepted | sqlanywhere-mcp/sqlanywhere_mcp/models.py:358-376 | An index listing is accepted exactly when its table filter and limit are accepted. It carries the trimmed filter and the limit, 100 by default. |
| Models.QueryFieldAccepted | sqlanywhere-mcp/sqlanywhere_mcp/models.py:416-426 | A query is accepted exactly when it passes `execute_query`'s `SELECT` check and has at most 10000 characters once trimmed. The trimmed text handed on passes that check too. |
| Models.QueryInputAccepted | sqlanywhere-mcp/sqlanywhere_mcp/models.py:408-426 | An accepted `ExecuteQueryInput` never fails `execute_query`'s prefix check, and under a ceiling of at least 10000 its limit always resolves. |
| Models.ValidateQueryInputAccepted | sqlanywhere-mcp/sqlanywhere_mcp/models.py:486-502 | An accepted `ValidateQueryInput` is never answered "must start with SELECT". |
| Models.TableNameFieldAccepted | sqlanywhere-mcp/sqlanywhere_mcp/models.py:437-450 | The table name is accepted exactly when it has 3..200 characters and a `.` once trimmed, and is handed on trimmed. |
| Models.ColumnsFieldAccepted | sqlanywhere-mcp/sqlanywhere_mcp/models.py:438-462 | The columns are accepted exactly when their trimmed text passes the builder's column rule within 1000 characters; absent columns mean `*`. |
| Models.WhereFieldAccepted | sqlanywhere-mcp/sqlanywhere_mcp/models.py:439-472 | A WHERE text is accepted exactly when absent, or within 2000 characters once trimmed and empty or free of `;`, `--`, `/*`, `*/`. It is handed on trimmed, and the builder's own WHERE check then passes. |
| Models.OrderByFieldAccepted | sqlanywhere-mcp/sqlanywhere_mcp/models.py:440-483 | An ORDER BY text is accepted exactly when absent, or within 500 characters once trimmed and empty or matching the list pattern. It is handed on trimmed, and the builder's own ORDER BY check then passes. |
| Models.AcceptedInputMeetsBuilder | sqlanywhere-mcp/sqlanywhere_mcp/models.py:429-483 | Of the builder's checks, an accepted input can fail only the table-name pattern. |
| Models.BareNameModelOnly | sqlanywhere-mcp/sqlanywhere_mcp/models.py:446-450 | A bare identifier passes the builder's table-name pattern but is refused by the model for lack of an owner. |
| Models.TwoDotsBuilderOnly | sqlanywhere-mcp/sqlanywhere_mcp/models.py:446-450 | A name with two dots is accepted by the model but refused by the builder's pattern. |

## Left out

- Text handling is ASCII only. `strip`, `upper`, `lower`, `capitalize`, `\s` and `\b` are modelled on ASCII characters; Unicode whitespace and case mappings are not modelled.
- The framework's `str_strip_whitespace` is modelled as Rust's `str::trim`, which pydantic-core uses: on ASCII it removes the space and `\t`..`\r`, but not `\x1c`..`\x1f`. Non-ASCII whitespace is not modelled for it either. pydantic-core is not part of this model.
- The driver, the clock and the environment become parameters. The database's answer is a given cursor or failure; the execution time is given as its `.3f` text; the environment is a map.
- The connection lifecycle is not modelled: `connect`, `disconnect`, `reconnect`, `is_connected`, `get_connection`, the `get_connection_manager` singleton, and closing the cursor.
- `ConnectionManager.execute_query` (db.py:192-238) and `_get_sql_type_name` are not part of this model. The query tools use only `execute_query_with_metadata`.
- `schema.py` and `server.py` are not part of this model: the catalog queries and the tool registration and dispatch.
- Db.FetchMany: the driver's `fetchmany(n)` is assumed to return exactly the next `min(n, remaining)` rows. PEP 249 (DB-API 2.0) only says the call should try to return that many. A driver that returns fewer rows before the end would make `has_more` in `Db.FetchWithMetadata` report no more rows even though some remain.
- The JSON response format and the output models of `models.py` are left out. They carry data and check nothing.
- Pydantic's own behaviour is simplified in several ways:
  - type coercion, `extra='forbid'` and `validate_assignment` are not modelled;
  - the `ResponseFormat` enum is not modelled;
  - the wording of its error messages is replaced by the `Problem` datatype;
  - a model validator runs only when every field is valid, and an explicit `None` is not told apart from an omitted field.
- Models.ColumnsFieldAccepted: the model's `None` stands for an omitted `columns`, which defaults to `*`. An explicit `columns=None` is refused by pydantic's type check, and that refusal is not modelled. Called directly, `query_builder` would fail on `None.split` (queries.py:158-159).
- Text.ParseIntToString: `int()` also accepts digit groups separated by `_`. The model's `ParseInt` refuses them.
- Queries.ExecuteQuery: a negative resolved limit is excluded by a precondition. The source would pass it on to `fetchmany`. A configured default of 0 fetches every row, as `if max_rows:` does.
- Queries.QueryBuilder: the same precondition on the resolved limit applies.
- Db.FetchWithMetadata: the limit must not be negative.
- Formatters.QueryResultsReadBack: it assumes every row has the first row's keys, which holds for rows zipped from one cursor (`Db.ZippedKeys`).
- `format_query_results_markdown` annotates `limit` with `Optional`, which `formatters.py` does not import, so the module fails on import as written. The model treats the annotation as intended. `execute_query` renders its rows inline rather than through this formatter; the model shares one definition for both, because the texts are the same.
- Some loops are shaped differently. Heads that the source appends line by line are built as one list, and the table-details sections are split into one helper method per section. The text produced is the same.
- `format_database_info_markdown` has no loop and is modelled as a function.
- `validate_query` returns a `Verdict`; its text is `Queries.Message` of that verdict.
- Floating-point values are left out. The execution time is given as text.
