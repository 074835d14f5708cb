/**
  * The input models of the tools. Every model trims the framework's whitespace (space and
  * `\t`..`\r`) from around its string fields first (`str_strip_whitespace`), then checks each
  * field's bounds (`min_length`, `max_length`, `ge`, `le`), then runs the field's validator on
  * the trimmed value, whose own `v.strip()` also removes `\x1c`..`\x1f`; a model validator
  * runs only once every field is valid. Validation reports one violation per invalid field, in
  * declaration order, and otherwise hands on the trimmed values.
  */
module Models {
  import opened Wrappers
  import opened Text
  import opened Patterns
  import opened Errors
  import opened Formatters
  import opened Db
  import Queries

  const NameMaxLength := 200
  const QueryMaxLength := 10000
  const TableNameMinLength := 3
  const ColumnsMaxLength := 1000
  const WhereMaxLength := 2000
  const OrderByMaxLength := 500
  /** `le=10000` of every limit field. */
  const LimitMax := 10000
  /** `limit` of the list inputs when it is not given. */
  const ListLimitDefault := 100

  /** Why a field is refused. */
  datatype Problem =
    | TooShort(minLength: nat)
    | TooLong(maxLength: nat)
    | TooSmall(ge: int)
    | TooLarge(le: int)
    | Rejected(message: string)

  datatype Violation =
    | FieldViolation(field: string, problem: Problem)
    | ModelViolation(message: string)

  const EmptyFilterMessage := "Cannot be empty string"
  const BothFiltersMessage := "Cannot specify both 'owner' and 'search' parameters. Use one or the other."
  const TableNameMessage := "Table name cannot be empty"
  const ViewNameMessage := "View name cannot be empty"
  const ProcedureNameMessage := "Procedure name cannot be empty"
  const SelectOnlyMessage := "Only SELECT queries are allowed"
  const OwnerPrefixMessage := "Must include owner prefix (e.g., 'monitor.Part', 'dbo.Customers')"
  const WhereMessage := "Invalid characters in WHERE clause (detected comment or statement separator)"

  /**
    * A string field whose value `v` is already trimmed: its length bounds first, then the
    * refusal of its validator, if the validator raises one.
    */
  function Measured(v: string, minLength: nat, maxLength: nat, refusal: Option<string>): (r: Result<string, Problem>)
    ensures r.Ok? <==> minLength <= |v| <= maxLength && refusal.None?
    ensures r.Ok? ==> r.value == v
  {
    if |v| < minLength then Err(TooShort(minLength))
    else if |v| > maxLength then Err(TooLong(maxLength))
    else if refusal.Some? then Err(Rejected(refusal.value))
    else Ok(v)
  }

  /** An `Optional` field that was given. */
  function Given(r: Result<string, Problem>): (o: Result<Option<string>, Problem>)
    ensures o.Ok? <==> r.Ok?
    ensures o.Ok? ==> o.value == Some(r.value)
  {
    match r
    case Ok(v) => Ok(Some(v))
    case Err(p) => Err(p)
  }

  /** An `int` field with `ge` and `le`. */
  function IntField(n: int, ge: int, le: int): (r: Result<int, Problem>)
    ensures r.Ok? <==> ge <= n <= le
    ensures r.Ok? ==> r.value == n
  {
    if n < ge then Err(TooSmall(ge)) else if n > le then Err(TooLarge(le)) else Ok(n)
  }

  /** An `Optional[int]` field: `None` passes as it is. */
  function OptIntField(n: Option<int>, ge: int, le: int): (r: Result<Option<int>, Problem>)
    ensures r.Ok? <==> n.None? || ge <= n.value <= le
    ensures r.Ok? ==> r.value == n
  {
    match n
    case None => Ok(None)
    case Some(k) => if k < ge then Err(TooSmall(ge)) else if k > le then Err(TooLarge(le)) else Ok(Some(k))
  }

  /** The violation a field contributes, if any. */
  function Report<T>(field: string, r: Result<T, Problem>): seq<Violation> {
    if r.Err? then [FieldViolation(field, r.error)] else []
  }

  function TrimOption(o: Option<string>): Option<string> {
    match o
    case None => None
    case Some(s) => Some(Trim(s))
  }

  /**
    * An optional name that is absent, or within 1..200 characters once trimmed and not blank
    * to the not-empty validator's `v.strip()`.
    */
  predicate NameFits(raw: Option<string>) {
    raw.None? || (1 <= |Trim(raw.value)| <= NameMaxLength && Strip(raw.value) != "")
  }

  /** An optional limit within 1..10000. */
  predicate LimitFits(n: Option<int>) {
    n.None? || 1 <= n.value <= LimitMax
  }

  /** The `not v.strip()` validators: they refuse a value that strips to nothing. */
  function BlankRefusal(v: string, message: string): Option<string> {
    if Strip(v) == "" then Some(message) else None
  }

  // ---------------------------------------------------------------------------
  // Whitespace
  // ---------------------------------------------------------------------------

  /**
    * What `str_strip_whitespace` removes. Pydantic trims with Rust's `str::trim`, whose
    * whitespace is Unicode's White_Space: on ASCII, space and `\t`..`\r`, but not the
    * separators `\x1c`..`\x1f` that Python's `str.strip()` also removes.
    */
  predicate IsTrimSpace(c: char) {
    c == ' ' || ('\t' <= c <= '\r')
  }

  /** The end of the run of the framework's whitespace that starts at `i`. */
  function TrimFrom(s: string, i: nat): (j: nat)
    requires i <= |s|
    ensures i <= j <= |s|
    ensures forall k :: i <= k < j ==> IsTrimSpace(s[k])
    ensures j == |s| || !IsTrimSpace(s[j])
    decreases |s| - i
  {
    if i < |s| && IsTrimSpace(s[i]) then TrimFrom(s, i + 1) else i
  }

  /** The start of the run of the framework's whitespace that ends at `j`, going no lower than `lo`. */
  function TrimBefore(s: string, j: nat, lo: nat): (i: nat)
    requires lo <= j <= |s|
    ensures lo <= i <= j
    ensures forall k :: i <= k < j ==> IsTrimSpace(s[k])
    ensures i == lo || !IsTrimSpace(s[i - 1])
  {
    if j > lo && IsTrimSpace(s[j - 1]) then TrimBefore(s, j - 1, lo) else j
  }

  /** The framework's strip of every string field, before its bounds and its validator. */
  function Trim(s: string): (r: string)
    ensures r == [] || (!IsTrimSpace(r[0]) && !IsTrimSpace(r[|r| - 1]))
  {
    var a := TrimFrom(s, 0);
    s[a..TrimBefore(s, |s|, a)]
  }

  /** Text made only of whitespace strips to nothing. */
  lemma {:induction false} StripBlank(s: string)
    requires AllSpace(s)
    ensures Strip(s) == ""
  {
    assert SpacesFrom(s, 0) == |s|;
  }

  /** `str.strip()` removes exactly the whitespace around a stripped middle. */
  lemma {:induction false} StripAround(p: string, m: string, q: string)
    requires AllSpace(p) && AllSpace(q) && IsStripped(m)
    ensures Strip(p + m + q) == m
  {
    var s := p + m + q;
    if m == [] {
      assert forall k :: 0 <= k < |s| ==> s[k] == if k < |p| then p[k] else q[k - |p|];
      StripBlank(s);
    } else {
      assert forall k :: 0 <= k < |p| ==> s[k] == p[k];
      assert s[|p|] == m[0];
      var t := LStrip(s);
      LStripDropsSpaces(s);
      assert |s| - |t| == |p|;
      assert t == m + q;
      var r := RStrip(t);
      RStripDropsSpaces(t);
      assert t[|m| - 1] == m[|m| - 1];
      assert forall k :: |m| <= k < |t| ==> t[k] == q[k - |m|];
      assert |r| == |m|;
      assert r == t[..|m|] == m;
    }
  }

  lemma {:induction false} AllSpaceConcat(a: string, b: string)
    requires AllSpace(a) && AllSpace(b)
    ensures AllSpace(a + b)
  {
    assert forall k :: 0 <= k < |a + b| ==> (a + b)[k] == if k < |a| then a[k] else b[k - |a|];
  }

  lemma {:induction false} Regroup<T>(a: seq<T>, b: seq<T>, c: seq<T>, d: seq<T>, e: seq<T>)
    ensures a + (b + c + d) + e == (a + b) + c + (d + e)
  {
  }

  /** A text is its stripped middle with only whitespace around it. */
  lemma {:induction false} StripParts(t: string)
    ensures var a := |t| - |LStrip(t)|;
      a + |Strip(t)| <= |t| && t == t[..a] + Strip(t) + t[a + |Strip(t)|..] &&
      AllSpace(t[..a]) && AllSpace(t[a + |Strip(t)|..])
  {
    var lt := LStrip(t);
    var a := |t| - |lt|;
    var m := RStrip(lt);
    LStripDropsSpaces(t);
    RStripDropsSpaces(lt);
    assert t == t[..a] + lt;
    assert lt == m + lt[|m|..];
    assert t[a + |m|..] == lt[|m|..];
  }

  /** A text is its trimmed middle with only the framework's whitespace around it. */
  lemma {:induction false} TrimParts(s: string)
    ensures var a := TrimFrom(s, 0); var b := TrimBefore(s, |s|, a);
      Trim(s) == s[a..b] && s == s[..a] + Trim(s) + s[b..] && AllSpace(s[..a]) && AllSpace(s[b..])
  {
    var a := TrimFrom(s, 0);
    var b := TrimBefore(s, |s|, a);
    SliceParts(s, a, b);
    forall k | 0 <= k < a
      ensures IsSpace(s[..a][k])
    {
      assert IsTrimSpace(s[k]);
    }
    forall k | 0 <= k < |s| - b
      ensures IsSpace(s[b..][k])
    {
      assert IsTrimSpace(s[b + k]);
    }
  }

  lemma {:induction false} SliceParts<T>(s: seq<T>, a: int, b: int)
    requires 0 <= a <= b <= |s|
    ensures s == s[..a] + s[a..b] + s[b..]
  {
  }

  /** What the framework's trim leaves, the validators' `v.strip()` strips as the raw text. */
  lemma {:induction false} StripOfTrim(s: string)
    ensures Strip(Trim(s)) == Strip(s)
  {
    var t := Trim(s);
    var d := TrimFrom(s, 0);
    var e := TrimBefore(s, |s|, d);
    var a := |t| - |LStrip(t)|;
    var m := Strip(t);
    TrimParts(s);
    StripParts(t);
    var P, Q := s[..d] + t[..a], t[a + |m|..] + s[e..];
    assert s == P + m + Q by {
      Regroup(s[..d], t[..a], m, t[a + |m|..], s[e..]);
    }
    AllSpaceConcat(s[..d], t[..a]);
    AllSpaceConcat(t[a + |m|..], s[e..]);
    StripIsStripped(t);
    StripAround(P, m, Q);
  }

  /** A trimmed text the validators still find blank starts and ends with one of `\x1c`..`\x1f`. */
  lemma {:induction false} BlankAfterTrim(s: string)
    requires Trim(s) != "" && Strip(s) == ""
    ensures '\U{1C}' <= Trim(s)[0] <= '\U{1F}'
    ensures '\U{1C}' <= Trim(s)[|Trim(s)| - 1] <= '\U{1F}'
  {
    var t := Trim(s);
    StripOfTrim(s);
    var lt := LStrip(t);
    LStripDropsSpaces(t);
    assert RStrip(lt) == "";
    assert lt == "";
    assert forall k :: 0 <= k < |t| ==> IsSpace(t[..|t|][k]);
  }

  lemma {:induction false} StripShorter(s: string)
    ensures |Strip(s)| <= |s|
  {
    assert |RStrip(LStrip(s))| <= |LStrip(s)|;
  }

  lemma {:induction false} StripTwice(s: string)
    ensures Strip(Strip(s)) == Strip(s)
  {
    StripIsStripped(s);
    StripFixed(Strip(s));
  }

  /**
    * The "not empty after stripping" validators decide a value exactly when it passes its
    * length bounds once trimmed yet `v.strip()` leaves nothing: then it is refused with their
    * message where a model without the validator would accept it.
    */
  lemma {:induction false} BlankCheckDecides(raw: string, maxLength: nat, message: string)
    ensures Measured(Trim(raw), 1, maxLength, BlankRefusal(Trim(raw), message)) !=
            Measured(Trim(raw), 1, maxLength, None)
        <==> 1 <= |Trim(raw)| <= maxLength && Strip(raw) == ""
    ensures 1 <= |Trim(raw)| <= maxLength && Strip(raw) == "" ==>
            Measured(Trim(raw), 1, maxLength, BlankRefusal(Trim(raw), message)) == Err(Rejected(message))
  {
    StripOfTrim(raw);
  }

  /** A value made only of the framework's whitespace is refused by `min_length`, before any validator. */
  lemma {:induction false} BlankRefusedByLength(raw: string, maxLength: nat, refusal: Option<string>)
    requires forall k :: 0 <= k < |raw| ==> IsTrimSpace(raw[k])
    ensures Measured(Trim(raw), 1, maxLength, refusal) == Err(TooShort(1))
  {
    assert TrimFrom(raw, 0) == |raw|;
  }

  // ---------------------------------------------------------------------------
  // ListTablesInput, ListViewsInput, ListProceduresInput
  // ---------------------------------------------------------------------------

  /** `owner` and `search`: optional, 1..200 characters, and not blank. */
  function FilterField(raw: Option<string>): Result<Option<string>, Problem> {
    match raw
    case None => Ok(None)
    case Some(s) => Given(Measured(Trim(s), 1, NameMaxLength, BlankRefusal(Trim(s), EmptyFilterMessage)))
  }

  /** `limit` of the list inputs: 1..10000, 100 when not given. */
  function ListLimitField(limit: Option<int>): Result<int, Problem> {
    if limit.None? then Ok(ListLimitDefault) else IntField(limit.value, 1, LimitMax)
  }

  datatype ListInput = ListInput(owner: Option<string>, search: Option<string>, limit: int)

  /**
    * The three list inputs, which share their fields and validators: `owner` and `search`,
    * `limit`, and the model validator refusing both filters at once.
    */
  function ListInputOf(owner: Option<string>, search: Option<string>, limit: Option<int>)
    : Result<ListInput, seq<Violation>>
  {
    var o := FilterField(owner);
    var s := FilterField(search);
    var l := ListLimitField(limit);
    var errors := Report("owner", o) + Report("search", s) + Report("limit", l);
    if errors != [] then Err(errors)
    else if o.value.Some? && s.value.Some? then Err([ModelViolation(BothFiltersMessage)])
    else Ok(ListInput(o.value, s.value, l.value))
  }

  /** A filter is accepted exactly when it fits, and is then handed on trimmed. */
  lemma {:induction false} FilterFieldAccepted(raw: Option<string>)
    ensures FilterField(raw).Ok? <==> NameFits(raw)
    ensures FilterField(raw).Ok? ==> FilterField(raw).value == TrimOption(raw)
  {
    if raw.Some? {
      StripOfTrim(raw.value);
    }
  }

  /**
    * A list input is accepted exactly when each filter fits (1..200 characters once trimmed,
    * and not blank), the limit lies in 1..10000, and at most one filter is given; it then
    * carries the trimmed filters and the limit (100 when none was given).
    */
  lemma {:induction false} ListInputAccepted(owner: Option<string>, search: Option<string>, limit: Option<int>)
    ensures ListInputOf(owner, search, limit).Ok? <==>
      NameFits(owner) && NameFits(search) && LimitFits(limit) && !(owner.Some? && search.Some?)
    ensures ListInputOf(owner, search, limit).Ok? ==>
      ListInputOf(owner, search, limit).value ==
        ListInput(TrimOption(owner), TrimOption(search), if limit.None? then ListLimitDefault else limit.value)
  {
    FilterFieldAccepted(owner);
    FilterFieldAccepted(search);
  }

  /**
    * Why a whitespace-only name is refused: too short when the trim leaves nothing, too long
    * when it leaves more than 200 characters, and otherwise by the not-empty validator.
    */
  function BlankNameProblem(raw: string, message: string): Problem {
    if Trim(raw) == "" then TooShort(1)
    else if |Trim(raw)| > NameMaxLength then TooLong(NameMaxLength)
    else Rejected(message)
  }

  lemma {:induction false} BlankFilterRefused(raw: string)
    requires AllSpace(raw)
    ensures FilterField(Some(raw)) == Err(BlankNameProblem(raw, EmptyFilterMessage))
  {
    StripBlank(raw);
    StripOfTrim(raw);
  }

  /**
    * A whitespace-only `owner` is refused, first of all violations: by `min_length` when the
    * framework's trim empties it, by the not-empty validator when `\x1c`..`\x1f` survive it.
    */
  lemma {:induction false} BlankOwnerRefused(owner: string, search: Option<string>, limit: Option<int>)
    requires AllSpace(owner)
    ensures ListInputOf(Some(owner), search, limit).Err?
    ensures ListInputOf(Some(owner), search, limit).error[0] ==
      FieldViolation("owner", BlankNameProblem(owner, EmptyFilterMessage))
  {
    BlankFilterRefused(owner);
  }

  /** A whitespace-only `search` is refused, for the same reason as such an `owner`. */
  lemma {:induction false} BlankSearchRefused(owner: Option<string>, search: string, limit: Option<int>)
    requires AllSpace(search)
    ensures ListInputOf(owner, Some(search), limit).Err?
    ensures FieldViolation("search", BlankNameProblem(search, EmptyFilterMessage)) in
      ListInputOf(owner, Some(search), limit).error
  {
    BlankFilterRefused(search);
  }

  /** A lone unit separator survives the framework's trim, so the validator refuses the owner. */
  lemma {:induction false} SeparatorOwnerRefused()
    ensures ListInputOf(Some("\U{1F}"), None, None) ==
      Err([FieldViolation("owner", Rejected(EmptyFilterMessage))])
  {
    var sep := "\U{1F}";
    TrimSeparator();
    assert AllSpace(sep);
    BlankFilterRefused(sep);
    var o, f, l := FilterField(Some(sep)), FilterField(None), ListLimitField(None);
    assert o == Err(Rejected(EmptyFilterMessage));
    assert f == Ok(None) && l == Ok(ListLimitDefault);
    assert Report("owner", o) + Report("search", f) + Report("limit", l) ==
      [FieldViolation("owner", Rejected(EmptyFilterMessage))];
  }

  /** The framework's trim keeps a lone unit separator. */
  lemma {:induction false} TrimSeparator()
    ensures Trim("\U{1F}") == "\U{1F}"
  {
    assert TrimFrom("\U{1F}", 0) == 0;
    assert TrimBefore("\U{1F}", 1, 0) == 1;
  }

  /** Two valid filters together are refused by the model validator alone. */
  lemma {:induction false} BothFiltersRefused(owner: string, search: string, limit: Option<int>)
    requires NameFits(Some(owner)) && NameFits(Some(search)) && LimitFits(limit)
    ensures ListInputOf(Some(owner), Some(search), limit) == Err([ModelViolation(BothFiltersMessage)])
  {
    FilterFieldAccepted(Some(owner));
    FilterFieldAccepted(Some(search));
  }

  // ---------------------------------------------------------------------------
  // Get{Table,View,Procedure,Index}DetailsInput and ListIndexesInput
  // ---------------------------------------------------------------------------

  /**
    * A details input: one required name of 1..200 characters with the model's not-empty
    * validator, whose message is given (`None` for `GetIndexDetailsInput`, which has none).
    */
  function DetailsInputOf(field: string, raw: string, blankMessage: Option<string>): Result<string, seq<Violation>> {
    var v := Trim(raw);
    var n := Measured(v, 1, NameMaxLength, if blankMessage.None? then None else BlankRefusal(v, blankMessage.value));
    if n.Err? then Err(Report(field, n)) else Ok(n.value)
  }

  /**
    * A details input accepts a name of 1..200 characters once trimmed that, where the model has
    * a not-empty validator, `v.strip()` does not empty; it hands on the trimmed name. The
    * validator changes the outcome exactly for the names it decides.
    */
  lemma {:induction false} DetailsInputAccepted(field: string, raw: string, blankMessage: Option<string>)
    ensures DetailsInputOf(field, raw, blankMessage).Ok? <==>
      1 <= |Trim(raw)| <= NameMaxLength && (blankMessage.None? || Strip(raw) != "")
    ensures DetailsInputOf(field, raw, blankMessage).Ok? ==> DetailsInputOf(field, raw, blankMessage).value == Trim(raw)
    ensures DetailsInputOf(field, raw, blankMessage) != DetailsInputOf(field, raw, None) <==>
      blankMessage.Some? && 1 <= |Trim(raw)| <= NameMaxLength && Strip(raw) == ""
  {
    if blankMessage.Some? {
      BlankCheckDecides(raw, NameMaxLength, blankMessage.value);
    }
  }

  /**
    * A lone unit separator is a valid index name, which has no not-empty validator, but not a
    * valid table name.
    */
  lemma {:induction false} SeparatorNameDetails()
    ensures DetailsInputOf("index_name", "\U{1F}", None) == Ok("\U{1F}")
    ensures DetailsInputOf("table_name", "\U{1F}", Some(TableNameMessage)) ==
      Err([FieldViolation("table_name", Rejected(TableNameMessage))])
  {
    TrimSeparator();
    StripBlank("\U{1F}");
    StripOfTrim("\U{1F}");
    assert BlankRefusal("\U{1F}", TableNameMessage) == Some(TableNameMessage);
  }

  /** `table_name` of `ListIndexesInput`: optional, 1..200 characters, and not blank. */
  function IndexTableField(raw: Option<string>): Result<Option<string>, Problem> {
    match raw
    case None => Ok(None)
    case Some(s) => Given(Measured(Trim(s), 1, NameMaxLength, BlankRefusal(Trim(s), TableNameMessage)))
  }

  datatype IndexListInput = IndexListInput(tableName: Option<string>, limit: int)

  /** `ListIndexesInput`: an optional table name and a limit 1..10000 defaulting to 100. */
  function IndexListInputOf(tableName: Option<string>, limit: Option<int>): Result<IndexListInput, seq<Violation>> {
    var t := IndexTableField(tableName);
    var l := ListLimitField(limit);
    var errors := Report("table_name", t) + Report("limit", l);
    if errors != [] then Err(errors) else Ok(IndexListInput(t.value, l.value))
  }

  lemma {:induction false} IndexTableFieldAccepted(raw: Option<string>)
    ensures IndexTableField(raw).Ok? <==> NameFits(raw)
    ensures IndexTableField(raw).Ok? ==> IndexTableField(raw).value == TrimOption(raw)
  {
    if raw.Some? {
      StripOfTrim(raw.value);
    }
  }

  /** An index listing is accepted exactly when its table filter and limit fit. */
  lemma {:induction false} IndexListInputAccepted(tableName: Option<string>, limit: Option<int>)
    ensures IndexListInputOf(tableName, limit).Ok? <==> NameFits(tableName) && LimitFits(limit)
    ensures IndexListInputOf(tableName, limit).Ok? ==>
      IndexListInputOf(tableName, limit).value ==
        IndexListInput(TrimOption(tableName), if limit.None? then ListLimitDefault else limit.value)
  {
    IndexTableFieldAccepted(tableName);
  }

  // ---------------------------------------------------------------------------
  // ExecuteQueryInput and ValidateQueryInput
  // ---------------------------------------------------------------------------

  /** `validate_is_select` */
  function SelectRefusal(v: string): Option<string> {
    if !StartsWith(Upper(Strip(v)), "SELECT") then Some(SelectOnlyMessage) else None
  }

  /** The `query` field both query inputs share: 1..10000 characters, starting with `SELECT`. */
  function QueryField(raw: string): Result<string, Problem> {
    Measured(Trim(raw), 1, QueryMaxLength, SelectRefusal(Trim(raw)))
  }

  /**
    * A query is accepted exactly when it passes the same `SELECT` prefix check as
    * `execute_query` and is at most 10000 characters once trimmed (the prefix already makes
    * it non-empty); the trimmed text it hands on passes that prefix check too.
    */
  lemma {:induction false} QueryFieldAccepted(raw: string)
    ensures QueryField(raw).Ok? <==> |Trim(raw)| <= QueryMaxLength && Queries.IsSelect(raw)
    ensures QueryField(raw).Ok? ==> QueryField(raw).value == Trim(raw) && Queries.IsSelect(Trim(raw))
  {
    StripOfTrim(raw);
    StripShorter(Trim(raw));
    assert |Upper(Strip(raw))| == |Strip(raw)|;
  }

  datatype QueryInput = QueryInput(query: string, limit: Option<int>)

  /** `ExecuteQueryInput`: the query and an optional limit of 1..10000. */
  function QueryInputOf(query: string, limit: Option<int>): Result<QueryInput, seq<Violation>> {
    var q := QueryField(query);
    var l := OptIntField(limit, 1, LimitMax);
    var errors := Report("query", q) + Report("limit", l);
    if errors != [] then Err(errors) else Ok(QueryInput(q.value, l.value))
  }

  /** `ValidateQueryInput`: the query alone. */
  function ValidateQueryInputOf(query: string): Result<string, seq<Violation>> {
    var q := QueryField(query);
    if q.Err? then Err(Report("query", q)) else Ok(q.value)
  }

  /**
    * An accepted `ExecuteQueryInput` never fails `execute_query`'s prefix check, and its limit
    * is never refused by a ceiling of at least 10000 (the default one).
    */
  lemma {:induction false} QueryInputAccepted(query: string, limit: Option<int>, config: Config)
    ensures QueryInputOf(query, limit).Ok? <==>
      |Trim(query)| <= QueryMaxLength && Queries.IsSelect(query) && LimitFits(limit)
    ensures QueryInputOf(query, limit).Ok? ==>
      Queries.IsSelect(QueryInputOf(query, limit).value.query) && QueryInputOf(query, limit).value.limit == limit
    ensures QueryInputOf(query, limit).Ok? && config.maxRowsLimit >= LimitMax ==>
      Queries.ResolveLimit(QueryInputOf(query, limit).value.limit, config).Ok?
  {
    QueryFieldAccepted(query);
  }

  lemma {:induction false} SelectIsNotNoSelect(query: string)
    requires Queries.IsSelect(query)
    ensures Queries.ValidateQuery(query) != Queries.NoSelect
  {
  }

  /** An accepted `ValidateQueryInput` is never answered "must start with SELECT". */
  lemma {:induction false} ValidateQueryInputAccepted(query: string)
    ensures ValidateQueryInputOf(query).Ok? <==> |Trim(query)| <= QueryMaxLength && Queries.IsSelect(query)
    ensures ValidateQueryInputOf(query).Ok? ==>
      Queries.ValidateQuery(ValidateQueryInputOf(query).value) != Queries.NoSelect
  {
    QueryFieldAccepted(query);
    if ValidateQueryInputOf(query).Ok? {
      SelectIsNotNoSelect(Trim(query));
    }
  }

  // ---------------------------------------------------------------------------
  // QueryBuilderInput
  // ---------------------------------------------------------------------------

  /** `table_name`: 3..200 characters holding a `.`. */
  function TableNameField(raw: string): Result<string, Problem> {
    var v := Trim(raw);
    Measured(v, TableNameMinLength, NameMaxLength, if '.' !in v then Some(OwnerPrefixMessage) else None)
  }

  /** `columns`: at most 1000 characters, `"*"` or identifiers; `"*"` when not given. */
  function ColumnsField(raw: Option<string>): Result<string, Problem> {
    match raw
    case None => Ok("*")
    case Some(s) =>
      var v := Trim(s);
      var tokens := ColumnTokens(v);
      Measured(v, 0, ColumnsMaxLength,
        if ColumnsAccepted(v) then None else Some("Invalid column name: '" + tokens[FirstBadToken(tokens)] + "'"))
  }

  /** `where`: at most 2000 characters; a non-empty clause holds no `;`, `--`, `/*` or `*/`. */
  function WhereField(raw: Option<string>): Result<Option<string>, Problem> {
    match raw
    case None => Ok(None)
    case Some(s) =>
      var v := Trim(s);
      Given(Measured(v, 0, WhereMaxLength, if v != "" && HasForbiddenWhereToken(v) then Some(WhereMessage) else None))
  }

  /** `order_by`: at most 500 characters; a non-empty clause matches the ORDER BY list pattern. */
  function OrderByField(raw: Option<string>): Result<Option<string>, Problem> {
    match raw
    case None => Ok(None)
    case Some(s) =>
      var v := Trim(s);
      Given(Measured(v, 0, OrderByMaxLength,
        if v != "" && !OrderByMatches(v) then Some("Invalid ORDER BY clause: '" + v + "'") else None))
  }

  datatype BuilderInput = BuilderInput(
    tableName: string,
    columns: string,
    where: Option<string>,
    orderBy: Option<string>,
    limit: Option<int>)

  /** `QueryBuilderInput` */
  function BuilderInputOf(tableName: string, columns: Option<string>, where: Option<string>,
                          orderBy: Option<string>, limit: Option<int>): Result<BuilderInput, seq<Violation>>
  {
    var t := TableNameField(tableName);
    var c := ColumnsField(columns);
    var w := WhereField(where);
    var o := OrderByField(orderBy);
    var l := OptIntField(limit, 1, LimitMax);
    var errors := Report("table_name", t) + Report("columns", c) + Report("where", w)
      + Report("order_by", o) + Report("limit", l);
    if errors != [] then Err(errors) else Ok(BuilderInput(t.value, c.value, w.value, o.value, l.value))
  }

  /** The table name is accepted exactly when it has 3..200 characters and a `.` once trimmed. */
  lemma {:induction false} TableNameFieldAccepted(raw: string)
    ensures TableNameField(raw).Ok? <==>
      TableNameMinLength <= |Trim(raw)| <= NameMaxLength && '.' in Trim(raw)
    ensures TableNameField(raw).Ok? ==> TableNameField(raw).value == Trim(raw)
    ensures TableNameField(raw).Err? && TableNameMinLength <= |Trim(raw)| <= NameMaxLength ==>
      TableNameField(raw).error == Rejected(OwnerPrefixMessage)
  {
  }

  /** The columns are accepted exactly when they pass the builder's column rule within 1000 characters. */
  lemma {:induction false} ColumnsFieldAccepted(raw: Option<string>)
    ensures ColumnsField(raw).Ok? <==>
      raw.None? || (|Trim(raw.value)| <= ColumnsMaxLength && ColumnsAccepted(Trim(raw.value)))
    ensures ColumnsField(raw).Ok? ==> ColumnsAccepted(ColumnsField(raw).value)
  {
  }

  /**
    * A WHERE clause is accepted exactly when it is absent, or at most 2000 characters once
    * trimmed and either empty or free of `;`, `--`, `/*` and `*/`; so the builder's own WHERE
    * check never refuses one.
    */
  lemma {:induction false} WhereFieldAccepted(raw: Option<string>)
    ensures WhereField(raw).Ok? <==>
      raw.None? || (|Trim(raw.value)| <= WhereMaxLength &&
                    (Trim(raw.value) == "" || !HasForbiddenWhereToken(Trim(raw.value))))
    ensures WhereField(raw).Ok? ==>
      WhereField(raw).value == TrimOption(raw) &&
      !(Truthy(WhereField(raw).value) && HasForbiddenWhereToken(WhereField(raw).value.value))
  {
  }

  /**
    * An ORDER BY clause is accepted exactly when it is absent, or at most 500 characters once
    * trimmed and either empty or a match of the ORDER BY list pattern; so the builder's own
    * ORDER BY check never refuses one.
    */
  lemma {:induction false} OrderByFieldAccepted(raw: Option<string>)
    ensures OrderByField(raw).Ok? <==>
      raw.None? || (|Trim(raw.value)| <= OrderByMaxLength &&
                    (Trim(raw.value) == "" || OrderByMatches(Trim(raw.value))))
    ensures OrderByField(raw).Ok? ==>
      OrderByField(raw).value == TrimOption(raw) &&
      !(Truthy(OrderByField(raw).value) && !OrderByMatches(OrderByField(raw).value.value))
  {
  }

  /** When the columns, limit and clauses pass, the builder can only refuse the table name. */
  lemma {:induction false} BuilderChecksAfterTable(tableName: string, columns: string, where: Option<string>,
                                                   orderBy: Option<string>, limit: Option<int>)
    requires ColumnsAccepted(columns)
    requires LimitFits(limit)
    requires !(Truthy(where) && HasForbiddenWhereToken(where.value))
    requires !(Truthy(orderBy) && !OrderByMatches(orderBy.value))
    ensures Queries.BuilderError(tableName, columns, where, orderBy, limit) ==
      if TableNameMatches(tableName) then None
      else Some(InvalidParameterError("table_name", Queries.TableNameReason(tableName)))
  {
  }

  /**
    * Of the builder's checks, an accepted input can fail only the table-name pattern: its
    * columns, limit, WHERE and ORDER BY pass all of the builder's own checks, which are the
    * same tests.
    */
  lemma {:induction false} AcceptedInputMeetsBuilder(tableName: string, columns: Option<string>, where: Option<string>,
                                                     orderBy: Option<string>, limit: Option<int>)
    requires BuilderInputOf(tableName, columns, where, orderBy, limit).Ok?
    ensures var b := BuilderInputOf(tableName, columns, where, orderBy, limit).value;
      Queries.BuilderError(b.tableName, b.columns, b.where, b.orderBy, b.limit) ==
        if TableNameMatches(b.tableName) then None
        else Some(InvalidParameterError("table_name", Queries.TableNameReason(b.tableName)))
  {
    var b := BuilderInputOf(tableName, columns, where, orderBy, limit).value;
    ColumnsFieldAccepted(columns);
    WhereFieldAccepted(where);
    OrderByFieldAccepted(orderBy);
    BuilderChecksAfterTable(b.tableName, b.columns, b.where, b.orderBy, b.limit);
  }

  /**
    * A bare identifier such as `Part` passes the builder's table-name pattern, but the model
    * refuses it for lack of an owner.
    */
  lemma {:induction false} BareNameModelOnly(raw: string)
    requires IsIdentifier(Trim(raw)) && TableNameMinLength <= |Trim(raw)| <= NameMaxLength
    ensures TableNameMatches(Trim(raw))
    ensures TableNameField(raw) == Err(Rejected(OwnerPrefixMessage))
  {
    var v := Trim(raw);
    assert '.' !in v by {
      forall i | 0 <= i < |v|
        ensures v[i] != '.'
      {
        assert i == 0 || IsWordChar(v[i]);
      }
    }
  }

  /** A `.` anywhere keeps a string from being an identifier. */
  lemma {:induction false} DotNotIdentifier(s: string, p: int)
    requires 0 <= p < |s| && s[p] == '.'
    ensures !IsIdentifier(s)
  {
    assert !IsIdentStart(s[p]) && !IsWordChar(s[p]);
  }

  /** Two dots keep a string from matching the builder's table-name pattern. */
  lemma {:induction false} TwoDotsNotTableShape(s: string, i: int, j: int)
    requires 0 <= i < j < |s| && s[i] == '.' && s[j] == '.'
    ensures !IsTableNameShape(s)
  {
    DotNotIdentifier(s, i);
    forall k | 0 < k < |s| && s[k] == '.'
      ensures !(IsIdentifier(s[..k]) && IsIdentifier(s[k + 1..]))
    {
      if i < k {
        DotNotIdentifier(s[..k], i);
      } else {
        assert s[k + 1..][j - k - 1] == s[j];
        DotNotIdentifier(s[k + 1..], j - k - 1);
      }
    }
  }

  /**
    * A name with two dots, such as `a.b.c`, has the model's `.`, but the builder's pattern
    * allows only one: the model lets it through and the builder refuses it.
    */
  lemma {:induction false} TwoDotsBuilderOnly(raw: string, i: int, j: int)
    requires TableNameMinLength <= |Trim(raw)| <= NameMaxLength
    requires 0 <= i < j < |Trim(raw)| && Trim(raw)[i] == '.' && Trim(raw)[j] == '.'
    ensures TableNameField(raw) == Ok(Trim(raw))
    ensures !TableNameMatches(Trim(raw))
  {
    var v := Trim(raw);
    assert v[i] in v;
    TwoDotsNotTableShape(v, i, j);
    assert !EndsWithNewline(v);
  }
}
