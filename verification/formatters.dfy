/**
  * The markdown formatters of `formatters.py`. Each formatter appends lines to an `output`
  * list and joins them with "\n"; here each is a method with that loop, proved to return the
  * lines of a specification function, and lemmas say how those lines read back (one row per
  * entry, the cells in order, the conditional lines exactly when their condition holds).
  */
module Formatters {
  import opened Wrappers
  import opened Text
  import opened Rows
  import opened Markdown
  import opened Grouping

  // ---------------------------------------------------------------------------
  // format_markdown_table, format_markdown_section
  // ---------------------------------------------------------------------------

  const NoData := "*No data*"

  /** `str(v) if v is not None else "NULL"` */
  function CellText(c: Cell): string {
    match c
    case Null => "NULL"
    case Val(text) => text
  }

  function CellTexts(row: seq<Cell>): (texts: seq<string>)
    ensures |texts| == |row|
    ensures forall k :: 0 <= k < |row| ==> texts[k] == CellText(row[k])
  {
    if row == [] then [] else [CellText(row[0])] + CellTexts(row[1..])
  }

  /** `CellTexts` of every row. */
  function RowTexts(rows: seq<seq<Cell>>): (texts: seq<seq<string>>)
    ensures |texts| == |rows|
    ensures forall i :: 0 <= i < |rows| ==> texts[i] == CellTexts(rows[i])
  {
    if rows == [] then [] else [CellTexts(rows[0])] + RowTexts(rows[1..])
  }

  /** The cells of the header line, of the rule of `len(headers)` cells, then of each row. */
  function TableCells(headers: seq<string>, rows: seq<seq<Cell>>): seq<seq<string>> {
    [headers, Repeat("---", |headers|)] + RowTexts(rows)
  }

  function MarkdownTableLines(headers: seq<string>, rows: seq<seq<Cell>>): seq<string> {
    RowLines(TableCells(headers, rows))
  }

  /** `format_markdown_table`: `*No data*` for no rows, the table otherwise. */
  method FormatMarkdownTable(headers: seq<string>, rows: seq<seq<Cell>>) returns (text: string)
    ensures rows == [] ==> text == NoData
    ensures rows != [] ==> text == Lines(MarkdownTableLines(headers, rows))
  {
    if rows == [] {
      return NoData;
    }
    var output := [TableLine(headers), RuleLine(|headers|)];
    for i := 0 to |rows|
      invariant output == MarkdownTableLines(headers, rows[..i])
    {
      var values := CellTexts(rows[i]);
      output := output + [TableLine(values)];
    }
    assert rows[..|rows|] == rows;
    text := Lines(output);
  }

  /** A value that reads back from a table cell: `None`, or text that is a plain cell. */
  predicate PlainValue(c: Cell) {
    c.Val? ==> PlainCell(c.text)
  }

  /** `None` shows as `NULL`, any other value as its text. */
  lemma {:induction false} CellTextMeaning(c: Cell)
    ensures c.Null? ==> CellText(c) == "NULL"
    ensures c.Val? ==> CellText(c) == c.text
    ensures PlainValue(c) ==> PlainCell(CellText(c))
  {
    if c.Null? {
      assert "NULL"[0] == 'N' && "NULL"[3] == 'L';
    }
  }

  /**
    * A table of plain headers and values reads back as the headers, a rule of exactly
    * `len(headers)` `---` cells, then per row its values with `None` shown as `NULL`.
    */
  lemma {:induction false} MarkdownTableReadsBack(headers: seq<string>, rows: seq<seq<Cell>>)
    requires headers != [] && AllPlain(headers)
    requires forall i :: 0 <= i < |rows| ==> rows[i] != []
    requires forall i, k :: 0 <= i < |rows| && 0 <= k < |rows[i]| ==> PlainValue(rows[i][k])
    ensures ReadsBackAsTable(Lines(MarkdownTableLines(headers, rows)), 0, TableCells(headers, rows))
  {
    var rule := Repeat("---", |headers|);
    var all := TableCells(headers, rows);
    assert forall k :: 0 <= k < |rule| ==> rule[k] == "---";
    forall i | 2 <= i < |all|
      ensures all[i] != [] && AllPlain(all[i])
    {
      assert all[i] == CellTexts(rows[i - 2]);
      CellTextsPlain(rows[i - 2]);
    }
    RowsReadBack(all);
  }

  lemma {:induction false} CellTextsPlain(row: seq<Cell>)
    requires forall k :: 0 <= k < |row| ==> PlainValue(row[k])
    ensures AllPlain(CellTexts(row))
  {
    forall k | 0 <= k < |row|
      ensures PlainCell(CellTexts(row)[k])
    {
      CellTextMeaning(row[k]);
    }
  }

  /** `format_markdown_section`: `level` hashes (none when `level <= 0`), the title, a blank line, the content. */
  function FormatMarkdownSection(title: string, content: string, level: int): string {
    RepeatChar('#', level) + " " + title + "\n\n" + content
  }

  /** The number of leading `c` characters of `s`. */
  function LeadingCount(s: string, c: char): nat {
    if s != [] && s[0] == c then 1 + LeadingCount(s[1..], c) else 0
  }

  /**
    * A section's first line is its heading: exactly `max(level, 0)` hashes, then the title;
    * the content follows after the blank line untouched.
    */
  lemma {:induction false} SectionHeading(title: string, content: string, level: int)
    requires '\n' !in title
    ensures LeadingCount(FormatMarkdownSection(title, content, level), '#') == (if level < 0 then 0 else level)
    ensures Split(FormatMarkdownSection(title, content, level), '\n')[0] == RepeatChar('#', level) + " " + title
    ensures var text := FormatMarkdownSection(title, content, level);
      text[|text| - |content|..] == content
  {
    SectionHashes(title, content, level);
    SectionFirstLine(title, content, level);
  }

  lemma {:induction false} SectionHashes(title: string, content: string, level: int)
    ensures LeadingCount(FormatMarkdownSection(title, content, level), '#') == (if level < 0 then 0 else level)
  {
    var hashes := RepeatChar('#', level);
    assert FormatMarkdownSection(title, content, level) == hashes + (" " + title + "\n\n" + content);
    LeadingHashes(hashes, " " + title + "\n\n" + content);
  }

  lemma {:induction false} SectionFirstLine(title: string, content: string, level: int)
    requires '\n' !in title
    ensures Split(FormatMarkdownSection(title, content, level), '\n')[0] == RepeatChar('#', level) + " " + title
  {
    var hashes := RepeatChar('#', level);
    var heading := hashes + " " + title;
    assert '\n' !in heading by {
      assert forall k :: 0 <= k < |hashes| ==> heading[k] == '#';
    }
    assert FormatMarkdownSection(title, content, level) == heading + "\n" + ("\n" + content);
    FirstLine(heading, "\n" + content);
  }

  lemma {:induction false} LeadingHashes(hashes: string, rest: string)
    requires forall k :: 0 <= k < |hashes| ==> hashes[k] == '#'
    requires rest != [] && rest[0] != '#'
    ensures LeadingCount(hashes + rest, '#') == |hashes|
  {
    if hashes != [] {
      assert (hashes + rest)[1..] == hashes[1..] + rest;
      LeadingHashes(hashes[1..], rest);
    } else {
      assert hashes + rest == rest;
    }
  }

  // ---------------------------------------------------------------------------
  // Counts: `f"{n:,}" if n else "N/A"`
  // ---------------------------------------------------------------------------

  /** Python truthiness of an optional integer: present and non-zero. */
  predicate IsGiven(n: Option<int>) {
    n.Some? && n.value != 0
  }

  function CountText(n: Option<int>): string {
    if IsGiven(n) then Thousands(n.value) else "N/A"
  }

  /** A missing or zero count shows as `N/A`, any other count as its digits with group commas. */
  lemma {:induction false} CountTextNotAvailable(n: Option<int>)
    ensures CountText(n) == "N/A" <==> !IsGiven(n)
    ensures IsGiven(n) ==> ParseInt(Without(CountText(n), ',')) == Some(n.value)
  {
    if IsGiven(n) {
      ThousandsChars(n.value);
      assert CountText(n)[0] != "N/A"[0];
      ThousandsDigits(n.value);
      ParseIntToString(n.value);
    }
  }

  lemma {:induction false} CountTextPlain(n: Option<int>)
    ensures PlainCell(CountText(n))
  {
    if IsGiven(n) {
      ThousandsChars(n.value);
    } else {
      assert CountText(n) == "N/A";
      assert "N/A"[0] == 'N' && "N/A"[2] == 'A';
    }
  }

  // ---------------------------------------------------------------------------
  // List formatters
  // ---------------------------------------------------------------------------

  /** The four lines above a list's rows: title, blank, column names, rule. */
  function ListHead(title: string, header: string, rule: string): seq<string> {
    [title, "", header, rule]
  }

  /** `f"{title} ({total_count} found)"` */
  function FoundTitle(title: string, totalCount: int): string {
    title + " (" + IntToString(totalCount) + " found)"
  }

  /** A title with a number in it is one line. */
  lemma {:induction false} FoundTitleIsOneLine(title: string, totalCount: int)
    requires '\n' !in title
    ensures '\n' !in FoundTitle(title, totalCount)
  {
    var digits := if totalCount < 0 then NatToString(-totalCount) else NatToString(totalCount);
    assert forall k :: 0 <= k < |digits| ==> IsDigit(digits[k]);
    assert '\n' !in IntToString(totalCount);
  }

  /** Under a one-line title and header, a list's text reads back as its rows, after four lines. */
  lemma {:induction false} ListReadsBack(title: string, totalCount: int, header: string, rule: string, rows: seq<seq<string>>)
    requires '\n' !in title && '\n' !in header && '\n' !in rule
    requires forall i :: 0 <= i < |rows| ==> rows[i] != [] && AllPlain(rows[i])
    ensures ReadsBackAsTable(Lines(ListHead(FoundTitle(title, totalCount), header, rule) + RowLines(rows)), 4, rows)
  {
    FoundTitleIsOneLine(title, totalCount);
    var head := ListHead(FoundTitle(title, totalCount), header, rule);
    ListHeadIsOneLinePerItem(FoundTitle(title, totalCount), header, rule);
    DocumentReadsBack(head, rows);
  }

  lemma {:induction false} ListHeadIsOneLinePerItem(title: string, header: string, rule: string)
    requires '\n' !in title && '\n' !in header && '\n' !in rule
    ensures forall k :: 0 <= k < |ListHead(title, header, rule)| ==> '\n' !in ListHead(title, header, rule)[k]
  {
    var head := ListHead(title, header, rule);
    forall k | 0 <= k < |head|
      ensures '\n' !in head[k]
    {
      if k == 1 {
        assert |head[k]| == 0;
      }
    }
  }

  const TablesHeader := "| Table Name | Owner | Type | Row Count |"
  const TablesRule := "|------------|-------|------|-----------|"
  const ViewsHeader := "| View Name | Owner |"
  const ViewsRule := "|-----------|-------|"
  const ProceduresHeader := "| Name | Owner |"
  const ProceduresRule := "|------|-------|"
  const IndexesHeader := "| Index Name | Table | Owner | Unique |"
  const IndexesRule := "|------------|-------|-------|--------|"

  lemma {:induction false} TablesLiteralsAreOneLine()
    ensures '\n' !in TablesHeader && '\n' !in TablesRule
  {
  }

  lemma {:induction false} ViewsLiteralsAreOneLine()
    ensures '\n' !in ViewsHeader && '\n' !in ViewsRule
  {
  }

  lemma {:induction false} ProceduresLiteralsAreOneLine()
    ensures '\n' !in ProceduresHeader && '\n' !in ProceduresRule
  {
  }

  lemma {:induction false} IndexesLiteralsAreOneLine()
    ensures '\n' !in IndexesHeader && '\n' !in IndexesRule
  {
  }

  /** A row of `format_table_list_markdown`: `(table_name, owner, table_type, row_count)`. */
  datatype TableEntry = TableEntry(name: string, owner: string, tableType: string, rowCount: Option<int>)

  /** The cells of each table's row: name, owner, type, and the count or `N/A`. */
  function TableRows(tables: seq<TableEntry>): (rows: seq<seq<string>>)
    ensures |rows| == |tables|
    ensures forall i :: 0 <= i < |tables| ==>
      rows[i] == [tables[i].name, tables[i].owner, tables[i].tableType, CountText(tables[i].rowCount)]
  {
    if tables == [] then []
    else
      var t := tables[|tables| - 1];
      TableRows(tables[..|tables| - 1]) + [[t.name, t.owner, t.tableType, CountText(t.rowCount)]]
  }

  function TableListLines(tables: seq<TableEntry>, totalCount: int): seq<string> {
    ListHead(FoundTitle("## Tables", totalCount),
      TablesHeader, TablesRule)
    + RowLines(TableRows(tables))
  }

  /** `format_table_list_markdown` */
  method FormatTableList(tables: seq<TableEntry>, totalCount: int) returns (text: string)
    ensures text == Lines(TableListLines(tables, totalCount))
  {
    var output := [FoundTitle("## Tables", totalCount), "", TablesHeader, TablesRule];
    var rows := TableRowLines(tables);
    output := output + rows;
    text := Lines(output);
  }

  /** The row loop of `format_table_list_markdown`. */
  method TableRowLines(tables: seq<TableEntry>) returns (lines: seq<string>)
    ensures lines == RowLines(TableRows(tables))
  {
    lines := [];
    for i := 0 to |tables|
      invariant |lines| == i
      invariant forall k :: 0 <= k < i ==> lines[k] == TableLine(TableRows(tables)[k])
    {
      var t := tables[i];
      var rowCountText := if IsGiven(t.rowCount) then Thousands(t.rowCount.value) else "N/A";
      var cells := [t.name, t.owner, t.tableType, rowCountText];
      assert cells == TableRows(tables)[i];
      lines := lines + [TableLine(cells)];
    }
  }

  predicate PlainTables(tables: seq<TableEntry>) {
    forall i :: 0 <= i < |tables| ==>
      PlainCell(tables[i].name) && PlainCell(tables[i].owner) && PlainCell(tables[i].tableType)
  }

  lemma {:induction false} PlainTableRow(t: TableEntry)
    requires PlainCell(t.name) && PlainCell(t.owner) && PlainCell(t.tableType)
    ensures AllPlain([t.name, t.owner, t.tableType, CountText(t.rowCount)])
  {
    CountTextPlain(t.rowCount);
  }

  lemma {:induction false} PlainTableRows(tables: seq<TableEntry>)
    requires PlainTables(tables)
    ensures forall i :: 0 <= i < |tables| ==> TableRows(tables)[i] != [] && AllPlain(TableRows(tables)[i])
  {
    forall i | 0 <= i < |tables|
      ensures AllPlain(TableRows(tables)[i])
    {
      PlainTableRow(tables[i]);
    }
  }

  /** One row per table after the four head lines, reading back as the table's fields. */
  lemma {:induction false} TableListReadsBack(tables: seq<TableEntry>, totalCount: int)
    requires PlainTables(tables)
    ensures ReadsBackAsTable(Lines(TableListLines(tables, totalCount)), 4, TableRows(tables))
  {
    TablesLiteralsAreOneLine();
    var rows := TableRows(tables);
    PlainTableRows(tables);
    ListReadsBack("## Tables", totalCount,
      TablesHeader, TablesRule, rows);
  }

  /** A row of `format_view_list_markdown` or `format_procedure_list_markdown`: `(name, owner)`. */
  datatype NamedEntry = NamedEntry(name: string, owner: string)

  function NamedRows(entries: seq<NamedEntry>): (rows: seq<seq<string>>)
    ensures |rows| == |entries|
    ensures forall i :: 0 <= i < |entries| ==> rows[i] == [entries[i].name, entries[i].owner]
  {
    if entries == [] then []
    else
      var e := entries[|entries| - 1];
      NamedRows(entries[..|entries| - 1]) + [[e.name, e.owner]]
  }

  function ViewListLines(views: seq<NamedEntry>, totalCount: int): seq<string> {
    ListHead(FoundTitle("## Views", totalCount), ViewsHeader, ViewsRule)
    + RowLines(NamedRows(views))
  }

  /** The row loop of `format_view_list_markdown` and `format_procedure_list_markdown`. */
  method NamedRowLines(entries: seq<NamedEntry>) returns (lines: seq<string>)
    ensures lines == RowLines(NamedRows(entries))
  {
    lines := [];
    for i := 0 to |entries|
      invariant |lines| == i
      invariant forall k :: 0 <= k < i ==> lines[k] == TableLine(NamedRows(entries)[k])
    {
      lines := lines + [TableLine([entries[i].name, entries[i].owner])];
    }
  }

  /** `format_view_list_markdown` */
  method FormatViewList(views: seq<NamedEntry>, totalCount: int) returns (text: string)
    ensures text == Lines(ViewListLines(views, totalCount))
  {
    var output := [FoundTitle("## Views", totalCount), "", ViewsHeader, ViewsRule];
    var rows := NamedRowLines(views);
    output := output + rows;
    text := Lines(output);
  }

  function ProcedureListLines(procedures: seq<NamedEntry>, totalCount: int): seq<string> {
    ListHead(FoundTitle("## Procedures & Functions", totalCount), ProceduresHeader, ProceduresRule)
    + RowLines(NamedRows(procedures))
  }

  /** `format_procedure_list_markdown` */
  method FormatProcedureList(procedures: seq<NamedEntry>, totalCount: int) returns (text: string)
    ensures text == Lines(ProcedureListLines(procedures, totalCount))
  {
    var output := [FoundTitle("## Procedures & Functions", totalCount), "", ProceduresHeader, ProceduresRule];
    var rows := NamedRowLines(procedures);
    output := output + rows;
    text := Lines(output);
  }

  predicate PlainNames(entries: seq<NamedEntry>) {
    forall i :: 0 <= i < |entries| ==> PlainCell(entries[i].name) && PlainCell(entries[i].owner)
  }

  lemma {:induction false} PlainNamedRows(entries: seq<NamedEntry>)
    requires PlainNames(entries)
    ensures forall i :: 0 <= i < |entries| ==> NamedRows(entries)[i] != [] && AllPlain(NamedRows(entries)[i])
  {
  }

  /** One row per view after the four head lines, reading back as name and owner. */
  lemma {:induction false} ViewListReadsBack(views: seq<NamedEntry>, totalCount: int)
    requires PlainNames(views)
    ensures ReadsBackAsTable(Lines(ViewListLines(views, totalCount)), 4, NamedRows(views))
  {
    ViewsLiteralsAreOneLine();
    PlainNamedRows(views);
    ListReadsBack("## Views", totalCount, ViewsHeader, ViewsRule, NamedRows(views));
  }

  /** One row per procedure after the four head lines, reading back as name and owner. */
  lemma {:induction false} ProcedureListReadsBack(procedures: seq<NamedEntry>, totalCount: int)
    requires PlainNames(procedures)
    ensures ReadsBackAsTable(Lines(ProcedureListLines(procedures, totalCount)), 4, NamedRows(procedures))
  {
    ProceduresLiteralsAreOneLine();
    PlainNamedRows(procedures);
    ListReadsBack("## Procedures & Functions", totalCount, ProceduresHeader, ProceduresRule, NamedRows(procedures));
  }

  /** A row of `format_index_list_markdown`: `(idx_name, table_name, unique, owner)`. */
  datatype IndexEntry = IndexEntry(name: string, tableName: string, unique: string, owner: string)

  /** `"Yes" if flag == "Y" else "No"` */
  function YesNo(flag: bool): string {
    if flag then "Yes" else "No"
  }

  lemma {:induction false} YesNoPlain(flag: bool)
    ensures PlainCell(YesNo(flag))
  {
    assert "Yes"[0] == 'Y' && "Yes"[2] == 's' && "No"[0] == 'N' && "No"[1] == 'o';
  }

  /** The unique flag moves to the last column: name, table, owner, Yes/No. */
  function IndexRows(indexes: seq<IndexEntry>): (rows: seq<seq<string>>)
    ensures |rows| == |indexes|
    ensures forall i :: 0 <= i < |indexes| ==>
      rows[i] == [indexes[i].name, indexes[i].tableName, indexes[i].owner, YesNo(indexes[i].unique == "Y")]
  {
    if indexes == [] then []
    else
      var e := indexes[|indexes| - 1];
      IndexRows(indexes[..|indexes| - 1]) + [[e.name, e.tableName, e.owner, YesNo(e.unique == "Y")]]
  }

  function IndexListLines(indexes: seq<IndexEntry>, totalCount: int): seq<string> {
    ListHead(FoundTitle("## Indexes", totalCount),
      IndexesHeader, IndexesRule)
    + RowLines(IndexRows(indexes))
  }

  /** The row loop of `format_index_list_markdown`. */
  method IndexRowLines(indexes: seq<IndexEntry>) returns (lines: seq<string>)
    ensures lines == RowLines(IndexRows(indexes))
  {
    lines := [];
    for i := 0 to |indexes|
      invariant |lines| == i
      invariant forall k :: 0 <= k < i ==> lines[k] == TableLine(IndexRows(indexes)[k])
    {
      var e := indexes[i];
      var uniqueText := if e.unique == "Y" then "Yes" else "No";
      lines := lines + [TableLine([e.name, e.tableName, e.owner, uniqueText])];
    }
  }

  /** `format_index_list_markdown` */
  method FormatIndexList(indexes: seq<IndexEntry>, totalCount: int) returns (text: string)
    ensures text == Lines(IndexListLines(indexes, totalCount))
  {
    var output := [FoundTitle("## Indexes", totalCount), "", IndexesHeader, IndexesRule];
    var rows := IndexRowLines(indexes);
    output := output + rows;
    text := Lines(output);
  }

  predicate PlainIndexes(indexes: seq<IndexEntry>) {
    forall i :: 0 <= i < |indexes| ==>
      PlainCell(indexes[i].name) && PlainCell(indexes[i].tableName) && PlainCell(indexes[i].owner)
  }

  lemma {:induction false} PlainIndexRow(e: IndexEntry)
    requires PlainCell(e.name) && PlainCell(e.tableName) && PlainCell(e.owner)
    ensures AllPlain([e.name, e.tableName, e.owner, YesNo(e.unique == "Y")])
  {
    YesNoPlain(e.unique == "Y");
  }

  lemma {:induction false} PlainIndexRows(indexes: seq<IndexEntry>)
    requires PlainIndexes(indexes)
    ensures forall i :: 0 <= i < |indexes| ==> IndexRows(indexes)[i] != [] && AllPlain(IndexRows(indexes)[i])
  {
    forall i | 0 <= i < |indexes|
      ensures AllPlain(IndexRows(indexes)[i])
    {
      PlainIndexRow(indexes[i]);
    }
  }

  /** One row per index after the four head lines: name, table, owner, then `Yes` exactly for flag `Y`. */
  lemma {:induction false} IndexListReadsBack(indexes: seq<IndexEntry>, totalCount: int)
    requires PlainIndexes(indexes)
    ensures ReadsBackAsTable(Lines(IndexListLines(indexes, totalCount)), 4, IndexRows(indexes))
  {
    IndexesLiteralsAreOneLine();
    var rows := IndexRows(indexes);
    PlainIndexRows(indexes);
    ListReadsBack("## Indexes", totalCount,
      IndexesHeader, IndexesRule, rows);
  }

  // ---------------------------------------------------------------------------
  // format_table_details_markdown
  // ---------------------------------------------------------------------------

  /** A column row: `(col_name, domain_id, width, scale, nulls, default_val)`. */
  datatype ColumnEntry = ColumnEntry(name: string, domain: string, width: Option<int>, scale: Option<int>,
                                     nulls: string, defaultValue: Option<string>)

  /** `f"{n or ''}"`: a missing or zero number shows as nothing. */
  function OrBlank(n: Option<int>): string {
    if IsGiven(n) then IntToString(n.value) else ""
  }

  /** `"YES" if nulls == "Y" else "NO"` */
  function Nullable(nulls: string): string {
    if nulls == "Y" then "YES" else "NO"
  }

  /** `default_val if default_val else ""` */
  function DefaultText(d: Option<string>): string {
    if d.Some? && d.value != "" then d.value else ""
  }

  function ColumnCells(c: ColumnEntry): seq<string> {
    [c.name, c.domain, OrBlank(c.width), OrBlank(c.scale), Nullable(c.nulls), DefaultText(c.defaultValue)]
  }

  function ColumnRows(columns: seq<ColumnEntry>): (rows: seq<seq<string>>)
    ensures |rows| == |columns|
    ensures forall i :: 0 <= i < |columns| ==> rows[i] == ColumnCells(columns[i])
  {
    if columns == [] then [] else ColumnRows(columns[..|columns| - 1]) + [ColumnCells(columns[|columns| - 1])]
  }

  const ColumnsHeader := "| Column | Type | Length | Scale | Nullable | Default |"
  const ColumnsRule := "|--------|------|--------|-------|----------|---------|"

  /** The columns section: present only for a non-empty list, closed by a blank line. */
  function ColumnsSection(columns: seq<ColumnEntry>): seq<string> {
    if columns == [] then []
    else
      ["### Columns (" + IntToString(|columns|) + ")", "",
       ColumnsHeader,
       ColumnsRule]
      + RowLines(ColumnRows(columns)) + [""]
  }

  /** `f"- **{name}**: {text}"` */
  function Bullet(name: string, text: string): string {
    "- **" + name + "**: " + text
  }

  /** One bullet per key name, listing that key's columns. */
  function KeyBullets(names: seq<string>, pairs: seq<(string, string)>): (lines: seq<string>)
    ensures |lines| == |names|
    ensures forall j :: 0 <= j < |names| ==> lines[j] == Bullet(names[j], Join(ColumnsOf(pairs, names[j]), ", "))
  {
    if names == [] then []
    else
      var n := names[|names| - 1];
      KeyBullets(names[..|names| - 1], pairs) + [Bullet(n, Join(ColumnsOf(pairs, n), ", "))]
  }

  /** The primary-key section: one bullet per key, keys in order of first appearance. */
  function PrimaryKeySection(primaryKeys: seq<(string, string)>): seq<string> {
    if primaryKeys == [] then []
    else ["### Primary Keys", ""] + KeyBullets(FirstAppearance(NamesOf(primaryKeys)), primaryKeys) + [""]
  }

  /** A foreign-key row: `(fk_name, primary_table, primary_key)`. */
  datatype ForeignKeyEntry = ForeignKeyEntry(name: string, primaryTable: string, primaryKey: string)

  /** `f"- **{fk_name}**: → {primary_table}({primary_key})"` */
  function ForeignKeyBullet(f: ForeignKeyEntry): string {
    Bullet(f.name, "\U{2192} " + f.primaryTable + "(" + f.primaryKey + ")")
  }

  function ForeignKeyBullets(foreignKeys: seq<ForeignKeyEntry>): (lines: seq<string>)
    ensures |lines| == |foreignKeys|
    ensures forall i :: 0 <= i < |foreignKeys| ==> lines[i] == ForeignKeyBullet(foreignKeys[i])
  {
    if foreignKeys == [] then []
    else ForeignKeyBullets(foreignKeys[..|foreignKeys| - 1]) + [ForeignKeyBullet(foreignKeys[|foreignKeys| - 1])]
  }

  function ForeignKeySection(foreignKeys: seq<ForeignKeyEntry>): seq<string> {
    if foreignKeys == [] then [] else ["### Foreign Keys", ""] + ForeignKeyBullets(foreignKeys) + [""]
  }

  /** An index row of the table details: `(idx_name, unique, col_name, order_val)`. */
  datatype IndexColumnRow = IndexColumnRow(name: string, unique: string, column: string, order: string)

  /** `'ASC' if order_val == 'A' else 'DESC'` */
  function OrderWord(order: string): string {
    if order == "A" then "ASC" else "DESC"
  }

  /** Each index row as `(idx_name, f"{col_name} {ASC|DESC}")`. */
  function IndexPairs(rows: seq<IndexColumnRow>): (pairs: seq<(string, string)>)
    ensures |pairs| == |rows|
    ensures forall i :: 0 <= i < |rows| ==> pairs[i] == (rows[i].name, rows[i].column + " " + OrderWord(rows[i].order))
  {
    if rows == [] then []
    else
      var r := rows[|rows| - 1];
      IndexPairs(rows[..|rows| - 1]) + [(r.name, r.column + " " + OrderWord(r.order))]
  }

  /** Each index row as `(idx_name, unique)`. */
  function UniqueFlags(rows: seq<IndexColumnRow>): (flags: seq<(string, string)>)
    ensures |flags| == |rows|
    ensures forall i :: 0 <= i < |rows| ==> flags[i] == (rows[i].name, rows[i].unique)
  {
    if rows == [] then []
    else UniqueFlags(rows[..|rows| - 1]) + [(rows[|rows| - 1].name, rows[|rows| - 1].unique)]
  }

  datatype IndexGroup = IndexGroup(unique: string, columns: seq<string>)

  /** The `idx_dict` of the table details: per index, the first row's flag and every column. */
  function IndexGroupOf(rows: seq<IndexColumnRow>, name: string): IndexGroup {
    IndexGroup(FirstValue(UniqueFlags(rows), name), ColumnsOf(IndexPairs(rows), name))
  }

  /** `f"- **{idx_name}**: ({'Unique ' if unique == 'Y' else ''}{', '.join(columns)})"` */
  function IndexBullet(name: string, g: IndexGroup): string {
    Bullet(name, "(" + (if g.unique == "Y" then "Unique " else "") + Join(g.columns, ", ") + ")")
  }

  function IndexBullets(names: seq<string>, rows: seq<IndexColumnRow>): (lines: seq<string>)
    ensures |lines| == |names|
    ensures forall j :: 0 <= j < |names| ==> lines[j] == IndexBullet(names[j], IndexGroupOf(rows, names[j]))
  {
    seq(|names|, j requires 0 <= j < |names| => IndexBullet(names[j], IndexGroupOf(rows, names[j])))
  }

  function IndexSection(rows: seq<IndexColumnRow>): seq<string> {
    if rows == [] then [] else ["### Indexes", ""] + IndexBullets(FirstAppearance(NamesOf(IndexPairs(rows))), rows) + [""]
  }

  /** Every line of the table details, section by section. */
  function TableDetailsLines(name: string, owner: string, tableType: string, rowCount: Option<int>,
                             columns: seq<ColumnEntry>, primaryKeys: seq<(string, string)>,
                             foreignKeys: seq<ForeignKeyEntry>, indexes: seq<IndexColumnRow>): seq<string> {
    ["## Table: " + owner + "." + name, "**Type**: " + tableType, "**Row Count**: " + CountText(rowCount), ""]
    + ColumnsSection(columns) + PrimaryKeySection(primaryKeys) + ForeignKeySection(foreignKeys) + IndexSection(indexes)
  }

  /** A titled section: title, blank line, the body, blank line. */
  lemma {:induction false} SectionLines(title: string, body: seq<string>)
    ensures |[title, ""] + body + [""]| == |body| + 3
    ensures forall j :: 0 <= j < |body| ==> ([title, ""] + body + [""])[2 + j] == body[j]
  {
  }

  /**
    * The primary-key section lists each key once, in order of first appearance, and each
    * bullet carries exactly that key's columns, in input order, never none.
    */
  lemma {:induction false} PrimaryKeySectionGrouped(primaryKeys: seq<(string, string)>)
    requires primaryKeys != []
    ensures var names := FirstAppearance(NamesOf(primaryKeys));
      |PrimaryKeySection(primaryKeys)| == |names| + 3 &&
      Distinct(names) && InFirstAppearanceOrder(NamesOf(primaryKeys), names) &&
      (forall n :: n in names <==> n in NamesOf(primaryKeys)) &&
      forall j :: 0 <= j < |names| ==>
        ColumnsOf(primaryKeys, names[j]) != [] &&
        PrimaryKeySection(primaryKeys)[2 + j] == Bullet(names[j], Join(ColumnsOf(primaryKeys, names[j]), ", "))
  {
    var names := FirstAppearance(NamesOf(primaryKeys));
    assert PrimaryKeySection(primaryKeys) == ["### Primary Keys", ""] + KeyBullets(names, primaryKeys) + [""];
    SectionLines("### Primary Keys", KeyBullets(names, primaryKeys));
    FirstAppearanceDistinct(NamesOf(primaryKeys));
    FirstAppearanceOrder(NamesOf(primaryKeys));
    GroupsNotEmpty(primaryKeys);
  }

  /**
    * The index section lists each index once, in order of first appearance; each bullet
    * carries that index's columns in input order and the flag of its first row.
    */
  lemma {:induction false} IndexSectionGrouped(indexes: seq<IndexColumnRow>)
    requires indexes != []
    ensures var names := FirstAppearance(NamesOf(IndexPairs(indexes)));
      |IndexSection(indexes)| == |names| + 3 &&
      Distinct(names) && InFirstAppearanceOrder(NamesOf(IndexPairs(indexes)), names) &&
      (forall n :: n in names <==> n in NamesOf(IndexPairs(indexes))) &&
      forall j :: 0 <= j < |names| ==>
        IndexGroupOf(indexes, names[j]).columns != [] &&
        IndexSection(indexes)[2 + j] == IndexBullet(names[j], IndexGroupOf(indexes, names[j]))
  {
    var pairs := IndexPairs(indexes);
    var names := FirstAppearance(NamesOf(pairs));
    assert IndexSection(indexes) == ["### Indexes", ""] + IndexBullets(names, indexes) + [""];
    SectionLines("### Indexes", IndexBullets(names, indexes));
    FirstAppearanceDistinct(NamesOf(pairs));
    FirstAppearanceOrder(NamesOf(pairs));
    GroupsNotEmpty(pairs);
  }

  /** An index keeps the unique flag of the first row that carries its name. */
  lemma {:induction false} IndexKeepsFirstFlag(rows: seq<IndexColumnRow>, name: string)
    requires exists i :: 0 <= i < |rows| && rows[i].name == name
    ensures exists i :: (0 <= i < |rows| && rows[i].name == name &&
      (forall j :: 0 <= j < i ==> rows[j].name != name) &&
      IndexGroupOf(rows, name).unique == rows[i].unique)
  {
    var flags := UniqueFlags(rows);
    var i :| 0 <= i < |rows| && rows[i].name == name;
    assert NamesOf(flags)[i] == name;
    FirstValueIsFirst(flags, name);
    var f := FirstIndex(NamesOf(flags), name);
    assert rows[f].name == name;
    forall j | 0 <= j < f
      ensures rows[j].name != name
    {
      assert NamesOf(flags)[..f][j] == rows[j].name;
    }
    assert IndexGroupOf(rows, name).unique == flags[f].1 == rows[f].unique;
  }

  /** `names` and `groups` are the keys and contents of `idx_dict` after the rows behind `pairs` and `flags`. */
  ghost predicate IndexesGrouped(pairs: seq<(string, string)>, flags: seq<(string, string)>,
                                 names: seq<string>, groups: map<string, IndexGroup>) {
    names == FirstAppearance(NamesOf(pairs)) &&
    (forall n :: n in groups <==> n in names) &&
    forall n :: n in groups ==> groups[n] == IndexGroup(FirstValue(flags, n), ColumnsOf(pairs, n))
  }

  /** The `idx_dict` after one more row: a new name starts an entry with the row's flag, and the row's column is appended. */
  function AddIndexRow(groups: map<string, IndexGroup>, r: IndexColumnRow): map<string, IndexGroup> {
    var base := if r.name in groups then groups else groups[r.name := IndexGroup(r.unique, [])];
    base[r.name := IndexGroup(base[r.name].unique, base[r.name].columns + [r.column + " " + OrderWord(r.order)])]
  }

  /** One turn of the `idx_dict` loop, for the entry of one name. */
  lemma {:induction false} IndexEntryStep(pairs: seq<(string, string)>, flags: seq<(string, string)>,
                           names: seq<string>, groups: map<string, IndexGroup>, r: IndexColumnRow, n: string)
    requires NamesOf(flags) == NamesOf(pairs)
    requires IndexesGrouped(pairs, flags, names, groups)
    requires n in AddIndexRow(groups, r)
    ensures AddIndexRow(groups, r)[n] ==
      IndexGroup(FirstValue(flags + [(r.name, r.unique)], n),
                 ColumnsOf(pairs + [(r.name, r.column + " " + OrderWord(r.order))], n))
  {
    var column := r.column + " " + OrderWord(r.order);
    ColumnsOfSnoc(pairs, (r.name, column), n);
    FirstValueSnoc(flags, (r.name, r.unique), n);
    if n == r.name && n !in groups {
      ColumnsOfPresent(pairs, n);
    }
  }

  /** One turn of the `idx_dict` loop keeps `IndexesGrouped`. */
  lemma {:induction false} IndexesGroupedStep(pairs: seq<(string, string)>, flags: seq<(string, string)>,
                           names: seq<string>, groups: map<string, IndexGroup>, r: IndexColumnRow)
    requires NamesOf(flags) == NamesOf(pairs)
    requires IndexesGrouped(pairs, flags, names, groups)
    ensures IndexesGrouped(pairs + [(r.name, r.column + " " + OrderWord(r.order))], flags + [(r.name, r.unique)],
                           if r.name in groups then names else names + [r.name], AddIndexRow(groups, r))
  {
    var column := r.column + " " + OrderWord(r.order);
    var pairs', flags' := pairs + [(r.name, column)], flags + [(r.name, r.unique)];
    var groups' := AddIndexRow(groups, r);
    NamesOfSnoc(pairs, (r.name, column));
    FirstAppearanceSnoc(NamesOf(pairs), r.name);
    forall n | n in groups'
      ensures groups'[n] == IndexGroup(FirstValue(flags', n), ColumnsOf(pairs', n))
    {
      IndexEntryStep(pairs, flags, names, groups, r, n);
    }
  }

  lemma {:induction false} PrefixSnoc<T>(s: seq<T>, i: nat)
    requires i < |s|
    ensures s[..i + 1] == s[..i] + [s[i]]
  {
  }

  /** The two dictionary updates of one turn of the `idx_dict` loop are `AddIndexRow`. */
  lemma {:induction false} AddIndexRowUpdates(groups: map<string, IndexGroup>, base: map<string, IndexGroup>, r: IndexColumnRow)
    requires base == if r.name in groups then groups else groups[r.name := IndexGroup(r.unique, [])]
    ensures base[r.name := IndexGroup(base[r.name].unique, base[r.name].columns + [r.column + " " + OrderWord(r.order)])]
      == AddIndexRow(groups, r)
  {
  }

  /** The turn of the `idx_dict` loop for row `i`, stated on prefixes of the rows. */
  lemma {:induction false} IndexesGroupedTurn(rows: seq<IndexColumnRow>, i: nat, names: seq<string>, groups: map<string, IndexGroup>)
    requires i < |rows|
    requires IndexesGrouped(IndexPairs(rows)[..i], UniqueFlags(rows)[..i], names, groups)
    ensures IndexesGrouped(IndexPairs(rows)[..i + 1], UniqueFlags(rows)[..i + 1],
                           if rows[i].name in groups then names else names + [rows[i].name],
                           AddIndexRow(groups, rows[i]))
  {
    var pairs, flags := IndexPairs(rows), UniqueFlags(rows);
    PrefixSnoc(pairs, i);
    PrefixSnoc(flags, i);
    IndexesGroupedStep(pairs[..i], flags[..i], names, groups, rows[i]);
  }

  /** The `idx_dict` loop of `format_table_details_markdown`. */
  method GroupIndexes(rows: seq<IndexColumnRow>) returns (names: seq<string>, groups: map<string, IndexGroup>)
    ensures names == FirstAppearance(NamesOf(IndexPairs(rows)))
    ensures forall n :: n in groups <==> n in names
    ensures forall n :: n in groups ==> groups[n] == IndexGroupOf(rows, n)
  {
    names := [];
    groups := map[];
    for i := 0 to |rows|
      invariant IndexesGrouped(IndexPairs(rows)[..i], UniqueFlags(rows)[..i], names, groups)
    {
      var r := rows[i];
      var column := r.column + " " + OrderWord(r.order);
      ghost var names0, groups0 := names, groups;
      if r.name !in groups {
        groups := groups[r.name := IndexGroup(r.unique, [])];
        names := names + [r.name];
      }
      ghost var base := groups;
      groups := groups[r.name := IndexGroup(groups[r.name].unique, groups[r.name].columns + [column])];
      AddIndexRowUpdates(groups0, base, r);
      IndexesGroupedTurn(rows, i, names0, groups0);
    }
    assert IndexPairs(rows)[..|rows|] == IndexPairs(rows);
    assert UniqueFlags(rows)[..|rows|] == UniqueFlags(rows);
  }

  /** The columns block of `format_table_details_markdown`: the lines it appends to the output. */
  method ColumnLines(columns: seq<ColumnEntry>) returns (out: seq<string>)
    ensures out == ColumnsSection(columns)
  {
    out := [];
    if columns != [] {
      out := ["### Columns (" + IntToString(|columns|) + ")", "",
        ColumnsHeader,
        ColumnsRule];
      var rows := ColumnRowLines(columns);
      out := out + rows;
      out := out + [""];
    }
  }

  /** The loop over the columns: one table row each. */
  method ColumnRowLines(columns: seq<ColumnEntry>) returns (out: seq<string>)
    ensures out == RowLines(ColumnRows(columns))
  {
    out := [];
    for i := 0 to |columns|
      invariant |out| == i
      invariant forall k :: 0 <= k < i ==> out[k] == TableLine(ColumnCells(columns[k]))
    {
      var c := columns[i];
      var nullable := if c.nulls == "Y" then "YES" else "NO";
      var default := if c.defaultValue.Some? && c.defaultValue.value != "" then c.defaultValue.value else "";
      out := out + [TableLine([c.name, c.domain, OrBlank(c.width), OrBlank(c.scale), nullable, default])];
    }
  }

  /** The primary-key block: group the columns by key, then one bullet per key. */
  method PrimaryKeyLines(primaryKeys: seq<(string, string)>) returns (out: seq<string>)
    ensures out == PrimaryKeySection(primaryKeys)
  {
    out := [];
    if primaryKeys != [] {
      out := ["### Primary Keys", ""];
      var names, groups := GroupColumns(primaryKeys);
      forall k | 0 <= k < |names|
        ensures names[k] in groups && groups[names[k]] == ColumnsOf(primaryKeys, names[k])
      {
        assert names[k] in names;
      }
      var bullets := KeyBulletLines(names, groups, primaryKeys);
      out := out + bullets;
      out := out + [""];
    }
  }

  /** The loop over `pk_dict.items()`: one bullet per key, with its columns joined by commas. */
  method KeyBulletLines(names: seq<string>, groups: map<string, seq<string>>, primaryKeys: seq<(string, string)>)
    returns (out: seq<string>)
    requires forall k :: 0 <= k < |names| ==> names[k] in groups && groups[names[k]] == ColumnsOf(primaryKeys, names[k])
    ensures out == KeyBullets(names, primaryKeys)
  {
    out := [];
    for j := 0 to |names|
      invariant out == KeyBullets(names[..j], primaryKeys)
    {
      assert names[..j + 1][..j] == names[..j];
      var cols := groups[names[j]];
      out := out + [Bullet(names[j], Join(cols, ", "))];
    }
    assert names[..|names|] == names;
  }

  /** The foreign-key block: one bullet per foreign key, in input order. */
  method ForeignKeyLines(foreignKeys: seq<ForeignKeyEntry>) returns (out: seq<string>)
    ensures out == ForeignKeySection(foreignKeys)
  {
    out := [];
    if foreignKeys != [] {
      out := ["### Foreign Keys", ""];
      for i := 0 to |foreignKeys|
        invariant out == ["### Foreign Keys", ""] + ForeignKeyBullets(foreignKeys[..i])
      {
        assert foreignKeys[..i + 1][..i] == foreignKeys[..i];
        var f := foreignKeys[i];
        out := out + [Bullet(f.name, "\U{2192} " + f.primaryTable + "(" + f.primaryKey + ")")];
      }
      assert foreignKeys[..|foreignKeys|] == foreignKeys;
      out := out + [""];
    }
  }

  /** The index block: group the rows by index, then one bullet per index. */
  method IndexLines(indexes: seq<IndexColumnRow>) returns (out: seq<string>)
    ensures out == IndexSection(indexes)
  {
    out := [];
    if indexes != [] {
      out := ["### Indexes", ""];
      var names, groups := GroupIndexes(indexes);
      forall k | 0 <= k < |names|
        ensures names[k] in groups && groups[names[k]] == IndexGroupOf(indexes, names[k])
      {
        assert names[k] in names;
      }
      var bullets := IndexBulletLines(names, groups, indexes);
      out := out + bullets;
      out := out + [""];
    }
  }

  /** The loop over `idx_dict.items()`: one bullet per index, flagged `Unique ` when its flag is `Y`. */
  method IndexBulletLines(names: seq<string>, groups: map<string, IndexGroup>, indexes: seq<IndexColumnRow>)
    returns (out: seq<string>)
    requires forall k :: 0 <= k < |names| ==> names[k] in groups && groups[names[k]] == IndexGroupOf(indexes, names[k])
    ensures out == IndexBullets(names, indexes)
  {
    out := [];
    for j := 0 to |names|
      invariant |out| == j
      invariant forall k :: 0 <= k < j ==> names[k] in groups && out[k] == IndexBullet(names[k], groups[names[k]])
    {
      var info := groups[names[j]];
      var uniqueText := if info.unique == "Y" then "Unique " else "";
      var cols := Join(info.columns, ", ");
      var line := Bullet(names[j], "(" + uniqueText + cols + ")");
      IndexBulletStep(names, groups, out, line);
      out := out + [line];
    }
    IndexBulletsPointwise(names, groups, indexes, out);
  }

  lemma {:induction false} IndexBulletStep(names: seq<string>, groups: map<string, IndexGroup>, out: seq<string>, line: string)
    requires |out| < |names| && names[|out|] in groups
    requires forall k :: 0 <= k < |out| ==> names[k] in groups && out[k] == IndexBullet(names[k], groups[names[k]])
    requires var info := groups[names[|out|]];
      line == Bullet(names[|out|], "(" + (if info.unique == "Y" then "Unique " else "") + Join(info.columns, ", ") + ")")
    ensures forall k :: 0 <= k < |out| + 1 ==> names[k] in groups && (out + [line])[k] == IndexBullet(names[k], groups[names[k]])
  {
  }

  lemma {:induction false} IndexBulletsPointwise(names: seq<string>, groups: map<string, IndexGroup>,
                                                 indexes: seq<IndexColumnRow>, out: seq<string>)
    requires |out| == |names|
    requires forall k :: 0 <= k < |names| ==> names[k] in groups && groups[names[k]] == IndexGroupOf(indexes, names[k])
    requires forall k :: 0 <= k < |names| ==> names[k] in groups && out[k] == IndexBullet(names[k], groups[names[k]])
    ensures out == IndexBullets(names, indexes)
  {
  }

  /** `format_table_details_markdown` */
  method FormatTableDetails(name: string, owner: string, tableType: string, rowCount: Option<int>,
                            columns: seq<ColumnEntry>, primaryKeys: seq<(string, string)>,
                            foreignKeys: seq<ForeignKeyEntry>, indexes: seq<IndexColumnRow>) returns (text: string)
    ensures text == Lines(TableDetailsLines(name, owner, tableType, rowCount, columns, primaryKeys, foreignKeys, indexes))
  {
    var rowCountText := if rowCount.Some? && rowCount.value != 0 then Thousands(rowCount.value) else "N/A";
    var output := ["## Table: " + owner + "." + name, "**Type**: " + tableType, "**Row Count**: " + rowCountText, ""];
    var columnLines := ColumnLines(columns);
    output := output + columnLines;
    var keyLines := PrimaryKeyLines(primaryKeys);
    output := output + keyLines;
    var foreignLines := ForeignKeyLines(foreignKeys);
    output := output + foreignLines;
    var indexLines := IndexLines(indexes);
    output := output + indexLines;
    text := Lines(output);
  }

  // ---------------------------------------------------------------------------
  // format_view_details_markdown
  // ---------------------------------------------------------------------------

  /** A view column: `(col_name, data_type, nulls)`. */
  datatype ViewColumn = ViewColumn(name: string, dataType: string, nulls: string)

  function ViewColumnCells(c: ViewColumn): seq<string> {
    [c.name, c.dataType, Nullable(c.nulls)]
  }

  function ViewColumnRows(columns: seq<ViewColumn>): (rows: seq<seq<string>>)
    ensures |rows| == |columns|
    ensures forall i :: 0 <= i < |columns| ==> rows[i] == ViewColumnCells(columns[i])
  {
    if columns == [] then [] else ViewColumnRows(columns[..|columns| - 1]) + [ViewColumnCells(columns[|columns| - 1])]
  }

  const ViewColumnsHeader := "| Column | Type | Nullable |"
  const ViewColumnsRule := "|--------|------|----------|"

  /** The six lines above the column rows of a view that has columns. */
  function ViewColumnsHead(name: string, owner: string, n: int): seq<string> {
    ["## View: " + owner + "." + name, "",
     "### Columns (" + IntToString(n) + ")", "", ViewColumnsHeader, ViewColumnsRule]
  }

  /** The view details: a title, then the column table only when there are columns. */
  function ViewDetailsLines(name: string, owner: string, columns: seq<ViewColumn>): seq<string> {
    if columns == [] then ["## View: " + owner + "." + name, ""]
    else ViewColumnsHead(name, owner, |columns|) + RowLines(ViewColumnRows(columns))
  }

  /** The row loop of `format_view_details_markdown`. */
  method ViewColumnLines(columns: seq<ViewColumn>) returns (lines: seq<string>)
    ensures lines == RowLines(ViewColumnRows(columns))
  {
    lines := [];
    for i := 0 to |columns|
      invariant |lines| == i
      invariant forall k :: 0 <= k < i ==> lines[k] == TableLine(ViewColumnCells(columns[k]))
    {
      var c := columns[i];
      var nullable := if c.nulls == "Y" then "YES" else "NO";
      lines := lines + [TableLine([c.name, c.dataType, nullable])];
    }
  }

  /** `format_view_details_markdown` */
  method FormatViewDetails(name: string, owner: string, columns: seq<ViewColumn>) returns (text: string)
    ensures text == Lines(ViewDetailsLines(name, owner, columns))
  {
    var output := ["## View: " + owner + "." + name, ""];
    if columns != [] {
      output := output + ["### Columns (" + IntToString(|columns|) + ")", "", ViewColumnsHeader, ViewColumnsRule];
      assert output == ViewColumnsHead(name, owner, |columns|);
      var rows := ViewColumnLines(columns);
      output := output + rows;
    }
    text := Lines(output);
  }

  lemma {:induction false} NullablePlain(nulls: string)
    ensures PlainCell(Nullable(nulls))
  {
    assert "YES"[0] == 'Y' && "YES"[2] == 'S' && "NO"[0] == 'N' && "NO"[1] == 'O';
  }

  predicate PlainViewColumns(columns: seq<ViewColumn>) {
    forall i :: 0 <= i < |columns| ==> PlainCell(columns[i].name) && PlainCell(columns[i].dataType)
  }

  lemma {:induction false} PlainViewColumn(c: ViewColumn)
    requires PlainCell(c.name) && PlainCell(c.dataType)
    ensures AllPlain(ViewColumnCells(c))
  {
    NullablePlain(c.nulls);
  }

  lemma {:induction false} PlainViewColumnRows(columns: seq<ViewColumn>)
    requires PlainViewColumns(columns)
    ensures forall i :: 0 <= i < |columns| ==> ViewColumnRows(columns)[i] != [] && AllPlain(ViewColumnRows(columns)[i])
  {
    forall i | 0 <= i < |columns|
      ensures AllPlain(ViewColumnRows(columns)[i])
    {
      PlainViewColumn(columns[i]);
    }
  }

  lemma {:induction false} ViewColumnsHeadIsOneLinePerItem(name: string, owner: string, n: int)
    requires '\n' !in name && '\n' !in owner
    ensures forall k :: 0 <= k < 6 ==> '\n' !in ViewColumnsHead(name, owner, n)[k]
  {
    var head := ViewColumnsHead(name, owner, n);
    ViewHeadLiteralsAreOneLine();
    FoundTitleIsOneLine("### Columns", n);
    ConcatIsOneLine("## View: ", owner, ".");
    forall k | 0 <= k < 6
      ensures '\n' !in head[k]
    {
      if k == 0 {
        assert head[0] == ("## View: " + owner + ".") + name;
      } else if k == 1 || k == 3 {
        assert |head[k]| == 0;
      }
    }
  }

  lemma {:induction false} ViewHeadLiteralsAreOneLine()
    ensures '\n' !in "## View: " && '\n' !in "." && '\n' !in ViewColumnsHeader && '\n' !in ViewColumnsRule
  {
  }

  /** The view details read back, after six head lines, as one row per column: name, type, YES/NO. */
  lemma {:induction false} ViewDetailsReadsBack(name: string, owner: string, columns: seq<ViewColumn>)
    requires '\n' !in name && '\n' !in owner
    requires columns != [] && PlainViewColumns(columns)
    ensures ReadsBackAsTable(Lines(ViewDetailsLines(name, owner, columns)), 6, ViewColumnRows(columns))
  {
    ViewColumnsHeadIsOneLinePerItem(name, owner, |columns|);
    PlainViewColumnRows(columns);
    DocumentReadsBack(ViewColumnsHead(name, owner, |columns|), ViewColumnRows(columns));
  }

  // ---------------------------------------------------------------------------
  // format_procedure_details_markdown
  // ---------------------------------------------------------------------------

  /** A parameter row: `(parm_name, data_type, mode_in, mode_out)`. */
  datatype Parameter = Parameter(name: string, dataType: string, modeIn: string, modeOut: string)

  /** The mode of a parameter from its two flags. */
  function ParameterMode(modeIn: string, modeOut: string): string {
    if modeIn == "Y" && modeOut == "Y" then "INOUT"
    else if modeOut == "Y" then "OUT"
    else "IN"
  }

  /** `INOUT` exactly when both flags are `Y`, `OUT` exactly when only the out flag is, `IN` otherwise. */
  lemma {:induction false} ParameterModeCases(modeIn: string, modeOut: string)
    ensures ParameterMode(modeIn, modeOut) == "INOUT" <==> modeIn == "Y" && modeOut == "Y"
    ensures ParameterMode(modeIn, modeOut) == "OUT" <==> modeIn != "Y" && modeOut == "Y"
    ensures ParameterMode(modeIn, modeOut) == "IN" <==> modeOut != "Y"
  {
    assert "INOUT" != "OUT" && "INOUT" != "IN" && "OUT" != "IN" by {
      assert |"INOUT"| == 5 && |"OUT"| == 3 && |"IN"| == 2;
    }
  }

  function ParameterCells(p: Parameter): seq<string> {
    [p.name, p.dataType, ParameterMode(p.modeIn, p.modeOut)]
  }

  function ParameterRows(parameters: seq<Parameter>): (rows: seq<seq<string>>)
    ensures |rows| == |parameters|
    ensures forall i :: 0 <= i < |parameters| ==> rows[i] == ParameterCells(parameters[i])
  {
    if parameters == [] then []
    else ParameterRows(parameters[..|parameters| - 1]) + [ParameterCells(parameters[|parameters| - 1])]
  }

  /** The six lines above the parameter rows of a procedure that has parameters. */
  const ParametersHeader := "| Name | Type | Mode |"
  const ParametersRule := "|------|------|------|"

  function ParametersHead(name: string, owner: string): seq<string> {
    ["## Procedure: " + owner + "." + name, "", "### Parameters", "", ParametersHeader, ParametersRule]
  }

  /** The procedure details: the parameter table, or a line saying there is none. */
  function ProcedureDetailsLines(name: string, owner: string, parameters: seq<Parameter>): seq<string> {
    if parameters == [] then ["## Procedure: " + owner + "." + name, ""] + ["### Parameters", "", "No parameters found", ""]
    else ParametersHead(name, owner) + RowLines(ParameterRows(parameters)) + [""]
  }

  /** The row loop of `format_procedure_details_markdown`. */
  method ParameterLines(parameters: seq<Parameter>) returns (lines: seq<string>)
    ensures lines == RowLines(ParameterRows(parameters))
  {
    lines := [];
    for i := 0 to |parameters|
      invariant |lines| == i
      invariant forall k :: 0 <= k < i ==> lines[k] == TableLine(ParameterCells(parameters[k]))
    {
      var p := parameters[i];
      var mode;
      if p.modeIn == "Y" && p.modeOut == "Y" {
        mode := "INOUT";
      } else if p.modeOut == "Y" {
        mode := "OUT";
      } else {
        mode := "IN";
      }
      lines := lines + [TableLine([p.name, p.dataType, mode])];
    }
  }

  /** `format_procedure_details_markdown` */
  method FormatProcedureDetails(name: string, owner: string, parameters: seq<Parameter>) returns (text: string)
    ensures text == Lines(ProcedureDetailsLines(name, owner, parameters))
  {
    var output := ["## Procedure: " + owner + "." + name, ""];
    if parameters != [] {
      output := output + ["### Parameters", "", ParametersHeader, ParametersRule];
      assert output == ParametersHead(name, owner);
      var rows := ParameterLines(parameters);
      output := output + rows;
      output := output + [""];
    } else {
      output := output + ["### Parameters", "", "No parameters found", ""];
    }
    text := Lines(output);
  }

  /** The fifth line says there are no parameters exactly when the list is empty. */
  lemma {:induction false} NoParametersLine(name: string, owner: string, parameters: seq<Parameter>)
    ensures |ProcedureDetailsLines(name, owner, parameters)| == if parameters == [] then 6 else 7 + |parameters|
    ensures ProcedureDetailsLines(name, owner, parameters)[4] == "No parameters found" <==> parameters == []
  {
    if parameters != [] {
      var line := ProcedureDetailsLines(name, owner, parameters)[4];
      assert line == "| Name | Type | Mode |";
      assert line[0] != "No parameters found"[0];
    }
  }

  predicate PlainParameters(parameters: seq<Parameter>) {
    forall i :: 0 <= i < |parameters| ==> PlainCell(parameters[i].name) && PlainCell(parameters[i].dataType)
  }

  lemma {:induction false} PlainParameter(p: Parameter)
    requires PlainCell(p.name) && PlainCell(p.dataType)
    ensures AllPlain(ParameterCells(p))
  {
    var m := ParameterMode(p.modeIn, p.modeOut);
    assert m == "INOUT" || m == "OUT" || m == "IN";
    assert "INOUT"[0] == 'I' && "INOUT"[4] == 'T' && "OUT"[0] == 'O' && "OUT"[2] == 'T' && "IN"[0] == 'I' && "IN"[1] == 'N';
  }

  lemma {:induction false} PlainParameterRows(parameters: seq<Parameter>)
    requires PlainParameters(parameters)
    ensures forall i :: 0 <= i < |parameters| ==> ParameterRows(parameters)[i] != [] && AllPlain(ParameterRows(parameters)[i])
  {
    forall i | 0 <= i < |parameters|
      ensures AllPlain(ParameterRows(parameters)[i])
    {
      PlainParameter(parameters[i]);
    }
  }

  lemma {:induction false} ParametersHeadIsOneLinePerItem(name: string, owner: string)
    requires '\n' !in name && '\n' !in owner
    ensures forall k :: 0 <= k < 6 ==> '\n' !in ParametersHead(name, owner)[k]
  {
    var head := ParametersHead(name, owner);
    forall k | 0 <= k < 6
      ensures '\n' !in head[k]
    {
      if k == 1 || k == 3 {
        assert |head[k]| == 0;
      }
    }
  }

  /**
    * With parameters, the details hold after six head lines one row per parameter (name, type,
    * mode), followed by one blank line.
    */
  lemma {:induction false} ProcedureDetailsReadsBack(name: string, owner: string, parameters: seq<Parameter>)
    requires '\n' !in name && '\n' !in owner
    requires parameters != [] && PlainParameters(parameters)
    ensures ReadsBackAsTable(Lines(ProcedureDetailsLines(name, owner, parameters)[..6 + |parameters|]), 6, ParameterRows(parameters))
    ensures ProcedureDetailsLines(name, owner, parameters)[6 + |parameters|..] == [""]
  {
    var head := ParametersHead(name, owner);
    var rows := ParameterRows(parameters);
    assert ProcedureDetailsLines(name, owner, parameters)[..6 + |parameters|] == head + RowLines(rows);
    ParametersHeadIsOneLinePerItem(name, owner);
    PlainParameterRows(parameters);
    DocumentReadsBack(head, rows);
  }

  // ---------------------------------------------------------------------------
  // format_index_details_markdown
  // ---------------------------------------------------------------------------

  /** A column of an index: `(col_name, order, sequence)`. */
  datatype IndexDetailColumn = IndexDetailColumn(name: string, order: string, sequence: int)

  function IndexDetailCells(c: IndexDetailColumn): seq<string> {
    [c.name, OrderWord(c.order), IntToString(c.sequence)]
  }

  function IndexDetailRows(columns: seq<IndexDetailColumn>): (rows: seq<seq<string>>)
    ensures |rows| == |columns|
    ensures forall i :: 0 <= i < |columns| ==> rows[i] == IndexDetailCells(columns[i])
  {
    if columns == [] then [] else IndexDetailRows(columns[..|columns| - 1]) + [IndexDetailCells(columns[|columns| - 1])]
  }

  /** The four lines naming the index, its table and whether it is unique. */
  function IndexDetailsTitle(indexName: string, tableName: string, owner: string, isUnique: bool): seq<string> {
    ["## Index: " + indexName, "**Table**: " + owner + "." + tableName, UniqueLabel + YesNo(isUnique), ""]
  }

  const UniqueLabel := "**Unique**: "
  const IndexColumnsHeader := "| Column | Order | Sequence |"
  const IndexColumnsRule := "|--------|-------|----------|"

  /** The eight lines above the column rows of an index that has columns. */
  function IndexColumnsHead(indexName: string, tableName: string, owner: string, isUnique: bool): seq<string> {
    ["## Index: " + indexName, "**Table**: " + owner + "." + tableName, UniqueLabel + YesNo(isUnique), "",
     "### Columns", "", IndexColumnsHeader, IndexColumnsRule]
  }

  /** The index details: the title lines, then the column table only when there are columns. */
  function IndexDetailsLines(indexName: string, tableName: string, owner: string, isUnique: bool,
                             columns: seq<IndexDetailColumn>): seq<string> {
    if columns == [] then IndexDetailsTitle(indexName, tableName, owner, isUnique)
    else IndexColumnsHead(indexName, tableName, owner, isUnique) + RowLines(IndexDetailRows(columns))
  }

  /** The row loop of `format_index_details_markdown`. */
  method IndexDetailLines(columns: seq<IndexDetailColumn>) returns (lines: seq<string>)
    ensures lines == RowLines(IndexDetailRows(columns))
  {
    lines := [];
    for i := 0 to |columns|
      invariant |lines| == i
      invariant forall k :: 0 <= k < i ==> lines[k] == TableLine(IndexDetailCells(columns[k]))
    {
      var c := columns[i];
      var orderText := if c.order == "A" then "ASC" else "DESC";
      lines := lines + [TableLine([c.name, orderText, IntToString(c.sequence)])];
    }
  }

  /** `format_index_details_markdown` */
  method FormatIndexDetails(indexName: string, tableName: string, owner: string, isUnique: bool,
                            columns: seq<IndexDetailColumn>) returns (text: string)
    ensures text == Lines(IndexDetailsLines(indexName, tableName, owner, isUnique, columns))
  {
    var uniqueText := if isUnique then "Yes" else "No";
    var output := ["## Index: " + indexName, "**Table**: " + owner + "." + tableName, UniqueLabel + uniqueText, ""];
    assert output == IndexDetailsTitle(indexName, tableName, owner, isUnique);
    if columns != [] {
      output := output + ["### Columns", "", IndexColumnsHeader, IndexColumnsRule];
      assert output == IndexColumnsHead(indexName, tableName, owner, isUnique);
      var rows := IndexDetailLines(columns);
      output := output + rows;
    }
    text := Lines(output);
  }

  predicate PlainIndexDetailColumns(columns: seq<IndexDetailColumn>) {
    forall i :: 0 <= i < |columns| ==> PlainCell(columns[i].name)
  }

  lemma {:induction false} OrderWordPlain(order: string)
    ensures PlainCell(OrderWord(order))
  {
    assert "ASC"[0] == 'A' && "ASC"[2] == 'C' && "DESC"[0] == 'D' && "DESC"[3] == 'C';
  }

  lemma {:induction false} IntToStringPlain(n: int)
    ensures PlainCell(IntToString(n))
  {
    var digits := if n < 0 then NatToString(-n) else NatToString(n);
    assert forall k :: 0 <= k < |digits| ==> IsDigit(digits[k]);
    if n < 0 {
      assert IntToString(n) == "-" + digits;
      assert IntToString(n)[0] == '-';
    }
  }

  lemma {:induction false} PlainIndexDetailColumn(c: IndexDetailColumn)
    requires PlainCell(c.name)
    ensures AllPlain(IndexDetailCells(c))
  {
    OrderWordPlain(c.order);
    IntToStringPlain(c.sequence);
  }

  lemma {:induction false} PlainIndexDetailRows(columns: seq<IndexDetailColumn>)
    requires PlainIndexDetailColumns(columns)
    ensures forall i :: 0 <= i < |columns| ==> IndexDetailRows(columns)[i] != [] && AllPlain(IndexDetailRows(columns)[i])
  {
    forall i | 0 <= i < |columns|
      ensures AllPlain(IndexDetailRows(columns)[i])
    {
      PlainIndexDetailColumn(columns[i]);
    }
  }

  lemma {:induction false} IndexDetailsHeadIsOneLinePerItem(indexName: string, tableName: string, owner: string, isUnique: bool)
    requires '\n' !in indexName && '\n' !in tableName && '\n' !in owner
    ensures forall k :: 0 <= k < 8 ==> '\n' !in IndexColumnsHead(indexName, tableName, owner, isUnique)[k]
  {
    var head := IndexColumnsHead(indexName, tableName, owner, isUnique);
    YesNoPlain(isUnique);
    forall k | 0 <= k < 8
      ensures '\n' !in head[k]
    {
      if k == 3 || k == 5 {
        assert |head[k]| == 0;
      }
    }
  }

  /**
    * The index details read back, after eight head lines, as one row per column: name,
    * `ASC`/`DESC`, position.
    */
  lemma {:induction false} IndexDetailsReadsBack(indexName: string, tableName: string, owner: string, isUnique: bool,
                              columns: seq<IndexDetailColumn>)
    requires '\n' !in indexName && '\n' !in tableName && '\n' !in owner
    requires columns != [] && PlainIndexDetailColumns(columns)
    ensures ReadsBackAsTable(Lines(IndexDetailsLines(indexName, tableName, owner, isUnique, columns)), 8, IndexDetailRows(columns))
  {
    IndexDetailsHeadIsOneLinePerItem(indexName, tableName, owner, isUnique);
    PlainIndexDetailRows(columns);
    DocumentReadsBack(IndexColumnsHead(indexName, tableName, owner, isUnique), IndexDetailRows(columns));
  }

  /** The third line of the index details says `Yes` exactly for a unique index. */
  lemma {:induction false} IndexDetailsUniqueLine(indexName: string, tableName: string, owner: string, isUnique: bool,
                               columns: seq<IndexDetailColumn>)
    ensures IndexDetailsLines(indexName, tableName, owner, isUnique, columns)[2] == UniqueLabel + "Yes" <==> isUnique
  {
    IndexDetailsThirdLine(indexName, tableName, owner, isUnique, columns);
    UniqueLabelReadsBack(isUnique);
  }

  lemma {:induction false} IndexDetailsThirdLine(indexName: string, tableName: string, owner: string, isUnique: bool,
                               columns: seq<IndexDetailColumn>)
    ensures |IndexDetailsLines(indexName, tableName, owner, isUnique, columns)| > 2
    ensures IndexDetailsLines(indexName, tableName, owner, isUnique, columns)[2] == UniqueLabel + YesNo(isUnique)
  {
    if columns != [] {
      var head := IndexColumnsHead(indexName, tableName, owner, isUnique);
      assert (head + RowLines(IndexDetailRows(columns)))[2] == head[2];
    }
  }

  lemma {:induction false} UniqueLabelReadsBack(isUnique: bool)
    ensures UniqueLabel + YesNo(isUnique) == UniqueLabel + "Yes" <==> isUnique
  {
    if !isUnique {
      assert |UniqueLabel + YesNo(isUnique)| != |UniqueLabel + "Yes"|;
    }
  }

  // ---------------------------------------------------------------------------
  // format_database_info_markdown
  // ---------------------------------------------------------------------------

  const TablesLabel := "- **Tables** (authorized): "
  const ViewsLabel := "- **Views** (authorized): "
  const ProceduresLabel := "- **Procedures/Functions**: "

  /** The 20 lines of the database summary; the three object counts carry group commas. */
  function DatabaseInfoLines(dbName: string, dbVersion: string, serverName: string, charset: string,
                             collation: string, pageSize: int, tableCount: int, viewCount: int,
                             procCount: int): seq<string> {
    ["## Database Information", "",
     "**Database Name**: " + dbName, "**SQL Anywhere Version**: " + dbVersion, "",
     "### Connection Information", "",
     "**Server Name**: " + serverName, "",
     "### Database Properties", "",
     "**Character Set**: " + charset, "**Collation**: " + collation,
     "**Page Size**: " + IntToString(pageSize) + " bytes", "",
     "### Database Objects", "",
     TablesLabel + Thousands(tableCount), ViewsLabel + Thousands(viewCount),
     ProceduresLabel + Thousands(procCount)]
  }

  /** `format_database_info_markdown` */
  function FormatDatabaseInfo(dbName: string, dbVersion: string, serverName: string, charset: string,
                              collation: string, pageSize: int, tableCount: int, viewCount: int,
                              procCount: int): string {
    Lines(DatabaseInfoLines(dbName, dbVersion, serverName, charset, collation, pageSize, tableCount, viewCount, procCount))
  }

  /** The number after `prefix` on a summary line, read without its group commas. */
  function CountAfter(line: string, prefix: string): Option<int> {
    if StartsWith(line, prefix) then ParseInt(Without(line[|prefix|..], ',')) else None
  }

  lemma {:induction false} CountAfterLabel(prefix: string, n: int)
    ensures CountAfter(prefix + Thousands(n), prefix) == Some(n)
  {
    assert (prefix + Thousands(n))[..|prefix|] == prefix;
    assert (prefix + Thousands(n))[|prefix|..] == Thousands(n);
    ThousandsDigits(n);
    ParseIntToString(n);
  }

  /** The number between `prefix` and `suffix` on a line. */
  function NumberBetween(line: string, prefix: string, suffix: string): Option<int> {
    if |prefix| + |suffix| <= |line| && StartsWith(line, prefix) && EndsWith(line, suffix)
    then ParseInt(line[|prefix|..|line| - |suffix|])
    else None
  }

  lemma {:induction false} NumberBetweenLabel(prefix: string, n: int, suffix: string)
    ensures NumberBetween(prefix + IntToString(n) + suffix, prefix, suffix) == Some(n)
  {
    var line := prefix + IntToString(n) + suffix;
    assert line[..|prefix|] == prefix;
    assert line[|line| - |suffix|..] == suffix;
    assert line[|prefix|..|line| - |suffix|] == IntToString(n);
    ParseIntToString(n);
  }

  /**
    * The summary has 20 lines; its last three give back the table, view and procedure counts,
    * and the page-size line gives back the page size in bytes.
    */
  lemma {:induction false} DatabaseInfoCounts(dbName: string, dbVersion: string, serverName: string, charset: string,
                           collation: string, pageSize: int, tableCount: int, viewCount: int,
                           procCount: int)
    ensures var lines := DatabaseInfoLines(dbName, dbVersion, serverName, charset, collation, pageSize,
                                           tableCount, viewCount, procCount);
      |lines| == 20 &&
      NumberBetween(lines[13], "**Page Size**: ", " bytes") == Some(pageSize) &&
      CountAfter(lines[17], TablesLabel) == Some(tableCount) &&
      CountAfter(lines[18], ViewsLabel) == Some(viewCount) &&
      CountAfter(lines[19], ProceduresLabel) == Some(procCount)
  {
    var lines := DatabaseInfoLines(dbName, dbVersion, serverName, charset, collation, pageSize,
                                   tableCount, viewCount, procCount);
    assert lines[13] == "**Page Size**: " + IntToString(pageSize) + " bytes";
    assert lines[17] == TablesLabel + Thousands(tableCount);
    assert lines[18] == ViewsLabel + Thousands(viewCount);
    assert lines[19] == ProceduresLabel + Thousands(procCount);
    CountAfterLabel(TablesLabel, tableCount);
    CountAfterLabel(ViewsLabel, viewCount);
    CountAfterLabel(ProceduresLabel, procCount);
    NumberBetweenLabel("**Page Size**: ", pageSize, " bytes");
  }

  // ---------------------------------------------------------------------------
  // format_query_results_markdown
  // ---------------------------------------------------------------------------

  /** The longest text a result cell shows. */
  const MaxCellLength := 100

  /** A text longer than 100 characters keeps its first 97 and ends in `...`. */
  function Cut(s: string): string {
    if |s| > MaxCellLength then s[..97] + "..." else s
  }

  /** A cut text is at most 100 characters; a short one is unchanged, a long one is exactly 100. */
  lemma {:induction false} CutBounds(s: string)
    ensures |Cut(s)| <= MaxCellLength
    ensures |s| <= MaxCellLength ==> Cut(s) == s
    ensures |s| > MaxCellLength ==> |Cut(s)| == MaxCellLength && StartsWith(Cut(s), s[..97]) && EndsWith(Cut(s), "...")
  {
    if |s| > MaxCellLength {
      var r := s[..97] + "...";
      assert r[..97] == s[..97];
      assert r[97..] == "...";
    }
  }

  /** A plain text stays plain when it is cut. */
  lemma {:induction false} CutPlain(s: string)
    requires PlainCell(s)
    ensures PlainCell(Cut(s))
  {
    if |s| > MaxCellLength {
      var r := s[..97] + "...";
      assert forall k :: 0 <= k < 97 ==> r[k] == s[k];
      assert forall k :: 97 <= k < 100 ==> r[k] == '.';
      assert r[0] == s[0];
    }
  }

  /** `"NULL"` for `None`, the value's text cut to 100 characters otherwise. */
  function ResultCell(c: Cell): string {
    match c
    case Null => "NULL"
    case Val(text) => Cut(text)
  }

  /** The row has every one of `columns` as a key. */
  predicate HasKeys(row: Row, columns: seq<string>) {
    forall k :: 0 <= k < |columns| ==> columns[k] in Keys(row)
  }

  /** Every row has every one of `columns` as a key. */
  predicate KeyedBy(rows: seq<Row>, columns: seq<string>) {
    forall i :: 0 <= i < |rows| ==> HasKeys(rows[i], columns)
  }

  /** `row[col]` for each of `columns`, rendered. */
  function ResultCells(row: Row, columns: seq<string>): (cells: seq<string>)
    requires HasKeys(row, columns)
    ensures |cells| == |columns|
    ensures forall k :: 0 <= k < |columns| ==> cells[k] == ResultCell(Get(row, columns[k]))
  {
    if columns == [] then []
    else
      var n := |columns| - 1;
      ResultCells(row, columns[..n]) + [ResultCell(Get(row, columns[n]))]
  }

  function ResultRows(rows: seq<Row>, columns: seq<string>): (cells: seq<seq<string>>)
    requires KeyedBy(rows, columns)
    ensures |cells| == |rows|
    ensures forall i :: 0 <= i < |rows| ==> cells[i] == ResultCells(rows[i], columns)
  {
    if rows == [] then []
    else
      var n := |rows| - 1;
      ResultRows(rows[..n], columns) + [ResultCells(rows[n], columns)]
  }

  const NotePrefix := "**\U{26A0}\U{FE0F} Note**: Result set truncated at "
  const NoteSuffix := " rows (more rows exist)"

  function TruncationNote(limit: int): string {
    NotePrefix + IntToString(limit) + NoteSuffix
  }

  /** The whole answer when the query returned no rows: five lines, the third saying so. */
  function NoRowsText(elapsed: string): string {
    Lines(["## Query Results", "", "No rows returned.", "", "**Execution time**: " + elapsed + " seconds"])
  }

  /** The lines above the result table: the truncation note only when more rows exist under a limit. */
  function QueryResultHead(rowCount: int, elapsed: string, hasMore: bool, limit: Option<int>): seq<string> {
    ["## Query Results", "", "**Rows returned**: " + Thousands(rowCount), "**Execution time**: " + elapsed + " seconds"]
    + (if hasMore && IsGiven(limit) then [TruncationNote(limit.value)] else [])
    + [""]
  }

  /** The column names of the first row, a rule, then each row's values under those names. */
  function ResultTable(rows: seq<Row>): seq<seq<string>>
    requires rows != [] && KeyedBy(rows, Keys(rows[0]))
  {
    var columns := Keys(rows[0]);
    [columns, Repeat("---", |columns|)] + ResultRows(rows, columns)
  }

  function QueryResultLines(rows: seq<Row>, rowCount: int, elapsed: string, hasMore: bool, limit: Option<int>): seq<string>
    requires rows != [] && KeyedBy(rows, Keys(rows[0]))
  {
    QueryResultHead(rowCount, elapsed, hasMore, limit) + RowLines(ResultTable(rows))
  }

  /** The values of one row under `columns`: the inner loop of `format_query_results_markdown`. */
  method RowValues(row: Row, columns: seq<string>) returns (values: seq<string>)
    requires HasKeys(row, columns)
    ensures values == ResultCells(row, columns)
  {
    values := [];
    for k := 0 to |columns|
      invariant |values| == k
      invariant forall j :: 0 <= j < k ==> values[j] == ResultCell(Get(row, columns[j]))
    {
      var val := Get(row, columns[k]);
      var valStr: string;
      if val.Null? {
        valStr := "NULL";
      } else {
        valStr := val.text;
        if |valStr| > 100 {
          valStr := valStr[..97] + "...";
        }
      }
      assert valStr == ResultCell(val);
      values := values + [valStr];
    }
    assert |values| == |ResultCells(row, columns)|;
  }

  /** One table row per result row: the outer loop of `format_query_results_markdown`. */
  method ResultRowLines(rows: seq<Row>, columns: seq<string>) returns (lines: seq<string>)
    requires KeyedBy(rows, columns)
    ensures lines == RowLines(ResultRows(rows, columns))
  {
    ghost var body := ResultRows(rows, columns);
    lines := [];
    for i := 0 to |rows|
      invariant |lines| == i
      invariant forall k :: 0 <= k < i ==> lines[k] == TableLine(body[k])
    {
      var values := RowValues(rows[i], columns);
      lines := lines + [TableLine(values)];
    }
  }

  /** The header line and the rule, named by the first row's keys, then the row lines. */
  method ResultTableLines(rows: seq<Row>) returns (lines: seq<string>)
    requires rows != [] && KeyedBy(rows, Keys(rows[0]))
    ensures lines == RowLines(ResultTable(rows))
  {
    var columns := Keys(rows[0]);
    var rowLines := ResultRowLines(rows, columns);
    lines := [TableLine(columns), RuleLine(|columns|)] + rowLines;
    ghost var header := [columns, Repeat("---", |columns|)];
    ghost var body := ResultRows(rows, columns);
    RowLinesPair(columns, Repeat("---", |columns|));
    RowLinesAppend(header, body);
    assert ResultTable(rows) == header + body;
  }

  /**
    * `format_query_results_markdown`. `elapsed` is the execution time already written with
    * three decimals; the rows are the driver's dicts, and every row has the first row's keys.
    */
  method FormatQueryResults(rows: seq<Row>, rowCount: int, elapsed: string, hasMore: bool, limit: Option<int>)
    returns (text: string)
    requires rows == [] || KeyedBy(rows, Keys(rows[0]))
    ensures rows == [] ==> text == NoRowsText(elapsed)
    ensures rows != [] ==> text == Lines(QueryResultLines(rows, rowCount, elapsed, hasMore, limit))
  {
    if rows == [] {
      return Lines(["## Query Results", "", "No rows returned.", "", "**Execution time**: " + elapsed + " seconds"]);
    }
    var output := ["## Query Results", "", "**Rows returned**: " + Thousands(rowCount),
      "**Execution time**: " + elapsed + " seconds"];
    if hasMore && limit.Some? && limit.value != 0 {
      output := output + [NotePrefix + IntToString(limit.value) + NoteSuffix];
    }
    output := output + [""];
    assert output == QueryResultHead(rowCount, elapsed, hasMore, limit);
    var lines := ResultTableLines(rows);
    output := output + lines;
    text := Lines(output);
  }

  /**
    * The head says how many rows came back; it carries the truncation note, naming the limit,
    * exactly when more rows exist and a non-zero limit was given.
    */
  lemma {:induction false} QueryNoteShown(rowCount: int, elapsed: string, hasMore: bool, limit: Option<int>)
    ensures var head := QueryResultHead(rowCount, elapsed, hasMore, limit);
      (|head| == 6 <==> hasMore && IsGiven(limit)) &&
      (hasMore && IsGiven(limit) ==> NumberBetween(head[4], NotePrefix, NoteSuffix) == Some(limit.value)) &&
      CountAfter(head[2], "**Rows returned**: ") == Some(rowCount)
  {
    QueryHeadLength(rowCount, elapsed, hasMore, limit);
    QueryHeadCount(rowCount, elapsed, hasMore, limit);
    if hasMore && IsGiven(limit) {
      QueryHeadNote(rowCount, elapsed, limit);
    }
  }

  lemma {:induction false} QueryHeadLength(rowCount: int, elapsed: string, hasMore: bool, limit: Option<int>)
    ensures |QueryResultHead(rowCount, elapsed, hasMore, limit)| == if hasMore && IsGiven(limit) then 6 else 5
  {
  }

  lemma {:induction false} QueryHeadCount(rowCount: int, elapsed: string, hasMore: bool, limit: Option<int>)
    ensures |QueryResultHead(rowCount, elapsed, hasMore, limit)| > 2
    ensures CountAfter(QueryResultHead(rowCount, elapsed, hasMore, limit)[2], "**Rows returned**: ") == Some(rowCount)
  {
    assert QueryResultHead(rowCount, elapsed, hasMore, limit)[2] == "**Rows returned**: " + Thousands(rowCount);
    CountAfterLabel("**Rows returned**: ", rowCount);
  }

  lemma {:induction false} QueryHeadNote(rowCount: int, elapsed: string, limit: Option<int>)
    requires IsGiven(limit)
    ensures |QueryResultHead(rowCount, elapsed, true, limit)| > 4
    ensures NumberBetween(QueryResultHead(rowCount, elapsed, true, limit)[4], NotePrefix, NoteSuffix) == Some(limit.value)
  {
    assert QueryResultHead(rowCount, elapsed, true, limit)[4] == NotePrefix + IntToString(limit.value) + NoteSuffix;
    NumberBetweenLabel(NotePrefix, limit.value, NoteSuffix);
  }

  /** The values of a row that read back from table cells. */
  predicate PlainValues(row: Row) {
    forall j :: 0 <= j < |row| ==> PlainValue(row[j].1)
  }

  lemma {:induction false} GetPlain(row: Row, key: string)
    requires key in Keys(row) && PlainValues(row)
    ensures PlainValue(Get(row, key))
  {
    if row[0].0 != key {
      assert Keys(row[1..]) == Keys(row)[1..];
      GetPlain(row[1..], key);
    }
  }

  lemma {:induction false} ResultCellPlain(c: Cell)
    requires PlainValue(c)
    ensures PlainCell(ResultCell(c))
  {
    if c.Null? {
      assert "NULL"[0] == 'N' && "NULL"[3] == 'L';
    } else {
      CutPlain(c.text);
    }
  }

  /** Text joined from pieces without line breaks has none. */
  lemma {:induction false} ConcatIsOneLine(a: string, b: string, c: string)
    requires '\n' !in a && '\n' !in b && '\n' !in c
    ensures '\n' !in a + b + c
  {
  }

  lemma {:induction false} QueryHeadLiteralsAreOneLine()
    ensures '\n' !in "## Query Results" && '\n' !in "**Rows returned**: " && '\n' !in "**Execution time**: "
    ensures '\n' !in " seconds"
  {
  }

  lemma {:induction false} NoteLiteralsAreOneLine()
    ensures '\n' !in NotePrefix && '\n' !in NoteSuffix
  {
  }

  lemma {:induction false} QueryHeadIsOneLinePerItem(rowCount: int, elapsed: string, hasMore: bool, limit: Option<int>)
    requires '\n' !in elapsed
    ensures var head := QueryResultHead(rowCount, elapsed, hasMore, limit);
      forall k :: 0 <= k < |head| ==> '\n' !in head[k]
  {
    var head := QueryResultHead(rowCount, elapsed, hasMore, limit);
    QueryHeadLiteralsAreOneLine();
    ThousandsChars(rowCount);
    assert '\n' !in "**Rows returned**: " + Thousands(rowCount);
    ConcatIsOneLine("**Execution time**: ", elapsed, " seconds");
    var lines := ["## Query Results", "", "**Rows returned**: " + Thousands(rowCount),
                  "**Execution time**: " + elapsed + " seconds"];
    var tail := [""];
    if hasMore && IsGiven(limit) {
      IntToStringPlain(limit.value);
      NoteLiteralsAreOneLine();
      ConcatIsOneLine(NotePrefix, IntToString(limit.value), NoteSuffix);
      lines := lines + [NotePrefix + IntToString(limit.value) + NoteSuffix];
    }
    assert head == lines + tail;
  }

  /** Plain keys and values make every line of the result table a row of plain cells. */
  lemma {:induction false} ResultTablePlain(rows: seq<Row>)
    requires rows != [] && KeyedBy(rows, Keys(rows[0]))
    requires Keys(rows[0]) != [] && AllPlain(Keys(rows[0]))
    requires forall i :: 0 <= i < |rows| ==> PlainValues(rows[i])
    ensures forall i :: 0 <= i < |ResultTable(rows)| ==> ResultTable(rows)[i] != [] && AllPlain(ResultTable(rows)[i])
  {
    var columns := Keys(rows[0]);
    var rule := Repeat("---", |columns|);
    var body := ResultRows(rows, columns);
    assert ResultTable(rows) == [columns, rule] + body;
    RulePlain(|columns|);
    forall i | 0 <= i < |body|
      ensures body[i] != [] && AllPlain(body[i])
    {
      ResultCellsPlain(rows[i], columns);
    }
    PlainRowsAbove(columns, rule, body);
  }

  /** Two plain rows above plain rows make plain rows. */
  lemma {:induction false} PlainRowsAbove(header: seq<string>, rule: seq<string>, body: seq<seq<string>>)
    requires header != [] && AllPlain(header) && rule != [] && AllPlain(rule)
    requires forall i :: 0 <= i < |body| ==> body[i] != [] && AllPlain(body[i])
    ensures forall i :: 0 <= i < |[header, rule] + body| ==>
      ([header, rule] + body)[i] != [] && AllPlain(([header, rule] + body)[i])
  {
    var table := [header, rule] + body;
    forall i | 2 <= i < |table|
      ensures table[i] == body[i - 2]
    {
    }
  }

  lemma {:induction false} RulePlain(n: nat)
    ensures AllPlain(Repeat("---", n))
  {
    var rule := Repeat("---", n);
    assert forall k :: 0 <= k < |rule| ==> rule[k] == "---";
  }

  lemma {:induction false} ResultCellsPlain(row: Row, columns: seq<string>)
    requires HasKeys(row, columns) && PlainValues(row)
    ensures AllPlain(ResultCells(row, columns))
  {
    forall k | 0 <= k < |columns|
      ensures PlainCell(ResultCells(row, columns)[k])
    {
      GetPlain(row, columns[k]);
      ResultCellPlain(Get(row, columns[k]));
    }
  }

  /**
    * With plain column names and values, the results read back, after the head, as the first
    * row's keys, a rule of one `---` per key, then per row its values in key order, `None`
    * as `NULL` and long texts cut.
    */
  lemma {:induction false} QueryResultsReadBack(rows: seq<Row>, rowCount: int, elapsed: string, hasMore: bool, limit: Option<int>)
    requires rows != [] && KeyedBy(rows, Keys(rows[0]))
    requires Keys(rows[0]) != [] && AllPlain(Keys(rows[0]))
    requires forall i :: 0 <= i < |rows| ==> PlainValues(rows[i])
    requires '\n' !in elapsed
    ensures ReadsBackAsTable(Lines(QueryResultLines(rows, rowCount, elapsed, hasMore, limit)),
                             |QueryResultHead(rowCount, elapsed, hasMore, limit)|, ResultTable(rows))
  {
    ResultTablePlain(rows);
    QueryHeadIsOneLinePerItem(rowCount, elapsed, hasMore, limit);
    DocumentReadsBack(QueryResultHead(rowCount, elapsed, hasMore, limit), ResultTable(rows));
  }
}
