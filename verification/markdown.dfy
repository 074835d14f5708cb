/**
  * The two markdown shapes every formatter produces: a table row `| a | b | c |` and a
  * document of lines joined with "\n". Each comes with a reader that takes it apart again,
  * so the formatters' outputs can be stated as "reads back as".
  */
module Markdown {
  import opened Text

  /** `"| " + " | ".join(cells) + " |"` */
  function TableLine(cells: seq<string>): string {
    "| " + Join(cells, " | ") + " |"
  }

  /** `"| " + " | ".join(["---"] * n) + " |"`: the rule under a generated header. */
  function RuleLine(n: int): string {
    TableLine(Repeat("---", n))
  }

  /** `"\n".join(lines)` */
  function Lines(lines: seq<string>): string {
    Join(lines, "\n")
  }

  /** A cell that survives a round trip through a table row: no bar, no line break, no outer blanks. */
  predicate PlainCell(c: string) {
    '|' !in c && '\n' !in c && IsStripped(c)
  }

  predicate AllPlain(cells: seq<string>) {
    forall k :: 0 <= k < |cells| ==> PlainCell(cells[k])
  }

  /** The cells of a table row: the text between its bars, stripped. */
  function CellsOf(line: string): seq<string> {
    var parts := Split(line, '|');
    if |parts| < 3 then [] else StripEach(parts[1..|parts| - 1])
  }

  /** Each cell with one blank on either side. */
  function Padded(cells: seq<string>): (r: seq<string>)
    ensures |r| == |cells|
    ensures forall k :: 0 <= k < |r| ==> r[k] == " " + cells[k] + " "
  {
    if cells == [] then [] else [" " + cells[0] + " "] + Padded(cells[1..])
  }

  lemma {:induction false} JoinSnoc(parts: seq<string>, x: string, sep: string)
    requires parts != []
    ensures Join(parts + [x], sep) == Join(parts, sep) + sep + x
  {
    if |parts| > 1 {
      assert (parts + [x])[1..] == parts[1..] + [x];
      JoinSnoc(parts[1..], x, sep);
    }
  }

  lemma {:induction false} JoinPadded(cells: seq<string>)
    requires cells != []
    ensures Join(Padded(cells), "|") == " " + Join(cells, " | ") + " "
  {
    if |cells| > 1 {
      JoinPadded(cells[1..]);
      assert Padded(cells)[1..] == Padded(cells[1..]);
    }
  }

  /** A table row is the padded cells joined with bars, with an empty part at either end. */
  lemma {:induction false} TableLineAsJoin(cells: seq<string>)
    requires cells != []
    ensures TableLine(cells) == Join([""] + Padded(cells) + [""], "|")
  {
    JoinPadded(cells);
    var p := Padded(cells);
    assert ([""] + p)[1..] == p;
    JoinSnoc([""] + p, "", "|");
  }

  lemma {:induction false} StripPadded(c: string)
    requires IsStripped(c)
    ensures Strip(" " + c + " ") == c
  {
    assert " " + c + " " == " " + (c + " ");
    assert (" " + (c + " "))[1..] == c + " ";
    assert LStrip(" " + (c + " ")) == LStrip(c + " ");
    if c == [] {
      assert LStrip(" ") == LStrip(" "[1..]);
    } else {
      StripBlankAfter(c);
    }
  }

  lemma {:induction false} StripBlankAfter(c: string)
    requires c != [] && IsStripped(c)
    ensures RStrip(LStrip(c + " ")) == c
  {
    assert (c + " ")[0] == c[0];
    assert LStrip(c + " ") == c + " ";
    assert (c + " ")[..|c|] == c;
  }

  lemma {:induction false} StripEachPadded(cells: seq<string>)
    requires forall k :: 0 <= k < |cells| ==> IsStripped(cells[k])
    ensures StripEach(Padded(cells)) == cells
  {
    forall k | 0 <= k < |cells|
      ensures StripEach(Padded(cells))[k] == cells[k]
    {
      StripPadded(cells[k]);
    }
  }

  /** Parts without bars, joined with bars between empty ends, read back as the stripped parts. */
  lemma {:induction false} CellsOfBarJoin(inner: seq<string>)
    requires inner != []
    requires forall k :: 0 <= k < |inner| ==> '|' !in inner[k]
    ensures CellsOf(Join([""] + inner + [""], "|")) == StripEach(inner)
  {
    var parts := [""] + inner + [""];
    assert forall k :: 0 <= k < |parts| ==> parts[k] == "" || parts[k] == inner[k - 1];
    SplitJoin(parts, '|');
    assert parts[1..|parts| - 1] == inner;
  }

  lemma {:induction false} PaddedWithoutBar(cells: seq<string>)
    requires AllPlain(cells)
    ensures forall k :: 0 <= k < |cells| ==> '|' !in Padded(cells)[k]
  {
    forall k | 0 <= k < |cells|
      ensures '|' !in Padded(cells)[k]
    {
      assert Padded(cells)[k] == " " + cells[k] + " ";
    }
  }

  /** A table row of plain cells reads back as exactly those cells, in order. */
  lemma {:induction false} CellsOfTableLine(cells: seq<string>)
    requires cells != [] && AllPlain(cells)
    ensures CellsOf(TableLine(cells)) == cells
  {
    TableLineAsJoin(cells);
    PaddedWithoutBar(cells);
    CellsOfBarJoin(Padded(cells));
    StripEachPadded(cells);
  }

  /** The rule under a header of `n > 0` columns reads back as `n` cells of `---`. */
  lemma {:induction false} CellsOfRuleLine(n: int)
    requires n > 0
    ensures CellsOf(RuleLine(n)) == Repeat("---", n)
  {
    var cells := Repeat("---", n);
    forall k | 0 <= k < |cells|
      ensures PlainCell(cells[k])
    {
      assert cells[k] == "---";
    }
    CellsOfTableLine(cells);
  }

  lemma {:induction false} JoinKeepsOut(parts: seq<string>, sep: string, c: char)
    requires c !in sep
    requires forall k :: 0 <= k < |parts| ==> c !in parts[k]
    ensures c !in Join(parts, sep)
  {
    if |parts| > 1 {
      JoinKeepsOut(parts[1..], sep, c);
    }
  }

  /** A row of cells without line breaks is one line. */
  lemma {:induction false} TableLineIsOneLine(cells: seq<string>)
    requires forall k :: 0 <= k < |cells| ==> '\n' !in cells[k]
    ensures '\n' !in TableLine(cells)
  {
    JoinKeepsOut(cells, " | ", '\n');
  }

  /** A document of lines without line breaks splits back into those lines. */
  lemma {:induction false} LinesReadBack(lines: seq<string>)
    requires lines != []
    requires forall k :: 0 <= k < |lines| ==> '\n' !in lines[k]
    ensures Split(Lines(lines), '\n') == lines
  {
    SplitJoin(lines, '\n');
    assert Lines(lines) == Join(lines, ['\n']);
  }

  /** One table row per list of cells. */
  function RowLines(rows: seq<seq<string>>): (lines: seq<string>)
    ensures |lines| == |rows|
    ensures forall i :: 0 <= i < |rows| ==> lines[i] == TableLine(rows[i])
  {
    if rows == [] then [] else RowLines(rows[..|rows| - 1]) + [TableLine(rows[|rows| - 1])]
  }

  lemma {:induction false} RowLinesSnoc(rows: seq<seq<string>>, row: seq<string>)
    ensures RowLines(rows + [row]) == RowLines(rows) + [TableLine(row)]
  {
    assert (rows + [row])[..|rows|] == rows;
  }

  lemma {:induction false} RowLinesPair(a: seq<string>, b: seq<string>)
    ensures RowLines([a, b]) == [TableLine(a), TableLine(b)]
  {
    assert [a, b][..1] == [a];
  }

  lemma {:induction false} RowLinesAppend(a: seq<seq<string>>, b: seq<seq<string>>)
    ensures RowLines(a + b) == RowLines(a) + RowLines(b)
  {
    var l, r := RowLines(a + b), RowLines(a) + RowLines(b);
    forall k | 0 <= k < |l|
      ensures l[k] == r[k]
    {
      if k >= |a| {
        assert (a + b)[k] == b[k - |a|];
      }
    }
  }

  /**
    * `text` splits into `skip` lines followed by one line per entry of `rows`, and each of
    * those lines reads back as that entry's cells.
    */
  predicate ReadsBackAsTable(text: string, skip: nat, rows: seq<seq<string>>) {
    var lines := Split(text, '\n');
    |lines| == skip + |rows| &&
    forall i :: 0 <= i < |rows| ==> CellsOf(lines[skip + i]) == rows[i]
  }

  /** A document made of `head` lines followed by table rows reads back as those rows. */
  lemma {:induction false} DocumentReadsBack(head: seq<string>, rows: seq<seq<string>>)
    requires head != [] || rows != []
    requires forall k :: 0 <= k < |head| ==> '\n' !in head[k]
    requires forall i :: 0 <= i < |rows| ==> rows[i] != [] && AllPlain(rows[i])
    ensures ReadsBackAsTable(Lines(head + RowLines(rows)), |head|, rows)
  {
    var lines := head + RowLines(rows);
    forall k | 0 <= k < |lines|
      ensures '\n' !in lines[k]
    {
      if k >= |head| {
        TableLineIsOneLine(rows[k - |head|]);
      }
    }
    LinesReadBack(lines);
    forall i | 0 <= i < |rows|
      ensures CellsOf(lines[|head| + i]) == rows[i]
    {
      CellsOfTableLine(rows[i]);
    }
  }

  /** A document made only of table rows reads back as those rows. */
  lemma {:induction false} RowsReadBack(rows: seq<seq<string>>)
    requires rows != []
    requires forall i :: 0 <= i < |rows| ==> rows[i] != [] && AllPlain(rows[i])
    ensures ReadsBackAsTable(Lines(RowLines(rows)), 0, rows)
  {
    var empty: seq<string> := [];
    assert empty + RowLines(rows) == RowLines(rows);
    DocumentReadsBack(empty, rows);
  }

  /** The first line of a text is everything before its first line break. */
  lemma {:induction false} FirstLine(line: string, rest: string)
    requires '\n' !in line
    ensures Split(line + "\n" + rest, '\n')[0] == line
  {
    var s := line + "\n" + rest;
    assert s[|line|] == '\n' && s[..|line|] == line;
    assert IndexOf(s, '\n') == |line|;
  }
}
