/** `parseTableData` (src/app/page_backup.tsx) read against the tool's success message
    (src/app/actions.ts): what it gives back, and when that is exactly the rows, as strings. */
module RoundTrip {
  import opened Text
  import opened Database
  import opened Actions
  import opened Page

  /** A grid line: `| c1 | ... | cm |`. */
  function Framed(cells: seq<string>): string {
    "| " + Join(cells, " | ") + " |"
  }

  /** A cell with one space on either side, as the frame writes it between two bars. */
  function Padded(c: string): string {
    " " + c + " "
  }

  lemma FramedLines(keys: seq<string>, row: Row)
    ensures HeaderLine(keys) == Framed(keys)
    ensures DataLine(keys, row) == Framed(RowCells(keys, row))
  {
  }

  /** Between the outer bars, a framed line is the padded cells joined by bars. */
  lemma {:induction false} JoinPadded(cells: seq<string>)
    requires |cells| >= 1
    ensures Join(Map(Padded, cells), "|") == " " + Join(cells, " | ") + " "
    decreases |cells|
  {
    if |cells| > 1 {
      JoinPadded(cells[1..]);
      assert Map(Padded, cells)[1..] == Map(Padded, cells[1..]);
    }
  }

  /** `trim` undoes the padding of cells that have no white space at their ends. */
  lemma TrimUnpads(cells: seq<string>)
    requires forall k :: 0 <= k < |cells| ==> Trimmed(cells[k])
    ensures Map(Trim, Map(Padded, cells)) == cells
  {
    forall k | 0 <= k < |cells| ensures Trim(Padded(cells[k])) == cells[k] {
      TrimPadded(cells[k]);
    }
  }

  /** The pieces between the bars of a framed line: the padded cells, and an empty piece
      outside each outer bar. */
  lemma {:induction false} SplitFramed(cells: seq<string>)
    requires forall k :: 0 <= k < |cells| ==> '|' !in cells[k]
    ensures cells == [] ==> Split(Framed(cells), '|') == ["", "  ", ""]
    ensures cells != [] ==> Split(Framed(cells), '|') == [""] + Map(Padded, cells) + [""]
  {
    var inner := " " + Join(cells, " | ") + " ";
    assert Framed(cells) == "" + ['|'] + (inner + ['|'] + "");
    SplitAround("", inner + ['|'] + "", '|');
    SplitAround(inner, "", '|');
    if cells == [] {
      assert inner == "  ";
      SplitNoSeparator(inner, '|');
    } else {
      JoinPadded(cells);
      SplitJoin(Map(Padded, cells), '|');
    }
  }

  lemma TrimOuter(xs: seq<string>)
    ensures Map(Trim, [""] + xs + [""]) == [""] + Map(Trim, xs) + [""]
  {
    MapAppend(Trim, [""] + xs, [""]);
    MapAppend(Trim, [""], xs);
    TrimAllSpace("");
  }

  lemma DropOuter(xs: seq<string>)
    ensures Filter(NonEmpty, [""] + xs + [""]) == Filter(NonEmpty, xs)
  {
    FilterAppend(NonEmpty, [""] + xs, [""]);
    FilterAppend(NonEmpty, [""], xs);
    FilterNone(NonEmpty, [""]);
  }

  /** Reading the cells of a framed line gives back its non-empty cells, in order, provided no
      cell holds a bar or ends in white space: an empty cell is dropped, which shifts the
      later values one place to the left. */
  lemma {:induction false} CellsOfFramed(cells: seq<string>)
    requires forall k :: 0 <= k < |cells| ==> '|' !in cells[k] && Trimmed(cells[k])
    ensures Cells(Framed(cells)) == Filter(NonEmpty, cells)
  {
    SplitFramed(cells);
    if cells == [] {
      var gap := "  ";
      assert AllSpace(gap);
      TrimAllSpace(gap);
      assert ["", gap, ""] == [""] + [gap] + [""];
      TrimOuter([gap]);
      assert Map(Trim, [gap]) == [""];
      DropOuter([""]);
      FilterNone(NonEmpty, [""]);
    } else {
      var padded := Map(Padded, cells);
      TrimOuter(padded);
      TrimUnpads(cells);
      DropOuter(cells);
    }
  }

  /** Cells that are non-empty, bar-free and trimmed are read back unchanged. */
  lemma CellsOfCleanFramed(cells: seq<string>)
    requires forall k :: 0 <= k < |cells| ==> cells[k] != "" && '|' !in cells[k] && Trimmed(cells[k])
    ensures Cells(Framed(cells)) == cells
  {
    CellsOfFramed(cells);
    FilterAll(NonEmpty, cells);
  }

  /** The first line of a success message: `Query executed successfully! Found N results:`. */
  function CountLine(n: nat): string {
    SuccessLead + NatToString(n) + SuccessTail
  }

  /** The line that repeats the query. */
  function QueryLine(sql: string): string {
    SqlLabel + sql
  }

  /** The lines before the grid: the count, a blank line, the query, a blank line. */
  function Preamble(sql: string, n: nat): seq<string> {
    [CountLine(n), "", QueryLine(sql), ""]
  }

  lemma JoinCons(x: string, rest: seq<string>, sep: string)
    requires |rest| >= 1
    ensures Join([x] + rest, sep) == x + sep + Join(rest, sep)
  {
    assert ([x] + rest)[1..] == rest;
  }

  /** Four lines, then the rest, joined. */
  lemma JoinFourThen(a: string, b: string, c: string, d: string, g: seq<string>, sep: string)
    requires |g| >= 1
    ensures Join([a, b, c, d] + g, sep) == a + sep + (b + sep + (c + sep + (d + sep + Join(g, sep))))
  {
    var r3 := [d] + g;
    var r2 := [c] + r3;
    var r1 := [b] + r2;
    assert [a, b, c, d] + g == [a] + r1;
    JoinCons(a, r1, sep);
    JoinCons(b, r2, sep);
    JoinCons(c, r3, sep);
    JoinCons(d, g, sep);
  }

  lemma RegroupBlankLines(a: string, c: string, rest: string, n: string, e: string)
    requires e == []
    ensures a + n + (e + n + (c + n + (e + n + rest))) == a + (n + n) + c + (n + n) + rest
  {
  }

  /** Two lines, each followed by a blank line, then the rest. */
  lemma JoinWithBlankLines(a: string, c: string, g: seq<string>)
    requires |g| >= 1
    ensures Join([a, "", c, ""] + g, "\n") == a + Gap + c + Gap + Join(g, "\n")
  {
    JoinFourThen(a, "", c, "", g, "\n");
    RegroupBlankLines(a, c, Join(g, "\n"), "\n", "");
    assert "\n" + "\n" == Gap;
  }

  lemma Regroup(a: string, b: string, c: string, d: string, e: string, f: string, g: string, h: string)
    ensures a + b + c + d + e + f + g + h == (a + b + c) + d + (e + f) + g + h
  {
  }

  lemma SuccessTextIsJoin(sql: string, rows: seq<Row>)
    requires |rows| > 0
    ensures SuccessText(sql, rows) == Join(Preamble(sql, |rows|) + GridParts(rows), "\n")
  {
    GridIsJoin(rows);
    JoinWithBlankLines(CountLine(|rows|), QueryLine(sql), GridParts(rows));
    Regroup(SuccessLead, NatToString(|rows|), SuccessTail, Gap, SqlLabel, sql, Gap, Grid(rows));
  }

  lemma PreambleHasNoBreak(sql: string, n: nat)
    requires '\n' !in sql
    ensures forall k :: 0 <= k < 4 ==> '\n' !in Preamble(sql, n)[k]
  {
    assert '\n' !in SuccessLead && '\n' !in SuccessTail && '\n' !in SqlLabel;
  }

  lemma PreambleHasNoBar(sql: string, n: nat)
    requires '|' !in sql
    ensures forall k :: 0 <= k < 4 ==> !HasBar(Preamble(sql, n)[k])
  {
    assert '|' !in SuccessLead && '|' !in SuccessTail && '|' !in SqlLabel;
    var p := Preamble(sql, n);
    forall k | 0 <= k < 4 ensures !HasBar(p[k]) {
      IncludesChar(p[k], '|');
      assert "|" == ['|'];
    }
  }

  /** A line that starts with a bar holds one. */
  lemma StartsWithBar(line: string)
    requires |line| > 0 && line[0] == '|'
    ensures HasBar(line)
  {
    IncludesChar(line, '|');
    assert "|" == ['|'];
  }

  /** Each kind of grid line starts with a bar. */
  lemma GridLinesStartWithBar(keys: seq<string>, row: Row)
    ensures |HeaderLine(keys)| > 0 && HeaderLine(keys)[0] == '|'
    ensures |SeparatorLine(keys)| > 0 && SeparatorLine(keys)[0] == '|'
    ensures |DataLine(keys, row)| > 0 && DataLine(keys, row)[0] == '|'
  {
  }

  lemma AllStartWithBar(lines: seq<string>)
    requires forall k :: 0 <= k < |lines| ==> |lines[k]| > 0 && lines[k][0] == '|'
    ensures forall k :: 0 <= k < |lines| ==> HasBar(lines[k])
  {
    forall k | 0 <= k < |lines| ensures HasBar(lines[k]) {
      StartsWithBar(lines[k]);
    }
  }

  lemma DataLinesStartWithBar(keys: seq<string>, rows: seq<Row>)
    ensures forall k :: 0 <= k < |rows| ==> |DataLines(keys, rows)[k]| > 0 && DataLines(keys, rows)[k][0] == '|'
  {
    forall k | 0 <= k < |rows| ensures |DataLines(keys, rows)[k]| > 0 && DataLines(keys, rows)[k][0] == '|' {
      GridLinesStartWithBar(keys, rows[k]);
    }
  }

  lemma AllStartWithBarAfter(h: string, s: string, d: seq<string>)
    requires |h| > 0 && h[0] == '|' && |s| > 0 && s[0] == '|'
    requires forall k :: 0 <= k < |d| ==> |d[k]| > 0 && d[k][0] == '|'
    ensures forall k :: 0 <= k < |[h, s] + d| ==> |([h, s] + d)[k]| > 0 && ([h, s] + d)[k][0] == '|'
  {
    var g := [h, s] + d;
    forall k | 0 <= k < |g| ensures |g[k]| > 0 && g[k][0] == '|' {
      if k >= 2 {
        assert g[k] == d[k - 2];
      }
    }
  }

  /** Every grid line starts with a bar. */
  lemma GridPartsStartWithBar(rows: seq<Row>)
    requires |rows| > 0
    ensures forall k :: 0 <= k < |GridParts(rows)| ==> |GridParts(rows)[k]| > 0 && GridParts(rows)[k][0] == '|'
  {
    var keys := Names(rows[0]);
    GridLinesStartWithBar(keys, rows[0]);
    DataLinesStartWithBar(keys, rows);
    AllStartWithBarAfter(HeaderLine(keys), SeparatorLine(keys), DataLines(keys, rows));
  }

  /** A text the grid writes and the parser reads back unchanged: non-empty (so truthy), and
      without bars, line breaks or white space at either end. */
  predicate Clean(s: string) {
    s != "" && '|' !in s && '\n' !in s && Trimmed(s)
  }

  /** The grid of `rows` can be read back: every key of the first row and every rendered cell
      is clean. */
  predicate Readable(rows: seq<Row>)
    requires |rows| > 0
  {
    var keys := Names(rows[0]);
    && (forall j :: 0 <= j < |keys| ==> Clean(keys[j]))
    && (forall i, j :: 0 <= i < |rows| && 0 <= j < |keys| ==> Clean(RowCells(keys, rows[i])[j]))
  }

  /** The grid of readable rows holds no line break. */
  lemma ReadableHasNoBreak(rows: seq<Row>)
    requires |rows| > 0 && Readable(rows)
    ensures forall k :: 0 <= k < |GridParts(rows)| ==> '\n' !in GridParts(rows)[k]
  {
    var keys := Names(rows[0]);
    forall k | 0 <= k < |rows[0]| ensures '\n' !in rows[0][k].0 {
      assert Clean(keys[k]);
    }
    assert CellsExclude(keys, rows, '\n') by {
      forall i, j | 0 <= i < |rows| && 0 <= j < |keys| ensures '\n' !in RowCells(keys, rows[i])[j] {
        assert Clean(RowCells(keys, rows[i])[j]);
      }
    }
    GridPartsExclude(rows, '\n');
  }

  /** The lines of a success message: the four lines before the grid, then the grid's. */
  lemma SuccessSplit(sql: string, rows: seq<Row>)
    requires |rows| > 0 && Readable(rows) && '\n' !in sql
    ensures Split(SuccessText(sql, rows), '\n') == Preamble(sql, |rows|) + GridParts(rows)
  {
    var pre := Preamble(sql, |rows|);
    var g := GridParts(rows);
    SuccessTextIsJoin(sql, rows);
    PreambleHasNoBreak(sql, |rows|);
    ReadableHasNoBreak(rows);
    forall k | 0 <= k < |pre + g| ensures '\n' !in (pre + g)[k] {
      if k >= |pre| {
        assert (pre + g)[k] == g[k - |pre|];
      }
    }
    SplitJoin(pre + g, '\n');
  }

  /** Lines without a bar followed by lines that start with one: the filter keeps the latter. */
  lemma BarLinesAfter(pre: seq<string>, g: seq<string>)
    requires forall k :: 0 <= k < |pre| ==> !HasBar(pre[k])
    requires forall k :: 0 <= k < |g| ==> |g[k]| > 0 && g[k][0] == '|'
    ensures Filter(HasBar, pre + g) == g
  {
    FilterAppend(HasBar, pre, g);
    FilterNone(HasBar, pre);
    AllStartWithBar(g);
    FilterAll(HasBar, g);
  }

  /** Of the lines of a success message, exactly the grid lines hold a bar, when the query
      holds no bar and no line break. */
  lemma SuccessTableLines(sql: string, rows: seq<Row>)
    requires |rows| > 0 && Readable(rows)
    requires '|' !in sql && '\n' !in sql
    ensures TableLines(SuccessText(sql, rows)) == GridParts(rows)
  {
    SuccessSplit(sql, rows);
    PreambleHasNoBar(sql, |rows|);
    GridPartsStartWithBar(rows);
    BarLinesAfter(Preamble(sql, |rows|), GridParts(rows));
  }

  /** With a bar in the query, the `SQL Query:` line is the only line of the preamble that
      holds one. */
  lemma PreambleBars(sql: string, n: nat)
    requires '|' in sql
    ensures Filter(HasBar, Preamble(sql, n)) == [QueryLine(sql)]
  {
    assert '|' !in SuccessLead && '|' !in SuccessTail && '|' !in SqlLabel;
    assert '|' !in NatToString(n);
    assert "|" == ['|'];
    IncludesChar(CountLine(n), '|');
    IncludesChar("", '|');
    IncludesChar(QueryLine(sql), '|');
    var front, back := [CountLine(n), ""], [QueryLine(sql), ""];
    assert Preamble(sql, n) == front + back;
    FilterNone(HasBar, front);
    assert Filter(HasBar, back) == [QueryLine(sql)] by {
      assert back[1..] == [""];
    }
    FilterAppend(HasBar, front, back);
  }

  /** A query holding a bar, such as SQL's `||` operator, puts the `SQL Query:` line among
      the table lines. The page then takes that line as the header, the real header as the
      separator and the separator as a data row, so the parse yields one row too many. */
  lemma BarInQueryCountsOneMore(sql: string, rows: seq<Row>)
    requires |rows| > 0 && Readable(rows)
    requires '|' in sql && '\n' !in sql
    ensures TableLines(SuccessText(sql, rows)) == [QueryLine(sql)] + GridParts(rows)
    ensures |ParseTableData(SuccessText(sql, rows))| == |rows| + 1
  {
    var g := GridParts(rows);
    var pre := Preamble(sql, |rows|);
    SuccessSplit(sql, rows);
    PreambleBars(sql, |rows|);
    FilterAppend(HasBar, pre, g);
    GridPartsStartWithBar(rows);
    AllStartWithBar(g);
    FilterAll(HasBar, g);
  }

  /** A row as the parser gives it back: under each key of the first row, its rendered value. */
  function AsStrings(keys: seq<string>, row: Row): Record {
    seq(|keys|, j requires 0 <= j < |keys| => (keys[j], Render(Lookup(row, keys[j]))))
  }

  /** The keys of a row are distinct. */
  lemma NamesDistinct(row: Row)
    ensures forall i, j :: 0 <= i < j < |Names(row)| ==> Names(row)[i] != Names(row)[j]
  {
    var keys := Names(row);
    forall i, j | 0 <= i < j < |keys| ensures keys[i] != keys[j] {
      assert keys[i] == row[i].0 && keys[j] == row[j].0;
    }
  }

  /** The rendered cells of a row of readable rows are clean. */
  lemma ReadableCells(rows: seq<Row>, k: nat)
    requires |rows| > 0 && Readable(rows) && k < |rows|
    ensures var cells := RowCells(Names(rows[0]), rows[k]);
            forall j :: 0 <= j < |cells| ==> cells[j] != "" && '|' !in cells[j] && Trimmed(cells[j])
  {
    var keys := Names(rows[0]);
    forall j | 0 <= j < |RowCells(keys, rows[k])| ensures Clean(RowCells(keys, rows[k])[j]) {
      assert 0 <= j < |keys|;
    }
  }

  lemma ParsedDataLine(rows: seq<Row>, k: nat)
    requires |rows| > 0 && Readable(rows) && k < |rows|
    ensures ParseLine(Names(rows[0]), DataLine(Names(rows[0]), rows[k])) == AsStrings(Names(rows[0]), rows[k])
  {
    var keys := Names(rows[0]);
    var cells := RowCells(keys, rows[k]);
    FramedLines(keys, rows[k]);
    ReadableCells(rows, k);
    CellsOfCleanFramed(cells);
    assert Cells(DataLine(keys, rows[k])) == cells;
    NamesDistinct(rows[0]);
    BuildRowDistinct(keys, cells);
    var built := BuildRow(keys, cells);
    var expected := AsStrings(keys, rows[k]);
    forall j | 0 <= j < |keys| ensures built[j] == expected[j] {
      assert cells[j] != "";
    }
    assert built == expected;
  }

  /** Any text whose `|`-lines are the grid of readable rows parses back to those rows,
      as strings. */
  lemma {:induction false} ParseGrid(content: string, rows: seq<Row>)
    requires |rows| > 0 && Readable(rows)
    requires TableLines(content) == GridParts(rows)
    ensures |ParseTableData(content)| == |rows|
    ensures forall k :: 0 <= k < |rows| ==> ParseTableData(content)[k] == AsStrings(Names(rows[0]), rows[k])
  {
    var keys := Names(rows[0]);
    var lines := TableLines(content);
    FramedLines(keys, rows[0]);
    CellsOfCleanFramed(keys);
    assert Cells(lines[0]) == keys;
    forall k | 0 <= k < |rows| ensures ParseTableData(content)[k] == AsStrings(keys, rows[k]) {
      assert lines[k + 2] == DataLine(keys, rows[k]);
      ParsedDataLine(rows, k);
    }
  }

  /** Round trip: parsing the success message of a non-empty result gives back one row object
      per row, the keys of the first row in order, each with its rendered value, when the query
      holds no bar and no line break and the keys and values are clean. */
  lemma ParseSuccessText(sql: string, rows: seq<Row>)
    requires |rows| > 0 && Readable(rows)
    requires '|' !in sql && '\n' !in sql
    ensures |ParseTableData(SuccessText(sql, rows))| == |rows|
    ensures forall k :: 0 <= k < |rows| ==> ParseTableData(SuccessText(sql, rows))[k] == AsStrings(Names(rows[0]), rows[k])
  {
    SuccessTableLines(sql, rows);
    ParseGrid(SuccessText(sql, rows), rows);
  }

  // Which replies the page shows as a table

  lemma Regroup3(a: string, b: string, c: string, d: string, e: string)
    ensures a + (b + "\n" + c + "\n" + d) + e == (a + b + "\n") + c + ("\n" + d + e)
  {
  }

  lemma {:induction false} SeparatorHasDashes(keys: seq<string>)
    requires |keys| > 0
    ensures Includes(SeparatorLine(keys), "---")
  {
    var m := Map((k: string) => "---", keys);
    var rest := if |m| == 1 then " |" else " | " + Join(m[1..], " | ") + " |";
    assert SeparatorLine(keys) == "| " + "---" + rest;
    assert OccursAt("---", "---", 0);
    IncludesWithin("| ", "---", rest, "---");
  }

  /** A success message with at least one column, passed on unchanged by the agent, is shown
      as a table: it has bars and the separator's `---`. */
  lemma {:induction false} SuccessHasTableData(sql: string, rows: seq<Row>)
    requires |rows| > 0 && |rows[0]| > 0
    ensures HasTableData(SuccessText(sql, rows))
  {
    var keys := Names(rows[0]);
    var sep := SeparatorLine(keys);
    var pre := SuccessLead + NatToString(|rows|) + SuccessTail + Gap + SqlLabel + sql + Gap;
    var post := Join(DataLines(keys, rows), "\n");
    Regroup3(pre, HeaderLine(keys), sep, post, "");
    assert SuccessText(sql, rows) == (pre + HeaderLine(keys) + "\n") + sep + ("\n" + post + "");
    SeparatorHasDashes(keys);
    IncludesWithin(pre + HeaderLine(keys) + "\n", sep, "\n" + post + "", "---");
    assert sep[0] == '|';
    IncludesChar(sep, '|');
    assert "|" == ['|'];
    IncludesWithin(pre + HeaderLine(keys) + "\n", sep, "\n" + post + "", "|");
  }

  /** The other replies hold no bar of their own, so they are not shown as a table unless the
      query or the message brings one. */
  lemma NoResultsLacksTableData(sql: string)
    requires '|' !in sql
    ensures !HasTableData(NoResultsText(sql))
  {
    assert '|' !in NoResultsLine && '|' !in Gap && '|' !in SqlLabel;
    IncludesChar(NoResultsText(sql), '|');
    assert "|" == ['|'];
  }

  lemma ErrorLacksTableData(message: string)
    requires '|' !in message
    ensures !HasTableData(ErrorText(message))
  {
    assert '|' !in ErrorLead && '|' !in ErrorTail;
    IncludesChar(ErrorText(message), '|');
    assert "|" == ['|'];
  }

  lemma ResultLacksTableData(value: string)
    requires '|' !in value && forall k :: 0 <= k < |value| ==> Plain(value[k])
    ensures !HasTableData(ResultText(value))
  {
    JsonOfPlain(value);
    var lead := " executed with result: ";
    assert ResultText(value) == QueryWord + lead + "\"" + value + "\"";
    assert '|' !in QueryWord && '|' !in lead;
    IncludesChar(ResultText(value), '|');
    assert "|" == ['|'];
  }

  /** When the agent's last message is the tool's success message word for word, the
      performance entry counts exactly the rows of the result. */
  lemma SuccessCounted(s: PageState, input: string, sql: string, rows: seq<Row>, elapsed: int, now: int)
    requires !AllSpace(input)
    requires |rows| > 0 && Readable(rows)
    requires '|' !in sql && '\n' !in sql
    ensures Send(s, input, Returned(SuccessText(sql, rows)), elapsed, now).stats[0].resultCount == |rows|
  {
    SuccessTextStart(sql, rows);
    ParseSuccessText(sql, rows);
  }

  /** When the agent's last message is the tool's success message word for word and the query
      holds a bar, the performance entry counts one row more than the result has. */
  lemma BarInQueryMiscounted(s: PageState, input: string, sql: string, rows: seq<Row>, elapsed: int, now: int)
    requires !AllSpace(input)
    requires |rows| > 0 && Readable(rows)
    requires '|' in sql && '\n' !in sql
    ensures Send(s, input, Returned(SuccessText(sql, rows)), elapsed, now).stats[0].resultCount == |rows| + 1
  {
    SuccessTextStart(sql, rows);
    BarInQueryCountsOneMore(sql, rows);
  }
}
