/** agent.py: `format_answer`, which turns the dictionary `run_sql` returns into the
    Markdown text shown to the user. */
module Agent {
  import opened Wrappers
  import opened Text
  import opened Records
  import opened CacheSqlTools
  import opened DbTools

  /** The dictionary handed to `format_answer`: the keys it reads, each possibly absent.
      A missing or empty dictionary has neither. */
  datatype DbOutput = DbOutput(rows: Option<seq<Row>>, fromCache: Option<bool>)

  /** The dictionary `run_sql` returns, as `format_answer` reads it. */
  function OutputOf(result: QueryResult): (out: DbOutput)
    ensures out.rows == Some(result.rows) && out.fromCache == Some(result.fromCache)
  {
    DbOutput(Some(result.rows), Some(result.fromCache))
  }

  /** The exceptions `format_answer` can raise: `{value:,}` on a text value (ValueError),
      and a later row without one of the first row's columns (KeyError). */
  datatype FormatError = NotANumber(text: string) | MissingColumn(column: string)

  const NoResults: string := "No results found."

  /** A table shows at most this many rows. */
  const MaxShownRows: nat := 20

  function SourceNote(fromCache: bool): string {
    if fromCache then "  (from cache)" else "  (from database)"
  }

  /** `str(value)`. */
  function CellText(v: Value): string {
    match v
    case Null => "None"
    case Int(i) => IntToString(i)
    case Str(s) => s
  }

  /** The column names of a row, in order. */
  function Columns(row: Row): (columns: seq<string>)
    ensures |columns| == |row| && forall k | 0 <= k < |row| :: columns[k] == row[k].0
  {
    seq(|row|, k requires 0 <= k < |row| => row[k].0)
  }

  /** `row[column]`, or None where Python raises KeyError. */
  function Lookup(row: seq<(string, Value)>, column: string): (v: Option<Value>)
    ensures v.Some? <==> exists k | 0 <= k < |row| :: row[k].0 == column
    ensures v.Some? ==> exists k | 0 <= k < |row| :: row[k] == (column, v.value)
  {
    if row == [] then None
    else if row[0].0 == column then Some(row[0].1)
    else Lookup(row[1..], column)
  }

  /** In a row whose columns are distinct, each column finds its own value. */
  lemma {:induction false} LookupOwnColumn(row: Row, k: nat)
    requires k < |row|
    ensures Lookup(row, row[k].0) == Some(row[k].1)
  {
    var v := Lookup(row, row[k].0);
    assert v.Some?;
    var j :| 0 <= j < |row| && row[j] == (row[k].0, v.value);
    assert j == k;
  }

  /** `[str(row[h]) for h in headers]`, failing on the first header the row lacks. */
  function Cells(row: Row, headers: seq<string>): (r: Result<seq<string>, FormatError>)
    ensures r.Success? <==> forall k | 0 <= k < |headers| :: Lookup(row, headers[k]).Some?
    ensures r.Success? ==>
      && |r.value| == |headers|
      && forall k | 0 <= k < |headers| :: r.value[k] == CellText(Lookup(row, headers[k]).value)
    ensures r.Failure? ==> r.error.MissingColumn?
  {
    if headers == [] then Success([])
    else match Lookup(row, headers[0])
      case None => Failure(MissingColumn(headers[0]))
      case Some(v) =>
        match Cells(row, headers[1..])
        case Failure(e) => Failure(e)
        case Success(rest) => Success([CellText(v)] + rest)
  }

  /** KeyError names the first header the row lacks. */
  lemma {:induction false} CellsFirstMissing(row: Row, headers: seq<string>)
    requires Cells(row, headers).Failure?
    ensures exists k | 0 <= k < |headers| ::
      && Lookup(row, headers[k]).None?
      && Cells(row, headers).error == MissingColumn(headers[k])
      && forall j | 0 <= j < k :: Lookup(row, headers[j]).Some?
  {
    if Lookup(row, headers[0]).Some? {
      CellsFirstMissing(row, headers[1..]);
      var k :| 0 <= k < |headers[1..]|
        && Lookup(row, headers[1..][k]).None?
        && Cells(row, headers[1..]).error == MissingColumn(headers[1..][k])
        && forall j | 0 <= j < k :: Lookup(row, headers[1..][j]).Some?;
      assert forall j | 0 <= j < k :: headers[1..][j] == headers[j + 1];
      assert Lookup(row, headers[k + 1]).None?;
    } else {
      assert Lookup(row, headers[0]).None?;
    }
  }

  /** Every row has the cells of its own columns: the first row, which supplies the
      headers, never raises KeyError. */
  lemma CellsOfOwnColumns(row: Row)
    ensures Cells(row, Columns(row)).Success?
    ensures forall k | 0 <= k < |row| :: Cells(row, Columns(row)).value[k] == CellText(row[k].1)
  {
    forall k | 0 <= k < |row| ensures Lookup(row, row[k].0) == Some(row[k].1) {
      LookupOwnColumn(row, k);
    }
  }

  /** `"| " + " | ".join(cells) + " |"` */
  function TableLine(cells: seq<string>): string {
    "| " + Join(cells, " | ") + " |"
  }

  /** The table line of each row, in order, failing on the first row that raises. */
  function RowLines(rows: seq<Row>, headers: seq<string>): (r: Result<seq<string>, FormatError>)
    ensures r.Success? <==> forall k | 0 <= k < |rows| :: Cells(rows[k], headers).Success?
    ensures r.Success? ==>
      && |r.value| == |rows|
      && forall k | 0 <= k < |rows| :: r.value[k] == TableLine(Cells(rows[k], headers).value)
    decreases |rows|
  {
    if rows == [] then Success([])
    else
      var init := rows[..|rows| - 1];
      assert forall k | 0 <= k < |init| :: init[k] == rows[k];
      match RowLines(init, headers)
      case Failure(e) => Failure(e)
      case Success(lines) =>
        match Cells(rows[|rows| - 1], headers)
        case Failure(e) => Failure(e)
        case Success(cells) => Success(lines + [TableLine(cells)])
  }

  /** The first row that raises decides the exception; later rows are never reached. */
  lemma {:induction false} RowLinesFirstFailure(rows: seq<Row>, headers: seq<string>, i: nat)
    requires i < |rows|
    requires forall j | 0 <= j < i :: Cells(rows[j], headers).Success?
    requires Cells(rows[i], headers).Failure?
    ensures RowLines(rows, headers) == Failure(Cells(rows[i], headers).error)
    decreases |rows|
  {
    var init := rows[..|rows| - 1];
    if i < |rows| - 1 {
      assert init[i] == rows[i];
      assert forall j | 0 <= j < i :: init[j] == rows[j];
      RowLinesFirstFailure(init, headers, i);
    } else {
      InitRowLinesSucceed(rows, headers);
    }
  }

  lemma InitRowLinesSucceed(rows: seq<Row>, headers: seq<string>)
    requires rows != []
    requires forall j | 0 <= j < |rows| - 1 :: Cells(rows[j], headers).Success?
    ensures RowLines(rows[..|rows| - 1], headers).Success?
  {
    var init := rows[..|rows| - 1];
    forall j | 0 <= j < |init| ensures Cells(init[j], headers).Success? {
      assert init[j] == rows[j];
    }
  }

  function Dashes(n: nat): (cells: seq<string>)
    ensures |cells| == n && forall k | 0 <= k < n :: cells[k] == "---"
  {
    seq(n, _ => "---")
  }

  /** The first four lines of a table: the count with the source note, a blank line, the
      header line and the separator line. */
  function TableHead(count: nat, headers: seq<string>, note: string): seq<string> {
    ["**Query returned " + NatToString(count) + " rows**" + note, "",
     TableLine(headers), TableLine(Dashes(|headers|))]
  }

  /** The footer line, present only when rows were cut off. */
  function TableFooter(count: nat): seq<string> {
    if count > MaxShownRows then ["\n*Showing 20 of " + NatToString(count) + " rows*"] else []
  }

  function ShownCount(count: nat): (shown: nat)
    ensures shown <= count && shown <= MaxShownRows
    ensures shown == count || shown == MaxShownRows
  {
    if count < MaxShownRows then count else MaxShownRows
  }

  /** A single value: `{value:,}` for a number, "No data found" for None. */
  function ScalarAnswer(v: Value, note: string): Result<string, FormatError> {
    match v
    case Null => Success("**Result**: No data found" + note)
    case Int(i) => Success("**Result**: " + FormatThousands(i) + note)
    case Str(s) => Failure(NotANumber(s))
  }

  /** The note of an output: `from_cache` defaults to False. */
  function NoteOf(out: DbOutput): string {
    SourceNote(out.fromCache.GetOr(false))
  }

  /** The rows of an output: `rows` defaults to the empty list. */
  function RowsOf(out: DbOutput): seq<Row> {
    out.rows.GetOr([])
  }

  /** A single row with a single column is a scalar result. */
  predicate IsScalar(rows: seq<Row>) {
    |rows| == 1 && |rows[0]| == 1
  }

  /** One more row of the prefix adds its line to the prefix's lines. */
  lemma PrefixExtends(rows: seq<Row>, headers: seq<string>, i: nat)
    requires i < |rows|
    requires RowLines(rows[..i], headers).Success? && Cells(rows[i], headers).Success?
    ensures RowLines(rows[..i + 1], headers)
         == Success(RowLines(rows[..i], headers).value + [TableLine(Cells(rows[i], headers).value)])
  {
    var prefix := rows[..i + 1];
    assert prefix[..i] == rows[..i] && prefix[i] == rows[i];
  }

  /** A row that raises, after a prefix that did not, decides the error of any longer window. */
  lemma PrefixFailure(rows: seq<Row>, headers: seq<string>, n: nat, i: nat)
    requires i < n <= |rows|
    requires RowLines(rows[..i], headers).Success? && Cells(rows[i], headers).Failure?
    ensures RowLines(rows[..n], headers) == Failure(Cells(rows[i], headers).error)
  {
    var window := rows[..n];
    forall j | 0 <= j < i ensures Cells(window[j], headers).Success? {
      assert window[j] == rows[..i][j];
    }
    assert window[i] == rows[i];
    RowLinesFirstFailure(window, headers, i);
  }

  /** What `format_answer` returns, or the exception it raises. */
  function FormattedAnswer(out: DbOutput): Result<string, FormatError> {
    var rows := RowsOf(out);
    if rows == [] then Success(NoResults)
    else if IsScalar(rows) then ScalarAnswer(rows[0][0].1, NoteOf(out))
    else TableAnswer(rows, NoteOf(out))
  }

  /** The table for two or more cells: headers from the first row, at most twenty row
      lines, and the footer when rows were cut off. */
  function TableAnswer(rows: seq<Row>, note: string): Result<string, FormatError>
    requires rows != []
  {
    var headers := Columns(rows[0]);
    match RowLines(rows[..ShownCount(|rows|)], headers)
    case Failure(e) => Failure(e)
    case Success(body) =>
      Success(Join(TableHead(|rows|, headers, note) + body + TableFooter(|rows|), "\n"))
  }

  /** `format_answer`, appending one line per shown row as the source's loop does. */
  method FormatAnswer(out: DbOutput) returns (r: Result<string, FormatError>)
    ensures r == FormattedAnswer(out)
  {
    var rows := RowsOf(out);
    if rows == [] {
      return Success(NoResults);
    }
    var note := NoteOf(out);
    if IsScalar(rows) {
      return ScalarAnswer(rows[0][0].1, note);
    }
    var headers := Columns(rows[0]);
    var lines := TableHead(|rows|, headers, note);
    var shown := ShownCount(|rows|);
    var i := 0;
    while i < shown
      invariant 0 <= i <= shown
      invariant RowLines(rows[..i], headers).Success?
      invariant lines == TableHead(|rows|, headers, note) + RowLines(rows[..i], headers).value
    {
      var cells := Cells(rows[i], headers);
      if cells.Failure? {
        PrefixFailure(rows, headers, shown, i);
        return Failure(cells.error);
      }
      PrefixExtends(rows, headers, i);
      lines := lines + [TableLine(cells.value)];
      i := i + 1;
    }
    assert i == shown;
    lines := lines + TableFooter(|rows|);
    r := Success(Join(lines, "\n"));
  }

  // ---------------------------------------------------------------------------
  // Properties of `format_answer`
  // ---------------------------------------------------------------------------

  /** "No results found." is the answer exactly when there are no rows. */
  lemma NoResultsExactlyWhenEmpty(out: DbOutput)
    ensures FormattedAnswer(out) == Success(NoResults) <==> RowsOf(out) == []
  {
    var rows := RowsOf(out);
    if rows != [] && !IsScalar(rows) {
      var r := FormattedAnswer(out);
      if r.Success? {
        var lines := TableHead(|rows|, Columns(rows[0]), NoteOf(out)) + RowLines(rows[..ShownCount(|rows|)], Columns(rows[0])).value + TableFooter(|rows|);
        assert r.value == lines[0] + "\n" + Join(lines[1..], "\n");
        assert r.value[0] == '*';
      }
    } else if rows != [] {
      var r := FormattedAnswer(out);
      assert r.Success? ==> r.value[0] == '*';
    }
  }

  /** A single cell is shown on its own: a number as `{value:,}` renders it (grouped by
      thousands, and `str(value)` once the commas are taken out); None as "No data found";
      text raises ValueError. */
  lemma ScalarAnswerShowsValue(out: DbOutput)
    requires IsScalar(RowsOf(out))
    ensures var v := RowsOf(out)[0][0].1;
      var r := FormattedAnswer(out);
      && (v.Null? ==> r == Success("**Result**: No data found" + NoteOf(out)))
      && (v.Int? ==> r == Success("**Result**: " + FormatThousands(v.i) + NoteOf(out))
                     && RemoveCommas(FormatThousands(v.i)) == IntToString(v.i))
      && (v.Str? ==> r == Failure(NotANumber(v.s)))
  {
  }

  /** The lines of a table: the count with the source note, the first row's columns,
      one line per row for the first twenty rows in order, and a footer exactly when
      rows were cut off. */
  predicate TableLayout(lines: seq<string>, rows: seq<Row>, note: string)
    requires rows != []
  {
    var n, headers := |rows|, Columns(rows[0]);
    && |lines| == 4 + ShownCount(n) + (if n > MaxShownRows then 1 else 0)
    && lines[0] == "**Query returned " + NatToString(n) + " rows**" + note
    && lines[1] == ""
    && lines[2] == TableLine(headers)
    && lines[3] == TableLine(Dashes(|headers|))
    && (forall k | 0 <= k < ShownCount(n) ::
          Cells(rows[k], headers).Success? && lines[4 + k] == TableLine(Cells(rows[k], headers).value))
    && (n > MaxShownRows ==> lines[|lines| - 1] == "\n*Showing 20 of " + NatToString(n) + " rows*")
  }

  /** The lines `TableAnswer` joins. */
  function TableLines(rows: seq<Row>, note: string): seq<string>
    requires rows != []
    requires RowLines(rows[..ShownCount(|rows|)], Columns(rows[0])).Success?
  {
    var headers := Columns(rows[0]);
    TableHead(|rows|, headers, note) + RowLines(rows[..ShownCount(|rows|)], headers).value + TableFooter(|rows|)
  }

  lemma TableLinesLayout(rows: seq<Row>, note: string)
    requires rows != []
    requires RowLines(rows[..ShownCount(|rows|)], Columns(rows[0])).Success?
    ensures TableLayout(TableLines(rows, note), rows, note)
  {
    var n, headers := |rows|, Columns(rows[0]);
    var body := RowLines(rows[..ShownCount(n)], headers).value;
    var head, footer := TableHead(n, headers, note), TableFooter(n);
    var lines := TableLines(rows, note);
    assert lines == head + body + footer;
    assert |head| == 4 && |body| == ShownCount(n);
    assert |footer| == (if n > MaxShownRows then 1 else 0);
    TableLinesRows(rows, head, footer);
    assert lines[0] == "**Query returned " + NatToString(n) + " rows**" + note by {
      assert lines[0] == head[0];
    }
    assert lines[1] == "" && lines[2] == TableLine(headers) && lines[3] == TableLine(Dashes(|headers|)) by {
      assert lines[1] == head[1] && lines[2] == head[2] && lines[3] == head[3];
    }
    if n > MaxShownRows {
      assert lines[|lines| - 1] == footer[0];
    }
  }

  /** The shown rows' lines sit right after the four head lines. */
  lemma TableLinesRows(rows: seq<Row>, head: seq<string>, footer: seq<string>)
    requires rows != [] && |head| == 4
    requires RowLines(rows[..ShownCount(|rows|)], Columns(rows[0])).Success?
    ensures var headers := Columns(rows[0]);
      var lines := head + RowLines(rows[..ShownCount(|rows|)], headers).value + footer;
      forall k | 0 <= k < ShownCount(|rows|) ::
        Cells(rows[k], headers).Success? && lines[4 + k] == TableLine(Cells(rows[k], headers).value)
  {
    var headers := Columns(rows[0]);
    var window := rows[..ShownCount(|rows|)];
    var body := RowLines(window, headers).value;
    var lines := head + body + footer;
    forall k | 0 <= k < ShownCount(|rows|)
      ensures Cells(rows[k], headers).Success? && lines[4 + k] == TableLine(Cells(rows[k], headers).value)
    {
      assert window[k] == rows[k];
      assert lines[4 + k] == body[k];
    }
  }

  /** A table joins lines laid out as `TableLayout` says. */
  lemma TableShowsFirstTwentyRows(out: DbOutput)
    requires RowsOf(out) != [] && !IsScalar(RowsOf(out))
    requires FormattedAnswer(out).Success?
    ensures exists lines ::
      FormattedAnswer(out).value == Join(lines, "\n") && TableLayout(lines, RowsOf(out), NoteOf(out))
  {
    var rows, note := RowsOf(out), NoteOf(out);
    assert FormattedAnswer(out) == TableAnswer(rows, note);
    var lines := TableLines(rows, note);
    TableLinesLayout(rows, note);
    assert FormattedAnswer(out).value == Join(lines, "\n");
  }

  /** A failing table passes on the failure of one of its rows. */
  lemma {:induction false} RowLinesFailureFromRow(rows: seq<Row>, headers: seq<string>)
    requires RowLines(rows, headers).Failure?
    ensures exists k | 0 <= k < |rows| :: Cells(rows[k], headers) == Failure(RowLines(rows, headers).error)
    decreases |rows|
  {
    var init := rows[..|rows| - 1];
    if RowLines(init, headers).Failure? {
      RowLinesFailureFromRow(init, headers);
      var k :| 0 <= k < |init| && Cells(init[k], headers) == Failure(RowLines(init, headers).error);
      assert init[k] == rows[k];
    }
  }

  /** A table fails exactly when one of the rows shown lacks one of the first row's
      columns, and then it raises KeyError for such a column. The first row never lacks
      one, and rows after the twentieth are never looked at. */
  lemma TableFailsOnlyOnMissingColumn(out: DbOutput)
    requires RowsOf(out) != [] && !IsScalar(RowsOf(out))
    ensures var rows := RowsOf(out);
      var headers := Columns(rows[0]);
      var r := FormattedAnswer(out);
      && (r.Failure? <==> exists k, c | 1 <= k < ShownCount(|rows|) && c in headers :: Lookup(rows[k], c).None?)
      && (r.Failure? ==> exists k | 1 <= k < ShownCount(|rows|) ::
            r.error.MissingColumn? && r.error.column in headers && Lookup(rows[k], r.error.column).None?)
  {
    var rows, note := RowsOf(out), NoteOf(out);
    assert FormattedAnswer(out) == TableAnswer(rows, note);
    var headers := Columns(rows[0]);
    var window := rows[..ShownCount(|rows|)];
    CellsOfOwnColumns(rows[0]);
    assert window[0] == rows[0];
    if RowLines(window, headers).Failure? {
      var e := RowLines(window, headers).error;
      RowLinesFailureFromRow(window, headers);
      var k :| 0 <= k < |window| && Cells(window[k], headers) == Failure(e);
      assert window[k] == rows[k];
      CellsFirstMissing(rows[k], headers);
      var j :| 0 <= j < |headers| && Lookup(rows[k], headers[j]).None? && e == MissingColumn(headers[j]);
      assert k != 0;
      assert Lookup(rows[k], headers[j]).None? && headers[j] in headers;
    } else {
      forall k, c | 1 <= k < ShownCount(|rows|) && c in headers ensures Lookup(rows[k], c).Some? {
        assert window[k] == rows[k];
        assert Cells(window[k], headers).Success?;
        var i :| 0 <= i < |headers| && headers[i] == c;
      }
    }
  }

  /** Rows after the twentieth change nothing but the count: two outputs that agree on
      the rows shown, the number of rows and the source get the same answer. */
  lemma RowsPastTwentyIgnored(a: DbOutput, b: DbOutput)
    requires NoteOf(a) == NoteOf(b)
    requires |RowsOf(a)| == |RowsOf(b)|
    requires RowsOf(a)[..ShownCount(|RowsOf(a)|)] == RowsOf(b)[..ShownCount(|RowsOf(b)|)]
    ensures FormattedAnswer(a) == FormattedAnswer(b)
  {
    var ra, rb := RowsOf(a), RowsOf(b);
    if ra != [] {
      assert ra[0] == ra[..ShownCount(|ra|)][0];
      assert rb[0] == rb[..ShownCount(|rb|)][0];
    }
  }

  predicate NoNewline(s: string) {
    forall k | 0 <= k < |s| :: s[k] != '\n'
  }

  /** The text before the first line break. */
  function FirstLine(text: string): (line: string)
    ensures |line| <= |text| && line == text[..|line|]
    ensures NoNewline(line)
    ensures |line| < |text| ==> text[|line|] == '\n'
  {
    if text == [] || text[0] == '\n' then [] else [text[0]] + FirstLine(text[1..])
  }

  /** A line without a break, followed by nothing or by a break, is the first line. */
  lemma FirstLineOf(head: string, rest: string)
    requires NoNewline(head)
    requires rest == [] || rest[0] == '\n'
    ensures FirstLine(head + rest) == head
  {
    var text := head + rest;
    assert text[..|head|] == head;
  }

  predicate FirstLineEndsWith(text: string, note: string) {
    var line := FirstLine(text);
    |note| <= |line| && line[|line| - |note|..] == note
  }

  lemma NoteHasNoBreak(fromCache: bool)
    ensures NoNewline(SourceNote(fromCache))
  {
    var note := SourceNote(fromCache);
    forall k | 0 <= k < |note| ensures note[k] != '\n' {
    }
  }

  /** Whenever there are rows, the first line of the answer ends with the source note. */
  lemma FirstLineNamesSource(out: DbOutput)
    requires RowsOf(out) != [] && FormattedAnswer(out).Success?
    ensures FirstLineEndsWith(FormattedAnswer(out).value, NoteOf(out))
  {
    var rows, note := RowsOf(out), NoteOf(out);
    NoteHasNoBreak(out.fromCache.GetOr(false));
    if IsScalar(rows) {
      ScalarFirstLine(rows[0][0].1, note);
    } else {
      assert FormattedAnswer(out) == TableAnswer(rows, note);
      TableFirstLine(rows, note);
    }
  }

  lemma ScalarFirstLine(v: Value, note: string)
    requires NoNewline(note)
    requires ScalarAnswer(v, note).Success?
    ensures FirstLineEndsWith(ScalarAnswer(v, note).value, note)
  {
    var text := ScalarAnswer(v, note).value;
    var head := if v.Null? then "**Result**: No data found" else "**Result**: " + FormatThousands(v.i);
    forall k | 0 <= k < |head| ensures head[k] != '\n' {
      if !v.Null? && k >= 12 {
        assert head[k] == FormatThousands(v.i)[k - 12];
      }
    }
    assert text == (head + note) + [];
    FirstLineOf(head + note, []);
  }

  lemma TableFirstLine(rows: seq<Row>, note: string)
    requires NoNewline(note)
    requires rows != [] && TableAnswer(rows, note).Success?
    ensures FirstLineEndsWith(TableAnswer(rows, note).value, note)
  {
    var lines := TableLines(rows, note);
    var text := TableAnswer(rows, note).value;
    assert text == Join(lines, "\n");
    assert |lines| > 1;
    var head := "**Query returned " + NatToString(|rows|) + " rows**";
    CountLineHasNoBreak(|rows|);
    assert lines[0] == head + note;
    JoinCons(lines, "\n");
    FirstLineOf(head + note, "\n" + Join(lines[1..], "\n"));
  }

  lemma CountLineHasNoBreak(n: nat)
    ensures NoNewline("**Query returned " + NatToString(n) + " rows**")
  {
    var count := NatToString(n);
    var head := "**Query returned " + count + " rows**";
    forall k | 0 <= k < |head| ensures head[k] != '\n' {
      if 17 <= k < 17 + |count| {
        assert head[k] == count[k - 17];
      }
    }
  }


  /** The orchestrator formats what `run_sql_tool` returns: whenever the answer shows rows,
      its first line says "(from cache)" exactly when the warehouse was not asked. */
  lemma AnswerReportsCacheUse(layers: CacheLayers, sql: string, question: Option<string>, now: real,
                              warehouse: Warehouse)
    requires var o := RunSqlOutcome(layers, sql, question, now, warehouse);
      o.result.Success? && o.result.value.rows != [] && FormattedAnswer(OutputOf(o.result.value)).Success?
    ensures var o := RunSqlOutcome(layers, sql, question, now, warehouse);
      FirstLineEndsWith(FormattedAnswer(OutputOf(o.result.value)).value, SourceNote(o.queries == []))
  {
    var o := RunSqlOutcome(layers, sql, question, now, warehouse);
    var out := OutputOf(o.result.value);
    assert NoteOf(out) == SourceNote(o.queries == []) by {
      AtMostOneQuery(layers, sql, question, now, warehouse);
    }
    FirstLineNamesSource(out);
  }
}
