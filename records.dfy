/** The data that flows from the warehouse through the cache to the answer formatter. */
module Records {
  import opened Text

  /** One warehouse cell as Python sees it: None, an integer or a string. */
  datatype Value = Null | Int(i: int) | Str(s: string)

  predicate DistinctColumns(cells: seq<(string, Value)>) {
    forall i, j | 0 <= i < j < |cells| :: cells[i].0 != cells[j].0
  }

  /** A result row as `dict(row)` holds it: (column, value) pairs in column order,
      each column once. */
  type Row = cells: seq<(string, Value)> | DistinctColumns(cells)

  /** The dictionary `run_sql` returns and stores in the cache:
      `{"sql", "rows", "summary", "from_cache"}`. */
  datatype QueryResult = QueryResult(sql: string, rows: seq<Row>, summary: string, fromCache: bool)

  /** `f"Query returned {len(rows)} rows"`. */
  function Summary(n: nat): string {
    "Query returned " + NatToString(n) + " rows"
  }

  /** The summary states the row count: different counts give different summaries. */
  lemma SummaryReportsCount(m: nat, n: nat)
    requires Summary(m) == Summary(n)
    ensures m == n
  {
    var prefix := "Query returned ";
    var a, b := NatToString(m), NatToString(n);
    assert Summary(m)[|prefix|..] == a + " rows";
    assert Summary(n)[|prefix|..] == b + " rows";
    assert |a| == |b|;
    assert a == (a + " rows")[..|a|];
    assert b == (b + " rows")[..|b|];
    NatToStringInjective(m, n);
  }
}
