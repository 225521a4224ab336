/**
 * The score report built by `CSVUtils.create_csv`: one column per criterion seen
 * anywhere in the batch (sorted), one row per candidate in input order, missing
 * cells zero-filled, and a running total per row.
 *
 * A row is the dictionary handed to `csv.DictWriter.writerow`, modelled as a
 * map from field name to cell. The output directory, the timestamped file name
 * and the CSV text encoding are not modelled: `CreateCsv` returns the table that
 * would be written, or `None` where the source returns `""` and writes nothing.
 */
module CsvUtils {
  import opened Wrappers
  import opened LexOrder

  const NameField := "Candidate Name"
  const TotalField := "Total Score"
  const UnknownName := "Unknown"

  /** One `{'criteria': ..., 'score': ...}` entry of a ranking result; scores are unbounded. */
  datatype ScoreItem = ScoreItem(criteria: string, score: int)

  /** One ranking result; either key of the dictionary may be absent. */
  datatype Candidate = Candidate(candidateName: Option<string>, scores: Option<seq<ScoreItem>>)

  /** A value written into a CSV cell: the candidate's name or an integer. */
  datatype Cell = Text(text: string) | Num(value: int)

  type Row = map<string, Cell>

  /** The table `create_csv` writes: the `DictWriter` field names and the rows in order. */
  datatype Table = Table(fieldnames: seq<string>, rows: seq<Row>)

  // ---------------------------------------------------------------------------
  // Specification functions

  /** `candidate.get('candidate_name', 'Unknown')` */
  function NameOf(c: Candidate): string {
    c.candidateName.GetOr(UnknownName)
  }

  /** `candidate.get('scores', [])` */
  function ItemsOf(c: Candidate): seq<ScoreItem> {
    c.scores.GetOr([])
  }

  /** The criterion names a list of score items mentions. */
  function CriteriaOf(items: seq<ScoreItem>): set<string> {
    set it | it in items :: it.criteria
  }

  /** The union of the criterion names of every candidate in `data`. */
  function AllCriteria(data: seq<Candidate>): set<string> {
    if data == [] then {}
    else AllCriteria(data[..|data| - 1]) + CriteriaOf(ItemsOf(data[|data| - 1]))
  }

  /** The sum of every score in the list, repeated criteria included. */
  function Total(items: seq<ScoreItem>): int {
    if items == [] then 0
    else Total(items[..|items| - 1]) + items[|items| - 1].score
  }

  /** The score of the last item naming criterion `c`, if any. */
  function LastScore(items: seq<ScoreItem>, c: string): Option<int> {
    if items == [] then None
    else if items[|items| - 1].criteria == c then Some(items[|items| - 1].score)
    else LastScore(items[..|items| - 1], c)
  }

  /** The value of a criterion cell: the last score given for it, else 0. */
  function CellValue(items: seq<ScoreItem>, c: string): int {
    LastScore(items, c).GetOr(0)
  }

  /**
   * The row dictionary after the name entry, the zero-fill of `columns` and the
   * overwrite by `items`, before the total is stored. Later writes to the same
   * key replace earlier ones, so a criterion named "Candidate Name" replaces the name.
   */
  function PartialRow(name: string, columns: seq<string>, items: seq<ScoreItem>): Row {
    map k | k in {NameField} + Elems(columns) + CriteriaOf(items) ::
      if k in CriteriaOf(items) then Num(CellValue(items, k))
      else if k in columns then Num(0)
      else Text(name)
  }

  /** The complete row written for candidate `c` under the criterion columns `columns`. */
  function RowOf(c: Candidate, columns: seq<string>): Row {
    PartialRow(NameOf(c), columns, ItemsOf(c))[TotalField := Num(Total(ItemsOf(c)))]
  }

  /** The criterion columns of a table: the field names between the name and the total. */
  function Columns(t: Table): seq<string>
    requires |t.fieldnames| >= 2
  {
    t.fieldnames[1..|t.fieldnames| - 1]
  }

  /** `t` is the table `create_csv` writes for the non-empty batch `data`. */
  predicate IsReportFor(t: Table, data: seq<Candidate>) {
    && |t.fieldnames| >= 2
    && t.fieldnames[0] == NameField
    && t.fieldnames[|t.fieldnames| - 1] == TotalField
    && IsSortedListOf(Columns(t), AllCriteria(data))
    && |t.rows| == |data|
    && forall i :: 0 <= i < |data| ==> t.rows[i] == RowOf(data[i], Columns(t))
  }

  // ---------------------------------------------------------------------------
  // Step lemmas for the loops

  /** `all_criteria.add(...)` for one more item. */
  lemma CriteriaOfSnoc(items: seq<ScoreItem>, it: ScoreItem)
    ensures CriteriaOf(items + [it]) == CriteriaOf(items) + {it.criteria}
  {
  }

  /** `row[criteria] = 0` for one more column. */
  lemma ZeroFillStep(name: string, columns: seq<string>, c: string)
    ensures PartialRow(name, columns + [c], []) == PartialRow(name, columns, [])[c := Num(0)]
  {
  }

  /** `row[criteria] = score` for one more item. */
  lemma ScoreStep(name: string, columns: seq<string>, items: seq<ScoreItem>, it: ScoreItem)
    ensures PartialRow(name, columns, items + [it])
         == PartialRow(name, columns, items)[it.criteria := Num(it.score)]
  {
  }

  /** Header `['Candidate Name'] + all_criteria + ['Total Score']` over rows built for those columns. */
  lemma AssembleReport(data: seq<Candidate>, columns: seq<string>, rows: seq<Row>)
    requires IsSortedListOf(columns, AllCriteria(data))
    requires |rows| == |data|
    requires forall k :: 0 <= k < |data| ==> rows[k] == RowOf(data[k], columns)
    ensures IsReportFor(Table([NameField] + columns + [TotalField], rows), data)
  {
  }

  /** A report's field names and rows, read off position by position. */
  lemma ReportLayout(t: Table, data: seq<Candidate>)
    requires IsReportFor(t, data)
    ensures t.fieldnames == [NameField] + Columns(t) + [TotalField]
    ensures t.rows == seq(|data|, i requires 0 <= i < |data| => RowOf(data[i], Columns(t)))
  {
  }

  // ---------------------------------------------------------------------------
  // The imperative model of create_csv

  /** The nested loop that adds every `score_item['criteria']` to `all_criteria`. */
  method CollectCriteria(data: seq<Candidate>) returns (all: set<string>)
    ensures all == AllCriteria(data)
  {
    all := {};
    for i := 0 to |data|
      invariant all == AllCriteria(data[..i])
    {
      var items := ItemsOf(data[i]);
      for j := 0 to |items|
        invariant all == AllCriteria(data[..i]) + CriteriaOf(items[..j])
      {
        CriteriaOfSnoc(items[..j], items[j]);
        assert items[..j + 1] == items[..j] + [items[j]];
        all := all + {items[j].criteria};
      }
      assert items[..|items|] == items;
      assert data[..i + 1][..i] == data[..i];
    }
    assert data[..|data|] == data;
  }

  /** `sorted(list(all_criteria))`: repeatedly takes the least remaining name. */
  method SortCriteria(all: set<string>) returns (sorted: seq<string>)
    ensures IsSortedListOf(sorted, all)
  {
    sorted := [];
    var rest := all;
    while rest != {}
      invariant rest <= all
      invariant StrictlySorted(sorted)
      invariant Elems(sorted) + rest == all
      invariant forall i, x :: 0 <= i < |sorted| && x in rest ==> Less(sorted[i], x)
      decreases |rest|
    {
      LeastExists(rest);
      var m :| IsLeast(m, rest);
      sorted := sorted + [m];
      rest := rest - {m};
    }
  }

  /** Builds one row: name, zero-fill of every column, overwrite by each score, total. */
  method BuildRow(c: Candidate, columns: seq<string>) returns (row: Row)
    ensures row == RowOf(c, columns)
  {
    var name := NameOf(c);
    row := map[NameField := Text(name)];
    assert row == PartialRow(name, columns[..0], []);
    for i := 0 to |columns|
      invariant row == PartialRow(name, columns[..i], [])
    {
      ZeroFillStep(name, columns[..i], columns[i]);
      assert columns[..i + 1] == columns[..i] + [columns[i]];
      row := row[columns[i] := Num(0)];
    }
    assert columns[..|columns|] == columns;
    var items := ItemsOf(c);
    var total := 0;
    for j := 0 to |items|
      invariant row == PartialRow(name, columns, items[..j])
      invariant total == Total(items[..j])
    {
      ScoreStep(name, columns, items[..j], items[j]);
      assert items[..j + 1] == items[..j] + [items[j]];
      assert items[..j + 1][..j] == items[..j];
      row := row[items[j].criteria := Num(items[j].score)];
      total := total + items[j].score;
    }
    assert items[..|items|] == items;
    row := row[TotalField := Num(total)];
  }

  /** The `for candidate in data` loop: one row per candidate, in input order. */
  method BuildRows(data: seq<Candidate>, columns: seq<string>) returns (rows: seq<Row>)
    ensures |rows| == |data|
    ensures forall k :: 0 <= k < |data| ==> rows[k] == RowOf(data[k], columns)
  {
    rows := [];
    for i := 0 to |data|
      invariant |rows| == i
      invariant forall k :: 0 <= k < i ==> rows[k] == RowOf(data[k], columns)
    {
      var row := BuildRow(data[i], columns);
      rows := rows + [row];
    }
  }

  /**
   * `create_csv`: `None` for an empty batch (the source returns "" and writes no
   * file); otherwise the field names and rows handed to `csv.DictWriter`.
   */
  method CreateCsv(data: seq<Candidate>) returns (report: Option<Table>)
    ensures report.None? <==> data == []
    ensures report.Some? ==> IsReportFor(report.value, data)
  {
    if data == [] {
      return None;
    }
    var all := CollectCriteria(data);
    var columns := SortCriteria(all);
    var fieldnames := [NameField] + columns + [TotalField];
    var rows := BuildRows(data, columns);
    AssembleReport(data, columns, rows);
    return Some(Table(fieldnames, rows));
  }

  // ---------------------------------------------------------------------------
  // Properties of the specification

  /** A name is a column exactly when some candidate in the batch scored it. */
  lemma {:induction false} AllCriteriaMembers(data: seq<Candidate>, x: string)
    ensures x in AllCriteria(data) <==> exists i :: 0 <= i < |data| && x in CriteriaOf(ItemsOf(data[i]))
  {
    if data != [] {
      var init := data[..|data| - 1];
      AllCriteriaMembers(init, x);
      if x in AllCriteria(init) {
        var i :| 0 <= i < |init| && x in CriteriaOf(ItemsOf(init[i]));
        assert data[i] == init[i];
      }
      if exists i :: 0 <= i < |data| && x in CriteriaOf(ItemsOf(data[i])) {
        var i :| 0 <= i < |data| && x in CriteriaOf(ItemsOf(data[i]));
        if i < |init| {
          assert init[i] == data[i];
        }
      }
    }
  }

  /** A criterion has no score exactly when no item names it. */
  lemma {:induction false} LastScoreNone(items: seq<ScoreItem>, c: string)
    ensures LastScore(items, c).None? <==> c !in CriteriaOf(items)
  {
    if items != [] {
      var init := items[..|items| - 1];
      LastScoreNone(init, c);
      CriteriaOfSnoc(init, items[|items| - 1]);
      assert init + [items[|items| - 1]] == items;
    }
  }

  /** When a criterion is scored more than once, the last occurrence wins. */
  lemma {:induction false} LastScoreIsLastOccurrence(items: seq<ScoreItem>, c: string, j: nat)
    requires j < |items| && items[j].criteria == c
    requires forall k :: j < k < |items| ==> items[k].criteria != c
    ensures LastScore(items, c) == Some(items[j].score)
  {
    if j < |items| - 1 {
      LastScoreIsLastOccurrence(items[..|items| - 1], c, j);
    }
  }

  /** The total adds up every item, repeated criteria included. */
  lemma {:induction false} TotalAppend(a: seq<ScoreItem>, b: seq<ScoreItem>)
    ensures Total(a + b) == Total(a) + Total(b)
    decreases |b|
  {
    if b == [] {
      assert a + b == a;
    } else {
      var init := b[..|b| - 1];
      TotalAppend(a, init);
      assert (a + b)[..|a + b| - 1] == a + init;
    }
  }

  /** The header holds every criterion once, plus the name and total columns. */
  lemma ReportHeaderLength(t: Table, data: seq<Candidate>)
    requires IsReportFor(t, data)
    ensures |t.fieldnames| == |AllCriteria(data)| + 2
  {
    StrictlySortedDistinct(Columns(t));
  }

  /** The table is determined by the batch: the column order is not a free choice. */
  lemma ReportUnique(t1: Table, t2: Table, data: seq<Candidate>)
    requires IsReportFor(t1, data) && IsReportFor(t2, data)
    ensures t1 == t2
  {
    SortedListUnique(Columns(t1), Columns(t2), AllCriteria(data));
    ReportLayout(t1, data);
    ReportLayout(t2, data);
  }

  /** Each row's keys are field names, so `DictWriter.writerow` meets no extra key. */
  lemma ReportRowKeysAreFieldnames(t: Table, data: seq<Candidate>, i: nat)
    requires IsReportFor(t, data) && i < |data|
    ensures forall k :: k in t.rows[i] ==> k in t.fieldnames
  {
    forall k | k in t.rows[i]
      ensures k in t.fieldnames
    {
      if k in CriteriaOf(ItemsOf(data[i])) {
        AllCriteriaMembers(data, k);
        assert k in Elems(Columns(t));
      }
    }
  }

  /** Every row has a cell for every field name (all criteria are zero-filled). */
  lemma ReportRowsComplete(t: Table, data: seq<Candidate>, i: nat)
    requires IsReportFor(t, data) && i < |data|
    ensures forall k :: k in t.fieldnames ==> k in t.rows[i]
  {
    forall k | k in t.fieldnames
      ensures k in t.rows[i]
    {
      if k != NameField && k != TotalField {
        var j :| 0 <= j < |t.fieldnames| && t.fieldnames[j] == k;
        assert Columns(t)[j - 1] == k;
      }
    }
  }

  /** A column the candidate never scored holds 0. */
  lemma ReportCellUnscored(t: Table, data: seq<Candidate>, i: nat, c: string)
    requires IsReportFor(t, data) && i < |data|
    requires c in AllCriteria(data) && c != TotalField
    requires c !in CriteriaOf(ItemsOf(data[i]))
    ensures t.rows[i][c] == Num(0)
  {
  }

  /** A column the candidate scored holds the score of its last occurrence. */
  lemma ReportCellScored(t: Table, data: seq<Candidate>, i: nat, j: nat)
    requires IsReportFor(t, data) && i < |data|
    requires j < |ItemsOf(data[i])| && ItemsOf(data[i])[j].criteria != TotalField
    requires forall k :: j < k < |ItemsOf(data[i])| ==>
      ItemsOf(data[i])[k].criteria != ItemsOf(data[i])[j].criteria
    ensures t.rows[i][ItemsOf(data[i])[j].criteria] == Num(ItemsOf(data[i])[j].score)
  {
    var items := ItemsOf(data[i]);
    LastScoreIsLastOccurrence(items, items[j].criteria, j);
    assert items[j] in items;
  }

  /** The "Total Score" cell is the sum of the candidate's scores. */
  lemma ReportTotal(t: Table, data: seq<Candidate>, i: nat)
    requires IsReportFor(t, data) && i < |data|
    ensures t.rows[i][TotalField] == Num(Total(ItemsOf(data[i])))
  {
  }

  /** Unless a criterion shadows it, the "Candidate Name" cell is the name, or "Unknown". */
  lemma ReportName(t: Table, data: seq<Candidate>, i: nat)
    requires IsReportFor(t, data) && i < |data|
    requires NameField !in AllCriteria(data)
    ensures t.rows[i][NameField] == Text(NameOf(data[i]))
  {
    AllCriteriaMembers(data, NameField);
    assert NameField !in Elems(Columns(t));
  }

  /** A result with neither name nor scores gives an "Unknown" row of zeros with total 0. */
  lemma EmptyCandidateRow(columns: seq<string>)
    requires NameField !in columns
    ensures RowOf(Candidate(None, None), columns)[NameField] == Text(UnknownName)
    ensures RowOf(Candidate(None, None), columns)[TotalField] == Num(0)
    ensures forall c :: c in columns && c != TotalField ==> RowOf(Candidate(None, None), columns)[c] == Num(0)
  {
  }

  // A two-candidate batch: A scores required_skills 5 and preferred_skills 3, B only required_skills 2.
  const ExampleA := Candidate(Some("A"), Some([ScoreItem("required_skills", 5), ScoreItem("preferred_skills", 3)]))
  const ExampleB := Candidate(Some("B"), Some([ScoreItem("required_skills", 2)]))
  const ExampleColumns := ["preferred_skills", "required_skills"]

  lemma ExampleColumnsSorted()
    ensures IsSortedListOf(ExampleColumns, AllCriteria([ExampleA, ExampleB]))
  {
    var a := ItemsOf(ExampleA);
    var b := ItemsOf(ExampleB);
    var data := [ExampleA, ExampleB];
    assert CriteriaOf(a) == Elems(ExampleColumns) by {
      CriteriaOfSnoc([a[0]], a[1]);
      CriteriaOfSnoc([], a[0]);
      assert [a[0]] + [a[1]] == a;
    }
    assert CriteriaOf(b) == {"required_skills"} by {
      CriteriaOfSnoc([], b[0]);
    }
    assert data[..1] == [ExampleA] && [ExampleA][..0] == [];
    assert AllCriteria([ExampleA]) == CriteriaOf(a);
    assert AllCriteria(data) == AllCriteria([ExampleA]) + CriteriaOf(b);
    assert Less(ExampleColumns[0], ExampleColumns[1]);
  }

  lemma ExampleRowA()
    ensures RowOf(ExampleA, ExampleColumns)
         == map[NameField := Text("A"), "preferred_skills" := Num(3), "required_skills" := Num(5), TotalField := Num(8)]
  {
    var a := ItemsOf(ExampleA);
    assert a[..1] == [a[0]];
    assert Total(a) == 8;
    assert CellValue(a, "preferred_skills") == 3 && CellValue(a, "required_skills") == 5;
    var row := RowOf(ExampleA, ExampleColumns);
    assert row.Keys == {NameField, "preferred_skills", "required_skills", TotalField};
    assert row[NameField] == Text("A");
  }

  lemma ExampleRowB()
    ensures RowOf(ExampleB, ExampleColumns)
         == map[NameField := Text("B"), "preferred_skills" := Num(0), "required_skills" := Num(2), TotalField := Num(2)]
  {
    var b := ItemsOf(ExampleB);
    assert b[..0] == [];
    assert Total(b) == 2 && CellValue(b, "required_skills") == 2;
    var row := RowOf(ExampleB, ExampleColumns);
    assert row.Keys == {NameField, "preferred_skills", "required_skills", TotalField};
    assert row["preferred_skills"] == Num(0);
  }

  /**
   * Two candidates, A scoring required_skills 5 and preferred_skills 3, and B
   * scoring only required_skills 2: the criterion columns come out sorted.
   */
  lemma TwoCandidateHeader(t: Table)
    requires IsReportFor(t, [ExampleA, ExampleB])
    ensures t.fieldnames == [NameField] + ExampleColumns + [TotalField]
  {
    ExampleColumnsSorted();
    SortedListUnique(Columns(t), ExampleColumns, AllCriteria([ExampleA, ExampleB]));
    ReportLayout(t, [ExampleA, ExampleB]);
  }

  /** In the same batch, B's missing cell is 0 and the totals are 8 and 2. */
  lemma TwoCandidateRows(t: Table)
    requires IsReportFor(t, [ExampleA, ExampleB])
    ensures t.rows == [
      map[NameField := Text("A"), "preferred_skills" := Num(3), "required_skills" := Num(5), TotalField := Num(8)],
      map[NameField := Text("B"), "preferred_skills" := Num(0), "required_skills" := Num(2), TotalField := Num(2)]]
  {
    ExampleColumnsSorted();
    SortedListUnique(Columns(t), ExampleColumns, AllCriteria([ExampleA, ExampleB]));
    ReportLayout(t, [ExampleA, ExampleB]);
    ExampleRowA();
    ExampleRowB();
  }
}
