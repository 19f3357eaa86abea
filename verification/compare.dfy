/**
 * The comparison matrix: generateMatrix builds one cell per solution per
 * axis, getMatrix orders the solutions by their search rank, and exportCsv
 * writes the matrix as quoted comma-separated lines. The database rows are
 * inputs; a query that returned null is None.
 */
module Compare {
  import opened Nullable
  import opened Text
  import Labels
  import StableSort

  datatype SolutionRow = SolutionRow(id: string, name: string, vendor: string, category: string)

  datatype FactRow = FactRow(solutionId: string, factType: string, factValue: string, evidenceUrl: Option<string>)

  datatype ResultRow = ResultRow(solutionId: string, score: real, rank: int)

  datatype Axis = Axis(id: string, name: string, order: int)

  datatype Status = Confirmed | NeedsVerification | NotAvailable

  datatype Cell = Cell(solutionId: string, axisId: string, value: string, status: Status, evidenceUrl: Option<string>)

  /** A stored matrix: the ids it compares, its axes and its cells. */
  datatype Matrix = Matrix(solutions: seq<string>, axes: seq<Axis>, cells: seq<Cell>)

  /** The per-solution details getMatrix adds, with the score and rank of the solution's search result. */
  datatype Detail = Detail(id: string, name: string, vendor: string, category: string, score: real, rank: int)

  datatype MatrixWithDetails = MatrixWithDetails(matrix: Matrix, details: seq<Detail>)

  /** A value, or the message of the Error the action throws. */
  datatype Outcome<T> = Done(value: T) | Rejected(message: string)

  const TooFewSolutions: string := "比較には2件以上の製品が必要です"
  const SolutionsUnavailable: string := "製品情報の取得に失敗しました"
  const MatrixMissing: string := "比較マトリクスが見つかりません"
  const Supported: string := "supported"
  const Check: string := "✓"
  const Missing: string := "-"

  /** The seven comparison axes, in display order. */
  const Axes: seq<Axis> := [
    Axis("vendor", "ベンダー", 1), Axis("category", "カテゴリ", 2), Axis("sso", "SSO対応", 3),
    Axis("audit_log", "監査ログ", 4), Axis("api", "API", 5), Axis("mobile", "モバイル", 6),
    Axis("score", "スコア", 7)]

  // ------------------------------------------------------------- the cells

  /** `facts?.filter(f => f.solution_id === id) || []`. */
  function FactsOf(facts: Option<seq<FactRow>>, id: string): (r: seq<FactRow>)
    ensures forall f :: f in r ==> f.solutionId == id
    ensures facts.None? ==> r == []
    ensures facts.Some? ==> forall f :: f in r <==> f in facts.value && f.solutionId == id
    decreases if facts.Some? then |facts.value| else 0
  {
    if facts.None? || |facts.value| == 0 then []
    else
      (if facts.value[0].solutionId == id then [facts.value[0]] else [])
      + FactsOf(Some(facts.value[1..]), id)
  }

  /** `facts.find(f => f.fact_type === factType)`. */
  function FirstOfType(facts: seq<FactRow>, factType: string): (r: Option<FactRow>)
    ensures r.Some? ==> r.value in facts && r.value.factType == factType
    ensures r.None? ==> forall f :: f in facts ==> f.factType != factType
    decreases |facts|
  {
    if |facts| == 0 then None
    else if facts[0].factType == factType then Some(facts[0])
    else FirstOfType(facts[1..], factType)
  }

  /** The first fact of the whole list that belongs to the solution and has the type: the reference the cells are stated against. */
  function FirstFact(facts: seq<FactRow>, id: string, factType: string): (r: Option<FactRow>)
    decreases |facts|
  {
    if |facts| == 0 then None
    else if facts[0].solutionId == id && facts[0].factType == factType then Some(facts[0])
    else FirstFact(facts[1..], id, factType)
  }

  predicate HasFact(facts: seq<FactRow>, id: string, factType: string) {
    exists k :: 0 <= k < |facts| && facts[k].solutionId == id && facts[k].factType == factType
  }

  /** Filtering by solution, then finding by type, finds the first fact with both. */
  lemma {:induction false} FirstOfOwnFacts(facts: seq<FactRow>, id: string, factType: string)
    ensures FirstOfType(FactsOf(Some(facts), id), factType) == FirstFact(facts, id, factType)
    ensures FirstFact(facts, id, factType).Some? <==> HasFact(facts, id, factType)
    decreases |facts|
  {
    if |facts| > 0 {
      FirstOfOwnFacts(facts[1..], id, factType);
      var own, rest := FactsOf(Some(facts), id), FactsOf(Some(facts[1..]), id);
      if facts[0].solutionId == id {
        assert own == [facts[0]] + rest;
        assert own[1..] == rest;
      } else {
        assert own == rest;
      }
      if HasFact(facts[1..], id, factType) {
        var k :| 0 <= k < |facts[1..]| && facts[1..][k].solutionId == id && facts[1..][k].factType == factType;
        assert facts[k + 1] == facts[1..][k];
      }
      if HasFact(facts, id, factType) && !(facts[0].solutionId == id && facts[0].factType == factType) {
        var k :| 0 <= k < |facts| && facts[k].solutionId == id && facts[k].factType == factType;
        assert facts[1..][k - 1] == facts[k];
      }
    }
  }

  /** `results?.find(r => r.solution_id === id)`. */
  function FindResult(results: Option<seq<ResultRow>>, id: string): (r: Option<ResultRow>)
    ensures r.Some? ==> results.Some? && r.value in results.value && r.value.solutionId == id
    ensures r.None? ==> results.None? || forall x :: x in results.value ==> x.solutionId != id
    decreases if results.Some? then |results.value| else 0
  {
    if results.None? || |results.value| == 0 then None
    else if results.value[0].solutionId == id then Some(results.value[0])
    else FindResult(Some(results.value[1..]), id)
  }

  /** `x?.evidence_url || null`: an empty URL counts as none. */
  function Evidence(fact: Option<FactRow>): Option<string> {
    if fact.Some? && fact.value.evidenceUrl.Some? && fact.value.evidenceUrl.value != "" then fact.value.evidenceUrl
    else None
  }

  /** A cell of the sso, audit_log, api or mobile axis. */
  function FactCell(id: string, axisId: string, fact: Option<FactRow>): Cell {
    Cell(id, axisId,
      if fact.Some? && fact.value.factValue == Supported then Check else Missing,
      if fact.Some? then Confirmed else NeedsVerification,
      Evidence(fact))
  }

  /** The cell of one solution on axis j: the vendor, the category label, a fact axis, or the score. */
  function AxisCell(s: SolutionRow, own: seq<FactRow>, result: Option<ResultRow>, wholeNumber: real -> string, j: nat): (c: Cell)
    requires j < |Axes|
    ensures c.solutionId == s.id && c.axisId == Axes[j].id
  {
    var axis := Axes[j].id;
    if j == 0 then Cell(s.id, axis, s.vendor, Confirmed, None)
    else if j == 1 then Cell(s.id, axis, Labels.CategoryLabel(s.category), Confirmed, None)
    else if j < 6 then FactCell(s.id, axis, FirstOfType(own, axis))
    else Cell(s.id, axis, if result.Some? then wholeNumber(result.value.score) else Missing, Confirmed, None)
  }

  /** The seven cells of one solution, in axis order. */
  function SolutionCells(s: SolutionRow, facts: Option<seq<FactRow>>, results: Option<seq<ResultRow>>, wholeNumber: real -> string): (r: seq<Cell>)
    ensures |r| == |Axes| == 7
    ensures forall j :: 0 <= j < |r| ==> r[j].solutionId == s.id && r[j].axisId == Axes[j].id
  {
    var own := FactsOf(facts, s.id);
    var result := FindResult(results, s.id);
    seq(|Axes|, j requires 0 <= j < |Axes| => AxisCell(s, own, result, wholeNumber, j))
  }

  /** The cells of each fetched solution, one block per solution in fetch order. */
  function Blocks(solutions: seq<SolutionRow>, facts: Option<seq<FactRow>>, results: Option<seq<ResultRow>>, wholeNumber: real -> string): (r: seq<seq<Cell>>)
    ensures |r| == |solutions|
    ensures forall i :: 0 <= i < |r| ==> r[i] == SolutionCells(solutions[i], facts, results, wholeNumber)
  {
    seq(|solutions|, i requires 0 <= i < |solutions| => SolutionCells(solutions[i], facts, results, wholeNumber))
  }

  /** The blocks one after another, as the loop pushes them. */
  function Flatten(blocks: seq<seq<Cell>>): (r: seq<Cell>)
    ensures (forall k :: 0 <= k < |blocks| ==> |blocks[k]| == 7) ==> |r| == 7 * |blocks|
    decreases |blocks|
  {
    if |blocks| == 0 then [] else blocks[0] + Flatten(blocks[1..])
  }

  function AllCells(solutions: seq<SolutionRow>, facts: Option<seq<FactRow>>, results: Option<seq<ResultRow>>, wholeNumber: real -> string): (r: seq<Cell>)
    ensures |r| == 7 * |solutions|
  {
    Flatten(Blocks(solutions, facts, results, wholeNumber))
  }

  /**
   * generateMatrix after the authentication check: at least two ids, the
   * solution rows fetched, then the seven axes and the cells of every
   * fetched solution. The stored matrix keeps the ids as requested.
   */
  function GenerateMatrix(
    solutionIds: seq<string>,
    solutions: Option<seq<SolutionRow>>,
    facts: Option<seq<FactRow>>,
    results: Option<seq<ResultRow>>,
    wholeNumber: real -> string): (r: Outcome<Matrix>)
    ensures |solutionIds| < 2 <==> r == Rejected(TooFewSolutions)
    ensures r.Rejected? <==> |solutionIds| < 2 || solutions.None?
    ensures r.Done? ==> r.value.solutions == solutionIds && r.value.axes == Axes
  {
    if |solutionIds| < 2 then Rejected(TooFewSolutions)
    else if solutions.None? then Rejected(SolutionsUnavailable)
    else Done(Matrix(solutionIds, Axes, AllCells(solutions.value, facts, results, wholeNumber)))
  }

  /** The cell for solution i and axis j sits at position 7i + j. */
  lemma CellAt(solutions: seq<SolutionRow>, facts: Option<seq<FactRow>>, results: Option<seq<ResultRow>>, wholeNumber: real -> string, i: nat, j: nat)
    requires i < |solutions| && j < 7
    ensures 7 * i + j < |AllCells(solutions, facts, results, wholeNumber)|
    ensures AllCells(solutions, facts, results, wholeNumber)[7 * i + j] == SolutionCells(solutions[i], facts, results, wholeNumber)[j]
  {
    FlattenAt(Blocks(solutions, facts, results, wholeNumber), i, j);
  }

  /** In blocks of seven, entry j of block i sits at position 7i + j. */
  lemma {:induction false} FlattenAt(blocks: seq<seq<Cell>>, i: nat, j: nat)
    requires forall k :: 0 <= k < |blocks| ==> |blocks[k]| == 7
    requires i < |blocks| && j < 7
    ensures 7 * i + j < |Flatten(blocks)|
    ensures Flatten(blocks)[7 * i + j] == blocks[i][j]
    decreases i
  {
    assert Flatten(blocks) == blocks[0] + Flatten(blocks[1..]);
    if i > 0 {
      FlattenAt(blocks[1..], i - 1, j);
      var k := 7 * (i - 1) + j;
      assert 7 * i + j == 7 + k;
      assert blocks[1..][i - 1] == blocks[i];
    }
  }

  /** Every solution has exactly one cell per axis, in axis order, and nothing else is in the matrix. */
  lemma MatrixLayout(solutions: seq<SolutionRow>, facts: Option<seq<FactRow>>, results: Option<seq<ResultRow>>, wholeNumber: real -> string, i: nat, j: nat)
    requires i < |solutions| && j < |Axes|
    ensures var cells := AllCells(solutions, facts, results, wholeNumber);
      |cells| == 7 * |solutions|
      && cells[7 * i + j].solutionId == solutions[i].id && cells[7 * i + j].axisId == Axes[j].id
  {
    CellAt(solutions, facts, results, wholeNumber, i, j);
  }

  /**
   * A fact axis shows the check mark exactly when the solution's first fact of
   * that type says "supported", and is confirmed exactly when such a fact exists.
   */
  lemma FactCellMeaning(s: SolutionRow, facts: seq<FactRow>, results: Option<seq<ResultRow>>, wholeNumber: real -> string, j: nat)
    requires 2 <= j < 6
    ensures var c := SolutionCells(s, Some(facts), results, wholeNumber)[j];
      var first := FirstFact(facts, s.id, Axes[j].id);
      (c.value == Check <==> first.Some? && first.value.factValue == Supported)
      && (c.status == Confirmed <==> HasFact(facts, s.id, Axes[j].id))
      && c.evidenceUrl == Evidence(first)
  {
    var t := Axes[j].id;
    FactCellAt(s, Some(facts), results, wholeNumber, j);
    FirstOfOwnFacts(facts, s.id, t);
  }

  lemma FactCellAt(s: SolutionRow, facts: Option<seq<FactRow>>, results: Option<seq<ResultRow>>, wholeNumber: real -> string, j: nat)
    requires 2 <= j < 6
    ensures SolutionCells(s, facts, results, wholeNumber)[j]
      == FactCell(s.id, Axes[j].id, FirstOfType(FactsOf(facts, s.id), Axes[j].id))
  {
  }

  /** The vendor and category cells, and the score cell: the rounded score, or "-" without a search result. */
  lemma OtherCellsMeaning(s: SolutionRow, facts: Option<seq<FactRow>>, results: Option<seq<ResultRow>>, wholeNumber: real -> string)
    ensures var cs := SolutionCells(s, facts, results, wholeNumber);
      var result := FindResult(results, s.id);
      cs[0].value == s.vendor
      && cs[1].value == Labels.CategoryLabel(s.category)
      && (!Labels.KnownCategory(s.category) ==> cs[1].value == s.category)
      && (result.None? ==> cs[6].value == Missing)
      && (result.Some? ==> cs[6].value == wholeNumber(result.value.score))
      && cs[0].status == cs[1].status == cs[6].status == Confirmed
  {
  }

  // ------------------------------------------------------------ the details

  /** A solution's details, with score 0 and rank 999 when it has no search result. */
  function DetailOf(s: SolutionRow, results: Option<seq<ResultRow>>): (d: Detail)
    ensures d.id == s.id && d.name == s.name
  {
    var result := FindResult(results, s.id);
    Detail(s.id, s.name, s.vendor, s.category,
      if result.Some? then result.value.score else 0.0,
      if result.Some? then result.value.rank else 999)
  }

  function DetailsInFetchOrder(solutions: seq<SolutionRow>, results: Option<seq<ResultRow>>): (r: seq<Detail>)
    ensures |r| == |solutions|
  {
    seq(|solutions|, i requires 0 <= i < |solutions| => DetailOf(solutions[i], results))
  }

  /** The sort key that makes the shared descending sort an ascending sort by rank. */
  function NegatedRank(d: Detail): real {
    -(d.rank as real)
  }

  /** getMatrix: the stored matrix and its details, sorted by rank with a stable sort. */
  function GetMatrix(stored: Option<Matrix>, solutions: Option<seq<SolutionRow>>, results: Option<seq<ResultRow>>): (r: Option<MatrixWithDetails>)
    ensures r.Some? <==> stored.Some?
    ensures r.Some? ==> (r.value.matrix == stored.value
                          && |r.value.details| == if solutions.Some? then |solutions.value| else 0)
  {
    if stored.None? then None
    else
      var fetched := if solutions.Some? then solutions.value else [];
      Some(MatrixWithDetails(stored.value, StableSort.Sort(DetailsInFetchOrder(fetched, results), NegatedRank)))
  }

  /**
   * The details are the fetched solutions rearranged into ascending rank, with
   * solutions of equal rank (such as those without a result, all at 999) kept
   * in fetch order.
   */
  lemma DetailsByRank(stored: Matrix, solutions: seq<SolutionRow>, results: Option<seq<ResultRow>>)
    ensures var ds := GetMatrix(Some(stored), Some(solutions), results).value.details;
      (forall i, j :: 0 <= i < j < |ds| ==> ds[i].rank <= ds[j].rank)
      && multiset(ds) == multiset(DetailsInFetchOrder(solutions, results))
      && (forall k ::
            StableSort.WithKey(ds, NegatedRank, k) == StableSort.WithKey(DetailsInFetchOrder(solutions, results), NegatedRank, k))
  {
    var unsorted := DetailsInFetchOrder(solutions, results);
    var ds := StableSort.Sort(unsorted, NegatedRank);
    StableSort.SortSorted(unsorted, NegatedRank);
    forall i, j | 0 <= i < j < |ds| ensures ds[i].rank <= ds[j].rank {
      assert NegatedRank(ds[i]) >= NegatedRank(ds[j]);
    }
    forall k ensures StableSort.WithKey(ds, NegatedRank, k) == StableSort.WithKey(unsorted, NegatedRank, k) {
      StableSort.SortStable(unsorted, NegatedRank, k);
    }
  }

  /** A solution without a search result is listed with score 0 and rank 999. */
  lemma UnrankedDefaults(s: SolutionRow, results: Option<seq<ResultRow>>)
    requires results.None? || forall x :: x in results.value ==> x.solutionId != s.id
    ensures DetailOf(s, results).score == 0.0 && DetailOf(s, results).rank == 999
  {
  }

  // ---------------------------------------------------------------- the CSV

  /** `cells.find(...)?.value || "-"`: the first cell for the solution and axis, "-" when missing or empty. */
  function CellValue(cells: seq<Cell>, solutionId: string, axisId: string): (r: string)
    ensures r != ""
    ensures (forall c :: c in cells ==> !CellFor(c, solutionId, axisId)) ==> r == Missing
    ensures forall k :: 0 <= k < |cells| && CellFor(cells[k], solutionId, axisId)
                        && (forall j :: 0 <= j < k ==> !CellFor(cells[j], solutionId, axisId)) ==>
              r == (if cells[k].value != "" then cells[k].value else Missing)
    decreases |cells|
  {
    if |cells| == 0 then Missing
    else if CellFor(cells[0], solutionId, axisId) then
      (if cells[0].value != "" then cells[0].value else Missing)
    else
      var r := CellValue(cells[1..], solutionId, axisId);
      assert forall k :: 0 < k < |cells| ==> cells[1..][k - 1] == cells[k];
      r
  }

  /** The cell belongs to the solution and the axis. */
  predicate CellFor(c: Cell, solutionId: string, axisId: string) {
    c.solutionId == solutionId && c.axisId == axisId
  }

  function HeaderRow(details: seq<Detail>): (r: seq<string>)
    ensures |r| == 1 + |details|
  {
    ["項目"] + seq(|details|, i requires 0 <= i < |details| => details[i].name)
  }

  function AxisRow(axis: Axis, details: seq<Detail>, cells: seq<Cell>): (r: seq<string>)
    ensures |r| == 1 + |details|
  {
    [axis.name] + seq(|details|, i requires 0 <= i < |details| => CellValue(cells, details[i].id, axis.id))
  }

  /** The fields exportCsv writes: the header, then one row per axis. */
  function Table(m: MatrixWithDetails): (t: seq<seq<string>>)
    ensures |t| == 1 + |m.matrix.axes|
  {
    [HeaderRow(m.details)]
    + seq(|m.matrix.axes|, k requires 0 <= k < |m.matrix.axes| => AxisRow(m.matrix.axes[k], m.details, m.matrix.cells))
  }

  /** The shape of the table: a header naming the solutions in detail order, and per axis its name and one value per solution. */
  lemma TableShape(m: MatrixWithDetails)
    ensures var t := Table(m);
      (forall r :: 0 <= r < |t| ==> |t[r]| == 1 + |m.details|)
      && t[0][0] == "項目"
      && (forall i :: 0 <= i < |m.details| ==> t[0][1 + i] == m.details[i].name)
      && (forall k :: 0 <= k < |m.matrix.axes| ==> t[1 + k][0] == m.matrix.axes[k].name)
      && (forall k, i :: 0 <= k < |m.matrix.axes| && 0 <= i < |m.details| ==>
            t[1 + k][1 + i] == CellValue(m.matrix.cells, m.details[i].id, m.matrix.axes[k].id))
  {
    var t := Table(m);
    forall k | 0 <= k < |m.matrix.axes|
      ensures t[1 + k] == AxisRow(m.matrix.axes[k], m.details, m.matrix.cells)
    {
    }
  }

  /** `"${cell}"`: the field between double quotes, with nothing escaped. */
  function CsvField(cell: string): (r: string)
    ensures |r| == |cell| + 2 && r[0] == '"' && r[|r| - 1] == '"' && r[1..|r| - 1] == cell
  {
    "\"" + cell + "\""
  }

  function QuoteAll(row: seq<string>): (r: seq<string>)
    ensures |r| == |row|
    decreases |row|
  {
    if |row| == 0 then [] else [CsvField(row[0])] + QuoteAll(row[1..])
  }

  lemma {:induction false} QuoteAllAt(row: seq<string>)
    ensures forall i :: 0 <= i < |row| ==> QuoteAll(row)[i] == CsvField(row[i])
    decreases |row|
  {
    if |row| > 0 {
      QuoteAllAt(row[1..]);
      assert forall i :: 1 <= i < |row| ==> QuoteAll(row)[i] == QuoteAll(row[1..])[i - 1];
    }
  }

  function CsvLine(row: seq<string>): string {
    Join(QuoteAll(row), ",")
  }

  function CsvLines(rows: seq<seq<string>>): (r: seq<string>)
    ensures |r| == |rows|
    decreases |rows|
  {
    if |rows| == 0 then [] else [CsvLine(rows[0])] + CsvLines(rows[1..])
  }

  /** exportCsv: the table's lines joined by "\n", or the error when no matrix is stored. */
  function ExportCsv(m: Option<MatrixWithDetails>): (r: Outcome<string>)
    ensures r.Rejected? <==> m.None?
    ensures r.Rejected? ==> r.message == MatrixMissing
  {
    if m.None? then Rejected(MatrixMissing) else Done(Join(CsvLines(Table(m.value)), "\n"))
  }

  // --------------------------------------------- reading it as RFC 4180 text

  /** Section 2 of RFC 4180: inside a quoted field a double quote is written twice. */
  function Escape(x: string): (r: string)
    ensures |r| >= |x|
    decreases |x|
  {
    if |x| == 0 then "" else (if x[0] == '"' then "\"\"" else [x[0]]) + Escape(x[1..])
  }

  /** A field quoted as section 2 of RFC 4180 requires. */
  function RfcField(x: string): string {
    "\"" + Escape(x) + "\""
  }

  function RfcAll(row: seq<string>): (r: seq<string>)
    ensures |r| == |row|
    decreases |row|
  {
    if |row| == 0 then [] else [RfcField(row[0])] + RfcAll(row[1..])
  }

  /**
   * An RFC 4180 reader for the inside of a quoted field: the field's text and
   * what follows the closing quote.
   */
  function ReadQuoted(s: string): (r: Option<(string, string)>)
    ensures r.Some? ==> |r.value.1| < |s|
    decreases |s|
  {
    if |s| == 0 then None
    else if s[0] == '"' then
      if |s| >= 2 && s[1] == '"' then
        match ReadQuoted(s[2..])
        case None => None
        case Some((f, rest)) => Some(("\"" + f, rest))
      else Some(("", s[1..]))
    else
      match ReadQuoted(s[1..])
      case None => None
      case Some((f, rest)) => Some(([s[0]] + f, rest))
  }

  /** An RFC 4180 reader for one record of quoted fields separated by commas. */
  function ReadRecord(s: string): (r: Option<seq<string>>)
    ensures r.Some? ==> |r.value| >= 1
    decreases |s|
  {
    if |s| == 0 || s[0] != '"' then None
    else
      match ReadQuoted(s[1..])
      case None => None
      case Some((f, rest)) =>
        if rest == "" then Some([f])
        else if rest[0] != ',' then None
        else
          match ReadRecord(rest[1..])
          case None => None
          case Some(fs) => Some([f] + fs)
  }

  /** Each line read as a record. */
  function ReadRecords(lines: seq<string>): (r: Option<seq<seq<string>>>)
    ensures r.Some? ==> |r.value| == |lines|
    decreases |lines|
  {
    if |lines| == 0 then Some([])
    else
      match (ReadRecord(lines[0]), ReadRecords(lines[1..]))
      case (Some(x), Some(xs)) => Some([x] + xs)
      case _ => None
  }

  lemma {:induction false} ReadEscaped(f: string, rest: string)
    requires |rest| == 0 || rest[0] != '"'
    ensures ReadQuoted(Escape(f) + "\"" + rest) == Some((f, rest))
    decreases |f|
  {
    var s := Escape(f) + "\"" + rest;
    if |f| > 0 {
      ReadEscaped(f[1..], rest);
      if f[0] == '"' {
        assert s[2..] == Escape(f[1..]) + "\"" + rest;
        assert "\"" + f[1..] == f;
      } else {
        assert s[1..] == Escape(f[1..]) + "\"" + rest;
        assert [f[0]] + f[1..] == f;
      }
    }
  }

  /** Whatever the reader accepts is an escaped field, its closing quote and the rest. */
  lemma {:induction false} ReadQuotedSound(s: string)
    requires ReadQuoted(s).Some?
    ensures s == Escape(ReadQuoted(s).value.0) + "\"" + ReadQuoted(s).value.1
    decreases |s|
  {
    if s[0] == '"' {
      if |s| >= 2 && s[1] == '"' {
        ReadQuotedSound(s[2..]);
        var f := ReadQuoted(s[2..]).value.0;
        assert ("\"" + f)[1..] == f;
      }
    } else {
      ReadQuotedSound(s[1..]);
      var f := ReadQuoted(s[1..]).value.0;
      assert ([s[0]] + f)[1..] == f;
    }
  }

  lemma {:induction false} EscapeUnchanged(x: string)
    ensures Escape(x) == x <==> '"' !in x
    decreases |x|
  {
    if |x| > 0 {
      EscapeUnchanged(x[1..]);
      if x[0] == '"' {
        assert |Escape(x)| > |x|;
      } else {
        assert '"' in x <==> '"' in x[1..];
        if Escape(x) == x {
          assert Escape(x)[1..] == Escape(x[1..]);
        }
      }
    }
  }

  lemma ReadLastField(f: string)
    ensures ReadRecord(RfcField(f)) == Some([f])
  {
    var s := RfcField(f);
    assert s[1..] == Escape(f) + "\"" + "";
    ReadEscaped(f, "");
  }

  lemma ReadFieldThenMore(f: string, more: string)
    ensures ReadRecord(RfcField(f) + "," + more)
      == if ReadRecord(more).Some? then Some([f] + ReadRecord(more).value) else None
  {
    var s := RfcField(f) + "," + more;
    assert s[1..] == Escape(f) + "\"" + ("," + more);
    ReadEscaped(f, "," + more);
    assert ("," + more)[1..] == more;
  }

  /** Reading the RFC 4180 writing of a record gives the record back. */
  lemma {:induction false} RfcRecordRoundTrip(row: seq<string>)
    requires |row| > 0
    ensures ReadRecord(Join(RfcAll(row), ",")) == Some(row)
    decreases |row|
  {
    if |row| == 1 {
      ReadLastField(row[0]);
      assert RfcAll(row) == [RfcField(row[0])];
      assert row == [row[0]];
    } else {
      RfcRecordRoundTrip(row[1..]);
      RfcJoinCons(row);
      ReadFieldThenMore(row[0], Join(RfcAll(row[1..]), ","));
      assert [row[0]] + row[1..] == row;
    }
  }

  lemma RfcJoinCons(row: seq<string>)
    requires |row| >= 2
    ensures Join(RfcAll(row), ",") == RfcField(row[0]) + "," + Join(RfcAll(row[1..]), ",")
  {
    assert RfcAll(row)[1..] == RfcAll(row[1..]);
  }

  lemma {:induction false} QuotingAgrees(row: seq<string>)
    requires forall i :: 0 <= i < |row| ==> '"' !in row[i]
    ensures QuoteAll(row) == RfcAll(row)
    decreases |row|
  {
    if |row| > 0 {
      EscapeUnchanged(row[0]);
      QuotingAgrees(row[1..]);
    }
  }

  /**
   * The deviation from section 2 of RFC 4180: a field is read back as written
   * exactly when it contains no double quote.
   */
  lemma FieldReadsBackIff(x: string)
    ensures ReadRecord(CsvField(x)) == Some([x]) <==> '"' !in x
  {
    if '"' !in x {
      PlainFieldReadsBack(x);
    } else {
      QuotedFieldMisread(x);
    }
  }

  lemma PlainFieldReadsBack(x: string)
    requires '"' !in x
    ensures ReadRecord(CsvField(x)) == Some([x])
  {
    QuotingAgrees([x]);
    RfcRecordRoundTrip([x]);
    assert Join(RfcAll([x]), ",") == CsvField(x);
  }

  lemma QuotedFieldMisread(x: string)
    requires '"' in x
    ensures ReadRecord(CsvField(x)) != Some([x])
  {
    if ReadRecord(CsvField(x)) == Some([x]) {
      var s := CsvField(x);
      var read := ReadQuoted(s[1..]);
      assert read.Some? && read.value.1 == "" && read.value.0 == x;
      assert s[1..] == x + "\"";
      ReadQuotedSound(s[1..]);
      assert s[1..] == Escape(x) + "\"" + "";
      assert x + "\"" == Escape(x) + "\"";
      assert x == (x + "\"")[..|x + "\""| - 1] == Escape(x);
      EscapeUnchanged(x);
    }
  }

  /** A field holding a single double quote is written as three quotes, which an RFC 4180 reader rejects. */
  lemma QuoteFieldRejected()
    ensures CsvField("\"") == "\"\"\"" && ReadRecord(CsvField("\"")) == None
  {
    assert ReadQuoted("\"\"") == ReadQuoted("") by {
      assert "\"\""[2..] == "";
    }
  }

  lemma {:induction false} NoNewlineInJoin(parts: seq<string>, sep: string)
    requires '\n' !in sep
    requires forall i :: 0 <= i < |parts| ==> '\n' !in parts[i]
    ensures '\n' !in Join(parts, sep)
    decreases |parts|
  {
    if |parts| > 1 {
      NoNewlineInJoin(parts[1..], sep);
    }
  }

  predicate PlainField(x: string) {
    '"' !in x && '\n' !in x
  }

  predicate PlainRows(rows: seq<seq<string>>) {
    forall r, i :: 0 <= r < |rows| && 0 <= i < |rows[r]| ==> PlainField(rows[r][i])
  }

  lemma {:induction false} ReadPlainLines(rows: seq<seq<string>>)
    requires PlainRows(rows)
    requires forall r :: 0 <= r < |rows| ==> |rows[r]| > 0
    ensures ReadRecords(CsvLines(rows)) == Some(rows)
    ensures forall k :: 0 <= k < |rows| ==> '\n' !in CsvLines(rows)[k]
    decreases |rows|
  {
    if |rows| > 0 {
      ReadPlainLines(rows[1..]);
      ReadPlainLine(rows[0]);
      assert CsvLines(rows) == [CsvLine(rows[0])] + CsvLines(rows[1..]);
      assert [rows[0]] + rows[1..] == rows;
    }
  }

  /** One line of plain fields reads back as its record and holds no newline. */
  lemma ReadPlainLine(row: seq<string>)
    requires forall i :: 0 <= i < |row| ==> PlainField(row[i])
    requires |row| > 0
    ensures ReadRecord(CsvLine(row)) == Some(row)
    ensures '\n' !in CsvLine(row)
  {
    QuotingAgrees(row);
    RfcRecordRoundTrip(row);
    QuoteAllAt(row);
    NoNewlineInJoin(QuoteAll(row), ",");
  }

  /**
   * When no value contains a double quote or a newline, an RFC 4180 reader
   * splitting the export at newlines recovers the table exactly, commas included.
   */
  lemma ExportReadsBack(m: MatrixWithDetails)
    requires PlainRows(Table(m))
    ensures ReadRecords(SplitLines(ExportCsv(Some(m)).value)) == Some(Table(m))
  {
    var t := Table(m);
    TableShape(m);
    ReadPlainLines(t);
    SplitLinesOfJoin(CsvLines(t));
  }
}
