/**
 * The approval-request ("稟議書") Markdown that generateProposal writes, and
 * the version numbers proposals are stored under. The document is built as
 * a list of lines, each either fixed template text or a line filled in from
 * one named input field, so that facts about the template's structure hold
 * whatever the inputs contain. Today's date and the number formatting
 * (toFixed(0), toLocaleString) are parameters.
 */
module ProposalTemplate {
  import opened Nullable
  import opened Text
  import Labels
  import StableSort
  import ProposalParser

  datatype SolutionInfo = SolutionInfo(name: string, vendor: string, category: string, description: Option<string>)

  datatype ConstraintInfo = ConstraintInfo(requireSso: bool, requireAuditLog: bool, budgetMax: Option<real>)

  datatype DiagnosisInfo = DiagnosisInfo(
    companyIndustry: string,
    companySize: string,
    problems: seq<string>,
    constraints: ConstraintInfo)

  /** The stored explanation: its summary and the reasons of its matched facts. */
  datatype ExplainInfo = ExplainInfo(summary: string, reasons: seq<string>)

  datatype ResultInfo = ResultInfo(score: real, explain: Option<ExplainInfo>)

  datatype ComparedSolution = ComparedSolution(name: string, score: real)

  datatype Context = Context(
    solution: SolutionInfo,
    diagnosis: DiagnosisInfo,
    searchResult: ResultInfo,
    comparison: Option<seq<ComparedSolution>>)

  /** Today's date as toLocaleDateString("ja-JP") prints it, and the two number renderings. */
  datatype Formats = Formats(today: string, wholeNumber: real -> string, grouped: real -> string)

  /** The input a filled line is built from. */
  datatype Field =
    | Product | Vendor | CategoryName | Date | Background | Problem | Score
    | Summary | Reason | Description | ComparisonRow | ComparisonVerdict | Budget

  datatype Line = Fixed(text: string) | Filled(field: Field, text: string)

  const DocumentTitle: string := "# SaaS導入稟議書"
  const DefaultProblem: string := "- 業務効率化"
  const DefaultSummary: string := "診断条件にマッチする製品です。"
  const MatchedCaption: string := "### 条件マッチ"
  const ComparisonHeading: string := "## 5. 比較検討結果"

  // ----------------------------------------------------------- the lines

  /** One filled line per value, each the prefix followed by the value, in order. */
  function Items(field: Field, prefix: string, values: seq<string>): (r: seq<Line>)
    ensures |r| == |values|
    decreases |values|
  {
    if |values| == 0 then [] else [Filled(field, prefix + values[0])] + Items(field, prefix, values[1..])
  }

  function ProblemLines(problems: seq<string>): seq<Line> {
    if |problems| == 0 then [Fixed(DefaultProblem)] else Items(Problem, "- ", problems)
  }

  predicate ShowsMatchedFacts(explain: Option<ExplainInfo>) {
    explain.Some? && |explain.value.reasons| > 0
  }

  /** The matched-conditions subsection, or the empty line the template leaves in its place. */
  function MatchedLines(explain: Option<ExplainInfo>): seq<Line> {
    if ShowsMatchedFacts(explain) then [Fixed(MatchedCaption)] + Items(Reason, "- ✓ ", explain.value.reasons)
    else [Fixed("")]
  }

  function SummaryText(explain: Option<ExplainInfo>): string {
    if explain.Some? && explain.value.summary != "" then explain.value.summary else DefaultSummary
  }

  function DescriptionText(solution: SolutionInfo): string {
    if solution.description.Some? && solution.description.value != "" then solution.description.value
    else solution.name + "は" + solution.vendor + "が提供する" + Labels.CategoryLabel(solution.category) + "ソリューションです。"
  }

  /** The title and the heading of section 1. */
  function OpeningLines(): seq<Line> {
    [Fixed(DocumentTitle), Fixed(""), Fixed("## 1. 概要"), Fixed("")]
  }

  /** The overview table: product, vendor, category and today's date. */
  function TableLines(ctx: Context, formats: Formats): seq<Line> {
    [ Fixed("| 項目 | 内容 |"), Fixed("|------|------|"),
      Filled(Product, "| 対象製品 | " + ctx.solution.name + " |"),
      Filled(Vendor, "| ベンダー | " + ctx.solution.vendor + " |"),
      Filled(CategoryName, "| カテゴリ | " + Labels.CategoryLabel(ctx.solution.category) + " |"),
      Filled(Date, "| 起案日 | " + formats.today + " |") ]
  }

  /** Section 2: the background sentence, up to the problems caption. */
  function PurposeLines(ctx: Context): seq<Line> {
    var d := ctx.diagnosis;
    [ Fixed(""), Fixed("## 2. 導入目的"), Fixed(""), Fixed("### 背景"),
      Filled(Background, d.companyIndustry + "業界の" + Labels.CompanySizeLabel(d.companySize)
        + "企業として、以下の課題を解決するため" + Labels.CategoryLabel(ctx.solution.category) + "システムの導入を検討しています。"),
      Fixed(""), Fixed("### 解決したい課題") ]
  }

  /** The title, the overview table and the background, up to the problems caption. */
  function IntroLines(ctx: Context, formats: Formats): seq<Line> {
    OpeningLines() + TableLines(ctx, formats) + PurposeLines(ctx)
  }

  /** Section 3 up to the matched conditions: the score and the summary. */
  function SelectionLines(ctx: Context, formats: Formats): seq<Line> {
    [ Fixed(""), Fixed("## 3. 選定理由"), Fixed(""), Fixed("### 推薦スコア"),
      Filled(Score, "**" + formats.wholeNumber(ctx.searchResult.score) + "点** / 100点"),
      Fixed(""), Fixed("### 推薦理由"), Filled(Summary, SummaryText(ctx.searchResult.explain)), Fixed("") ]
  }

  function ProductLines(ctx: Context): seq<Line> {
    [Fixed(""), Fixed("## 4. 製品概要"), Fixed(""), Filled(Description, DescriptionText(ctx.solution)), Fixed("")]
  }

  /** Sections 1 to 4. */
  function OverviewLines(ctx: Context, formats: Formats): seq<Line> {
    IntroLines(ctx, formats) + ProblemLines(ctx.diagnosis.problems) + SelectionLines(ctx, formats)
    + MatchedLines(ctx.searchResult.explain) + ProductLines(ctx)
  }

  function RowText(entry: ComparedSolution, formats: Formats): string {
    "| " + entry.name + " | " + formats.wholeNumber(entry.score) + "点 |"
  }

  function Rows(entries: seq<ComparedSolution>, formats: Formats): (r: seq<Line>)
    ensures |r| == |entries|
    decreases |entries|
  {
    if |entries| == 0 then [] else [Filled(ComparisonRow, RowText(entries[0], formats))] + Rows(entries[1..], formats)
  }

  /** Section 5, written only for a comparison of more than one solution. */
  function ComparisonLines(entries: seq<ComparedSolution>, name: string, formats: Formats): seq<Line> {
    ComparisonHead() + Rows(entries, formats) + VerdictLines(|entries|, name)
  }

  /** The section heading and the table header. */
  function ComparisonHead(): seq<Line> {
    [Fixed(ComparisonHeading), Fixed(""), Fixed("| 製品名 | スコア |"), Fixed("|--------|--------|")]
  }

  /** The sentence naming the count of compared products and the chosen one. */
  function VerdictLines(count: nat, name: string): seq<Line> {
    [ Fixed(""),
      Filled(ComparisonVerdict, "上記" + NatToString(count) + "製品を比較検討した結果、**" + name
        + "**が最も要件にマッチすると判断しました。"),
      Fixed("") ]
  }

  function Requirement(required: bool): string {
    if required then "必須 → 対応確認済み" else "任意"
  }

  predicate ShowsBudget(budgetMax: Option<real>) {
    budgetMax.Some? && budgetMax.value != 0.0
  }

  function BudgetText(budget: real, formats: Formats): string {
    "| 予算上限 | ¥" + formats.grouped(budget) + "/月 |"
  }

  function BudgetLine(budgetMax: Option<real>, formats: Formats): Line {
    if ShowsBudget(budgetMax) then Filled(Budget, BudgetText(budgetMax.value, formats)) else Fixed("")
  }

  /** The number of the constraints section; the schedule follows it. Any comparison object counts, however short. */
  function ConstraintsNumber(ctx: Context): nat {
    if ctx.comparison.Some? then 6 else 5
  }

  function ConstraintsHeading(n: nat): string {
    "## " + NatToString(n) + ". 必須条件の充足"
  }

  function ScheduleHeading(n: nat): string {
    "## " + NatToString(n) + ". 今後のスケジュール"
  }

  /** The constraints table: SSO, audit log and the budget row or the empty line in its place. */
  function ConstraintsLines(ctx: Context, formats: Formats): seq<Line> {
    var c := ctx.diagnosis.constraints;
    [ Fixed(ConstraintsHeading(ConstraintsNumber(ctx))), Fixed(""),
      Fixed("| 条件 | 状況 |"), Fixed("|------|------|"),
      Fixed("| SSO対応 | " + Requirement(c.requireSso) + " |"),
      Fixed("| 監査ログ | " + Requirement(c.requireAuditLog) + " |"),
      BudgetLine(c.budgetMax, formats), Fixed("") ]
  }

  /** The fixed schedule and the footer, under the section after the constraints. */
  function ScheduleLines(ctx: Context): seq<Line> {
    [Fixed(ScheduleHeading(ConstraintsNumber(ctx) + 1))] + ScheduleBody()
  }

  function ScheduleBody(): seq<Line> {
    FixedLines([ "",
      "1. **トライアル申込** - 本稟議承認後", "2. **評価期間** - 2週間程度",
      "3. **契約締結** - 評価完了後", "4. **導入・運用開始** - 契約後1ヶ月以内",
      "", "---", "", "*本稟議書は DX Selecta により自動生成されました。*" ])
  }

  /** Template lines without placeholders, one per text. */
  function FixedLines(texts: seq<string>): (r: seq<Line>)
    ensures |r| == |texts| && forall i :: 0 <= i < |r| ==> r[i] == Fixed(texts[i])
  {
    seq(|texts|, i requires 0 <= i < |texts| => Fixed(texts[i]))
  }

  function ClosingLines(ctx: Context, formats: Formats): seq<Line> {
    ConstraintsLines(ctx, formats) + ScheduleLines(ctx)
  }

  predicate ShowsComparison(ctx: Context) {
    ctx.comparison.Some? && |ctx.comparison.value| > 1
  }

  function ComparisonPart(ctx: Context, formats: Formats): seq<Line> {
    if ShowsComparison(ctx) then ComparisonLines(ctx.comparison.value, ctx.solution.name, formats) else []
  }

  function DocumentLines(ctx: Context, formats: Formats): seq<Line> {
    OverviewLines(ctx, formats) + ComparisonPart(ctx, formats) + ClosingLines(ctx, formats)
  }

  function Texts(lines: seq<Line>): (r: seq<string>)
    ensures |r| == |lines|
    decreases |lines|
  {
    if |lines| == 0 then [] else [lines[0].text] + Texts(lines[1..])
  }

  /** A part of the template: its lines, each closed by a newline. */
  function Part(lines: seq<Line>): string {
    Join(Texts(lines), "\n") + "\n"
  }

  /** generateMarkdown: the overview, the comparison when shown, then the constraints and schedule. */
  function GenerateMarkdown(ctx: Context, formats: Formats): string {
    Part(OverviewLines(ctx, formats))
    + (if ShowsComparison(ctx) then Part(ComparisonLines(ctx.comparison.value, ctx.solution.name, formats)) else "")
    + Part(ClosingLines(ctx, formats))
  }

  // --------------------------------------------------------- document facts

  lemma TextsConcat(a: seq<Line>, b: seq<Line>)
    ensures Texts(a + b) == Texts(a) + Texts(b)
  {
    if |a| > 0 {
      assert (a + b)[1..] == a[1..] + b;
      TextsConcat(a[1..], b);
    } else {
      assert a + b == b;
    }
  }

  lemma PartsConcat(a: seq<Line>, b: seq<Line>)
    requires |a| > 0 && |b| > 0
    ensures Part(a) + Part(b) == Part(a + b)
  {
    TextsConcat(a, b);
    JoinConcat(Texts(a), Texts(b), "\n");
  }

  /** The document is its lines, each closed by a newline. */
  lemma MarkdownIsLines(ctx: Context, formats: Formats)
    ensures GenerateMarkdown(ctx, formats) == Join(Texts(DocumentLines(ctx, formats)), "\n") + "\n"
  {
    var o := OverviewLines(ctx, formats);
    var m := ComparisonPart(ctx, formats);
    var c := ClosingLines(ctx, formats);
    if ShowsComparison(ctx) {
      PartsConcat(o, m);
      PartsConcat(o + m, c);
    } else {
      assert o + m == o;
      PartsConcat(o, c);
    }
  }

  /** The document opens with its title line. */
  lemma MarkdownOpensWithTitle(ctx: Context, formats: Formats)
    ensures StartsWith(GenerateMarkdown(ctx, formats), DocumentTitle)
  {
    MarkdownIsLines(ctx, formats);
    var ts := Texts(DocumentLines(ctx, formats));
    assert ts[0] == DocumentTitle;
    JoinHead(ts, "\n");
  }

  lemma JoinHead(parts: seq<string>, sep: string)
    requires |parts| > 0
    ensures StartsWith(Join(parts, sep), parts[0])
  {
  }

  /** The fixed lines that open with '#': the document's outline as the template writes it. */
  function Outline(lines: seq<Line>): seq<string>
    decreases |lines|
  {
    if |lines| == 0 then []
    else Heads(lines[0]) + Outline(lines[1..])
  }

  /** The outline entry a single line contributes: a fixed line opening with '#'. */
  function Heads(line: Line): seq<string> {
    if line.Fixed? && |line.text| > 0 && line.text[0] == '#' then [line.text] else []
  }

  /** The texts of the lines filled from one field, in order. */
  function FieldTexts(lines: seq<Line>, field: Field): seq<string>
    decreases |lines|
  {
    if |lines| == 0 then []
    else (if lines[0].Filled? && lines[0].field == field then [lines[0].text] else []) + FieldTexts(lines[1..], field)
  }

  lemma OutlineConcat(a: seq<Line>, b: seq<Line>)
    ensures Outline(a + b) == Outline(a) + Outline(b)
  {
    if |a| > 0 {
      assert (a + b)[1..] == a[1..] + b;
      OutlineConcat(a[1..], b);
    } else {
      assert a + b == b;
    }
  }

  lemma FieldTextsConcat(a: seq<Line>, b: seq<Line>, field: Field)
    ensures FieldTexts(a + b, field) == FieldTexts(a, field) + FieldTexts(b, field)
  {
    if |a| > 0 {
      assert (a + b)[1..] == a[1..] + b;
      FieldTextsConcat(a[1..], b, field);
    } else {
      assert a + b == b;
    }
  }

  lemma OutlineOfItems(field: Field, prefix: string, values: seq<string>)
    ensures Outline(Items(field, prefix, values)) == []
  {
    if |values| > 0 {
      OutlineOfItems(field, prefix, values[1..]);
    }
  }

  lemma OutlineOfRows(entries: seq<ComparedSolution>, formats: Formats)
    ensures Outline(Rows(entries, formats)) == []
  {
    if |entries| > 0 {
      OutlineOfRows(entries[1..], formats);
    }
  }


  /** Lines none of which is a heading contribute nothing to the outline. */
  lemma {:induction false} OutlineOfPlain(ls: seq<Line>)
    requires forall i :: 0 <= i < |ls| ==> Heads(ls[i]) == []
    ensures Outline(ls) == []
    decreases |ls|
  {
    if |ls| > 0 {
      assert forall i :: 0 <= i < |ls[1..]| ==> ls[1..][i] == ls[i + 1];
      OutlineOfPlain(ls[1..]);
    }
  }

  lemma OutlineStep(lines: seq<Line>, k: nat)
    requires k < |lines|
    ensures Outline(lines[k..]) == Heads(lines[k]) + Outline(lines[k + 1..])
  {
    assert lines[k..][1..] == lines[k + 1..];
  }

  /** The heading of line i, none past the end. */
  function HeadsAt(ls: seq<Line>, i: nat): seq<string> {
    if i < |ls| then Heads(ls[i]) else []
  }

  /** The outline of at most nine lines, line by line. */
  lemma {:induction false} OutlineOfLines(ls: seq<Line>)
    requires |ls| <= 9
    ensures Outline(ls) == HeadsAt(ls, 0) + (HeadsAt(ls, 1) + (HeadsAt(ls, 2) + (HeadsAt(ls, 3) + (HeadsAt(ls, 4)
      + (HeadsAt(ls, 5) + (HeadsAt(ls, 6) + (HeadsAt(ls, 7) + HeadsAt(ls, 8))))))))
    decreases |ls|
  {
    if |ls| > 0 {
      var t := ls[1..];
      OutlineOfLines(t);
      HeadsAtTail(ls, 0); HeadsAtTail(ls, 1); HeadsAtTail(ls, 2); HeadsAtTail(ls, 3);
      HeadsAtTail(ls, 4); HeadsAtTail(ls, 5); HeadsAtTail(ls, 6); HeadsAtTail(ls, 7);
      var rest := HeadsAt(ls, 8) + HeadsAt(ls, 9);
      assert HeadsAt(ls, 9) == [] && rest == HeadsAt(ls, 8);
    }
  }

  lemma HeadsAtTail(ls: seq<Line>, i: nat)
    requires |ls| > 0
    ensures HeadsAt(ls[1..], i) == HeadsAt(ls, i + 1)
  {
  }

  /** The last line of a sequence. */
  lemma OutlineLast(ls: seq<Line>)
    requires |ls| > 0
    ensures Outline(ls[|ls| - 1..]) == Heads(ls[|ls| - 1])
  {
    assert ls[|ls| - 1..][1..] == [];
  }

  /** The whole of a sequence as its suffix from 0, and its empty suffix. */
  lemma WholeSlices(ls: seq<Line>)
    ensures ls[0..] == ls && ls[|ls|..] == []
  {
  }

  lemma OpeningOutline()
    ensures Outline(OpeningLines()) == [DocumentTitle, "## 1. 概要"]
  {
    OutlineOfLines(OpeningLines());
  }

  lemma TableOutline(ctx: Context, formats: Formats)
    ensures Outline(TableLines(ctx, formats)) == []
  {
    OutlineOfPlain(TableLines(ctx, formats));
  }

  lemma PurposeOutline(ctx: Context)
    ensures Outline(PurposeLines(ctx)) == ["## 2. 導入目的", "### 背景", "### 解決したい課題"]
  {
    var ls := PurposeLines(ctx);
    OutlineOfLines(ls);
    assert ls[4].Filled?;
    assert HeadsAt(ls, 7) == [] && HeadsAt(ls, 8) == [];
  }

  lemma IntroOutline(ctx: Context, formats: Formats)
    ensures Outline(IntroLines(ctx, formats)) == [DocumentTitle, "## 1. 概要", "## 2. 導入目的", "### 背景", "### 解決したい課題"]
  {
    var a, b, c := OpeningLines(), TableLines(ctx, formats), PurposeLines(ctx);
    calc {
      Outline(IntroLines(ctx, formats));
      { OutlineConcat(a, b); OutlineConcat(a + b, c); }
      Outline(a) + Outline(b) + Outline(c);
      { OpeningOutline(); TableOutline(ctx, formats); PurposeOutline(ctx); }
      [DocumentTitle, "## 1. 概要"] + [] + ["## 2. 導入目的", "### 背景", "### 解決したい課題"];
    }
  }

  lemma SelectionOutline(ctx: Context, formats: Formats)
    ensures Outline(SelectionLines(ctx, formats)) == ["## 3. 選定理由", "### 推薦スコア", "### 推薦理由"]
  {
    OutlineOfLines(SelectionLines(ctx, formats));
  }

  lemma ProductOutline(ctx: Context)
    ensures Outline(ProductLines(ctx)) == ["## 4. 製品概要"]
  {
    OutlineOfLines(ProductLines(ctx));
  }

  lemma ProblemOutline(problems: seq<string>)
    ensures Outline(ProblemLines(problems)) == []
  {
    if |problems| == 0 {
      assert ProblemLines(problems)[1..] == [];
    } else {
      OutlineOfItems(Problem, "- ", problems);
    }
  }

  lemma MatchedOutline(explain: Option<ExplainInfo>)
    ensures Outline(MatchedLines(explain)) == if ShowsMatchedFacts(explain) then [MatchedCaption] else []
  {
    var ls := MatchedLines(explain);
    if ShowsMatchedFacts(explain) {
      OutlineOfItems(Reason, "- ✓ ", explain.value.reasons);
      OutlineConcat([Fixed(MatchedCaption)], Items(Reason, "- ✓ ", explain.value.reasons));
    }
    OutlineLast([ls[0]]);
  }

  lemma ComparisonOutline(entries: seq<ComparedSolution>, name: string, formats: Formats)
    ensures Outline(ComparisonLines(entries, name, formats)) == [ComparisonHeading]
  {
    var a, b, c := ComparisonHead(), Rows(entries, formats), VerdictLines(|entries|, name);
    calc {
      Outline(ComparisonLines(entries, name, formats));
      { OutlineConcat(a, b); OutlineConcat(a + b, c); }
      Outline(a) + Outline(b) + Outline(c);
      { HeadOutline(); OutlineOfRows(entries, formats); OutlineOfPlain(c); }
      [ComparisonHeading] + [] + [];
    }
  }

  lemma HeadOutline()
    ensures Outline(ComparisonHead()) == [ComparisonHeading]
  {
    var a := ComparisonHead();
    WholeSlices(a);
    OutlineStep(a, 0);
    OutlineOfPlain(a[1..]);
  }

  lemma ConstraintsOutline(ctx: Context, formats: Formats)
    ensures Outline(ConstraintsLines(ctx, formats)) == [ConstraintsHeading(ConstraintsNumber(ctx))]
  {
    var ls := ConstraintsLines(ctx, formats);
    WholeSlices(ls);
    OutlineStep(ls, 0);
    OutlineOfPlain(ls[1..]);
  }

  lemma ScheduleOutline(ctx: Context)
    ensures Outline(ScheduleLines(ctx)) == [ScheduleHeading(ConstraintsNumber(ctx) + 1)]
  {
    var h := Fixed(ScheduleHeading(ConstraintsNumber(ctx) + 1));
    OutlineOfPlain(ScheduleBody());
    OutlineConcat([h], ScheduleBody());
    OutlineLast([h]);
  }

  /** The headings of sections 1 to 4 with their subsections, the title first. */
  function OverviewOutline(matched: bool): seq<string> {
    [DocumentTitle, "## 1. 概要", "## 2. 導入目的", "### 背景", "### 解決したい課題",
     "## 3. 選定理由", "### 推薦スコア", "### 推薦理由"]
    + (if matched then [MatchedCaption] else []) + ["## 4. 製品概要"]
  }

  lemma OverviewOutlineIs(ctx: Context, formats: Formats)
    ensures Outline(OverviewLines(ctx, formats)) == OverviewOutline(ShowsMatchedFacts(ctx.searchResult.explain))
  {
    var a, b, c := IntroLines(ctx, formats), ProblemLines(ctx.diagnosis.problems), SelectionLines(ctx, formats);
    var d, e := MatchedLines(ctx.searchResult.explain), ProductLines(ctx);
    var matched := if ShowsMatchedFacts(ctx.searchResult.explain) then [MatchedCaption] else [];
    calc {
      Outline(OverviewLines(ctx, formats));
      Outline(a + b + c + d + e);
      { OutlineOfParts(a, b, c, d, e); }
      Outline(a) + Outline(b) + Outline(c) + Outline(d) + Outline(e);
      { IntroOutline(ctx, formats); ProblemOutline(ctx.diagnosis.problems); SelectionOutline(ctx, formats);
        MatchedOutline(ctx.searchResult.explain); ProductOutline(ctx); }
      [DocumentTitle, "## 1. 概要", "## 2. 導入目的", "### 背景", "### 解決したい課題"] + []
      + ["## 3. 選定理由", "### 推薦スコア", "### 推薦理由"] + matched + ["## 4. 製品概要"];
      { DropEmptyMiddle([DocumentTitle, "## 1. 概要", "## 2. 導入目的", "### 背景", "### 解決したい課題"],
          ["## 3. 選定理由", "### 推薦スコア", "### 推薦理由"], matched + ["## 4. 製品概要"]); }
      OverviewOutline(ShowsMatchedFacts(ctx.searchResult.explain));
    }
  }

  lemma OutlineOfParts(a: seq<Line>, b: seq<Line>, c: seq<Line>, d: seq<Line>, e: seq<Line>)
    ensures Outline(a + b + c + d + e) == Outline(a) + Outline(b) + Outline(c) + Outline(d) + Outline(e)
  {
    OutlineConcat(a, b);
    OutlineConcat(a + b, c);
    OutlineConcat(a + b + c, d);
    OutlineConcat(a + b + c + d, e);
  }

  lemma DropEmptyMiddle(p: seq<string>, q: seq<string>, r: seq<string>)
    ensures p + [] + q + r == (p + q) + r
  {
  }

  /**
   * The template's headings in order: the title, sections 1 to 4, the matched
   * conditions only when facts matched, section 5 only for a comparison of more
   * than one solution, then the constraints and the schedule under the numbers
   * ConstraintsNumber gives. Only the template's fixed lines are counted: a
   * filled-in value that holds a line break followed by "## " (a solution
   * description, say) adds headings of its own to the text.
   */
  lemma ProposalOutline(ctx: Context, formats: Formats)
    ensures Outline(DocumentLines(ctx, formats))
      == OverviewOutline(ShowsMatchedFacts(ctx.searchResult.explain))
         + (if ShowsComparison(ctx) then [ComparisonHeading] else [])
         + [ConstraintsHeading(ConstraintsNumber(ctx)), ScheduleHeading(ConstraintsNumber(ctx) + 1)]
  {
    var o, m, c := OverviewLines(ctx, formats), ComparisonPart(ctx, formats), ClosingLines(ctx, formats);
    OverviewOutlineIs(ctx, formats);
    ComparisonPartOutline(ctx, formats);
    ClosingOutline(ctx, formats);
    OutlineConcat(o, m);
    OutlineConcat(o + m, c);
  }

  lemma ComparisonPartOutline(ctx: Context, formats: Formats)
    ensures Outline(ComparisonPart(ctx, formats)) == if ShowsComparison(ctx) then [ComparisonHeading] else []
  {
    if ShowsComparison(ctx) {
      ComparisonOutline(ctx.comparison.value, ctx.solution.name, formats);
    }
  }

  lemma ClosingOutline(ctx: Context, formats: Formats)
    ensures Outline(ClosingLines(ctx, formats))
      == [ConstraintsHeading(ConstraintsNumber(ctx)), ScheduleHeading(ConstraintsNumber(ctx) + 1)]
  {
    ConstraintsOutline(ctx, formats);
    ScheduleOutline(ctx);
    OutlineConcat(ConstraintsLines(ctx, formats), ScheduleLines(ctx));
  }

  // ------------------------------------------------------ section numbering

  /** generateProposal passes a comparison only when more than one solution was compared. */
  function CallerComparison(compared: seq<ComparedSolution>): (r: Option<seq<ComparedSolution>>)
    ensures r.Some? <==> |compared| > 1
    ensures r.Some? ==> r.value == compared
  {
    if |compared| > 1 then Some(compared) else None
  }

  lemma HeadingsDiffer()
    ensures ConstraintsHeading(5) != ComparisonHeading && ConstraintsHeading(6) != ComparisonHeading
    ensures ScheduleHeading(6) != ComparisonHeading && ScheduleHeading(7) != ComparisonHeading
    ensures ConstraintsHeading(5) != ConstraintsHeading(6)
  {
    assert NatToString(5) == "5" && NatToString(6) == "6" && NatToString(7) == "7";
    assert ConstraintsHeading(5)[3] != ConstraintsHeading(6)[3];
  }

  /** Section 5 is in the outline exactly when a comparison of more than one solution is given. */
  lemma ComparisonHeadingIff(ctx: Context, formats: Formats)
    ensures ComparisonHeading in Outline(DocumentLines(ctx, formats)) <==> ShowsComparison(ctx)
  {
    ProposalOutline(ctx, formats);
    HeadingsDiffer();
    OverviewLacksLaterHeadings(ShowsMatchedFacts(ctx.searchResult.explain));
  }

  /** Sections 1 to 4 hold neither the comparison heading nor a constraints heading. */
  lemma OverviewLacksLaterHeadings(matched: bool)
    ensures ComparisonHeading !in OverviewOutline(matched)
    ensures ConstraintsHeading(5) !in OverviewOutline(matched) && ConstraintsHeading(6) !in OverviewOutline(matched)
  {
    assert NatToString(5) == "5" && NatToString(6) == "6";
  }

  /**
   * A comparison object of at most one solution suppresses section 5 but still
   * numbers the constraints 6: the numbering skips 5.
   */
  lemma NumberingSkipsFive(ctx: Context, formats: Formats)
    requires ctx.comparison.Some? && |ctx.comparison.value| <= 1
    ensures ComparisonHeading !in Outline(DocumentLines(ctx, formats))
    ensures ConstraintsHeading(6) in Outline(DocumentLines(ctx, formats))
    ensures ConstraintsHeading(5) !in Outline(DocumentLines(ctx, formats))
  {
    ProposalOutline(ctx, formats);
    HeadingsDiffer();
    OverviewLacksLaterHeadings(ShowsMatchedFacts(ctx.searchResult.explain));
  }

  /** With the comparison generateProposal builds, sections are numbered without a gap. */
  lemma CallerNumberingIsGapless(ctx: Context, formats: Formats, compared: seq<ComparedSolution>)
    requires ctx.comparison == CallerComparison(compared)
    ensures Outline(DocumentLines(ctx, formats))
      == OverviewOutline(ShowsMatchedFacts(ctx.searchResult.explain))
         + (if |compared| > 1 then [ComparisonHeading, ConstraintsHeading(6), ScheduleHeading(7)]
            else [ConstraintsHeading(5), ScheduleHeading(6)])
  {
    ProposalOutline(ctx, formats);
  }

  // ---------------------------------------------------------- filled lines

  predicate NoField(lines: seq<Line>, field: Field) {
    forall i :: 0 <= i < |lines| ==> !(lines[i].Filled? && lines[i].field == field)
  }

  lemma {:induction false} FieldTextsNone(lines: seq<Line>, field: Field)
    requires NoField(lines, field)
    ensures FieldTexts(lines, field) == []
  {
    if |lines| > 0 {
      FieldTextsNone(lines[1..], field);
    }
  }

  /** Each value behind the prefix, in order. */
  function Bullets(prefix: string, values: seq<string>): (r: seq<string>)
    ensures |r| == |values|
  {
    seq(|values|, i requires 0 <= i < |values| => prefix + values[i])
  }

  lemma {:induction false} ItemsTexts(field: Field, prefix: string, values: seq<string>)
    ensures FieldTexts(Items(field, prefix, values), field) == Bullets(prefix, values)
    ensures Texts(Items(field, prefix, values)) == Bullets(prefix, values)
    decreases |values|
  {
    if |values| > 0 {
      ItemsTexts(field, prefix, values[1..]);
      assert Bullets(prefix, values) == [prefix + values[0]] + Bullets(prefix, values[1..]);
    }
  }

  lemma {:induction false} ItemsOnlyField(field: Field, prefix: string, values: seq<string>, other: Field)
    requires other != field
    ensures FieldTexts(Items(field, prefix, values), other) == []
    decreases |values|
  {
    if |values| > 0 {
      ItemsOnlyField(field, prefix, values[1..], other);
    }
  }

  function RowTexts(entries: seq<ComparedSolution>, formats: Formats): (r: seq<string>)
    ensures |r| == |entries|
  {
    seq(|entries|, i requires 0 <= i < |entries| => RowText(entries[i], formats))
  }

  lemma {:induction false} RowsTexts(entries: seq<ComparedSolution>, formats: Formats, field: Field)
    ensures FieldTexts(Rows(entries, formats), field) == if field == ComparisonRow then RowTexts(entries, formats) else []
    decreases |entries|
  {
    if |entries| > 0 {
      RowsTexts(entries[1..], formats, field);
      RowTextsCons(entries, formats);
    }
  }

  lemma RowTextsCons(entries: seq<ComparedSolution>, formats: Formats)
    requires |entries| > 0
    ensures RowTexts(entries, formats) == [RowText(entries[0], formats)] + RowTexts(entries[1..], formats)
  {
  }

  /** The filled lines of the document, part by part. */
  lemma DocumentFieldTexts(ctx: Context, formats: Formats, field: Field)
    ensures FieldTexts(DocumentLines(ctx, formats), field)
      == FieldTexts(IntroLines(ctx, formats), field) + FieldTexts(ProblemLines(ctx.diagnosis.problems), field)
         + FieldTexts(SelectionLines(ctx, formats), field) + FieldTexts(MatchedLines(ctx.searchResult.explain), field)
         + FieldTexts(ProductLines(ctx), field) + FieldTexts(ComparisonPart(ctx, formats), field)
         + FieldTexts(ClosingLines(ctx, formats), field)
  {
    var a, b, c := IntroLines(ctx, formats), ProblemLines(ctx.diagnosis.problems), SelectionLines(ctx, formats);
    var d, e := MatchedLines(ctx.searchResult.explain), ProductLines(ctx);
    var m, z := ComparisonPart(ctx, formats), ClosingLines(ctx, formats);
    FieldTextsConcat(a, b, field);
    FieldTextsConcat(a + b, c, field);
    FieldTextsConcat(a + b + c, d, field);
    FieldTextsConcat(a + b + c + d, e, field);
    FieldTextsConcat(a + b + c + d + e, m, field);
    FieldTextsConcat(a + b + c + d + e + m, z, field);
  }

  /** The fields the fixed parts fill: none of the problems, the reasons, the comparison rows or the budget. */
  predicate ListField(field: Field) {
    field == Problem || field == Reason || field == ComparisonRow || field == Budget
  }

  lemma IntroPartFields(ctx: Context, formats: Formats, field: Field)
    requires ListField(field)
    ensures FieldTexts(IntroLines(ctx, formats), field) == []
  {
    var a, b, c := OpeningLines(), TableLines(ctx, formats), PurposeLines(ctx);
    calc {
      FieldTexts(IntroLines(ctx, formats), field);
      { FieldTextsConcat(a, b, field); FieldTextsConcat(a + b, c, field); }
      FieldTexts(a, field) + FieldTexts(b, field) + FieldTexts(c, field);
      { OpeningFields(field); TableFields(ctx, formats, field); PurposeFields(ctx, field); }
      [] + [] + [];
    }
  }

  lemma OpeningFields(field: Field)
    ensures FieldTexts(OpeningLines(), field) == []
  {
    FieldTextsNone(OpeningLines(), field);
  }

  lemma TableFields(ctx: Context, formats: Formats, field: Field)
    requires ListField(field)
    ensures FieldTexts(TableLines(ctx, formats), field) == []
  {
    FieldTextsNone(TableLines(ctx, formats), field);
  }

  lemma PurposeFields(ctx: Context, field: Field)
    requires ListField(field)
    ensures FieldTexts(PurposeLines(ctx), field) == []
  {
    FieldTextsNone(PurposeLines(ctx), field);
  }

  lemma SelectionPartFields(ctx: Context, formats: Formats, field: Field)
    requires ListField(field)
    ensures FieldTexts(SelectionLines(ctx, formats), field) == []
  {
    FieldTextsNone(SelectionLines(ctx, formats), field);
  }

  lemma ProductPartFields(ctx: Context, field: Field)
    requires ListField(field)
    ensures FieldTexts(ProductLines(ctx), field) == []
  {
    FieldTextsNone(ProductLines(ctx), field);
  }

  lemma ProblemPartFields(problems: seq<string>, field: Field)
    ensures FieldTexts(ProblemLines(problems), field) == if field == Problem then Bullets("- ", problems) else []
  {
    if |problems| == 0 {
      assert ProblemLines(problems)[1..] == [];
    } else if field == Problem {
      ItemsTexts(Problem, "- ", problems);
    } else {
      ItemsOnlyField(Problem, "- ", problems, field);
    }
  }

  lemma MatchedPartFields(explain: Option<ExplainInfo>, field: Field)
    ensures FieldTexts(MatchedLines(explain), field)
      == if field == Reason && ShowsMatchedFacts(explain) then Bullets("- ✓ ", explain.value.reasons) else []
  {
    if ShowsMatchedFacts(explain) {
      var items := Items(Reason, "- ✓ ", explain.value.reasons);
      assert MatchedLines(explain)[1..] == items;
      if field == Reason {
        ItemsTexts(Reason, "- ✓ ", explain.value.reasons);
      } else {
        ItemsOnlyField(Reason, "- ✓ ", explain.value.reasons, field);
      }
    } else {
      assert MatchedLines(explain)[1..] == [];
    }
  }

  lemma ComparisonPartFields(ctx: Context, formats: Formats, field: Field)
    requires field != ComparisonVerdict
    ensures FieldTexts(ComparisonPart(ctx, formats), field)
      == if field == ComparisonRow && ShowsComparison(ctx) then RowTexts(ctx.comparison.value, formats) else []
  {
    if ShowsComparison(ctx) {
      ComparisonLinesFields(ctx.comparison.value, ctx.solution.name, formats, field);
    }
  }

  /** Of section 5, apart from the verdict, only the table rows are filled. */
  lemma ComparisonLinesFields(entries: seq<ComparedSolution>, name: string, formats: Formats, field: Field)
    requires field != ComparisonVerdict
    ensures FieldTexts(ComparisonLines(entries, name, formats), field)
      == if field == ComparisonRow then RowTexts(entries, formats) else []
  {
    var a, b, c := ComparisonHead(), Rows(entries, formats), VerdictLines(|entries|, name);
    calc {
      FieldTexts(ComparisonLines(entries, name, formats), field);
      { FieldTextsConcat(a, b, field); FieldTextsConcat(a + b, c, field); }
      FieldTexts(a, field) + FieldTexts(b, field) + FieldTexts(c, field);
      { HeadFields(field); VerdictFields(|entries|, name, field); }
      [] + FieldTexts(b, field) + [];
      { RowsTexts(entries, formats, field); }
      if field == ComparisonRow then RowTexts(entries, formats) else [];
    }
  }

  lemma HeadFields(field: Field)
    ensures FieldTexts(ComparisonHead(), field) == []
  {
    FieldTextsNone(ComparisonHead(), field);
  }

  lemma VerdictFields(count: nat, name: string, field: Field)
    requires field != ComparisonVerdict
    ensures FieldTexts(VerdictLines(count, name), field) == []
  {
    FieldTextsNone(VerdictLines(count, name), field);
  }

  /** The lines filled from a field when only the line at k can be. */
  lemma {:induction false} FieldTextsOnlyAt(lines: seq<Line>, k: nat, field: Field)
    requires k < |lines|
    requires forall i :: 0 <= i < |lines| && i != k ==> !(lines[i].Filled? && lines[i].field == field)
    ensures FieldTexts(lines, field) == if lines[k].Filled? && lines[k].field == field then [lines[k].text] else []
    decreases k
  {
    assert forall i :: 0 <= i < |lines[1..]| ==> lines[1..][i] == lines[i + 1];
    if k == 0 {
      FieldTextsNone(lines[1..], field);
    } else {
      FieldTextsOnlyAt(lines[1..], k - 1, field);
    }
  }

  lemma ClosingPartFields(ctx: Context, formats: Formats, field: Field)
    ensures FieldTexts(ClosingLines(ctx, formats), field)
      == if field == Budget && ShowsBudget(ctx.diagnosis.constraints.budgetMax)
         then [BudgetText(ctx.diagnosis.constraints.budgetMax.value, formats)] else []
  {
    ConstraintsFields(ctx, formats, field);
    ScheduleFields(ctx, field);
    FieldTextsConcat(ConstraintsLines(ctx, formats), ScheduleLines(ctx), field);
  }

  /** Of the constraints table, only the budget row is filled. */
  lemma ConstraintsFields(ctx: Context, formats: Formats, field: Field)
    ensures FieldTexts(ConstraintsLines(ctx, formats), field)
      == if field == Budget && ShowsBudget(ctx.diagnosis.constraints.budgetMax)
         then [BudgetText(ctx.diagnosis.constraints.budgetMax.value, formats)] else []
  {
    FieldTextsOnlyAt(ConstraintsLines(ctx, formats), 6, field);
  }

  lemma ScheduleFields(ctx: Context, field: Field)
    ensures FieldTexts(ScheduleLines(ctx), field) == []
  {
    FieldTextsNone(ScheduleLines(ctx), field);
  }

  lemma ListFieldInDocument(ctx: Context, formats: Formats, field: Field)
    requires ListField(field)
    ensures FieldTexts(DocumentLines(ctx, formats), field)
      == FieldTexts(ProblemLines(ctx.diagnosis.problems), field) + FieldTexts(MatchedLines(ctx.searchResult.explain), field)
         + FieldTexts(ComparisonPart(ctx, formats), field) + FieldTexts(ClosingLines(ctx, formats), field)
  {
    var b, d := FieldTexts(ProblemLines(ctx.diagnosis.problems), field), FieldTexts(MatchedLines(ctx.searchResult.explain), field);
    var m, z := FieldTexts(ComparisonPart(ctx, formats), field), FieldTexts(ClosingLines(ctx, formats), field);
    calc {
      FieldTexts(DocumentLines(ctx, formats), field);
      { DocumentFieldTexts(ctx, formats, field); }
      FieldTexts(IntroLines(ctx, formats), field) + b + FieldTexts(SelectionLines(ctx, formats), field) + d
      + FieldTexts(ProductLines(ctx), field) + m + z;
      { IntroPartFields(ctx, formats, field); SelectionPartFields(ctx, formats, field); ProductPartFields(ctx, field); }
      [] + b + [] + d + [] + m + z;
      { DropEmptyParts(b, d, m, z); }
      b + d + m + z;
    }
  }

  lemma DropEmptyParts(b: seq<string>, d: seq<string>, m: seq<string>, z: seq<string>)
    ensures [] + b + [] + d + [] + m + z == b + d + m + z
  {
  }

  /** One "- p" line per problem, in order. */
  lemma ProblemsInDocument(ctx: Context, formats: Formats)
    ensures FieldTexts(DocumentLines(ctx, formats), Problem) == Bullets("- ", ctx.diagnosis.problems)
  {
    ListFieldInDocument(ctx, formats, Problem);
    ProblemPartFields(ctx.diagnosis.problems, Problem);
    MatchedPartFields(ctx.searchResult.explain, Problem);
    ComparisonPartFields(ctx, formats, Problem);
    ClosingPartFields(ctx, formats, Problem);
  }

  lemma {:induction false} TextsAt(lines: seq<Line>, k: nat)
    requires k < |lines|
    ensures Texts(lines)[k] == lines[k].text
    decreases k
  {
    if k > 0 {
      TextsAt(lines[1..], k - 1);
    }
  }

  /** With no problems, the line under the problems caption is the default problem. */
  lemma DefaultProblemLine(ctx: Context, formats: Formats)
    requires |ctx.diagnosis.problems| == 0
    ensures Texts(DocumentLines(ctx, formats))[16..18] == ["### 解決したい課題", DefaultProblem]
  {
    var ls := DocumentLines(ctx, formats);
    DefaultProblemAt(ctx, formats);
    TextsAt(ls, 16);
    TextsAt(ls, 17);
    SliceOfTwo(Texts(ls), 16);
  }

  lemma SliceOfTwo(ts: seq<string>, k: nat)
    requires k + 2 <= |ts|
    ensures ts[k..k + 2] == [ts[k], ts[k + 1]]
  {
  }

  /** The introduction ends with the problems caption, its seventeenth line. */
  lemma IntroEnd(ctx: Context, formats: Formats)
    ensures |IntroLines(ctx, formats)| == 17 && IntroLines(ctx, formats)[16] == Fixed("### 解決したい課題")
  {
    var a, b, c := OpeningLines(), TableLines(ctx, formats), PurposeLines(ctx);
    IndexRight(a + b, c, 16);
  }

  /** With no problems, the caption is the document's seventeenth line and the default problem the eighteenth. */
  lemma DefaultProblemAt(ctx: Context, formats: Formats)
    requires |ctx.diagnosis.problems| == 0
    ensures |DocumentLines(ctx, formats)| > 17
    ensures DocumentLines(ctx, formats)[16] == Fixed("### 解決したい課題")
    ensures DocumentLines(ctx, formats)[17] == Fixed(DefaultProblem)
  {
    var i, p := IntroLines(ctx, formats), ProblemLines(ctx.diagnosis.problems);
    var s, d, e := SelectionLines(ctx, formats), MatchedLines(ctx.searchResult.explain), ProductLines(ctx);
    var m, c := ComparisonPart(ctx, formats), ClosingLines(ctx, formats);
    var rest := s + d + e + m + c;
    IntroEnd(ctx, formats);
    calc {
      DocumentLines(ctx, formats);
      { Regroup(i + p, s, d, e, m, c); }
      (i + p) + rest;
    }
    IndexLeft(i + p, rest, 16);
    IndexLeft(i + p, rest, 17);
    IndexLeft(i, p, 16);
    IndexRight(i, p, 17);
  }

  lemma IndexLeft(a: seq<Line>, b: seq<Line>, k: nat)
    requires k < |a|
    ensures (a + b)[k] == a[k]
  {
  }

  lemma Regroup(a: seq<Line>, b: seq<Line>, c: seq<Line>, d: seq<Line>, e: seq<Line>, f: seq<Line>)
    ensures a + b + c + d + e + f == a + (b + c + d + e + f)
  {
  }

  lemma IndexRight(a: seq<Line>, b: seq<Line>, k: nat)
    requires |a| <= k < |a| + |b|
    ensures (a + b)[k] == b[k - |a|]
  {
  }

  /** The matched-conditions lines: one "- ✓ reason" per matched fact, and none when no fact matched. */
  lemma ReasonsInDocument(ctx: Context, formats: Formats)
    ensures FieldTexts(DocumentLines(ctx, formats), Reason)
      == if ShowsMatchedFacts(ctx.searchResult.explain) then Bullets("- ✓ ", ctx.searchResult.explain.value.reasons) else []
  {
    ListFieldInDocument(ctx, formats, Reason);
    ProblemPartFields(ctx.diagnosis.problems, Reason);
    MatchedPartFields(ctx.searchResult.explain, Reason);
    ComparisonPartFields(ctx, formats, Reason);
    ClosingPartFields(ctx, formats, Reason);
  }

  /** One table row per compared solution, in the order given, and no rows when section 5 is left out. */
  lemma ComparisonRowsInDocument(ctx: Context, formats: Formats)
    ensures FieldTexts(DocumentLines(ctx, formats), ComparisonRow)
      == if ShowsComparison(ctx) then RowTexts(ctx.comparison.value, formats) else []
  {
    var f := ComparisonRow;
    calc {
      FieldTexts(DocumentLines(ctx, formats), f);
      { ListFieldInDocument(ctx, formats, f); }
      FieldTexts(ProblemLines(ctx.diagnosis.problems), f) + FieldTexts(MatchedLines(ctx.searchResult.explain), f)
      + FieldTexts(ComparisonPart(ctx, formats), f) + FieldTexts(ClosingLines(ctx, formats), f);
      { ProblemPartFields(ctx.diagnosis.problems, f); MatchedPartFields(ctx.searchResult.explain, f);
        ClosingPartFields(ctx, formats, f); }
      [] + [] + FieldTexts(ComparisonPart(ctx, formats), f) + [];
      { ComparisonPartFields(ctx, formats, f); }
      [] + [] + (if ShowsComparison(ctx) then RowTexts(ctx.comparison.value, formats) else []) + [];
    }
  }

  /** The budget row is written exactly when a non-zero budget is given. */
  lemma BudgetInDocument(ctx: Context, formats: Formats)
    ensures FieldTexts(DocumentLines(ctx, formats), Budget)
      == if ShowsBudget(ctx.diagnosis.constraints.budgetMax)
         then [BudgetText(ctx.diagnosis.constraints.budgetMax.value, formats)] else []
  {
    ListFieldInDocument(ctx, formats, Budget);
    ProblemPartFields(ctx.diagnosis.problems, Budget);
    MatchedPartFields(ctx.searchResult.explain, Budget);
    ComparisonPartFields(ctx, formats, Budget);
    ClosingPartFields(ctx, formats, Budget);
  }

  // -------------------------------------------------- the compared solutions

  /** A row of the solutions table and a stored search result, as far as the comparison reads them. */
  datatype StoredSolution = StoredSolution(id: string, name: string)

  datatype StoredResult = StoredResult(solutionId: string, score: real)

  /** `results.find(r => r.solution_id === id)`: the score of the first result for the solution, 0 without one. */
  function FirstScore(results: seq<StoredResult>, id: string): (r: real)
    ensures (forall i :: 0 <= i < |results| ==> results[i].solutionId != id) ==> r == 0.0
    ensures (exists i :: 0 <= i < |results| && results[i].solutionId == id)
      ==> exists i :: 0 <= i < |results| && results[i].solutionId == id && r == results[i].score
            && forall j :: 0 <= j < i ==> results[j].solutionId != id
    decreases |results|
  {
    if |results| == 0 then 0.0
    else if results[0].solutionId == id then results[0].score
    else
      var r := FirstScore(results[1..], id);
      assert forall i :: 1 <= i < |results| ==> results[i] == results[1..][i - 1];
      r
  }

  function ScoreOf(entry: ComparedSolution): real {
    entry.score
  }

  /** Each compared solution with its first result's score, in the order the solutions came. */
  function Scored(solutions: seq<StoredSolution>, results: seq<StoredResult>): (r: seq<ComparedSolution>)
    ensures |r| == |solutions|
  {
    seq(|solutions|, i requires 0 <= i < |solutions| => ComparedSolution(solutions[i].name, FirstScore(results, solutions[i].id)))
  }

  /** The comparison list generateProposal builds: scored, then sorted by descending score, stably. */
  function ComparedSolutions(solutions: seq<StoredSolution>, results: seq<StoredResult>): (r: seq<ComparedSolution>)
    ensures |r| == |solutions|
  {
    StableSort.Sort(Scored(solutions, results), ScoreOf)
  }

  /**
   * The list is the scored solutions rearranged: non-increasing by score, and
   * solutions with equal scores keep their relative order.
   */
  lemma ComparedSolutionsOrder(solutions: seq<StoredSolution>, results: seq<StoredResult>)
    ensures StableSort.SortedDesc(ComparedSolutions(solutions, results), ScoreOf)
    ensures multiset(ComparedSolutions(solutions, results)) == multiset(Scored(solutions, results))
    ensures forall k ::
              StableSort.WithKey(ComparedSolutions(solutions, results), ScoreOf, k)
              == StableSort.WithKey(Scored(solutions, results), ScoreOf, k)
  {
    StableSort.SortSorted(Scored(solutions, results), ScoreOf);
    forall k ensures StableSort.WithKey(ComparedSolutions(solutions, results), ScoreOf, k)
      == StableSort.WithKey(Scored(solutions, results), ScoreOf, k)
    {
      StableSort.SortStable(Scored(solutions, results), ScoreOf, k);
    }
  }

  /**
   * In the document generateProposal writes, the comparison table lists the
   * compared solutions best first, and only when there are at least two.
   */
  lemma ComparisonTableBestFirst(ctx: Context, formats: Formats, solutions: seq<StoredSolution>, results: seq<StoredResult>)
    requires ctx.comparison == CallerComparison(ComparedSolutions(solutions, results))
    ensures FieldTexts(DocumentLines(ctx, formats), ComparisonRow)
      == if |solutions| > 1 then RowTexts(ComparedSolutions(solutions, results), formats) else []
    ensures StableSort.SortedDesc(ComparedSolutions(solutions, results), ScoreOf)
  {
    ComparisonRowsInDocument(ctx, formats);
    ComparedSolutionsOrder(solutions, results);
  }

  // ------------------------------------------------------------- versions

  /** The highest stored version of one run and solution: the query ordered by version, descending, limit 1. */
  function Latest(versions: seq<int>): (r: Option<int>)
    ensures r.None? <==> |versions| == 0
    ensures r.Some? ==> r.value in versions && forall v :: v in versions ==> v <= r.value
    decreases |versions|
  {
    if |versions| == 0 then None
    else
      var rest := Latest(versions[1..]);
      assert forall v :: v in versions ==> v == versions[0] || v in versions[1..];
      if rest.Some? && rest.value > versions[0] then rest else Some(versions[0])
  }

  /** generateProposal: one past the latest version, or 1 for the first proposal. */
  function NewVersion(versions: seq<int>): (r: int)
    ensures |versions| == 0 ==> r == 1
    ensures forall v :: v in versions ==> v < r
    ensures |versions| > 0 ==> r - 1 in versions
  {
    match Latest(versions)
    case None => 1
    case Some(v) => v + 1
  }

  /** updateProposal: one past the version being edited, whatever else is stored. */
  function EditVersion(edited: int): int {
    edited + 1
  }

  /** Versions generated one after another are distinct and increasing. */
  lemma {:induction false} GeneratedVersionsIncrease(versions: seq<int>)
    requires forall i, j :: 0 <= i < j < |versions| ==> versions[i] < versions[j]
    ensures var next := versions + [NewVersion(versions)];
      forall i, j :: 0 <= i < j < |next| ==> next[i] < next[j]
  {
    var next := versions + [NewVersion(versions)];
    forall i, j | 0 <= i < j < |next| ensures next[i] < next[j] {
      if j == |versions| {
        assert next[i] == versions[i] && versions[i] in versions;
      }
    }
  }

  /** Editing the latest version gives the number generateProposal would give: a fresh one. */
  lemma EditOfLatestIsNew(versions: seq<int>, edited: int)
    requires Latest(versions) == Some(edited)
    ensures EditVersion(edited) == NewVersion(versions)
    ensures EditVersion(edited) !in versions
  {
  }

  /** Editing an older version reuses a number already stored: versions 1 and 2 exist, editing 1 gives 2. */
  lemma EditOfOlderVersionRepeats()
    ensures EditVersion(1) in [1, 2] && NewVersion([1, 2]) == 3
  {
    assert Latest([1, 2]) == Some(2) by {
      assert [1, 2][1..] == [2];
      assert Latest([2]) == Some(2) by {
        assert [2][1..] == [];
      }
    }
  }
}
