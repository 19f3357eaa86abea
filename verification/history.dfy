/**
 * The history list: getHistoryList turns each fetched diagnosis session,
 * with its embedded input, search runs, comparison matrices and proposals,
 * into a list item, and generateDescription words the session's progress.
 * The session rows, the exact count and the authentication outcome are
 * inputs; the SQL filters, ordering and range are not modelled.
 */
module History {
  import opened Nullable
  import Labels

  /** A relation embedded in a row: null, one object, or an array of objects. */
  datatype Embedded<T> = Null | Single(item: T) | Many(items: seq<T>)

  /** `Array.isArray(e) ? e : e ? [e] : []`. */
  function AsList<T>(e: Embedded<T>): (r: seq<T>)
    ensures e.Null? ==> r == []
    ensures e.Single? ==> r == [e.item]
  {
    match e
    case Null => []
    case Single(x) => [x]
    case Many(xs) => xs
  }

  /** `e && (Array.isArray(e) ? e.length > 0 : true)`: the relation has at least one object. */
  predicate Present<T>(e: Embedded<T>) {
    match e
    case Null => false
    case Single(_) => true
    case Many(xs) => |xs| > 0
  }

  /** The session's input: the first of an array, or the object itself. */
  function FirstInput<T>(e: Embedded<T>): (r: Option<T>)
    ensures r.Some? <==> Present(e)
  {
    match e
    case Null => None
    case Single(x) => Some(x)
    case Many(xs) => if |xs| > 0 then Some(xs[0]) else None
  }

  datatype InputRow = InputRow(category: string)

  /** A proposal with its primary solution's name when the solution object came back. */
  datatype ProposalRow = ProposalRow(id: string, solutionName: Option<string>)

  datatype RunRow = RunRow(id: string, comparisons: Embedded<string>, proposals: Embedded<ProposalRow>)

  datatype SessionRow = SessionRow(id: string, status: string, inputs: Embedded<InputRow>, runs: Embedded<RunRow>)

  datatype ItemType = DiagnosisItem | ComparisonItem | ProposalItem

  datatype Item = Item(
    id: string,
    itemType: ItemType,
    status: string,
    category: string,
    categoryLabel: string,
    title: string,
    description: string,
    hasSearchRun: bool,
    hasComparison: bool,
    hasProposal: bool,
    currentStep: Option<int>,
    totalSteps: Option<int>,
    proposalId: Option<string>,
    primarySolutionName: Option<string>)

  datatype ListResponse = ListResponse(items: seq<Item>, total: int, hasMore: bool)

  const InProgress: string := "in_progress"
  const Archived: string := "archived"
  const DefaultCategory: string := "expense"
  const TotalSteps: int := 4

  /** The in-progress wording, indexed by the first stage not yet reached: search, comparison, proposal, none. */
  const WaitingLabels: seq<string> := ["診断入力中", "検索完了 - 比較待ち", "比較完了 - 稟議書生成待ち", "作業中"]

  /** The wording of a finished session, indexed by the number of the highest stage reached. */
  const ReachedLabels: seq<string> := ["診断完了", "検索完了", "比較完了", "稟議書生成済み"]

  const ArchivedLabel: string := "アーカイブ済み"

  // -------------------------------------------------------------- the stages

  /** The stage flags in workflow order: search run, comparison, proposal. */
  function Stages(hasSearchRun: bool, hasComparison: bool, hasProposal: bool): seq<bool> {
    [hasSearchRun, hasComparison, hasProposal]
  }

  /** m is the first stage not reached, or 3 when all are. */
  ghost predicate FirstMissing(stages: seq<bool>, m: int)
    requires |stages| == 3
  {
    0 <= m <= 3 && (forall i :: 0 <= i < m ==> stages[i]) && (m < 3 ==> !stages[m])
  }

  /** m stages are counted up to the highest one reached: stage m is reached and none after it. */
  ghost predicate HighestReached(stages: seq<bool>, m: int)
    requires |stages| == 3
  {
    0 <= m <= 3 && (m > 0 ==> stages[m - 1]) && (forall i :: m <= i < 3 ==> !stages[i])
  }

  /** generateDescription. */
  function Describe(status: string, hasSearchRun: bool, hasComparison: bool, hasProposal: bool): (r: string)
    ensures var stages := Stages(hasSearchRun, hasComparison, hasProposal);
      (status == InProgress ==> exists m :: FirstMissing(stages, m) && r == WaitingLabels[m])
      && (status == Archived ==> r == ArchivedLabel)
      && (status != InProgress && status != Archived ==> exists m :: HighestReached(stages, m) && r == ReachedLabels[m])
  {
    var stages := Stages(hasSearchRun, hasComparison, hasProposal);
    if status == InProgress then
      if !hasSearchRun then assert FirstMissing(stages, 0); "診断入力中"
      else if !hasComparison then assert FirstMissing(stages, 1); "検索完了 - 比較待ち"
      else if !hasProposal then assert FirstMissing(stages, 2); "比較完了 - 稟議書生成待ち"
      else assert FirstMissing(stages, 3); "作業中"
    else if status == Archived then "アーカイブ済み"
    else if hasProposal then assert HighestReached(stages, 3); "稟議書生成済み"
    else if hasComparison then assert HighestReached(stages, 2); "比較完了"
    else if hasSearchRun then assert HighestReached(stages, 1); "検索完了"
    else assert HighestReached(stages, 0); "診断完了"
  }

  /** The progress step: 4, 3 or 2 by the highest flag among proposal, comparison, search, else 1. */
  function Step(hasSearchRun: bool, hasComparison: bool, hasProposal: bool): (r: int)
    ensures 1 <= r <= TotalSteps
    ensures HighestReached(Stages(hasSearchRun, hasComparison, hasProposal), r - 1)
  {
    if hasProposal then 4 else if hasComparison then 3 else if hasSearchRun then 2 else 1
  }

  /** The item type: proposal, else comparison, else diagnosis. */
  function TypeOf(hasComparison: bool, hasProposal: bool): (t: ItemType)
    ensures t == ProposalItem <==> hasProposal
    ensures t == ComparisonItem <==> !hasProposal && hasComparison
  {
    if hasProposal then ProposalItem else if hasComparison then ComparisonItem else DiagnosisItem
  }

  /** Whatever a session's status, its step and its finished wording name the same stage, and so does its type. */
  lemma StepAgreesWithDescription(hasSearchRun: bool, hasComparison: bool, hasProposal: bool)
    ensures var step := Step(hasSearchRun, hasComparison, hasProposal);
      Describe("completed", hasSearchRun, hasComparison, hasProposal) == ReachedLabels[step - 1]
      && TypeOf(hasComparison, hasProposal) == [DiagnosisItem, DiagnosisItem, ComparisonItem, ProposalItem][step - 1]
  {
    var stages := Stages(hasSearchRun, hasComparison, hasProposal);
    assert "completed" != InProgress && "completed" != Archived;
    var d := Describe("completed", hasSearchRun, hasComparison, hasProposal);
    assert exists m :: HighestReached(stages, m) && d == ReachedLabels[m];
    var m :| HighestReached(stages, m) && Describe("completed", hasSearchRun, hasComparison, hasProposal) == ReachedLabels[m];
    HighestIsUnique(stages, m, Step(hasSearchRun, hasComparison, hasProposal) - 1);
  }

  lemma HighestIsUnique(stages: seq<bool>, m: int, n: int)
    requires |stages| == 3 && HighestReached(stages, m) && HighestReached(stages, n)
    ensures m == n
  {
  }

  // ------------------------------------------------------ the proposal shown

  function ProposalsOf(run: RunRow): seq<ProposalRow> {
    AsList(run.proposals)
  }

  /**
   * The loop over the runs as written: every run with proposals overwrites the
   * id with its first proposal's, but the name only when that proposal came
   * with its solution.
   */
  function PickLoop(runs: seq<RunRow>, id: Option<string>, name: Option<string>): (Option<string>, Option<string>)
    decreases |runs|
  {
    if |runs| == 0 then (id, name)
    else
      var ps := ProposalsOf(runs[0]);
      if |ps| > 0 then
        PickLoop(runs[1..], Some(ps[0].id), if ps[0].solutionName.Some? then ps[0].solutionName else name)
      else PickLoop(runs[1..], id, name)
  }

  /** The index of the last run satisfying the test. */
  function LastWhere(runs: seq<RunRow>, test: RunRow -> bool): (r: Option<nat>)
    ensures r.Some? ==> r.value < |runs| && test(runs[r.value]) && forall j :: r.value < j < |runs| ==> !test(runs[j])
    ensures r.None? ==> forall j :: 0 <= j < |runs| ==> !test(runs[j])
    decreases |runs|
  {
    if |runs| == 0 then None
    else
      var rest := LastWhere(runs[1..], test);
      assert forall j :: 1 <= j < |runs| ==> runs[j] == runs[1..][j - 1];
      if rest.Some? then Some(rest.value + 1) else if test(runs[0]) then Some(0) else None
  }

  predicate HasProposals(run: RunRow) {
    |ProposalsOf(run)| > 0
  }

  /** A run whose first proposal came back with its solution. */
  predicate HasNamedProposal(run: RunRow) {
    |ProposalsOf(run)| > 0 && ProposalsOf(run)[0].solutionName.Some?
  }

  lemma PickLoopIsLast(runs: seq<RunRow>, id: Option<string>, name: Option<string>)
    ensures var picked := PickLoop(runs, id, name);
      var k := LastWhere(runs, HasProposals);
      var n := LastWhere(runs, HasNamedProposal);
      picked.0 == (if k.Some? then Some(ProposalsOf(runs[k.value])[0].id) else id)
      && picked.1 == (if n.Some? then ProposalsOf(runs[n.value])[0].solutionName else name)
  {
    PickIdIsLast(runs, id, name);
    PickNameIsLast(runs, id, name);
  }

  lemma {:induction false} PickIdIsLast(runs: seq<RunRow>, id: Option<string>, name: Option<string>)
    ensures var k := LastWhere(runs, HasProposals);
      PickLoop(runs, id, name).0 == (if k.Some? then Some(ProposalsOf(runs[k.value])[0].id) else id)
    decreases |runs|
  {
    if |runs| > 0 {
      var ps := ProposalsOf(runs[0]);
      if |ps| > 0 {
        PickIdIsLast(runs[1..], Some(ps[0].id), if ps[0].solutionName.Some? then ps[0].solutionName else name);
      } else {
        PickIdIsLast(runs[1..], id, name);
      }
      var k := LastWhere(runs[1..], HasProposals);
      if k.Some? {
        assert runs[1..][k.value] == runs[k.value + 1];
      }
    }
  }

  lemma {:induction false} PickNameIsLast(runs: seq<RunRow>, id: Option<string>, name: Option<string>)
    ensures var n := LastWhere(runs, HasNamedProposal);
      PickLoop(runs, id, name).1 == (if n.Some? then ProposalsOf(runs[n.value])[0].solutionName else name)
    decreases |runs|
  {
    if |runs| > 0 {
      var ps := ProposalsOf(runs[0]);
      if |ps| > 0 {
        PickNameIsLast(runs[1..], Some(ps[0].id), if ps[0].solutionName.Some? then ps[0].solutionName else name);
      } else {
        PickNameIsLast(runs[1..], id, name);
      }
      var n := LastWhere(runs[1..], HasNamedProposal);
      if n.Some? {
        assert runs[1..][n.value] == runs[n.value + 1];
      }
    }
  }

  /**
   * The name shown can belong to an earlier run than the proposal id: a run
   * whose proposal has solution "A", then a run whose proposal came back
   * without its solution, shows the second proposal with the name "A".
   */
  lemma NameCanLagBehindProposal()
    ensures var runs := [
        RunRow("r1", Null, Single(ProposalRow("p1", Some("A")))),
        RunRow("r2", Null, Single(ProposalRow("p2", None)))];
      PickLoop(runs, None, None) == (Some("p2"), Some("A"))
  {
    var runs := [
        RunRow("r1", Null, Single(ProposalRow("p1", Some("A")))),
        RunRow("r2", Null, Single(ProposalRow("p2", None)))];
    assert runs[1..][1..] == [];
  }

  // ---------------------------------------------------------------- the item

  function CategoryOf(session: SessionRow): (c: string)
    ensures c != ""
  {
    var input := FirstInput(session.inputs);
    if input.Some? && input.value.category != "" then input.value.category else DefaultCategory
  }

  function TitleOf(categoryLabel: string, name: Option<string>): string {
    if name.Some? && name.value != "" then categoryLabel + " - " + name.value else categoryLabel + "選定"
  }

  /** The list item getHistoryList makes of one session. */
  function Derive(session: SessionRow): (item: Item)
    ensures item.hasProposal ==> item.hasSearchRun
    ensures item.hasComparison ==> item.hasSearchRun
    ensures item.currentStep.Some? <==> session.status == InProgress
    ensures item.totalSteps.Some? <==> session.status == InProgress
    ensures item.currentStep.Some? ==> 1 <= item.currentStep.value <= TotalSteps && item.totalSteps.value == TotalSteps
    ensures item.hasSearchRun <==> |AsList(session.runs)| > 0
    ensures item.categoryLabel == Labels.CategoryLabel(item.category)
    ensures FirstInput(session.inputs).None? ==> item.category == DefaultCategory
  {
    var runs := AsList(session.runs);
    var hasSearchRun := |runs| > 0;
    var hasComparison := exists i | 0 <= i < |runs| :: Present(runs[i].comparisons);
    var hasProposal := exists i | 0 <= i < |runs| :: Present(runs[i].proposals);
    var picked := PickLoop(runs, None, None);
    var category := CategoryOf(session);
    var categoryLabel := Labels.CategoryLabel(category);
    var inProgress := session.status == InProgress;
    Item(
      session.id,
      TypeOf(hasComparison, hasProposal),
      session.status,
      category,
      categoryLabel,
      TitleOf(categoryLabel, picked.1),
      Describe(session.status, hasSearchRun, hasComparison, hasProposal),
      hasSearchRun, hasComparison, hasProposal,
      if inProgress then Some(Step(hasSearchRun, hasComparison, hasProposal)) else None,
      if inProgress then Some(TotalSteps) else None,
      picked.0,
      picked.1)
  }

  /** The proposal an item shows is the first proposal of the last run that has any. */
  lemma ItemProposal(session: SessionRow)
    ensures var runs := AsList(session.runs);
      var k := LastWhere(runs, HasProposals);
      Derive(session).proposalId == (if k.Some? then Some(ProposalsOf(runs[k.value])[0].id) else None)
      && (k.None? <==> !Derive(session).hasProposal)
  {
    var runs := AsList(session.runs);
    PickLoopIsLast(runs, None, None);
    var k := LastWhere(runs, HasProposals);
    if k.Some? {
      assert Present(runs[k.value].proposals);
    }
    if Derive(session).hasProposal {
      var i :| 0 <= i < |runs| && Present(runs[i].proposals);
      assert HasProposals(runs[i]);
    }
  }

  /** The title names the shown solution after the category label, or says the category is being selected. */
  lemma ItemTitle(session: SessionRow)
    ensures var item := Derive(session);
      var name := item.primarySolutionName;
      (name.Some? && name.value != "" ==> item.title == item.categoryLabel + " - " + name.value)
      && (name.None? || name.value == "" ==> item.title == item.categoryLabel + "選定")
      && (!Labels.KnownCategory(item.category) ==> item.categoryLabel == item.category)
  {
  }

  // ---------------------------------------------------------------- the page

  /** The rows the query asks for: offset to offset + limit - 1. */
  function RequestedRange(offset: int, limit: int): (r: (int, int))
    ensures r.1 - r.0 + 1 == limit
  {
    (offset, offset + limit - 1)
  }

  /**
   * getHistoryList after the authentication and tenant lookups: no user, no
   * membership or a failed query give the empty page; otherwise one item per
   * session, the exact count, and whether rows remain after the page.
   */
  function HistoryList(fetched: Option<seq<SessionRow>>, count: Option<int>, limit: int, offset: int): (r: ListResponse)
    ensures fetched.None? ==> r == ListResponse([], 0, false)
    ensures fetched.Some? ==>
      (|r.items| == |fetched.value|
       && (forall i :: 0 <= i < |r.items| ==> r.items[i] == Derive(fetched.value[i]))
       && r.total == count.GetOr(0))
  {
    if fetched.None? then ListResponse([], 0, false)
    else
      var total := count.GetOr(0);
      ListResponse(
        seq(|fetched.value|, i requires 0 <= i < |fetched.value| => Derive(fetched.value[i])),
        total,
        total > offset + limit)
  }

  /** More rows exist exactly when the first row of the next page lies below the count. */
  lemma HasMoreIff(fetched: seq<SessionRow>, count: Option<int>, limit: int, offset: int)
    ensures var r := HistoryList(Some(fetched), count, limit, offset);
      r.hasMore <==> RequestedRange(offset + limit, limit).0 < r.total
  {
  }
}
