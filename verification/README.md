# dx-selecta: SaaS selection, comparison and proposal core in Dafny

This project models the decision core of a SaaS-selection assistant for
Japanese back-office teams. A diagnosis (category, problems, must-have
constraints) is turned into a search query; as written, the saved
free-text problem description never reaches it (see Findings). Solution
chunks found lexically and by vector similarity are merged into one
relevance signal per solution.
The candidates are scored, explained and ranked. The user then compares them
in a seven-axis matrix exported as CSV, writes a Markdown approval proposal
(稟議書) that is split into editable sections and written back, and browses a
history of past sessions.

Every database query, RPC, embedding call, clock and locale formatter
becomes an input: the fetched rows and retrieval hits are sequences, a failed
call is `None`, and `toFixed`, `toLocaleString`, the current date and local
midnight are parameters. JavaScript numbers are `real`. Strings are
sequences of Unicode scalar values.

Modules, one per source file plus shared helpers:

- `Text`, `Nullable`, `StableSort`, `Labels`: whitespace trimming with the
  JavaScript white-space set, line splitting and joining, decimal rendering,
  `Option`, a stable descending sort by a real key (the JavaScript
  `Array.prototype.sort` with a comparator is stable), and the category and
  company-size label tables.
- `Scoring`: the score primitives (`scoringAlgorithm.ts`).
- `HybridSearch`: the chunk merge, per-solution aggregation, sort and limit,
  and the query builder (`hybridSearch.ts`).
- `SearchActions`: candidate scoring, explanations, the Must filter and the
  top-five ranking (`search/actions.ts`).
- `ProposalParser`: the Markdown section parser and serialiser (`parser.ts`).
- `ProposalTemplate`: the proposal document, its section numbering and
  the version rules (`proposal/actions.ts`).
- `Compare`: the comparison matrix, rank ordering and the CSV writer
  (`compare/actions.ts`). An RFC 4180 record reader serves as the writer's
  partner.
- `History`, `RelativeDate`, `Filename`: the history list items, the
  relative-date wording and period filter, and the export file name.

## Model

| member | source | states |
|---|---|---|
| Scoring.RelevanceScore | src/services/search/scoringAlgorithm.ts:22-27 | the 0.4/0.6 blend lies between the lexical and the vector signal, and equals both when they agree |
| Scoring.RelevanceMonotone | src/services/search/scoringAlgorithm.ts:22-27 | raising either signal never lowers relevance, and a strict rise raises it strictly |
| Scoring.RelevanceSamples | src/services/search/scoringAlgorithm.ts:22-27 | signals in [0,1] give relevance in [0,1]; (1,1)→1, (0,0)→0, (1,0)→0.4, (0,1)→0.6, (0.5,0.5)→0.5 |
| Scoring.Clamp100 | src/services/search/scoringAlgorithm.ts:51 | the clamp always lands in [0,100] and leaves values already inside unchanged |
| Scoring.FinalScore | src/services/search/scoringAlgorithm.ts:40-52 | the final score lies in [0,100] for every real input and is the clamp of the half/half weighted score plus the category bonus |
| Scoring.FinalScoreCorners | src/services/search/scoringAlgorithm.ts:40-52 | (0,0,no match)→0, (1,1,match)→100, and the bonus is lost to the clamp at (1,1) |
| Scoring.CategoryBonusExact | src/services/search/scoringAlgorithm.ts:44-51 | while the clamp is inactive a category match adds exactly 10 |
| Scoring.FinalScoreMonotone | src/services/search/scoringAlgorithm.ts:44-51 | the final score is monotone in relevance, in the fact ratio and in the category match |
| Scoring.FactMatchScore | src/services/search/scoringAlgorithm.ts:61-67 | 1 with no required constraints, otherwise the ratio matched/required, in [0,1] when 0 ≤ matched ≤ required |
| Scoring.FactMatchSamples | src/services/search/scoringAlgorithm.ts:61-67 | (0,0)→1, (2,2)→1, (1,2)→0.5 |
| Scoring.NormalizeBm25 | src/services/search/scoringAlgorithm.ts:76-79 | 0 when the maximum is not positive, never above 1, non-negative for a non-negative score, 1 at or above the maximum, otherwise score/max |
| Scoring.NormalizeMonotone | src/services/search/scoringAlgorithm.ts:76-79 | normalisation is monotone in the score |
| Scoring.DistanceToSimilarity | src/services/search/scoringAlgorithm.ts:88-92 | similarity is never negative, at most 1 for a non-negative distance, 0 from distance 1 on, and 1 − distance below it |
| Scoring.SimilarityAntitone | src/services/search/scoringAlgorithm.ts:88-92 | a larger distance never gives a larger similarity |
| Scoring.SimilaritySamples | src/services/search/scoringAlgorithm.ts:88-92 | distance 0 → 1, distance 2 → 0, distance 0.25 → 0.75 |
| HybridSearch.MaxRank | src/services/search/hybridSearch.ts:170 | the normaliser is at least 0.001, bounds every lexical rank, and is either 0.001 or one of the ranks |
| HybridSearch.FindChunk | src/services/search/hybridSearch.ts:198 | the chunk-map lookup finds an entry with the id exactly when the id is in the map |
| HybridSearch.PutLexicalSound | src/services/search/hybridSearch.ts:184-194 | adding one lexical hit keeps the chunk table keyed by distinct ids covering the hits seen, with vector score 0 |
| HybridSearch.PutVectorSound | src/services/search/hybridSearch.ts:197-212 | adding one vector hit keeps the table sound: an existing entry gains the similarity, a new one gets lexical score 0 |
| HybridSearch.VectorUpdateSound | src/services/search/hybridSearch.ts:199-200 | overwriting an existing entry's vector score keeps the table sound |
| HybridSearch.PutAllLexicalSound | src/services/search/hybridSearch.ts:184-194 | the lexical loop keeps the table sound for every prefix of the hits |
| HybridSearch.PutAllVectorSound | src/services/search/hybridSearch.ts:196-212 | the vector loop keeps the table sound for every prefix of the hits |
| HybridSearch.ChunkTableSound | src/services/search/hybridSearch.ts:169-212 | the chunk table has one entry per distinct chunk id of either list; vector-only chunks have lexical score 0, lexical-only chunks vector score 0; lexical scores ≤ 1 and vector scores ≥ 0 |
| HybridSearch.SolutionChunks | src/services/search/hybridSearch.ts:230-233 | a solution receives exactly the table's chunks carrying its id, and none when no chunk does |
| HybridSearch.MaxOf | src/services/search/hybridSearch.ts:235-236 | the running maximum bounds every chunk's score and is either the start value 0 or one of the scores |
| HybridSearch.AllMatched | src/services/search/hybridSearch.ts:237-247 | each attached chunk carries its own blended score |
| HybridSearch.Distinct | src/services/search/hybridSearch.ts:221-228 | the solution map holds each input id once, and only input ids |
| HybridSearch.DistinctOrder | src/services/search/hybridSearch.ts:221-253 | map iteration follows first-occurrence order of the ids |
| HybridSearch.MergeSearchResults | src/services/search/hybridSearch.ts:164-271 | one entry per distinct solution id, in first-occurrence order |
| HybridSearch.TopChunksFacts | src/services/search/hybridSearch.ts:256-259 | at most 3 chunks, sorted by blended score, a prefix of the full sort, none lower than a dropped one, each from the solution's chunks |
| HybridSearch.AggregateFacts | src/services/search/hybridSearch.ts:231-266 | an entry's lexical and vector scores are the maxima over its chunks (0 when none); its blended score is the blend of the maxima and bounds every attached chunk's |
| HybridSearch.NoHitsNoSignal | src/services/search/hybridSearch.ts:221-268 | an id without chunks still gets an entry, with zero scores and no chunks |
| HybridSearch.NoCrossSolutionChunks | src/services/search/hybridSearch.ts:231-233 | every attached chunk belongs to its entry's solution, which is an input id; other chunks are dropped |
| HybridSearch.SlicePrefix | src/services/search/hybridSearch.ts:62 | `slice(0, n)` keeps the first n results, or drops the last −n when n is negative |
| HybridSearch.SearchFacts | src/services/search/hybridSearch.ts:32-63 | no ids give no results; otherwise results are sorted by blended score, at most `limit` of them, with distinct input ids |
| HybridSearch.NoVectorHitsEntry | src/services/search/hybridSearch.ts:184-212 | with no vector hits every entry and chunk has vector score 0 |
| HybridSearch.VectorFailureZeroesVectorScores | src/services/search/hybridSearch.ts:47-57 | when the embedding or vector query fails every vector score is 0 |
| HybridSearch.BothChannelsFailed | src/services/search/hybridSearch.ts:35-62 | with both retrievals failed every id still appears, up to the limit, with all scores 0 and no chunks |
| HybridSearch.SearchQueryShape | src/services/search/hybridSearch.ts:277-308 | the query is the category keywords (or the raw category), then each problem, then the free text when non-empty, separated by single spaces (the one caller never supplies the free text; see Findings) |
| SearchActions.FindFact | src/app/dashboard/search/actions.ts:50 | `find` returns the first fact of the type, or none exactly when no fact has it |
| SearchActions.FactPoints | src/app/dashboard/search/actions.ts:49-59 | a fact adds 0, 5 or 10; something exactly when the first fact of its type is supported, 10 exactly when it is also required |
| SearchActions.FirstFactDecides | src/app/dashboard/search/actions.ts:50-53 | later facts of the same type never change the points once a first one exists |
| SearchActions.CalculateScore | src/app/dashboard/search/actions.ts:33-91 | total equals score; base 50; category 30 or 0; fact points as above; score in [0,100], at least 50 without a hybrid result; the hybrid fields are present exactly when a hybrid result is given |
| SearchActions.BasicScoreIsCappedSum | src/app/dashboard/search/actions.ts:74-76 | the rule-based score is min(50 + 30/0 + fact points, 100); 50 with nothing matched; 100 exactly when everything matches as required |
| SearchActions.HybridScoreIsFinalScore | src/app/dashboard/search/actions.ts:63-73 | the hybrid score is the final score of the relevance, the matched/required ratio (1 with nothing required) and the category match |
| SearchActions.FactRatioCanExceedOne | src/app/dashboard/search/actions.ts:65-67 | an unrequired supported fact counts as matched, so the ratio can reach 2 |
| SearchActions.FactRatioBoundedWhenAllRequired | src/app/dashboard/search/actions.ts:65-67 | when both constraints are required the ratio lies in [0,1] |
| SearchActions.Highlight | src/app/dashboard/search/actions.ts:141-143 | content of at most 100 characters is kept, longer content becomes its first 100 characters plus "..." |
| SearchActions.Highlights | src/app/dashboard/search/actions.ts:137-145 | one highlight per chunk for the first min(3, n) chunks |
| SearchActions.GenerateExplain | src/app/dashboard/search/actions.ts:94-156 | the matched facts are the required-and-supported ones, the category flag is name equality, the summary opens with the category sentence, at most 5 chunks are kept |
| SearchActions.ExplainAgreesWithBreakdown | src/app/dashboard/search/actions.ts:103-121 | a fact is listed exactly when its breakdown points are 10; at most 2, sso before audit_log, all "supported" (the breakdown points are set at lines 50-58) |
| SearchActions.MatchedFactsListed | src/app/dashboard/search/actions.ts:103-121 | sso (then audit_log) is listed exactly when its first fact is supported and it is required |
| SearchActions.Summary | src/app/dashboard/search/actions.ts:124-147 | whatever the counts, the summary starts with the category sentence |
| SearchActions.SummaryParts | src/app/dashboard/search/actions.ts:124-147 | with a non-zero fact count the opening is followed by the count sentence, with a non-zero chunk count the chunk sentence ends the summary, and with both zero the opening is all |
| SearchActions.SummaryShape | src/app/dashboard/search/actions.ts:124-147 | the count sentence follows the opening only with matched facts, the chunk sentence ends the summary only with chunks, and the summary is just the opening otherwise |
| SearchActions.HighlightsShape | src/app/dashboard/search/actions.ts:136-153 | min(3, n) highlights of at most 103 characters, short content kept verbatim, at most 5 chunks |
| SearchActions.SupportedIds | src/app/dashboard/search/actions.ts:195-197 | the ids listed are exactly those with some supported fact of the type |
| SearchActions.KeepListed | src/app/dashboard/search/actions.ts:198 | filtering keeps exactly the solutions whose id is listed |
| SearchActions.MustFilter | src/app/dashboard/search/actions.ts:191-206 | a solution survives exactly when it has a supported sso fact if SSO is required and a supported audit_log fact if audit logs are required |
| SearchActions.FilterAndScoreDisagree | src/app/dashboard/search/actions.ts:193-198 | the filter accepts any supported sso fact, while scoring looks only at the first one (scoring: lines 50-52) |
| SearchActions.FactsOf | src/app/dashboard/search/actions.ts:247 | a candidate's facts are exactly the facts carrying its id |
| SearchActions.Lookup | src/app/dashboard/search/actions.ts:221-248 | the hybrid map yields a result with the solution's id, or nothing exactly when none has it |
| SearchActions.ScoreAll | src/app/dashboard/search/actions.ts:246-259 | one scored candidate per filtered solution, in order |
| SearchActions.Positions | src/app/dashboard/search/actions.ts:311-321 | the stored results carry rank position+1 and their candidate's id, score, breakdown and explanation |
| SearchActions.QueryAsWrittenDropsFreeText | src/app/dashboard/search/actions.ts:209 | the row passed to generateSearchQuery has only snake-case columns, so the `problemFreeText` lookup finds nothing and the query is built without the free text |
| SearchActions.FreeTextLostExample | src/app/dashboard/search/actions.ts:209 | a row saved with free text "紙の申請": the query as written omits it, the corrected query ends with it |
| SearchActions.QueryCarriesFreeText | src/services/search/hybridSearch.ts:302-305 | reading the stored `problem_free_text` column, the query ends with the free text whenever it is non-empty |
| SearchActions.RunSearch | src/app/dashboard/search/actions.ts:159-325 | a run yields no result exactly when the diagnosis has no constraints object and some Must-filtered candidate reads it (its first sso or audit_log fact is "supported", or it has a hybrid entry; lines 51-52, 57-58, 64-66); otherwise its candidate total is the size of the Must-filtered list and it keeps min(n, 5) results |
| SearchActions.ConstraintsUnread | src/app/dashboard/search/actions.ts:49-66 | a candidate that reads no constraint field scores and is explained the same under any constraints, so a run without a constraints object can rank it |
| SearchActions.NoConstraintsStillRanks | src/app/dashboard/search/actions.ts:239-249 | a diagnosis without constraints and a same-category candidate with no facts and no hybrid entry is ranked first with score 80 |
| SearchActions.SupportedFactWithoutConstraintsFails | src/app/dashboard/search/actions.ts:51-52 | without constraints, a candidate whose first sso fact is "supported" makes the run fail |
| SearchActions.RankFacts | src/app/dashboard/search/actions.ts:261-265 | at most 5 results, ranks 1..n, scores non-increasing, none below a candidate left out (ranks stored at lines 311-321) |
| SearchActions.RankedAreCandidates | src/app/dashboard/search/actions.ts:246-265 | every ranked result is a scored candidate with the same score |
| SearchActions.RankIsStableTopFive | src/app/dashboard/search/actions.ts:261-265 | any stable descending sort gives the same top five, so ties keep input order |
| SearchActions.RankedPassFilter | src/app/dashboard/search/actions.ts:191-206 | every ranked solution meets the required constraints (ranked at lines 246-265) |
| SearchActions.ThrowMeansRuleBased | src/app/dashboard/search/actions.ts:240-249 | when hybrid search throws every candidate is scored by the rule-based path, in [50,100] |
| SearchActions.BeyondLimitFallsBack | src/app/dashboard/search/actions.ts:215-248 | with more than 50 distinct filtered ids some candidate falls back to the rule-based path |
| SearchActions.EntryMeansHybrid | src/app/dashboard/search/actions.ts:246-249 | a candidate with a hybrid entry is scored by the final-score path with its own fact ratio (the final-score path is lines 63-73) |
| SearchActions.EveryIdHasEntry | src/services/search/hybridSearch.ts:57-62 | with at most 50 distinct ids every id has a hybrid entry |
| SearchActions.FailedRetrievalsStillHybrid | src/app/dashboard/search/actions.ts:214-249 | failed retrievals that do not throw still put every candidate on the hybrid path, with relevance 0 |
| ProposalParser.LeadLength | src/lib/proposal/parser.ts:41-63 | the header lines are exactly the lines before the first line starting with "## " |
| ProposalParser.SectionsFromTitles | src/lib/proposal/parser.ts:44-73 | one section per "## " line, in order, titled by the rest of that line trimmed, never in editing state |
| ProposalParser.ParseStructure | src/lib/proposal/parser.ts:35-89 | text without a heading parses to nothing; the `_header` section comes first exactly when some heading exists and the preamble is non-blank; the other titles are the headings' in order |
| ProposalParser.ParseLinesStructure | src/lib/proposal/parser.ts:44-87 | the same structure for the split lines |
| ProposalParser.DisplayName | src/lib/proposal/parser.ts:125-132 | the display name is always a suffix of the title |
| ProposalParser.DisplayNameIsRegexGroup | src/lib/proposal/parser.ts:127-131 | without a `^\d+\.\s*(.+)$` match the title is kept; with one, the result is the group after the longest whitespace run, as the greedy regex chooses |
| ProposalParser.NoMatchKeepsTitle | src/lib/proposal/parser.ts:128-131 | a title the pattern does not match is returned unchanged |
| ProposalParser.DisplayNameDropsNumber | src/lib/proposal/parser.ts:127-129 | "1. 概要" is shown as "概要" |
| ProposalParser.DisplayNameKeepsPlainTitle | src/lib/proposal/parser.ts:131 | "概要" is shown unchanged |
| ProposalParser.WellFormedTitles | src/lib/proposal/parser.ts:98-112 | in a well-formed list no normal title holds a line break |
| ProposalParser.BlockLines | src/lib/proposal/parser.ts:101-113 | one section's written parts split into its heading, a blank line and content lines (when content exists), and the separator line |
| ProposalParser.PartsLines | src/lib/proposal/parser.ts:98-114 | the written parts split into the concatenated blocks |
| ProposalParser.BodyContent | src/lib/proposal/parser.ts:49-111 | re-reading a written body and trimming gives back trimmed content |
| ProposalParser.BlockParses | src/lib/proposal/parser.ts:44-113 | a normal section's block, followed by another heading or nothing, parses back to that section |
| ProposalParser.NormalBlocksParse | src/lib/proposal/parser.ts:44-114 | blocks of normal sections parse back to those sections |
| ProposalParser.HeaderThenSections | src/lib/proposal/parser.ts:61-104 | a `_header` block followed by normal blocks parses back to the header section then those sections |
| ProposalParser.AllLinesParse | src/lib/proposal/parser.ts:35-89 | the lines of a well-formed list parse back to it |
| ProposalParser.ParseBlankLine | src/lib/proposal/parser.ts:44-73 | one extra blank line at the end changes no section |
| ProposalParser.RoundTrip | src/lib/proposal/parser.ts:35-117 | parsing the serialised text of a well-formed section list gives back exactly that list |
| ProposalParser.WrittenLines | src/lib/proposal/parser.ts:98-117 | the serialised text splits into the written lines without the trimmed trailing blank |
| ProposalParser.HeaderTitleCollides | src/lib/proposal/parser.ts:56-104 | a heading literally titled "_header" parses to a section the writer outputs without its heading, so the text re-parses to nothing |
| ProposalParser.HeaderHeadingParses | src/lib/proposal/parser.ts:46-59 | "## _header" followed by a line parses to a section titled `_header` |
| ProposalParser.HeadingThenLine | src/lib/proposal/parser.ts:44-73 | a heading line followed by one plain line parses to one section with that content |
| ProposalParser.HeaderWrittenBare | src/lib/proposal/parser.ts:102-116 | a `_header` section is written as its content alone |
| ProposalParser.LineWithoutHeadingParsesEmpty | src/lib/proposal/parser.ts:61-76 | a single non-heading line parses to the empty list |
| ProposalTemplate.Items | src/app/dashboard/proposal/actions.ts:49-60 | one bullet line per value |
| ProposalTemplate.Rows | src/app/dashboard/proposal/actions.ts:74 | one table row per compared solution |
| ProposalTemplate.MarkdownIsLines | src/app/dashboard/proposal/actions.ts:28-103 | the document is its lines joined by line breaks with a final line break |
| ProposalTemplate.MarkdownOpensWithTitle | src/app/dashboard/proposal/actions.ts:32 | the document starts with "# SaaS導入稟議書" |
| ProposalTemplate.OpeningOutline | src/app/dashboard/proposal/actions.ts:32-34 | the opening holds the title and "## 1. 概要" |
| ProposalTemplate.TableOutline | src/app/dashboard/proposal/actions.ts:36-41 | the overview table holds no heading |
| ProposalTemplate.PurposeOutline | src/app/dashboard/proposal/actions.ts:43-48 | the purpose block holds "## 2. 導入目的", "### 背景", "### 解決したい課題" |
| ProposalTemplate.IntroOutline | src/app/dashboard/proposal/actions.ts:32-48 | the introduction's headings in order |
| ProposalTemplate.SelectionOutline | src/app/dashboard/proposal/actions.ts:51-57 | the selection block holds "## 3. 選定理由", "### 推薦スコア", "### 推薦理由" |
| ProposalTemplate.ProductOutline | src/app/dashboard/proposal/actions.ts:62-64 | the product block holds "## 4. 製品概要" |
| ProposalTemplate.ProblemOutline | src/app/dashboard/proposal/actions.ts:49 | the problem list holds no heading |
| ProposalTemplate.MatchedOutline | src/app/dashboard/proposal/actions.ts:59-60 | the "### 条件マッチ" caption appears exactly when the explanation has matched facts |
| ProposalTemplate.ComparisonOutline | src/app/dashboard/proposal/actions.ts:70-76 | the comparison block holds only "## 5. 比較検討結果" |
| ProposalTemplate.ConstraintsOutline | src/app/dashboard/proposal/actions.ts:82-88 | the constraints block holds only its numbered heading |
| ProposalTemplate.ScheduleOutline | src/app/dashboard/proposal/actions.ts:90-99 | the schedule block holds only its numbered heading |
| ProposalTemplate.OverviewOutlineIs | src/app/dashboard/proposal/actions.ts:32-66 | sections 1 to 4 with their subsections, in order, plus the matched caption when shown |
| ProposalTemplate.ComparisonPartOutline | src/app/dashboard/proposal/actions.ts:68-79 | the comparison section is present exactly when more than one solution is compared |
| ProposalTemplate.ClosingOutline | src/app/dashboard/proposal/actions.ts:81-100 | the closing holds the constraints heading numbered n and the schedule heading numbered n+1 |
| ProposalTemplate.ProposalOutline | src/app/dashboard/proposal/actions.ts:28-103 | the full outline: title, sections 1–4, section 5 only with a shown comparison, then constraints and schedule numbered 6/7 with any comparison object, else 5/6 |
| ProposalTemplate.CallerComparison | src/app/dashboard/proposal/actions.ts:203 | the caller passes a comparison exactly when more than one solution was found, and then passes that list |
| ProposalTemplate.HeadingsDiffer | src/app/dashboard/proposal/actions.ts:70-90 | the numbered headings differ from each other and from the comparison heading |
| ProposalTemplate.ComparisonHeadingIff | src/app/dashboard/proposal/actions.ts:69-70 | "## 5. 比較検討結果" is in the outline exactly when more than one solution is compared |
| ProposalTemplate.NumberingSkipsFive | src/app/dashboard/proposal/actions.ts:69-82 | a comparison object with at most one solution leaves no section 5 yet numbers the constraints 6 |
| ProposalTemplate.CallerNumberingIsGapless | src/app/dashboard/proposal/actions.ts:69-90 | with the caller's comparison the outline numbers 5, 6, 7 with a comparison and 5, 6 without, never skipping (the caller builds the comparison at line 203) |
| ProposalTemplate.Bullets | src/app/dashboard/proposal/actions.ts:49-60 | one prefixed text per value |
| ProposalTemplate.ItemsTexts | src/app/dashboard/proposal/actions.ts:49-60 | the bullet lines read "prefix + value" for each value, in order |
| ProposalTemplate.RowTexts | src/app/dashboard/proposal/actions.ts:74 | one row text per entry |
| ProposalTemplate.RowsTexts | src/app/dashboard/proposal/actions.ts:74 | the table rows read "| name | score点 |" in entry order |
| ProposalTemplate.IntroPartFields | src/app/dashboard/proposal/actions.ts:32-48 | the introduction holds no list line |
| ProposalTemplate.SelectionPartFields | src/app/dashboard/proposal/actions.ts:51-57 | the selection block holds no list line |
| ProposalTemplate.ProductPartFields | src/app/dashboard/proposal/actions.ts:62-64 | the product block holds no list line |
| ProposalTemplate.ProblemPartFields | src/app/dashboard/proposal/actions.ts:49 | the problem block's problem lines are the bullets of the problems |
| ProposalTemplate.MatchedPartFields | src/app/dashboard/proposal/actions.ts:59-60 | "- ✓ reason" lines appear, one per matched fact, only when matched facts exist |
| ProposalTemplate.ComparisonPartFields | src/app/dashboard/proposal/actions.ts:68-79 | the comparison rows appear only with a shown comparison |
| ProposalTemplate.ClosingPartFields | src/app/dashboard/proposal/actions.ts:82-100 | the budget row appears only with a budget |
| ProposalTemplate.ListFieldInDocument | src/app/dashboard/proposal/actions.ts:28-103 | list lines come only from the problem, matched, comparison and closing blocks |
| ProposalTemplate.ProblemsInDocument | src/app/dashboard/proposal/actions.ts:49 | the document's problem lines are one "- p" per problem, in order |
| ProposalTemplate.DefaultProblemLine | src/app/dashboard/proposal/actions.ts:48-49 | with no problems the line after "### 解決したい課題" is "- 業務効率化" |
| ProposalTemplate.ReasonsInDocument | src/app/dashboard/proposal/actions.ts:59-60 | the document's reason lines are one "- ✓ reason" per matched fact when there are any, none otherwise |
| ProposalTemplate.ComparisonRowsInDocument | src/app/dashboard/proposal/actions.ts:69-74 | the comparison rows are one per compared solution, in the order given, only when more than one is compared |
| ProposalTemplate.BudgetInDocument | src/app/dashboard/proposal/actions.ts:88 | the budget row appears exactly when the budget is present and non-zero |
| ProposalTemplate.FirstScore | src/app/dashboard/proposal/actions.ts:170-173 | a solution's score is its first stored result's, or 0 without one |
| ProposalTemplate.Scored | src/app/dashboard/proposal/actions.ts:169-174 | one entry per stored solution |
| ProposalTemplate.ComparedSolutions | src/app/dashboard/proposal/actions.ts:169-175 | the compared list keeps every solution |
| ProposalTemplate.ComparedSolutionsOrder | src/app/dashboard/proposal/actions.ts:169-175 | the compared list is sorted best first, is a permutation of the scored list, and keeps ties in fetch order |
| ProposalTemplate.ComparisonTableBestFirst | src/app/dashboard/proposal/actions.ts:169-203 | with the caller's list the table rows run best score first |
| ProposalTemplate.Latest | src/app/dashboard/proposal/actions.ts:210-217 | the latest version is the maximum stored version, none when nothing is stored |
| ProposalTemplate.NewVersion | src/app/dashboard/proposal/actions.ts:219 | a new proposal gets 1 when none exists, else one more than the latest, so above every stored version |
| ProposalTemplate.GeneratedVersionsIncrease | src/app/dashboard/proposal/actions.ts:219 | repeated generation keeps versions strictly increasing |
| ProposalTemplate.EditOfLatestIsNew | src/app/dashboard/proposal/actions.ts:286 | editing the latest version yields the same number generation would, unused so far (generation numbers at line 219) |
| ProposalTemplate.EditOfOlderVersionRepeats | src/app/dashboard/proposal/actions.ts:286 | editing an older version can repeat a stored version number |
| Compare.FactsOf | src/app/dashboard/compare/actions.ts:66 | a fact is kept exactly when it is one of the fetched facts and carries the solution's id; a failed fact query gives none |
| Compare.FirstOfType | src/app/dashboard/compare/actions.ts:98-128 | `find` yields a fact of the type from the list, or none exactly when no fact has that type |
| Compare.FirstOfOwnFacts | src/app/dashboard/compare/actions.ts:66-98 | filtering by solution then finding by type equals the first fact with both; one exists exactly when some fact has both |
| Compare.FindResult | src/app/dashboard/compare/actions.ts:67 | the result found carries the solution's id, and none is found exactly when the query failed or no result has it |
| Compare.AxisCell | src/app/dashboard/compare/actions.ts:65-145 | the j-th cell of a solution names that solution and the j-th axis |
| Compare.SolutionCells | src/app/dashboard/compare/actions.ts:65-145 | each solution gets exactly 7 cells, one per axis, in axis order |
| Compare.AllCells | src/app/dashboard/compare/actions.ts:63-145 | the cell list holds 7 cells per fetched solution |
| Compare.GenerateMatrix | src/app/dashboard/compare/actions.ts:13-171 | fewer than 2 ids is rejected with "比較には2件以上の製品が必要です"; a failed solution query is rejected too, and nothing else is; the matrix keeps the requested ids and the 7 axes |
| Compare.CellAt | src/app/dashboard/compare/actions.ts:63-145 | cell 7·i+j is the j-th cell of the i-th solution |
| Compare.MatrixLayout | src/app/dashboard/compare/actions.ts:52-145 | there are 7·n cells, and cell 7·i+j belongs to solution i and axis j (vendor, category, sso, audit_log, api, mobile, score) |
| Compare.FactCellMeaning | src/app/dashboard/compare/actions.ts:97-135 | a fact cell is "✓" exactly when the solution's first fact of that type is "supported"; "confirmed" exactly when such a fact exists; its evidence is the fact's non-empty URL |
| Compare.FactCellAt | src/app/dashboard/compare/actions.ts:97-135 | the four fact axes are built from the first own fact of the axis type |
| Compare.OtherCellsMeaning | src/app/dashboard/compare/actions.ts:69-95 | the vendor cell is the vendor, the category cell the label or the raw code, the score cell "-" without a result and the formatted score with one; all three are confirmed (the score cell is lines 137-144) |
| Compare.DetailOf | src/app/dashboard/compare/actions.ts:202-214 | a detail keeps the solution's id and name |
| Compare.DetailsInFetchOrder | src/app/dashboard/compare/actions.ts:202-214 | one detail per fetched solution |
| Compare.GetMatrix | src/app/dashboard/compare/actions.ts:174-223 | a matrix comes back exactly when one is stored, unchanged, with one detail per fetched solution (none when that query fails) |
| Compare.DetailsByRank | src/app/dashboard/compare/actions.ts:202-217 | details are ordered by ascending rank, are a permutation of the fetched details, and keep equal ranks in fetch order |
| Compare.UnrankedDefaults | src/app/dashboard/compare/actions.ts:211-212 | a solution without a result gets score 0 and rank 999 |
| Compare.CellValue | src/app/dashboard/compare/actions.ts:242-245 | a CSV cell is the value of the first matrix cell for the solution and axis, "-" when that value is empty or no cell matches; never empty |
| Compare.HeaderRow | src/app/dashboard/compare/actions.ts:236 | the header has 1 + (number of solutions) fields |
| Compare.AxisRow | src/app/dashboard/compare/actions.ts:239-248 | each axis row has 1 + (number of solutions) fields |
| Compare.Table | src/app/dashboard/compare/actions.ts:236-251 | the table has one header and one row per axis |
| Compare.TableShape | src/app/dashboard/compare/actions.ts:235-248 | every row has 1 + n fields; the header is "項目" then the names in detail order; each row opens with the axis name, then the first matching cell's value or "-" per solution |
| Compare.CsvField | src/app/dashboard/compare/actions.ts:252 | a field is the cell between two double quotes, with nothing escaped |
| Compare.QuoteAll | src/app/dashboard/compare/actions.ts:252 | one quoted field per cell |
| Compare.QuoteAllAt | src/app/dashboard/compare/actions.ts:252 | the i-th quoted field is the i-th cell quoted |
| Compare.CsvLines | src/app/dashboard/compare/actions.ts:251-253 | one CSV line per row |
| Compare.ExportCsv | src/app/dashboard/compare/actions.ts:226-256 | the export fails with "比較マトリクスが見つかりません" exactly when no matrix is stored |
| Compare.Escape | src/app/dashboard/compare/actions.ts:252 | the RFC 4180 escape never shortens a field |
| Compare.RfcAll | src/app/dashboard/compare/actions.ts:252 | one RFC 4180 field per cell |
| Compare.ReadQuoted | src/app/dashboard/compare/actions.ts:252 | reading a quoted field always consumes input |
| Compare.ReadRecord | src/app/dashboard/compare/actions.ts:252 | a record that reads holds at least one field |
| Compare.ReadRecords | src/app/dashboard/compare/actions.ts:253 | one record per line |
| Compare.ReadEscaped | src/app/dashboard/compare/actions.ts:252 | an escaped field followed by its closing quote reads back to the field |
| Compare.ReadQuotedSound | src/app/dashboard/compare/actions.ts:252 | whatever reads as a quoted field is exactly an escaped field and its closing quote |
| Compare.EscapeUnchanged | src/app/dashboard/compare/actions.ts:252 | escaping changes a field exactly when it holds a double quote |
| Compare.ReadLastField | src/app/dashboard/compare/actions.ts:252 | an RFC 4180 field alone reads back as a one-field record |
| Compare.ReadFieldThenMore | src/app/dashboard/compare/actions.ts:252 | a field, a comma and more text read as the field followed by the rest's fields |
| Compare.RfcRecordRoundTrip | src/app/dashboard/compare/actions.ts:252 | any non-empty row written per section 2 of RFC 4180 reads back to itself |
| Compare.QuotingAgrees | src/app/dashboard/compare/actions.ts:252 | without double quotes in the cells the export's quoting equals RFC 4180 quoting |
| Compare.FieldReadsBackIff | src/app/dashboard/compare/actions.ts:252 | an exported field reads back to its cell exactly when the cell has no double quote |
| Compare.QuoteFieldRejected | src/app/dashboard/compare/actions.ts:252 | a cell holding one double quote is written as three quotes, which no RFC 4180 reader accepts |
| Compare.NoNewlineInJoin | src/app/dashboard/compare/actions.ts:252 | joining line-free fields with a line-free separator gives a single line |
| Compare.ReadPlainLines | src/app/dashboard/compare/actions.ts:251-253 | rows of plain cells are written one line each, and those lines read back to the rows |
| Compare.ExportReadsBack | src/app/dashboard/compare/actions.ts:235-256 | when no cell holds a quote or line break, splitting the export into lines and reading each record gives back the whole table |
| History.AsList | src/app/dashboard/history/actions.ts:135-139 | a null relation is the empty list and a single object a one-element list |
| History.FirstInput | src/app/dashboard/history/actions.ts:180-183 | an input is found exactly when the relation holds at least one object |
| History.Describe | src/app/dashboard/history/actions.ts:233-255 | an in-progress session is worded by the first stage not reached, an archived one as "アーカイブ済み" whatever its flags, any other by the highest stage reached |
| History.Step | src/app/dashboard/history/actions.ts:184-190 | the step lies in [1,4] and is one more than the highest stage reached |
| History.TypeOf | src/app/dashboard/history/actions.ts:207 | the type is proposal exactly with a proposal, comparison exactly with a comparison and no proposal, diagnosis otherwise |
| History.StepAgreesWithDescription | src/app/dashboard/history/actions.ts:233-254 | the step, the finished wording and the type always name the same stage (step at lines 184-190, type at line 207) |
| History.HighestIsUnique | src/app/dashboard/history/actions.ts:184-190 | the highest stage reached is unique |
| History.LastWhere | src/app/dashboard/history/actions.ts:163-178 | the index found is the last run passing the test, or none passes |
| History.PickLoopIsLast | src/app/dashboard/history/actions.ts:163-178 | the loop leaves the id of the first proposal of the last run with proposals, and the name from the last such run whose first proposal came with its solution |
| History.NameCanLagBehindProposal | src/app/dashboard/history/actions.ts:170-176 | the shown name can belong to an earlier run than the shown proposal |
| History.CategoryOf | src/app/dashboard/history/actions.ts:180-181 | the category is never empty: a missing or empty input category becomes "expense" |
| History.Derive | src/app/dashboard/history/actions.ts:132-230 | proposal or comparison imply a search run; step and total steps are set exactly for in-progress sessions, the step in [1,4] and the total 4; a search run exists exactly when the run list is non-empty; the label is the category's |
| History.ItemProposal | src/app/dashboard/history/actions.ts:149-178 | the proposal id is the first proposal of the last run with proposals, and is absent exactly when no run has one |
| History.ItemTitle | src/app/dashboard/history/actions.ts:192-195 | the title is "label - name" with a non-empty name, label + "選定" otherwise; an unknown category is its own label |
| History.RequestedRange | src/app/dashboard/history/actions.ts:120-122 | the requested range spans exactly `limit` rows |
| History.HistoryList | src/app/dashboard/history/actions.ts:124-231 | no user, no tenant membership or a failed query (no rows fetched) give the empty page with total 0; otherwise one derived item per session in fetch order, and the exact count (0 when absent) as total (the early returns are lines 36-50) |
| History.HasMoreIff | src/app/dashboard/history/actions.ts:226-230 | more rows exist exactly when the next page's first row lies below the total |
| RelativeDate.Classify | src/lib/history/utils.ts:9-25 | the buckets by elapsed milliseconds are exclusive and exhaustive: under 60 000 "just now" (future times included), then whole minutes below 3 600 000, whole hours below 86 400 000, whole days below 604 800 000, else the date; each count is the floor of the elapsed time |
| RelativeDate.RenderInjective | src/lib/history/utils.ts:14-25 | two relative wordings are equal only for the same bucket and count |
| RelativeDate.RenderEnding | src/lib/history/utils.ts:14-24 | each relative wording ends in two characters that differ from bucket to bucket |
| RelativeDate.FloorBelow | src/lib/history/utils.ts:10-12 | the floor of an elapsed time in a unit is below n exactly when the time is below n units, negative times included |
| RelativeDate.UnitSplit | src/lib/history/utils.ts:18-24 | a count followed by a unit keeps the unit's last two characters at the end and the digits at the front |
| RelativeDate.TestExamples | src/lib/history/utils.ts:6-32 | now → "たった今", 30 minutes → "30分前", 5 hours → "5時間前", 3 days → "3日前", 14 days → the locale date |
| RelativeDate.FutureIsJustNow | src/lib/history/utils.ts:9-16 | any future instant is "たった今" |
| RelativeDate.PeriodStart | src/lib/history/utils.ts:55-75 | "all" gives no start; "today" local midnight; "week" exactly 604 800 000 ms and "month" exactly 2 592 000 000 ms before now |
| RelativeDate.HistoryPeriodStart | src/app/dashboard/history/actions.ts:98-117 | the list filters by creation time except for an empty or "all" period |
| RelativeDate.PeriodFiltersAgree | src/app/dashboard/history/actions.ts:98-117 | the list's inline period filter starts where the utility does for every named period |
| RelativeDate.PeriodsNest | src/lib/history/utils.ts:69-72 | the month period starts before the week period |
| Filename.SafeName | src/lib/export/pdf-generator.ts:73 | the safe name has the UTF-16 length of the input and holds only allowed characters and '_' |
| Filename.GenerateFilename | src/lib/export/pdf-generator.ts:68-75 | the name opens with "稟議書_", ends with "." and the extension, and its length counts the safe name, the date and the separators |
| Filename.SafeNameFixedPoints | src/lib/export/pdf-generator.ts:73 | a name is left unchanged exactly when it holds only allowed characters and '_' |
| Filename.KeepsSafeNames | src/lib/export/pdf-generator.ts:73 | allowed characters and '_' pass through unchanged |
| Filename.SafeNameIdempotent | src/lib/export/pdf-generator.ts:73 | sanitising twice equals sanitising once |
| Filename.SafeNameKeepsAllowed | src/lib/export/pdf-generator.ts:73 | for a name within the Basic Multilingual Plane, each character keeps its place: kept when allowed, '_' otherwise |
| Filename.AstralCharacter | src/lib/export/pdf-generator.ts:73 | a character outside the Basic Multilingual Plane becomes two underscores |
| Filename.NoPathSeparators | src/lib/export/pdf-generator.ts:73-74 | with a separator-free date the file name holds no '/', '\\' or ':' |
| Labels.CategoryLabel | src/app/dashboard/proposal/actions.ts:7-16 | a known category maps to a different non-empty label, an unknown one to itself (looked up with a fallback at line 40) |
| Labels.CompanySizeLabel | src/app/dashboard/proposal/actions.ts:19-25 | a known size maps to a different non-empty label, an unknown one to itself (looked up with a fallback at line 46) |
| StableSort.Sort | src/services/search/hybridSearch.ts:60-61 | the sort keeps the length and the multiset of elements |
| StableSort.SortSorted | src/services/search/hybridSearch.ts:60-61 | the result is non-increasing by key |
| StableSort.SortStable | src/app/dashboard/search/actions.ts:262 | elements of equal key keep their relative order |
| StableSort.StableSortIsSort | src/app/dashboard/search/actions.ts:262 | any stable descending permutation equals this sort's output |
| StableSort.Take | src/app/dashboard/search/actions.ts:265 | `slice(0, n)` keeps the first min(n, length) elements |
| StableSort.TakeKeepsHighest | src/app/dashboard/search/actions.ts:262-265 | no element dropped by the slice has a higher key than one kept |
| Text.Trim | src/lib/proposal/parser.ts:49 | `trim` keeps one window of the text with only JavaScript white space before and after it, and the window neither starts nor ends with white space (also lines 56, 77 and 116) |
| Text.TrimIsTheWindow | src/lib/proposal/parser.ts:49 | any such window is the result of `trim`, so the result is determined: exactly the outer white space is removed |
| Text.SplitLinesOfJoin | src/lib/proposal/parser.ts:37 | splitting at line breaks undoes joining line-free parts with line breaks (the writer joins at line 116) |
| Text.JoinSplitLines | src/lib/proposal/parser.ts:37-49 | joining the split lines with line breaks restores the text |
| Text.NatToString | src/app/dashboard/search/actions.ts:132-146 | decimal rendering is digits only, non-empty and without a leading zero |
| Text.NatToStringRoundTrip | src/app/dashboard/search/actions.ts:132-146 | the digits read back to the number |
| Text.NatToStringInjective | src/lib/history/utils.ts:18-24 | different numbers render differently |

## Left out

- Database access: every Supabase query, insert and update, the
  authentication and tenant lookups and `redirect` are I/O. Fetched rows
  are input sequences; a failed query or a missing user is `None` or an
  empty list, matching how each action treats it.
- The lexical and vector retrieval RPCs (src/services/search/hybridSearch.ts:90-159):
  their ranking is SQL that is not part of this model. Their hits, or the
  empty list they give on error, are inputs.
- The embedding call to OpenAI is a foreign call. It appears as an input that
  either yields a vector or fails, in which case every vector score is 0.
- Floating point: numbers are exact reals, so IEEE-754 rounding, NaN and
  infinities are not modelled. `toFixed`, `toLocaleString`,
  `toLocaleDateString` and `formatDateTime` are function parameters.
- Clocks and time zones: the current instant, local midnight for the "today"
  period, today's date in the proposal and the ISO date in the file name are
  parameters. The run duration of `runSearch` is not modelled.
- Section ids are random (src/lib/proposal/parser.ts:22-24) and are left out;
  the parser round trip compares titles, contents and the editing flag.
- SearchActions.Highlight counts characters where JavaScript's `substring`
  counts UTF-16 code units; the two agree on text within the Basic
  Multilingual Plane.
- Labels.CategoryLabel, Labels.CompanySizeLabel and
  HybridSearch.CategoryKeywords treat every unknown key as unknown; a key
  naming an inherited object property such as "constructor" would find that
  property in JavaScript (src/services/search/hybridSearch.ts:296 looks the
  category up the same way).
- The hybrid fact ratio: the source's comments call it a value in [0,1]
  (src/app/dashboard/search/actions.ts:64, src/services/search/types.ts:62),
  but the code also counts supported facts that were not required, so the
  ratio can exceed 1. The model follows the code and proves that the clamp
  still keeps the score within [0,100].
- The history list's SQL status and category filters, its ordering by update
  time and its row range are applied by the database; only the requested
  range, the period start and the page arithmetic are modelled.
- React components (wizard steps, cards, the sidebar, the proposal editor and
  the PDF renderer), type-only and constant files, and the console report
  script have no core behaviour to model.

## Findings

| source | as written | input that shows it | evidently intended | confidence | as-written member | corrected member |
|---|---|---|---|---|---|---|
| src/app/dashboard/search/actions.ts:209 | runSearch passes the `diagnosis_inputs` row to generateSearchQuery, which reads `input.problemFreeText` (src/services/search/hybridSearch.ts:303); the row stores the text as `problem_free_text` (src/app/dashboard/diagnosis/actions.ts:57), so the free text is never part of the query | category "workflow", no problems, free text "紙の申請": the query is "ワークフロー 申請 承認" | the query ends with " 紙の申請", as generateSearchQuery's free-text branch means to do | not executed; read from the source text | SearchActions.QueryAsWrittenDropsFreeText | SearchActions.QueryCarriesFreeText |

The query only feeds the two retrieval channels, whose hits are inputs of
this model, so the corrected query changes no other member's contract.
