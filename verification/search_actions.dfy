/**
 * The search action: the Must filter on required facts, per-candidate
 * scoring (rule-based, or hybrid when the candidate has a hybrid-search
 * entry), the explanation shown with each result, and the final ranking
 * (stable sort by score, top 5, rank = position + 1).
 *
 * Database rows are inputs. The hybrid-search call is modelled by its
 * retrievals: `Threw` stands for the call raising (the action then scores
 * every candidate by the rules), `Returned` for the retrieval outcomes it
 * merged.
 */
module SearchActions {
  import opened Nullable
  import opened Text
  import Scoring
  import StableSort
  import HybridSearch

  const BaseScore: int := 50
  const CategoryPoints: int := 30
  const RequiredFactPoints: int := 10
  const OptionalFactPoints: int := 5
  const TopResults: nat := 5
  /** The limit the action passes to the hybrid search. */
  const HybridCandidateLimit: int := 50
  const HighlightLength: nat := 100
  const MaxHighlights: nat := 3
  const MaxExplainChunks: nat := 5

  const SsoFact: string := "sso"
  const AuditLogFact: string := "audit_log"
  const Supported: string := "supported"

  datatype Solution = Solution(id: string, name: string, category: string)
  datatype Fact = Fact(solutionId: string, factType: string, factValue: string)
  datatype Constraints = Constraints(requireSso: bool, requireAuditLog: bool)
  /** A diagnosis input; its constraints object may be absent. */
  datatype DiagnosisInput = DiagnosisInput(category: string, constraints: Option<Constraints>)

  datatype Breakdown = Breakdown(
    baseScore: int, categoryMatch: int, ssoMatch: int, auditLogMatch: int, total: real,
    bm25Score: Option<real>, vectorScore: Option<real>, relevanceScore: Option<real>)

  datatype Scored = Scored(score: real, breakdown: Breakdown)

  datatype MatchedFact = MatchedFact(factType: string, factValue: string, reason: string)

  datatype Explain = Explain(
    matchedFacts: seq<MatchedFact>, categoryMatch: bool, summary: string,
    matchedChunks: Option<seq<HybridSearch.MatchedChunk>>, relevanceHighlights: seq<string>)

  // ------------------------------------------------------------------ facts

  /** Array.prototype.find on the fact type. */
  function FindFact(facts: seq<Fact>, factType: string): (r: Option<Fact>)
    ensures r.None? <==> forall f :: f in facts ==> f.factType != factType
    ensures r.Some? ==> exists i :: 0 <= i < |facts| && facts[i] == r.value && facts[i].factType == factType
                          && forall k :: 0 <= k < i ==> facts[k].factType != factType
  {
    if |facts| == 0 then None
    else if facts[0].factType == factType then Some(facts[0])
    else
      var r := FindFact(facts[1..], factType);
      assert facts == [facts[0]] + facts[1..];
      assert r.Some? ==> exists i :: 0 <= i < |facts| && facts[i] == r.value && facts[i].factType == factType
                          && forall k :: 0 <= k < i ==> facts[k].factType != factType by {
        if r.Some? {
          var j :| 0 <= j < |facts[1..]| && facts[1..][j] == r.value && facts[1..][j].factType == factType
                   && forall k :: 0 <= k < j ==> facts[1..][k].factType != factType;
          assert facts[j + 1] == r.value;
          assert forall k :: 0 <= k < j + 1 ==> facts[k].factType != factType by {
            forall k | 0 <= k < j + 1 ensures facts[k].factType != factType {
              if k > 0 { assert facts[k] == facts[1..][k - 1]; }
            }
          }
        }
      }
      r
  }

  /** The first fact of the type says "supported". */
  predicate FirstSupported(facts: seq<Fact>, factType: string) {
    var f := FindFact(facts, factType);
    f.Some? && f.value.factValue == Supported
  }

  /** Points for one fact type: 10 when supported and required, 5 when supported only, else 0. */
  function FactPoints(facts: seq<Fact>, factType: string, required: bool): (p: int)
    ensures p == 0 || p == OptionalFactPoints || p == RequiredFactPoints
    ensures p > 0 <==> FirstSupported(facts, factType)
    ensures p == RequiredFactPoints <==> FirstSupported(facts, factType) && required
  {
    if FirstSupported(facts, factType) then (if required then RequiredFactPoints else OptionalFactPoints) else 0
  }

  /**
   * Only the first fact of a type counts: facts of that type after it, and
   * facts of other types before it, change nothing.
   */
  lemma {:induction false} FirstFactDecides(pre: seq<Fact>, f: Fact, post: seq<Fact>, required: bool)
    requires forall g :: g in pre ==> g.factType != f.factType
    ensures FactPoints(pre + [f] + post, f.factType, required)
         == if f.factValue == Supported then (if required then RequiredFactPoints else OptionalFactPoints) else 0
    decreases |pre|
  {
    var facts := pre + [f] + post;
    if |pre| == 0 {
      assert facts[0] == f;
    } else {
      FirstFactDecides(pre[1..], f, post, required);
      assert facts[1..] == pre[1..] + [f] + post;
    }
  }

  // ------------------------------------------------------------ calculateScore

  /** Share of required facts that earned points; 1 when nothing is required. */
  function FactRatio(facts: seq<Fact>, c: Constraints): real {
    var matched := (if FactPoints(facts, SsoFact, c.requireSso) > 0 then 1 else 0)
                 + (if FactPoints(facts, AuditLogFact, c.requireAuditLog) > 0 then 1 else 0);
    var required := (if c.requireSso then 1 else 0) + (if c.requireAuditLog then 1 else 0);
    if required > 0 then matched as real / required as real else 1.0
  }

  /**
   * calculateScore. With a hybrid entry the score is the final score of its
   * combined score, the fact ratio and the category match; without one it is
   * the rule-based sum capped at 100.
   */
  function CalculateScore(solution: Solution, facts: seq<Fact>, category: string, c: Constraints,
                          hybrid: Option<HybridSearch.SearchResult>): (r: Scored)
    ensures r.breakdown.total == r.score
    ensures r.breakdown.baseScore == BaseScore
    ensures r.breakdown.categoryMatch == (if solution.category == category then CategoryPoints else 0)
    ensures r.breakdown.ssoMatch == FactPoints(facts, SsoFact, c.requireSso)
    ensures r.breakdown.auditLogMatch == FactPoints(facts, AuditLogFact, c.requireAuditLog)
    ensures 0.0 <= r.score <= 100.0
    ensures hybrid.None? ==> 50.0 <= r.score
    ensures hybrid.None? <==> r.breakdown.relevanceScore.None?
    ensures hybrid.Some? ==>
      && r.breakdown.bm25Score == Some(hybrid.value.bm25Score)
      && r.breakdown.vectorScore == Some(hybrid.value.vectorScore)
      && r.breakdown.relevanceScore == Some(hybrid.value.combinedScore)
    ensures hybrid.None? ==> r.breakdown.bm25Score.None? && r.breakdown.vectorScore.None?
  {
    var categoryMatch := if solution.category == category then CategoryPoints else 0;
    var sso := FactPoints(facts, SsoFact, c.requireSso);
    var audit := FactPoints(facts, AuditLogFact, c.requireAuditLog);
    var total :=
      if hybrid.Some? then Scoring.FinalScore(hybrid.value.combinedScore, FactRatio(facts, c), solution.category == category)
      else Scoring.Min((BaseScore + categoryMatch + sso + audit) as real, 100.0);
    Scored(total, Breakdown(BaseScore, categoryMatch, sso, audit, total,
      if hybrid.Some? then Some(hybrid.value.bm25Score) else None,
      if hybrid.Some? then Some(hybrid.value.vectorScore) else None,
      if hybrid.Some? then Some(hybrid.value.combinedScore) else None))
  }

  /** The rule-based score is the capped sum of the breakdown's points. */
  lemma BasicScoreIsCappedSum(solution: Solution, facts: seq<Fact>, category: string, c: Constraints)
    ensures var r := CalculateScore(solution, facts, category, c, None);
      && r.score == Scoring.Min((r.breakdown.baseScore + r.breakdown.categoryMatch + r.breakdown.ssoMatch
                                 + r.breakdown.auditLogMatch) as real, 100.0)
      && (r.breakdown.categoryMatch == 0 && r.breakdown.ssoMatch == 0 && r.breakdown.auditLogMatch == 0 ==> r.score == 50.0)
      && (r.score == 100.0 <==> solution.category == category && r.breakdown.ssoMatch == 10 && r.breakdown.auditLogMatch == 10)
  {
  }

  /** The hybrid score is the final score of the entry's combined score and the fact-match ratio. */
  lemma HybridScoreIsFinalScore(solution: Solution, facts: seq<Fact>, category: string, c: Constraints,
                                h: HybridSearch.SearchResult)
    ensures var r := CalculateScore(solution, facts, category, c, Some(h));
      var matched := (if r.breakdown.ssoMatch > 0 then 1.0 else 0.0) + (if r.breakdown.auditLogMatch > 0 then 1.0 else 0.0);
      var required := (if c.requireSso then 1.0 else 0.0) + (if c.requireAuditLog then 1.0 else 0.0);
      r.score == Scoring.FinalScore(h.combinedScore, Scoring.FactMatchScore(matched, required), solution.category == category)
  {
    var r := CalculateScore(solution, facts, category, c, Some(h));
    var matched := (if r.breakdown.ssoMatch > 0 then 1.0 else 0.0) + (if r.breakdown.auditLogMatch > 0 then 1.0 else 0.0);
    var required := (if c.requireSso then 1.0 else 0.0) + (if c.requireAuditLog then 1.0 else 0.0);
    var ratio := Scoring.FactMatchScore(matched, required);
    assert required != 0.0 ==> ratio == matched / required;
  }

  /**
   * The fact ratio counts a supported fact even when it is not required, so
   * it can reach 2: SSO required, audit log not required, both supported.
   */
  lemma FactRatioCanExceedOne()
    ensures var facts := [Fact("s", SsoFact, Supported), Fact("s", AuditLogFact, Supported)];
      FactRatio(facts, Constraints(true, false)) == 2.0
      && CalculateScore(Solution("s", "n", "expense"), facts, "hr", Constraints(true, false),
           Some(HybridSearch.SearchResult("s", 0.0, 0.0, 0.0, []))).score
         == Scoring.FinalScore(0.0, 2.0, false)
  {
    var facts := [Fact("s", SsoFact, Supported), Fact("s", AuditLogFact, Supported)];
    assert FindFact(facts, SsoFact) == Some(facts[0]);
    assert FindFact(facts, AuditLogFact) == Some(facts[1]) by {
      assert facts[0].factType != AuditLogFact;
      assert FindFact(facts[1..], AuditLogFact) == Some(facts[1]);
    }
  }

  /** When every fact type is required the ratio stays within [0, 1]. */
  lemma FactRatioBoundedWhenAllRequired(facts: seq<Fact>)
    ensures 0.0 <= FactRatio(facts, Constraints(true, true)) <= 1.0
  {
  }

  // ----------------------------------------------------------- generateExplain

  function CategorySentence(categoryMatch: bool): string {
    if categoryMatch then "ご指定の業務カテゴリにマッチする製品です。"
    else "カテゴリは異なりますが、条件にマッチする機能を持っています。"
  }

  function FactsSentence(n: nat): string {
    " " + NatToString(n) + "件の必須条件を満たしています。"
  }

  function ChunksSentence(n: nat): string {
    " ドキュメント分析により" + NatToString(n) + "件の関連情報が見つかりました。"
  }

  /** The explanation's summary: the category sentence, then the fact count and the chunk count, each only when non-zero. */
  function Summary(categoryMatch: bool, factCount: nat, chunkCount: nat): (r: string)
    ensures StartsWith(r, CategorySentence(categoryMatch))
  {
    var opening := CategorySentence(categoryMatch);
    var r := opening + (if factCount > 0 then FactsSentence(factCount) else "")
      + (if chunkCount > 0 then ChunksSentence(chunkCount) else "");
    assert r[..|opening|] == opening;
    r
  }

  /** The summary's pieces, one sentence per non-zero count. */
  lemma SummaryParts(categoryMatch: bool, factCount: nat, chunkCount: nat)
    ensures var s := Summary(categoryMatch, factCount, chunkCount);
            var opening := CategorySentence(categoryMatch);
      && (factCount > 0 ==> StartsWith(s, opening + FactsSentence(factCount)))
      && (factCount == 0 && chunkCount == 0 ==> s == opening)
      && (chunkCount > 0 ==> |s| >= |ChunksSentence(chunkCount)| && s[|s| - |ChunksSentence(chunkCount)|..] == ChunksSentence(chunkCount))
  {
    var s := Summary(categoryMatch, factCount, chunkCount);
    var mid := CategorySentence(categoryMatch) + (if factCount > 0 then FactsSentence(factCount) else "");
    var tail := if chunkCount > 0 then ChunksSentence(chunkCount) else "";
    assert s == mid + tail;
    if factCount > 0 {
      assert s[..|mid|] == mid;
    }
  }

  /** The first 100 characters of a chunk, with "..." when it was longer. */
  function Highlight(content: string): (h: string)
    ensures |content| <= HighlightLength ==> h == content
    ensures |content| > HighlightLength ==> |h| == HighlightLength + 3 && h[..HighlightLength] == content[..HighlightLength]
    ensures |h| <= HighlightLength + 3
  {
    if |content| > HighlightLength then content[..HighlightLength] + "..." else content
  }

  function MatchedFactsOf(facts: seq<Fact>, c: Constraints): seq<MatchedFact> {
    (if FirstSupported(facts, SsoFact) && c.requireSso
     then [MatchedFact(SsoFact, Supported, "SSO対応が必須条件にマッチしています")] else [])
    + (if FirstSupported(facts, AuditLogFact) && c.requireAuditLog
       then [MatchedFact(AuditLogFact, Supported, "監査ログ対応が必須条件にマッチしています")] else [])
  }

  function Highlights(chunks: seq<HybridSearch.MatchedChunk>): (r: seq<string>)
    ensures |r| == if |chunks| < MaxHighlights then |chunks| else MaxHighlights
    ensures forall i :: 0 <= i < |r| ==> r[i] == Highlight(chunks[i].content)
  {
    var top := StableSort.Take(chunks, MaxHighlights);
    seq(|top|, i requires 0 <= i < |top| => Highlight(top[i].content))
  }

  /** generateExplain. */
  function GenerateExplain(solution: Solution, facts: seq<Fact>, category: string, c: Constraints,
                           chunks: Option<seq<HybridSearch.MatchedChunk>>): (r: Explain)
    ensures r.matchedFacts == MatchedFactsOf(facts, c)
    ensures r.categoryMatch <==> solution.category == category
    ensures StartsWith(r.summary, CategorySentence(r.categoryMatch))
    ensures r.summary == Summary(r.categoryMatch, |r.matchedFacts|, if chunks.Some? then |chunks.value| else 0)
    ensures chunks.None? ==> r.matchedChunks.None?
    ensures chunks.Some? ==> r.matchedChunks == Some(StableSort.Take(chunks.value, MaxExplainChunks))
  {
    var matched := MatchedFactsOf(facts, c);
    var hasChunks := chunks.Some? && |chunks.value| > 0;
    var summary := Summary(solution.category == category, |matched|, if chunks.Some? then |chunks.value| else 0);
    Explain(matched, solution.category == category, summary,
            if chunks.Some? then Some(StableSort.Take(chunks.value, MaxExplainChunks)) else None,
            if hasChunks then Highlights(chunks.value) else [])
  }

  /**
   * A fact is listed exactly when it earned the full 10 points in the score
   * breakdown, whichever scoring path was taken; at most two facts, sso
   * before audit_log.
   */
  lemma ExplainAgreesWithBreakdown(solution: Solution, facts: seq<Fact>, category: string, c: Constraints,
                                   chunks: Option<seq<HybridSearch.MatchedChunk>>, hybrid: Option<HybridSearch.SearchResult>)
    ensures var e := GenerateExplain(solution, facts, category, c, chunks);
            var b := CalculateScore(solution, facts, category, c, hybrid).breakdown;
      && |e.matchedFacts| <= 2
      && ((exists i :: 0 <= i < |e.matchedFacts| && e.matchedFacts[i].factType == SsoFact) <==> b.ssoMatch == RequiredFactPoints)
      && ((exists i :: 0 <= i < |e.matchedFacts| && e.matchedFacts[i].factType == AuditLogFact) <==> b.auditLogMatch == RequiredFactPoints)
      && (|e.matchedFacts| == 2 ==> e.matchedFacts[0].factType == SsoFact && e.matchedFacts[1].factType == AuditLogFact)
      && (forall i :: 0 <= i < |e.matchedFacts| ==> e.matchedFacts[i].factValue == Supported)
  {
    var b := CalculateScore(solution, facts, category, c, hybrid).breakdown;
    MatchedFactsListed(facts, c);
    assert b.ssoMatch == FactPoints(facts, SsoFact, c.requireSso);
  }

  /** The listed facts are the supported first facts of the required types. */
  lemma MatchedFactsListed(facts: seq<Fact>, c: Constraints)
    ensures var m := MatchedFactsOf(facts, c);
      && |m| <= 2
      && ((exists i :: 0 <= i < |m| && m[i].factType == SsoFact) <==> FirstSupported(facts, SsoFact) && c.requireSso)
      && ((exists i :: 0 <= i < |m| && m[i].factType == AuditLogFact) <==> FirstSupported(facts, AuditLogFact) && c.requireAuditLog)
      && (|m| == 2 ==> m[0].factType == SsoFact && m[1].factType == AuditLogFact)
      && (forall i :: 0 <= i < |m| ==> m[i].factValue == Supported)
  {
    var m := MatchedFactsOf(facts, c);
    var sso := FirstSupported(facts, SsoFact) && c.requireSso;
    var audit := FirstSupported(facts, AuditLogFact) && c.requireAuditLog;
    assert SsoFact != AuditLogFact;
    if sso && audit {
      assert m[0].factType == SsoFact && m[1].factType == AuditLogFact && |m| == 2;
    } else if sso {
      assert m[0].factType == SsoFact && |m| == 1;
    } else if audit {
      assert m[0].factType == AuditLogFact && |m| == 1;
    } else {
      assert m == [];
    }
  }

  /**
   * The summary opens with the category sentence; the fact-count sentence
   * follows only when facts are listed, the chunk sentence closes it only
   * when chunks were found; with neither it is the opening sentence alone.
   */
  lemma SummaryShape(solution: Solution, facts: seq<Fact>, category: string, c: Constraints,
                     chunks: Option<seq<HybridSearch.MatchedChunk>>)
    ensures var e := GenerateExplain(solution, facts, category, c, chunks);
            var opening := CategorySentence(e.categoryMatch);
      && (|e.matchedFacts| > 0 ==> StartsWith(e.summary, opening + FactsSentence(|e.matchedFacts|)))
      && (|e.matchedFacts| == 0 && (chunks.None? || |chunks.value| == 0) ==> e.summary == opening)
      && (chunks.Some? && |chunks.value| > 0 ==>
            |e.summary| >= |ChunksSentence(|chunks.value|)|
            && e.summary[|e.summary| - |ChunksSentence(|chunks.value|)|..] == ChunksSentence(|chunks.value|))
  {
    var e := GenerateExplain(solution, facts, category, c, chunks);
    SummaryParts(e.categoryMatch, |e.matchedFacts|, if chunks.Some? then |chunks.value| else 0);
  }

  /** Highlights: one per chunk for the first three, each the content or its first 100 characters and "...". */
  lemma HighlightsShape(solution: Solution, facts: seq<Fact>, category: string, c: Constraints,
                        chunks: seq<HybridSearch.MatchedChunk>)
    ensures var e := GenerateExplain(solution, facts, category, c, Some(chunks));
      && |e.relevanceHighlights| == (if |chunks| < MaxHighlights then |chunks| else MaxHighlights)
      && (forall i :: 0 <= i < |e.relevanceHighlights| ==>
            |e.relevanceHighlights[i]| <= HighlightLength + 3
            && (|chunks[i].content| <= HighlightLength ==> e.relevanceHighlights[i] == chunks[i].content))
      && |e.matchedChunks.value| <= MaxExplainChunks
  {
  }

  // --------------------------------------------------------------- Must filter

  /** Some fact of the solution (not necessarily the first) has the type and says "supported". */
  ghost predicate HasSupportedFact(facts: seq<Fact>, sid: string, factType: string) {
    exists f :: f in facts && f.solutionId == sid && f.factType == factType && f.factValue == Supported
  }

  /** Ids of the solutions with a supported fact of the type, in fact order. */
  function SupportedIds(facts: seq<Fact>, factType: string): (r: seq<string>)
    ensures forall sid :: sid in r <==> HasSupportedFact(facts, sid, factType)
  {
    if |facts| == 0 then []
    else
      assert facts == [facts[0]] + facts[1..];
      var f := facts[0];
      (if f.factType == factType && f.factValue == Supported then [f.solutionId] else [])
      + SupportedIds(facts[1..], factType)
  }

  /** Array.prototype.filter keeping solutions whose id is listed. */
  function KeepListed(solutions: seq<Solution>, ids: seq<string>): (r: seq<Solution>)
    ensures forall s :: s in r <==> s in solutions && s.id in ids
    ensures |r| <= |solutions|
  {
    if |solutions| == 0 then []
    else
      assert solutions == [solutions[0]] + solutions[1..];
      (if solutions[0].id in ids then [solutions[0]] else []) + KeepListed(solutions[1..], ids)
  }

  /** The Must filter: applied for each required fact type; no constraints object means no filtering. */
  function MustFilter(solutions: seq<Solution>, facts: seq<Fact>, c: Option<Constraints>): (r: seq<Solution>)
    ensures |r| <= |solutions|
    ensures forall s :: s in r <==>
      && s in solutions
      && (c.Some? && c.value.requireSso ==> HasSupportedFact(facts, s.id, SsoFact))
      && (c.Some? && c.value.requireAuditLog ==> HasSupportedFact(facts, s.id, AuditLogFact))
  {
    var afterSso := if c.Some? && c.value.requireSso then KeepListed(solutions, SupportedIds(facts, SsoFact)) else solutions;
    if c.Some? && c.value.requireAuditLog then KeepListed(afterSso, SupportedIds(facts, AuditLogFact)) else afterSso
  }

  /**
   * The filter accepts any supported sso fact while the score reads only the
   * first one: a solution whose first sso fact is "unsupported" and a later
   * one "supported" passes the filter yet earns no SSO points.
   */
  lemma FilterAndScoreDisagree()
    ensures var s := Solution("s", "n", "expense");
            var facts := [Fact("s", SsoFact, "unsupported"), Fact("s", SsoFact, Supported)];
            var c := Constraints(true, false);
      && MustFilter([s], facts, Some(c)) == [s]
      && CalculateScore(s, facts, "expense", c, None).breakdown.ssoMatch == 0
  {
    var s := Solution("s", "n", "expense");
    var facts := [Fact("s", SsoFact, "unsupported"), Fact("s", SsoFact, Supported)];
    assert facts[1] in facts;
    assert HasSupportedFact(facts, "s", SsoFact);
    assert s in MustFilter([s], facts, Some(Constraints(true, false)));
  }

  // ------------------------------------------------------- scoring and ranking

  datatype Candidate = Candidate(solution: Solution, facts: seq<Fact>, scored: Scored, explain: Explain)

  datatype RankedResult = RankedResult(solutionId: string, rank: nat, score: real, breakdown: Breakdown, explain: Explain)

  /** What the hybrid call produced: it raised, or it merged these retrieval outcomes. */
  datatype Retrieval =
    | Threw
    | Returned(lexical: Option<seq<HybridSearch.LexicalHit>>, vector: Option<seq<HybridSearch.VectorHit>>)

  datatype SearchRun = SearchRun(totalCandidates: nat, results: seq<RankedResult>)

  function CandidateScore(c: Candidate): real { c.scored.score }

  /** The facts of one solution, in fact order. */
  function FactsOf(facts: seq<Fact>, sid: string): (r: seq<Fact>)
    ensures forall f :: f in r <==> f in facts && f.solutionId == sid
  {
    if |facts| == 0 then []
    else
      assert facts == [facts[0]] + facts[1..];
      (if facts[0].solutionId == sid then [facts[0]] else []) + FactsOf(facts[1..], sid)
  }

  /** Map lookup on a Map built from [id, entry] pairs: the last pair for the id wins. */
  function Lookup(results: seq<HybridSearch.SearchResult>, sid: string): (r: Option<HybridSearch.SearchResult>)
    ensures r.None? <==> forall j :: 0 <= j < |results| ==> results[j].solutionId != sid
    ensures r.Some? ==> r.value in results && r.value.solutionId == sid
    decreases |results|
  {
    if |results| == 0 then None
    else if results[|results| - 1].solutionId == sid then Some(results[|results| - 1])
    else
      var r := Lookup(results[..|results| - 1], sid);
      assert r.Some? ==> r.value in results by {
        if r.Some? { assert results == results[..|results| - 1] + [results[|results| - 1]]; }
      }
      r
  }

  /** The hybrid entries the action sees. */
  function HybridResults(filtered: seq<Solution>, retrieval: Retrieval): seq<HybridSearch.SearchResult> {
    match retrieval
    case Threw => []
    case Returned(lex, vec) =>
      HybridSearch.Search(Ids(filtered), Some(HybridCandidateLimit), lex, vec)
  }

  function Ids(solutions: seq<Solution>): (r: seq<string>)
    ensures |r| == |solutions| && forall i :: 0 <= i < |r| ==> r[i] == solutions[i].id
  {
    seq(|solutions|, i requires 0 <= i < |solutions| => solutions[i].id)
  }

  function ScoreCandidate(s: Solution, facts: seq<Fact>, category: string, c: Constraints,
                          results: seq<HybridSearch.SearchResult>): Candidate {
    var own := FactsOf(facts, s.id);
    var h := Lookup(results, s.id);
    Candidate(s, own, CalculateScore(s, own, category, c, h),
              GenerateExplain(s, own, category, c, if h.Some? then Some(h.value.matchedChunks) else None))
  }

  function ScoreAll(filtered: seq<Solution>, facts: seq<Fact>, category: string, c: Constraints,
                    results: seq<HybridSearch.SearchResult>): (r: seq<Candidate>)
    ensures |r| == |filtered|
    ensures forall i :: 0 <= i < |r| ==> r[i] == ScoreCandidate(filtered[i], facts, category, c, results)
    ensures forall i :: 0 <= i < |r| ==> r[i].solution == filtered[i]
  {
    seq(|filtered|, i requires 0 <= i < |filtered| => ScoreCandidate(filtered[i], facts, category, c, results))
  }

  /** Each kept candidate with its 1-based position as rank. */
  function Positions(top: seq<Candidate>): (r: seq<RankedResult>)
    ensures |r| == |top|
    ensures forall i :: 0 <= i < |r| ==> r[i].rank == i + 1 && r[i].solutionId == top[i].solution.id
    ensures forall i :: 0 <= i < |r| ==> r[i].score == top[i].scored.score && r[i].breakdown == top[i].scored.breakdown
    ensures forall i :: 0 <= i < |r| ==> r[i].explain == top[i].explain
  {
    seq(|top|, i requires 0 <= i < |top| => RankedResult(top[i].solution.id, i + 1, top[i].scored.score,
                                                          top[i].scored.breakdown, top[i].explain))
  }

  /** Sort by score, best first, keep five, number from 1. */
  function Rank(candidates: seq<Candidate>): seq<RankedResult> {
    Positions(StableSort.Take(StableSort.Sort(candidates, CandidateScore), TopResults))
  }

  /**
   * calculateScore reads `input.constraints.` without `?.` only for a
   * candidate whose first sso or audit_log fact is "supported", or that has a
   * hybrid entry; generateExplain reads it under the same supported-fact
   * conditions, after calculateScore has already run for that candidate.
   */
  predicate ReadsConstraints(s: Solution, facts: seq<Fact>, results: seq<HybridSearch.SearchResult>) {
    var own := FactsOf(facts, s.id);
    FirstSupported(own, SsoFact) || FirstSupported(own, AuditLogFact) || Lookup(results, s.id).Some?
  }

  /** What a run without a constraints object scores with; ConstraintsUnread shows the choice is never observed. */
  const Unread: Constraints := Constraints(false, false)

  /**
   * The pure part of runSearch. None when scoring dereferences a missing
   * constraints object, that is when the diagnosis has none and some
   * candidate reads it; otherwise the ranked run.
   */
  function RunSearch(input: DiagnosisInput, solutions: seq<Solution>, facts: seq<Fact>, retrieval: Retrieval): (r: Option<SearchRun>)
    ensures var filtered := MustFilter(solutions, facts, input.constraints);
      r.None? <==> input.constraints.None?
                   && exists i :: 0 <= i < |filtered| && ReadsConstraints(filtered[i], facts, HybridResults(filtered, retrieval))
    ensures r.Some? ==> r.value.totalCandidates == |MustFilter(solutions, facts, input.constraints)|
    ensures r.Some? ==> |r.value.results| == Min(|MustFilter(solutions, facts, input.constraints)|, TopResults)
  {
    var filtered := MustFilter(solutions, facts, input.constraints);
    var results := HybridResults(filtered, retrieval);
    if input.constraints.None? && exists i :: 0 <= i < |filtered| && ReadsConstraints(filtered[i], facts, results) then None
    else
      var scored := ScoreAll(filtered, facts, input.category, input.constraints.GetOr(Unread), results);
      RankFacts(scored);
      Some(SearchRun(|filtered|, Rank(scored)))
  }

  function Min(a: nat, b: nat): nat { if a < b then a else b }

  /**
   * A candidate that does not read the constraints scores and is explained
   * the same whatever they are, so the run without a constraints object is
   * what the source computes.
   */
  lemma ConstraintsUnread(s: Solution, facts: seq<Fact>, category: string, c: Constraints, d: Constraints,
                          results: seq<HybridSearch.SearchResult>)
    requires !ReadsConstraints(s, facts, results)
    ensures ScoreCandidate(s, facts, category, c, results) == ScoreCandidate(s, facts, category, d, results)
  {
  }

  /** A diagnosis without constraints and a candidate with no facts and no hybrid entry: ranked, with 50 + 30. */
  lemma NoConstraintsStillRanks()
    ensures var r := RunSearch(DiagnosisInput("expense", None), [Solution("s", "n", "expense")], [], Threw);
      r.Some? && r.value.totalCandidates == 1 && |r.value.results| == 1
      && r.value.results[0].solutionId == "s" && r.value.results[0].score == 80.0
  {
    var s := Solution("s", "n", "expense");
    assert MustFilter([s], [], None) == [s];
    assert !ReadsConstraints(s, [], []);
  }

  /** Without constraints, a candidate whose first sso fact is supported makes the run fail. */
  lemma SupportedFactWithoutConstraintsFails()
    ensures RunSearch(DiagnosisInput("expense", None), [Solution("s", "n", "expense")],
                      [Fact("s", SsoFact, Supported)], Threw).None?
  {
    var s := Solution("s", "n", "expense");
    var facts := [Fact("s", SsoFact, Supported)];
    assert MustFilter([s], facts, None) == [s];
    assert FactsOf(facts, "s") == facts;
    assert ReadsConstraints(s, facts, []);
  }

  /**
   * The ranking: min(5, n) results, ranks 1, 2, 3, ... in order, scores
   * non-increasing, and no candidate left out scores above one kept.
   */
  lemma RankFacts(candidates: seq<Candidate>)
    ensures var r := Rank(candidates); var sorted := StableSort.Sort(candidates, CandidateScore);
      && |r| == (if |candidates| < TopResults then |candidates| else TopResults)
      && (forall i :: 0 <= i < |r| ==> r[i].rank == i + 1)
      && (forall i, j :: 0 <= i < j < |r| ==> r[i].score >= r[j].score)
      && (forall i, j :: 0 <= i < |r| <= j < |sorted| ==> r[i].score >= sorted[j].scored.score)
  {
    var sorted := StableSort.Sort(candidates, CandidateScore);
    StableSort.SortSorted(candidates, CandidateScore);
    StableSort.TakeKeepsHighest(sorted, CandidateScore, TopResults);
    var top := StableSort.Take(sorted, TopResults);
    assert forall i :: 0 <= i < |top| ==> top[i] == sorted[i];
  }

  /** Every ranked result is one of the candidates, with its score. */
  lemma RankedAreCandidates(candidates: seq<Candidate>)
    ensures var r := Rank(candidates);
      forall i :: 0 <= i < |r| ==> exists k :: (0 <= k < |candidates|
        && candidates[k].solution.id == r[i].solutionId && candidates[k].scored.score == r[i].score)
  {
    var r := Rank(candidates);
    forall i | 0 <= i < |r| ensures exists k :: (0 <= k < |candidates|
        && candidates[k].solution.id == r[i].solutionId && candidates[k].scored.score == r[i].score)
    {
      var k := RankedSource(candidates, i);
    }
  }

  /** The candidate a ranked result comes from. */
  lemma RankedSource(candidates: seq<Candidate>, i: nat) returns (k: nat)
    requires i < |Rank(candidates)|
    ensures k < |candidates|
    ensures candidates[k].solution.id == Rank(candidates)[i].solutionId
    ensures candidates[k].scored.score == Rank(candidates)[i].score
  {
    var sorted := StableSort.Sort(candidates, CandidateScore);
    var top := StableSort.Take(sorted, TopResults);
    assert top[i] == sorted[i];
    assert sorted[i] in multiset(candidates);
    k :| 0 <= k < |candidates| && candidates[k] == top[i];
  }

  /**
   * Ties keep input order: the ranking is the top five of any sorted
   * rearrangement that keeps equal-score candidates in their input order,
   * whatever their ids.
   */
  lemma RankIsStableTopFive(candidates: seq<Candidate>, sorted: seq<Candidate>)
    requires StableSort.SortedDesc(sorted, CandidateScore)
    requires forall k :: StableSort.WithKey(sorted, CandidateScore, k) == StableSort.WithKey(candidates, CandidateScore, k)
    ensures Rank(candidates) == Positions(StableSort.Take(sorted, TopResults))
  {
    StableSort.StableSortIsSort(candidates, sorted, CandidateScore);
  }

  /** Each result names one of the solutions, one that has every fact the constraints require. */
  ghost predicate PassedFilter(results: seq<RankedResult>, solutions: seq<Solution>, facts: seq<Fact>, c: Option<Constraints>) {
    forall i :: 0 <= i < |results| ==> PassingId(results[i].solutionId, solutions, facts, c)
  }

  /** The id is that of one of the solutions, one that has every fact the constraints require. */
  ghost predicate PassingId(id: string, solutions: seq<Solution>, facts: seq<Fact>, c: Option<Constraints>) {
    exists s :: s in solutions && s.id == id
      && (c.Some? && c.value.requireSso ==> HasSupportedFact(facts, s.id, SsoFact))
      && (c.Some? && c.value.requireAuditLog ==> HasSupportedFact(facts, s.id, AuditLogFact))
  }

  /** Every ranked result passed the Must filter. */
  lemma RankedPassFilter(input: DiagnosisInput, solutions: seq<Solution>, facts: seq<Fact>, retrieval: Retrieval)
    requires RunSearch(input, solutions, facts, retrieval).Some?
    ensures PassedFilter(RunSearch(input, solutions, facts, retrieval).value.results, solutions, facts, input.constraints)
  {
    var filtered := MustFilter(solutions, facts, input.constraints);
    var c := input.constraints.GetOr(Unread);
    var results := HybridResults(filtered, retrieval);
    RankedFromFilter(solutions, facts, input.constraints, input.category, c, results);
    assert RunSearch(input, solutions, facts, retrieval).value.results
      == Rank(ScoreAll(filtered, facts, input.category, c, results));
  }

  /** Ranking the filtered solutions only ever yields solutions that passed the filter. */
  lemma RankedFromFilter(solutions: seq<Solution>, facts: seq<Fact>, cons: Option<Constraints>, category: string,
                         c: Constraints, results: seq<HybridSearch.SearchResult>)
    ensures PassedFilter(Rank(ScoreAll(MustFilter(solutions, facts, cons), facts, category, c, results)),
                         solutions, facts, cons)
  {
    var filtered := MustFilter(solutions, facts, cons);
    var cands := ScoreAll(filtered, facts, category, c, results);
    var r := Rank(cands);
    forall i | 0 <= i < |r| ensures PassingId(r[i].solutionId, solutions, facts, cons) {
      var k := RankedSource(cands, i);
      assert filtered[k] in filtered;
    }
  }

  // ------------------------------------------------- hybrid vs rule-based path

  /** When the hybrid call raises, every candidate is scored by the rules, within [50, 100]. */
  lemma ThrowMeansRuleBased(filtered: seq<Solution>, facts: seq<Fact>, category: string, c: Constraints)
    ensures var cands := ScoreAll(filtered, facts, category, c, HybridResults(filtered, Threw));
      forall i :: 0 <= i < |cands| ==>
        cands[i].scored.breakdown.relevanceScore.None? && 50.0 <= cands[i].scored.score <= 100.0
  {
  }

  ghost predicate NoRepeats(xs: seq<string>) {
    forall i, j :: 0 <= i < j < |xs| ==> xs[i] != xs[j]
  }

  /** Removes every occurrence of y. */
  function Without(xs: seq<string>, y: string): (r: seq<string>)
    ensures forall x :: x in r <==> x in xs && x != y
    ensures NoRepeats(xs) ==> NoRepeats(r)
  {
    if |xs| == 0 then []
    else
      assert xs == [xs[0]] + xs[1..];
      var rest := Without(xs[1..], y);
      if xs[0] == y then rest
      else
        assert NoRepeats(xs) ==> xs[0] !in rest;
        [xs[0]] + rest
  }

  lemma WithoutAbsent(xs: seq<string>, y: string)
    requires y !in xs
    ensures Without(xs, y) == xs
  {
  }

  /** Without repeats, removing one value shortens the list by at most one. */
  lemma {:induction false} WithoutLength(xs: seq<string>, y: string)
    requires NoRepeats(xs)
    ensures |Without(xs, y)| >= |xs| - 1
    decreases |xs|
  {
    if |xs| > 0 {
      if xs[0] == y {
        assert xs[0] !in xs[1..];
        WithoutAbsent(xs[1..], y);
      } else {
        WithoutLength(xs[1..], y);
      }
    }
  }

  /** Pigeonhole: more distinct xs than ys leaves some x outside ys. */
  lemma {:induction false} Pigeonhole(xs: seq<string>, ys: seq<string>) returns (x: string)
    requires NoRepeats(xs)
    requires |xs| > |ys|
    ensures x in xs && x !in ys
    decreases |ys|
  {
    if |ys| == 0 {
      x := xs[0];
    } else {
      var y := ys[|ys| - 1];
      WithoutLength(xs, y);
      x := Pigeonhole(Without(xs, y), ys[..|ys| - 1]);
      assert ys == ys[..|ys| - 1] + [y];
    }
  }

  /**
   * The hybrid search keeps at most 50 entries, so with more than 50
   * distinct candidates some candidate finds no entry and is scored by the
   * rules, while others may be scored by the hybrid formula: one ranking
   * mixes the two scales.
   */
  lemma BeyondLimitFallsBack(filtered: seq<Solution>, facts: seq<Fact>, category: string, c: Constraints,
                             lexical: Option<seq<HybridSearch.LexicalHit>>, vector: Option<seq<HybridSearch.VectorHit>>)
    requires |HybridSearch.Distinct(Ids(filtered))| > HybridCandidateLimit
    ensures var cands := ScoreAll(filtered, facts, category, c, HybridResults(filtered, Returned(lexical, vector)));
      exists i :: 0 <= i < |cands| && cands[i].scored.breakdown.relevanceScore.None?
        && 50.0 <= cands[i].scored.score <= 100.0
  {
    var results := HybridResults(filtered, Returned(lexical, vector));
    var i := MissingCandidate(filtered, lexical, vector);
    var cands := ScoreAll(filtered, facts, category, c, results);
    assert Lookup(results, filtered[i].id).None?;
    NoEntryMeansRules(filtered[i], facts, category, c, results);
    assert cands[i] == ScoreCandidate(filtered[i], facts, category, c, results);
  }

  /** A candidate without a hybrid entry is scored by the rules alone. */
  lemma NoEntryMeansRules(s: Solution, facts: seq<Fact>, category: string, c: Constraints,
                          results: seq<HybridSearch.SearchResult>)
    requires Lookup(results, s.id).None?
    ensures var sc := ScoreCandidate(s, facts, category, c, results).scored;
      sc.breakdown.relevanceScore.None? && 50.0 <= sc.score <= 100.0
  {
  }

  /** With more distinct candidates than the search keeps, one candidate has no entry. */
  lemma MissingCandidate(filtered: seq<Solution>, lexical: Option<seq<HybridSearch.LexicalHit>>,
                         vector: Option<seq<HybridSearch.VectorHit>>) returns (i: nat)
    requires |HybridSearch.Distinct(Ids(filtered))| > HybridCandidateLimit
    ensures i < |filtered|
    ensures forall j :: 0 <= j < |HybridResults(filtered, Returned(lexical, vector))| ==>
      HybridResults(filtered, Returned(lexical, vector))[j].solutionId != filtered[i].id
  {
    var results := HybridResults(filtered, Returned(lexical, vector));
    HybridSearch.SearchFacts(Ids(filtered), Some(HybridCandidateLimit), lexical, vector);
    var resultIds := seq(|results|, j requires 0 <= j < |results| => results[j].solutionId);
    var x := Pigeonhole(HybridSearch.Distinct(Ids(filtered)), resultIds);
    assert x in Ids(filtered);
    i :| 0 <= i < |filtered| && Ids(filtered)[i] == x;
    forall j | 0 <= j < |results| ensures results[j].solutionId != x {
      assert resultIds[j] == results[j].solutionId;
    }
  }

  /** A candidate with a hybrid entry is scored by the final-score formula on that entry. */
  lemma EntryMeansHybrid(s: Solution, facts: seq<Fact>, category: string, c: Constraints,
                         results: seq<HybridSearch.SearchResult>, h: HybridSearch.SearchResult)
    requires Lookup(results, s.id) == Some(h)
    ensures var cand := ScoreCandidate(s, facts, category, c, results);
      && cand.scored.breakdown.relevanceScore == Some(h.combinedScore)
      && cand.scored.score == Scoring.FinalScore(h.combinedScore, FactRatio(FactsOf(facts, s.id), c), s.category == category)
  {
  }

  /** When the requested ids fit in the limit, every requested id has an entry. */
  lemma EveryIdHasEntry(ids: seq<string>, lexical: Option<seq<HybridSearch.LexicalHit>>,
                        vector: Option<seq<HybridSearch.VectorHit>>, x: string)
    requires |HybridSearch.Distinct(ids)| <= HybridCandidateLimit
    requires x in ids
    ensures exists j :: (0 <= j < |HybridSearch.Search(ids, Some(HybridCandidateLimit), lexical, vector)|
      && HybridSearch.Search(ids, Some(HybridCandidateLimit), lexical, vector)[j].solutionId == x)
  {
    var merged := HybridSearch.MergeSearchResults(lexical.GetOr([]), vector.GetOr([]), ids);
    var results := HybridSearch.Search(ids, Some(HybridCandidateLimit), lexical, vector);
    WithinLimitKeepsAll(ids, lexical, vector);
    var k :| 0 <= k < |HybridSearch.Distinct(ids)| && HybridSearch.Distinct(ids)[k] == x;
    var j := StableSort.SortKeeps(merged, HybridSearch.ResultScore, merged[k]);
    assert results[j].solutionId == x;
  }

  /** Within the limit, the search keeps every merged entry, best first. */
  lemma WithinLimitKeepsAll(ids: seq<string>, lexical: Option<seq<HybridSearch.LexicalHit>>,
                            vector: Option<seq<HybridSearch.VectorHit>>)
    requires |HybridSearch.Distinct(ids)| <= HybridCandidateLimit
    requires |ids| > 0
    ensures HybridSearch.Search(ids, Some(HybridCandidateLimit), lexical, vector)
      == StableSort.Sort(HybridSearch.MergeSearchResults(lexical.GetOr([]), vector.GetOr([]), ids), HybridSearch.ResultScore)
  {
    var sorted := StableSort.Sort(HybridSearch.MergeSearchResults(lexical.GetOr([]), vector.GetOr([]), ids), HybridSearch.ResultScore);
    assert sorted[..|sorted|] == sorted;
  }

  /**
   * With both retrievals failed but the call returning, candidates within
   * the limit still take the hybrid path, with relevance 0.
   */
  lemma FailedRetrievalsStillHybrid(filtered: seq<Solution>, facts: seq<Fact>, category: string, c: Constraints)
    requires |HybridSearch.Distinct(Ids(filtered))| <= HybridCandidateLimit
    ensures var cands := ScoreAll(filtered, facts, category, c, HybridResults(filtered, Returned(None, None)));
      forall i :: 0 <= i < |cands| ==>
        cands[i].scored.breakdown.relevanceScore == Some(0.0)
        && cands[i].scored.score == Scoring.FinalScore(0.0, FactRatio(FactsOf(facts, filtered[i].id), c),
                                                       filtered[i].category == category)
  {
    var results := HybridResults(filtered, Returned(None, None));
    forall i | 0 <= i < |filtered|
      ensures ScoreCandidate(filtered[i], facts, category, c, results).scored.breakdown.relevanceScore == Some(0.0)
      ensures ScoreCandidate(filtered[i], facts, category, c, results).scored.score
              == Scoring.FinalScore(0.0, FactRatio(FactsOf(facts, filtered[i].id), c), filtered[i].category == category)
    {
      FailedRetrievalCandidate(filtered, facts, category, c, i);
    }
  }

  lemma FailedRetrievalCandidate(filtered: seq<Solution>, facts: seq<Fact>, category: string, c: Constraints, i: nat)
    requires |HybridSearch.Distinct(Ids(filtered))| <= HybridCandidateLimit
    requires i < |filtered|
    ensures var results := HybridResults(filtered, Returned(None, None));
      var sc := ScoreCandidate(filtered[i], facts, category, c, results).scored;
      sc.breakdown.relevanceScore == Some(0.0)
      && sc.score == Scoring.FinalScore(0.0, FactRatio(FactsOf(facts, filtered[i].id), c), filtered[i].category == category)
  {
    var ids := Ids(filtered);
    var results := HybridResults(filtered, Returned(None, None));
    HybridSearch.BothChannelsFailed(ids, Some(HybridCandidateLimit));
    assert ids[i] in ids;
    EveryIdHasEntry(ids, None, None, ids[i]);
    var h := Lookup(results, filtered[i].id);
    assert h.Some?;
    EntryMeansHybrid(filtered[i], facts, category, c, results, h.value);
  }

  // ------------------------------------------------- the query runSearch builds

  /**
   * The `diagnosis_inputs` row that getDiagnosisInput returns: its category,
   * its problems, and its text columns by column name. The diagnosis is saved
   * with its free text under the column `problem_free_text`.
   */
  datatype DiagnosisRow = DiagnosisRow(category: string, problems: seq<string>, columns: map<string, string>)

  /** The table's column names are snake case: they hold no upper-case letter. */
  predicate SnakeCase(name: string) {
    forall i :: 0 <= i < |name| ==> !('A' <= name[i] <= 'Z')
  }

  predicate TableRow(row: DiagnosisRow) {
    forall name :: name in row.columns ==> SnakeCase(name)
  }

  /** A property of the row object: undefined unless the row has that column. */
  function Column(row: DiagnosisRow, name: string): (r: Option<string>)
    ensures r.Some? <==> name in row.columns
    ensures r.Some? ==> r.value == row.columns[name]
  {
    if name in row.columns then Some(row.columns[name]) else None
  }

  /** runSearch hands the row to generateSearchQuery, which reads the free text as `problemFreeText`. */
  function QueryAsWritten(row: DiagnosisRow): string {
    HybridSearch.SearchQuery(row.category, row.problems, Column(row, "problemFreeText"))
  }

  /** The query with the free text read from the column it is stored under. */
  function Query(row: DiagnosisRow): string {
    HybridSearch.SearchQuery(row.category, row.problems, Column(row, "problem_free_text"))
  }

  /** No row of the table has a `problemFreeText` property, so the free text never reaches the query. */
  lemma QueryAsWrittenDropsFreeText(row: DiagnosisRow)
    requires TableRow(row)
    ensures QueryAsWritten(row) == HybridSearch.SearchQuery(row.category, row.problems, None)
  {
    assert !SnakeCase("problemFreeText") by {
      assert "problemFreeText"[7] == 'F';
    }
  }

  /** A saved free text that the query as written leaves out and the corrected query keeps. */
  lemma FreeTextLostExample()
    ensures var row := DiagnosisRow("workflow", [], map["problem_free_text" := "紙の申請"]);
      TableRow(row)
      && QueryAsWritten(row) == "ワークフロー 申請 承認"
      && Query(row) == "ワークフロー 申請 承認 紙の申請"
  {
    var row := DiagnosisRow("workflow", [], map["problem_free_text" := "紙の申請"]);
    assert SnakeCase("problem_free_text");
    QueryAsWrittenDropsFreeText(row);
    HybridSearch.SearchQueryShape("workflow", [], None);
    HybridSearch.SearchQueryShape("workflow", [], Some("紙の申請"));
  }

  /** The corrected query ends with the stored free text whenever it is not empty. */
  lemma QueryCarriesFreeText(row: DiagnosisRow)
    ensures Query(row)
      == HybridSearch.CategoryKeywords(row.category) + Prefixed(row.problems, " ")
         + (if "problem_free_text" in row.columns && row.columns["problem_free_text"] != ""
            then " " + row.columns["problem_free_text"] else "")
  {
    HybridSearch.SearchQueryShape(row.category, row.problems, Column(row, "problem_free_text"));
  }
}
