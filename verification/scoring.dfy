/**
 * Score primitives of the hybrid search: lexical-score normalisation,
 * cosine-distance to similarity, the fixed 0.4/0.6 relevance blend, the
 * fact-match ratio and the clamped 0-100 final score. JavaScript numbers
 * are modelled as reals.
 */
module Scoring {

  const Bm25Weight: real := 0.4
  const VectorWeight: real := 0.6
  const RelevanceWeight: real := 0.5
  const FactMatchWeight: real := 0.5
  const CategoryBonus: real := 10.0

  function Min(a: real, b: real): real { if a <= b then a else b }
  function Max(a: real, b: real): real { if a >= b then a else b }

  /**
   * Relevance of a lexical and a vector score. The weights sum to one, so
   * the blend lies between its two inputs.
   */
  function RelevanceScore(bm25: real, vector: real): (r: real)
    ensures Min(bm25, vector) <= r <= Max(bm25, vector)
    ensures bm25 == vector ==> r == bm25
  {
    bm25 * Bm25Weight + vector * VectorWeight
  }

  /** Both weights are positive, so the blend grows with each input. */
  lemma RelevanceMonotone(b1: real, v1: real, b2: real, v2: real)
    requires b1 <= b2 && v1 <= v2
    ensures RelevanceScore(b1, v1) <= RelevanceScore(b2, v2)
    ensures b1 < b2 || v1 < v2 ==> RelevanceScore(b1, v1) < RelevanceScore(b2, v2)
  {
  }

  /** Inputs in [0, 1] give a relevance in [0, 1]; the documented sample points. */
  lemma RelevanceSamples(bm25: real, vector: real)
    requires 0.0 <= bm25 <= 1.0 && 0.0 <= vector <= 1.0
    ensures 0.0 <= RelevanceScore(bm25, vector) <= 1.0
    ensures RelevanceScore(1.0, 1.0) == 1.0 && RelevanceScore(0.0, 0.0) == 0.0
    ensures RelevanceScore(1.0, 0.0) == 0.4 && RelevanceScore(0.0, 1.0) == 0.6
    ensures RelevanceScore(0.5, 0.5) == 0.5
  {
  }

  /** The weighted score before the category bonus and the clamp. */
  function WeightedScore(relevance: real, factMatch: real): real {
    (relevance * RelevanceWeight + factMatch * FactMatchWeight) * 100.0
  }

  /** Math.min(Math.max(x, 0), 100). */
  function Clamp100(x: real): (r: real)
    ensures 0.0 <= r <= 100.0
    ensures 0.0 <= x <= 100.0 ==> r == x
  {
    Min(Max(x, 0.0), 100.0)
  }

  /**
   * Final 0-100 score: weighted relevance and fact match, plus 10 for a
   * category match, clamped. The range holds for every real input.
   */
  function FinalScore(relevance: real, factMatch: real, categoryMatch: bool): (r: real)
    ensures 0.0 <= r <= 100.0
    ensures var raw := WeightedScore(relevance, factMatch) + (if categoryMatch then CategoryBonus else 0.0);
      0.0 <= raw <= 100.0 ==> r == raw
  {
    var score := WeightedScore(relevance, factMatch);
    var withBonus := if categoryMatch then score + CategoryBonus else score;
    Clamp100(withBonus)
  }

  /** Documented corner values: nothing scores 0, everything scores 100 (110 before the clamp). */
  lemma FinalScoreCorners()
    ensures FinalScore(0.0, 0.0, false) == 0.0
    ensures FinalScore(1.0, 1.0, true) == 100.0
    ensures FinalScore(1.0, 1.0, false) == 100.0
  {
  }

  /** While the clamp is inactive, a category match adds exactly 10. */
  lemma CategoryBonusExact(relevance: real, factMatch: real)
    requires 0.0 <= WeightedScore(relevance, factMatch) <= 90.0
    ensures FinalScore(relevance, factMatch, true) == FinalScore(relevance, factMatch, false) + 10.0
  {
  }

  /** The final score never decreases when relevance, fact match or the category flag increase. */
  lemma FinalScoreMonotone(r1: real, f1: real, c1: bool, r2: real, f2: real, c2: bool)
    requires r1 <= r2 && f1 <= f2 && (c1 ==> c2)
    ensures FinalScore(r1, f1, c1) <= FinalScore(r2, f2, c2)
  {
  }

  /**
   * Ratio of matched to required constraints; no required constraint counts
   * as fully matched.
   */
  function FactMatchScore(matched: real, totalRequired: real): (r: real)
    ensures totalRequired == 0.0 ==> r == 1.0
    ensures totalRequired != 0.0 ==> r * totalRequired == matched
    ensures 0.0 <= matched <= totalRequired && totalRequired != 0.0 ==> 0.0 <= r <= 1.0
  {
    if totalRequired == 0.0 then 1.0 else matched / totalRequired
  }

  lemma FactMatchSamples()
    ensures FactMatchScore(0.0, 0.0) == 1.0
    ensures FactMatchScore(2.0, 2.0) == 1.0
    ensures FactMatchScore(1.0, 2.0) == 0.5
  {
  }

  /**
   * Lexical score scaled by the batch maximum and capped at 1; a maximum
   * that is not positive yields 0.
   */
  function NormalizeBm25(score: real, maxScore: real): (r: real)
    ensures maxScore <= 0.0 ==> r == 0.0
    ensures r <= 1.0
    ensures maxScore > 0.0 && score >= 0.0 ==> 0.0 <= r
    ensures maxScore > 0.0 && score >= maxScore ==> r == 1.0
    ensures maxScore > 0.0 && score <= maxScore ==> r * maxScore == score
  {
    if maxScore <= 0.0 then 0.0
    else
      var q := score / maxScore;
      assert q * maxScore == score;
      assert score >= maxScore ==> q >= 1.0 by {
        if q < 1.0 { assert q * maxScore < 1.0 * maxScore; }
      }
      Min(q, 1.0)
  }

  /** Normalisation against a fixed positive maximum preserves order. */
  lemma NormalizeMonotone(s1: real, s2: real, maxScore: real)
    requires s1 <= s2
    ensures NormalizeBm25(s1, maxScore) <= NormalizeBm25(s2, maxScore)
  {
    if maxScore > 0.0 {
      assert s1 / maxScore <= s2 / maxScore;
    }
  }

  /** Cosine distance in [0, 2] to similarity: 1 - distance, floored at 0. */
  function DistanceToSimilarity(distance: real): (r: real)
    ensures r >= 0.0
    ensures distance >= 0.0 ==> r <= 1.0
    ensures distance >= 1.0 ==> r == 0.0
    ensures distance <= 1.0 ==> r + distance == 1.0
  {
    Max(1.0 - distance, 0.0)
  }

  /** Closer vectors are never less similar. */
  lemma SimilarityAntitone(d1: real, d2: real)
    requires d1 <= d2
    ensures DistanceToSimilarity(d1) >= DistanceToSimilarity(d2)
  {
  }

  lemma SimilaritySamples()
    ensures DistanceToSimilarity(0.0) == 1.0
    ensures DistanceToSimilarity(2.0) == 0.0
    ensures DistanceToSimilarity(0.25) == 0.75
  {
  }
}
