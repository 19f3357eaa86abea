/**
 * Hybrid search: merges the hits of the lexical (ts_rank) and vector
 * (pgvector cosine distance) retrievals by chunk id, rolls the chunks up
 * per solution (maximum of each signal, top 3 chunks by combined score),
 * then sorts the solutions and cuts the list at the limit.
 *
 * The two retrievals and the embedding call are inputs: a retrieval that
 * failed (RPC error or, for the vector side, an embedding that threw) is
 * `None` and contributes no hits, exactly as the source substitutes [].
 */
module HybridSearch {
  import opened Nullable
  import opened Text
  import Scoring
  import StableSort

  const DefaultLimit: int := 5
  const MaxChunksPerSolution: nat := 3
  /** Floor of the batch maximum rank, so normalisation never divides by zero. */
  const MinBm25Rank: real := 0.001

  datatype LexicalHit = LexicalHit(
    chunkId: string, solutionId: string, docType: string, content: string,
    sourceUrl: Option<string>, rank: real)

  datatype VectorHit = VectorHit(
    chunkId: string, solutionId: string, docType: string, content: string,
    sourceUrl: Option<string>, distance: real)

  /** A chunk in the merged table, carrying both channel scores. */
  datatype ChunkEntry = ChunkEntry(
    chunkId: string, solutionId: string, docType: string, content: string,
    sourceUrl: Option<string>, bm25Score: real, vectorScore: real)

  datatype MatchedChunk = MatchedChunk(
    chunkId: string, solutionId: string, docType: string, content: string,
    sourceUrl: Option<string>, bm25Score: real, vectorScore: real, combinedScore: real)

  /** Per-solution signal. */
  datatype SearchResult = SearchResult(
    solutionId: string, bm25Score: real, vectorScore: real, combinedScore: real,
    matchedChunks: seq<MatchedChunk>)

  function CombinedOf(c: MatchedChunk): real { c.combinedScore }
  function ResultScore(r: SearchResult): real { r.combinedScore }

  // ---------------------------------------------------------------- chunk table

  /** Math.max(...ranks, 0.001). */
  function MaxRank(hits: seq<LexicalHit>): (m: real)
    ensures m >= MinBm25Rank
    ensures forall i :: 0 <= i < |hits| ==> hits[i].rank <= m
    ensures m == MinBm25Rank || exists i :: 0 <= i < |hits| && hits[i].rank == m
  {
    if |hits| == 0 then MinBm25Rank
    else
      var rest := MaxRank(hits[1..]);
      assert rest != MinBm25Rank ==> exists i :: 0 <= i < |hits| && hits[i].rank == rest by {
        if rest != MinBm25Rank {
          var j :| 0 <= j < |hits[1..]| && hits[1..][j].rank == rest;
          assert hits[j + 1].rank == rest;
        }
      }
      Scoring.Max(hits[0].rank, rest)
  }

  function LexicalIds(hits: seq<LexicalHit>): set<string> {
    set h | h in hits :: h.chunkId
  }

  function VectorIds(hits: seq<VectorHit>): set<string> {
    set h | h in hits :: h.chunkId
  }

  ghost predicate DistinctChunkIds(m: seq<ChunkEntry>) {
    forall i, j :: 0 <= i < j < |m| ==> m[i].chunkId != m[j].chunkId
  }

  function TableIds(m: seq<ChunkEntry>): set<string> {
    set e | e in m :: e.chunkId
  }

  /** Map.get on the table: the position of the chunk id, if present. */
  function FindChunk(m: seq<ChunkEntry>, id: string): (r: Option<nat>)
    ensures r.Some? ==> r.value < |m| && m[r.value].chunkId == id
    ensures r.None? <==> id !in TableIds(m)
  {
    if |m| == 0 then None
    else if m[0].chunkId == id then Some(0)
    else
      assert TableIds(m) == {m[0].chunkId} + TableIds(m[1..]) by {
        assert m == [m[0]] + m[1..];
      }
      match FindChunk(m[1..], id)
      case None => None
      case Some(i) => Some(i + 1)
  }

  /** chunkMap.set for a lexical hit: a Map keeps the first insertion's position and takes the new value. */
  function PutLexical(m: seq<ChunkEntry>, h: LexicalHit, maxRank: real): seq<ChunkEntry> {
    match FindChunk(m, h.chunkId)
    case Some(i) => m[i := LexicalEntry(h, maxRank)]
    case None => m + [LexicalEntry(h, maxRank)]
  }

  /** The entry a lexical hit writes: its normalised rank and vector score 0. */
  function LexicalEntry(h: LexicalHit, maxRank: real): ChunkEntry {
    ChunkEntry(h.chunkId, h.solutionId, h.docType, h.content, h.sourceUrl, Scoring.NormalizeBm25(h.rank, maxRank), 0.0)
  }

  /** A vector hit updates the vector score of a known chunk, or adds the chunk with lexical score 0. */
  function PutVector(m: seq<ChunkEntry>, h: VectorHit): seq<ChunkEntry> {
    match FindChunk(m, h.chunkId)
    case Some(i) => m[i := m[i].(vectorScore := Scoring.DistanceToSimilarity(h.distance))]
    case None => m + [VectorEntry(h)]
  }

  /** The entry a vector hit on a new chunk adds. */
  function VectorEntry(h: VectorHit): ChunkEntry {
    ChunkEntry(h.chunkId, h.solutionId, h.docType, h.content, h.sourceUrl, 0.0, Scoring.DistanceToSimilarity(h.distance))
  }

  function PutAllLexical(m: seq<ChunkEntry>, hits: seq<LexicalHit>, maxRank: real): seq<ChunkEntry>
    decreases |hits|
  {
    if |hits| == 0 then m else PutAllLexical(PutLexical(m, hits[0], maxRank), hits[1..], maxRank)
  }

  function PutAllVector(m: seq<ChunkEntry>, hits: seq<VectorHit>): seq<ChunkEntry>
    decreases |hits|
  {
    if |hits| == 0 then m else PutAllVector(PutVector(m, hits[0]), hits[1..])
  }

  /** The chunk map after both loops: lexical hits first, then vector hits, in hit order. */
  function ChunkTable(lex: seq<LexicalHit>, vec: seq<VectorHit>): seq<ChunkEntry> {
    PutAllVector(PutAllLexical([], lex, MaxRank(lex)), vec)
  }

  /**
   * What the table promises about the hits merged so far: one entry per chunk
   * id seen, a channel's score is 0 unless that channel returned the chunk,
   * the lexical score is at most 1 and the vector score at least 0.
   */
  ghost predicate TableSound(m: seq<ChunkEntry>, lex: seq<LexicalHit>, vec: seq<VectorHit>) {
    && DistinctChunkIds(m)
    && TableIds(m) == LexicalIds(lex) + VectorIds(vec)
    && (forall i :: 0 <= i < |m| && m[i].chunkId !in VectorIds(vec) ==> m[i].vectorScore == 0.0)
    && (forall i :: 0 <= i < |m| && m[i].chunkId !in LexicalIds(lex) ==> m[i].bm25Score == 0.0)
    && (forall i :: 0 <= i < |m| ==> m[i].bm25Score <= 1.0 && m[i].vectorScore >= 0.0)
  }

  /** Rewriting entries in place without touching chunk ids keeps the table's ids. */
  lemma SameChunkIds(m: seq<ChunkEntry>, r: seq<ChunkEntry>)
    requires |r| == |m|
    requires forall a :: 0 <= a < |m| ==> r[a].chunkId == m[a].chunkId
    ensures TableIds(r) == TableIds(m)
    ensures DistinctChunkIds(m) ==> DistinctChunkIds(r)
  {
    forall id | id in TableIds(m) ensures id in TableIds(r) {
      var j :| 0 <= j < |m| && m[j].chunkId == id;
      assert r[j] in r;
    }
    forall id | id in TableIds(r) ensures id in TableIds(m) {
      var j :| 0 <= j < |r| && r[j].chunkId == id;
      assert m[j] in m;
    }
  }

  /** Appending an entry adds its chunk id. */
  lemma AppendChunkIds(m: seq<ChunkEntry>, e: ChunkEntry)
    ensures TableIds(m + [e]) == TableIds(m) + {e.chunkId}
  {
    forall id | id in TableIds(m) ensures id in TableIds(m + [e]) {
      var j :| 0 <= j < |m| && m[j].chunkId == id;
      assert (m + [e])[j] in m + [e];
    }
    assert (m + [e])[|m|] in m + [e];
  }

  lemma LexicalIdsSnoc(lex: seq<LexicalHit>, h: LexicalHit)
    ensures LexicalIds(lex + [h]) == LexicalIds(lex) + {h.chunkId}
  {
  }

  lemma VectorIdsSnoc(vec: seq<VectorHit>, h: VectorHit)
    ensures VectorIds(vec + [h]) == VectorIds(vec) + {h.chunkId}
  {
  }

  /** A chunk id absent from the table differs from every entry's id. */
  lemma AbsentId(m: seq<ChunkEntry>, id: string)
    requires id !in TableIds(m)
    ensures forall a :: 0 <= a < |m| ==> m[a].chunkId != id
  {
    forall a | 0 <= a < |m| ensures m[a].chunkId != id {
      assert m[a] in m;
    }
  }

  lemma PutLexicalSound(m: seq<ChunkEntry>, lex: seq<LexicalHit>, h: LexicalHit, maxRank: real)
    requires TableSound(m, lex, [])
    ensures TableSound(PutLexical(m, h, maxRank), lex + [h], [])
  {
    LexicalIdsSnoc(lex, h);
    match FindChunk(m, h.chunkId)
    case Some(i) => LexicalReplaceSound(m, lex, h, maxRank, i);
    case None => LexicalAppendSound(m, lex, h, maxRank);
  }

  /** A lexical hit on a known chunk rewrites that entry in place. */
  lemma LexicalReplaceSound(m: seq<ChunkEntry>, lex: seq<LexicalHit>, h: LexicalHit, maxRank: real, i: nat)
    requires TableSound(m, lex, [])
    requires i < |m| && m[i].chunkId == h.chunkId
    requires LexicalIds(lex + [h]) == LexicalIds(lex) + {h.chunkId}
    ensures TableSound(m[i := LexicalEntry(h, maxRank)], lex + [h], [])
  {
    SameChunkIds(m, m[i := LexicalEntry(h, maxRank)]);
  }

  /** A lexical hit on a new chunk appends its entry. */
  lemma LexicalAppendSound(m: seq<ChunkEntry>, lex: seq<LexicalHit>, h: LexicalHit, maxRank: real)
    requires TableSound(m, lex, [])
    requires h.chunkId !in TableIds(m)
    requires LexicalIds(lex + [h]) == LexicalIds(lex) + {h.chunkId}
    ensures TableSound(m + [LexicalEntry(h, maxRank)], lex + [h], [])
  {
    AppendChunkIds(m, LexicalEntry(h, maxRank));
    AbsentId(m, h.chunkId);
  }

  lemma PutVectorSound(m: seq<ChunkEntry>, lex: seq<LexicalHit>, vec: seq<VectorHit>, h: VectorHit)
    requires TableSound(m, lex, vec)
    ensures TableSound(PutVector(m, h), lex, vec + [h])
  {
    VectorIdsSnoc(vec, h);
    match FindChunk(m, h.chunkId)
    case Some(i) => VectorUpdateSound(m, lex, vec, h, i);
    case None => VectorAppendSound(m, lex, vec, h);
  }

  /** A vector hit on a new chunk appends its entry. */
  lemma VectorAppendSound(m: seq<ChunkEntry>, lex: seq<LexicalHit>, vec: seq<VectorHit>, h: VectorHit)
    requires TableSound(m, lex, vec)
    requires h.chunkId !in TableIds(m)
    requires VectorIds(vec + [h]) == VectorIds(vec) + {h.chunkId}
    ensures TableSound(m + [VectorEntry(h)], lex, vec + [h])
  {
    AppendChunkIds(m, VectorEntry(h));
    AbsentId(m, h.chunkId);
  }

  /** A vector hit on a known chunk only sets that entry's vector score. */
  lemma VectorUpdateSound(m: seq<ChunkEntry>, lex: seq<LexicalHit>, vec: seq<VectorHit>, h: VectorHit, i: nat)
    requires TableSound(m, lex, vec)
    requires i < |m| && m[i].chunkId == h.chunkId
    ensures TableSound(m[i := m[i].(vectorScore := Scoring.DistanceToSimilarity(h.distance))], lex, vec + [h])
  {
    var r := m[i := m[i].(vectorScore := Scoring.DistanceToSimilarity(h.distance))];
    var vec' := vec + [h];
    VectorIdsSnoc(vec, h);
    SameChunkIds(m, r);
    forall a | 0 <= a < |r| && r[a].chunkId !in VectorIds(vec') ensures r[a].vectorScore == 0.0 {
      assert a != i && r[a] == m[a];
    }
    forall a | 0 <= a < |r| ensures r[a].bm25Score == m[a].bm25Score && r[a].vectorScore >= 0.0 {
    }
  }

  lemma {:induction false} PutAllLexicalSound(m: seq<ChunkEntry>, done: seq<LexicalHit>, hits: seq<LexicalHit>, maxRank: real)
    requires TableSound(m, done, [])
    ensures TableSound(PutAllLexical(m, hits, maxRank), done + hits, [])
    decreases |hits|
  {
    if |hits| == 0 {
      NoneLeft(done, hits);
    } else {
      PutLexicalSound(m, done, hits[0], maxRank);
      PutAllLexicalSound(PutLexical(m, hits[0], maxRank), done + [hits[0]], hits[1..], maxRank);
      MoveFirst(done, hits);
    }
  }

  lemma {:induction false} PutAllVectorSound(m: seq<ChunkEntry>, lex: seq<LexicalHit>, done: seq<VectorHit>, hits: seq<VectorHit>)
    requires TableSound(m, lex, done)
    ensures TableSound(PutAllVector(m, hits), lex, done + hits)
    decreases |hits|
  {
    if |hits| == 0 {
      NoneLeft(done, hits);
    } else {
      PutVectorSound(m, lex, done, hits[0]);
      PutAllVectorSound(PutVector(m, hits[0]), lex, done + [hits[0]], hits[1..]);
      MoveFirst(done, hits);
    }
  }

  /** The first of the remaining hits moves to the hits done. */
  lemma MoveFirst<T>(done: seq<T>, hits: seq<T>)
    requires |hits| > 0
    ensures done + [hits[0]] + hits[1..] == done + hits
  {
    assert [hits[0]] + hits[1..] == hits;
  }

  lemma NoneLeft<T>(done: seq<T>, hits: seq<T>)
    requires |hits| == 0
    ensures done + hits == done
  {
  }

  /**
   * The merged table holds each chunk id of either channel exactly once; a
   * chunk only the vector search found has lexical score 0, one only the
   * lexical search found has vector score 0.
   */
  lemma ChunkTableSound(lex: seq<LexicalHit>, vec: seq<VectorHit>)
    ensures TableSound(ChunkTable(lex, vec), lex, vec)
  {
    EmptyTableSound();
    PutAllLexicalSound([], [], lex, MaxRank(lex));
    EmptyFront(lex);
    PutAllVectorSound(PutAllLexical([], lex, MaxRank(lex)), lex, [], vec);
    EmptyFront(vec);
  }

  lemma EmptyTableSound()
    ensures TableSound([], [], [])
  {
    assert TableIds([]) == {};
    assert LexicalIds([]) == {} && VectorIds([]) == {};
  }

  lemma EmptyFront<T>(s: seq<T>)
    ensures [] + s == s
  {
  }

  // ------------------------------------------------------- per-solution roll-up

  /** The table's chunks of one solution, in table order. */
  function SolutionChunks(m: seq<ChunkEntry>, sid: string): (r: seq<ChunkEntry>)
    ensures forall i :: 0 <= i < |r| ==> r[i].solutionId == sid
    ensures forall e :: e in r <==> e in m && e.solutionId == sid
    ensures (forall e :: e in m ==> e.solutionId != sid) ==> r == []
  {
    if |m| == 0 then []
    else (if m[0].solutionId == sid then [m[0]] else []) + SolutionChunks(m[1..], sid)
  }

  /** Math.max applied chunk by chunk from acc, on the score that f reads. */
  function MaxOf(acc: real, cs: seq<ChunkEntry>, f: ChunkEntry -> real): (r: real)
    ensures r >= acc
    ensures forall e :: e in cs ==> f(e) <= r
    ensures r == acc || exists e :: e in cs && f(e) == r
    decreases |cs|
  {
    if |cs| == 0 then acc
    else
      assert cs == [cs[0]] + cs[1..];
      MaxOf(Scoring.Max(acc, f(cs[0])), cs[1..], f)
  }

  function Bm25Of(e: ChunkEntry): real { e.bm25Score }
  function VectorOf(e: ChunkEntry): real { e.vectorScore }

  function ToMatched(e: ChunkEntry): MatchedChunk {
    MatchedChunk(e.chunkId, e.solutionId, e.docType, e.content, e.sourceUrl,
                 e.bm25Score, e.vectorScore, Scoring.RelevanceScore(e.bm25Score, e.vectorScore))
  }

  function AllMatched(cs: seq<ChunkEntry>): (r: seq<MatchedChunk>)
    ensures |r| == |cs| && forall i :: 0 <= i < |cs| ==> r[i] == ToMatched(cs[i])
  {
    seq(|cs|, i requires 0 <= i < |cs| => ToMatched(cs[i]))
  }

  /** The chunks sorted by combined score, best first, cut at three. */
  function TopChunks(cs: seq<ChunkEntry>): seq<MatchedChunk> {
    StableSort.Take(StableSort.Sort(AllMatched(cs), CombinedOf), MaxChunksPerSolution)
  }

  /** The entry of one solution: maxima of each signal over its chunks, blended, and its best three chunks. */
  function Aggregate(m: seq<ChunkEntry>, sid: string): SearchResult {
    var cs := SolutionChunks(m, sid);
    var maxBm25 := MaxOf(0.0, cs, Bm25Of);
    var maxVector := MaxOf(0.0, cs, VectorOf);
    SearchResult(sid, maxBm25, maxVector, Scoring.RelevanceScore(maxBm25, maxVector), TopChunks(cs))
  }

  /** Distinct ids in first-occurrence order (the key order of the solution map). */
  function Distinct(ids: seq<string>): (r: seq<string>)
    ensures forall x :: x in r <==> x in ids
    ensures forall i, j :: 0 <= i < j < |r| ==> r[i] != r[j]
    ensures |r| <= |ids|
  {
    if |ids| == 0 then []
    else
      var d := Distinct(ids[..|ids| - 1]);
      assert ids == ids[..|ids| - 1] + [ids[|ids| - 1]];
      if ids[|ids| - 1] in d then d else d + [ids[|ids| - 1]]
  }

  /** Index of the first occurrence of x. */
  function FirstIndex(ids: seq<string>, x: string): (i: nat)
    requires x in ids
    ensures i < |ids| && ids[i] == x
    ensures forall k :: 0 <= k < i ==> ids[k] != x
  {
    if ids[0] == x then 0
    else
      assert x in ids[1..] by { var k :| 0 <= k < |ids| && ids[k] == x; assert ids[1..][k - 1] == x; }
      FirstIndex(ids[1..], x) + 1
  }

  /** Distinct keeps ids in the order in which they first occur. */
  lemma {:induction false} DistinctOrder(ids: seq<string>)
    ensures forall i, j :: 0 <= i < j < |Distinct(ids)| ==>
      FirstIndex(ids, Distinct(ids)[i]) < FirstIndex(ids, Distinct(ids)[j])
    decreases |ids|
  {
    if |ids| > 0 {
      var init := ids[..|ids| - 1];
      var last := ids[|ids| - 1];
      DistinctOrder(init);
      var d := Distinct(init);
      assert ids == init + [last];
      forall x | x in init ensures FirstIndex(ids, x) == FirstIndex(init, x) {
        var k := FirstIndex(init, x);
        FirstIndexUnique(ids, x, k);
      }
      if last !in d {
        assert last !in init;
        FirstIndexUnique(ids, last, |ids| - 1);
        forall i | 0 <= i < |d| ensures FirstIndex(ids, d[i]) < |ids| - 1 {
          assert d[i] in init;
        }
      }
    }
  }

  lemma FirstIndexUnique(ids: seq<string>, x: string, k: nat)
    requires k < |ids| && ids[k] == x
    requires forall j :: 0 <= j < k ==> ids[j] != x
    ensures FirstIndex(ids, x) == k
  {
  }

  /** mergeSearchResults: one entry per distinct solution id, in first-occurrence order. */
  function MergeSearchResults(lex: seq<LexicalHit>, vec: seq<VectorHit>, solutionIds: seq<string>): (r: seq<SearchResult>)
    ensures |r| == |Distinct(solutionIds)|
    ensures forall i :: 0 <= i < |r| ==> r[i].solutionId == Distinct(solutionIds)[i]
  {
    var table := ChunkTable(lex, vec);
    var ids := Distinct(solutionIds);
    seq(|ids|, i requires 0 <= i < |ids| => Aggregate(table, ids[i]))
  }

  // ---------------------------------------------------------- merge properties

  /**
   * The kept chunks: as many as there are, up to three, sorted best first,
   * each one of the given chunks, and none beaten by a chunk left out.
   */
  lemma TopChunksFacts(cs: seq<ChunkEntry>)
    ensures var top := TopChunks(cs); var all := StableSort.Sort(AllMatched(cs), CombinedOf);
      && |top| == (if |cs| < MaxChunksPerSolution then |cs| else MaxChunksPerSolution)
      && StableSort.SortedDesc(top, CombinedOf)
      && top == all[..|top|]
      && (forall i, j :: 0 <= i < |top| <= j < |all| ==> all[i].combinedScore >= all[j].combinedScore)
      && (forall c :: c in top ==> exists e :: e in cs && c == ToMatched(e))
  {
    var ms := AllMatched(cs);
    var all := StableSort.Sort(ms, CombinedOf);
    StableSort.SortSorted(ms, CombinedOf);
    StableSort.TakeKeepsHighest(all, CombinedOf, MaxChunksPerSolution);
    forall c | c in TopChunks(cs) ensures exists e :: e in cs && c == ToMatched(e) {
      assert c in multiset(all);
      var i :| 0 <= i < |ms| && ms[i] == c;
      assert cs[i] in cs;
    }
  }

  /**
   * A solution's entry: its lexical and vector scores are the maxima over
   * its chunks (0 with none), its combined score blends the two, its matched
   * chunks are its own and none scores above the entry.
   */
  lemma AggregateFacts(m: seq<ChunkEntry>, sid: string)
    ensures var r := Aggregate(m, sid);
      && r.solutionId == sid
      && r.bm25Score >= 0.0 && r.vectorScore >= 0.0
      && (forall e :: e in m && e.solutionId == sid ==> e.bm25Score <= r.bm25Score && e.vectorScore <= r.vectorScore)
      && (r.bm25Score == 0.0 || exists e :: e in m && e.solutionId == sid && e.bm25Score == r.bm25Score)
      && (r.vectorScore == 0.0 || exists e :: e in m && e.solutionId == sid && e.vectorScore == r.vectorScore)
      && r.combinedScore == Scoring.RelevanceScore(r.bm25Score, r.vectorScore)
      && (forall c :: c in r.matchedChunks ==>
            && (exists e :: e in m && e.solutionId == sid && c == ToMatched(e))
            && c.combinedScore <= r.combinedScore)
  {
    var r := Aggregate(m, sid);
    var cs := SolutionChunks(m, sid);
    TopChunksFacts(cs);
    forall c | c in r.matchedChunks ensures c.combinedScore <= r.combinedScore {
      var e :| e in cs && c == ToMatched(e);
      assert Bm25Of(e) <= r.bm25Score && VectorOf(e) <= r.vectorScore;
      Scoring.RelevanceMonotone(e.bm25Score, e.vectorScore, r.bm25Score, r.vectorScore);
    }
  }

  /** A solution that no chunk belongs to still gets an entry, with zero signals and no chunks. */
  lemma NoHitsNoSignal(lex: seq<LexicalHit>, vec: seq<VectorHit>, solutionIds: seq<string>, i: nat)
    requires i < |Distinct(solutionIds)|
    requires forall e :: e in ChunkTable(lex, vec) ==> e.solutionId != Distinct(solutionIds)[i]
    ensures var r := MergeSearchResults(lex, vec, solutionIds)[i];
      r.bm25Score == 0.0 && r.vectorScore == 0.0 && r.combinedScore == 0.0 && r.matchedChunks == []
  {
  }

  /** Every entry's chunks belong to that entry's solution, and so to one of the requested ids. */
  lemma NoCrossSolutionChunks(lex: seq<LexicalHit>, vec: seq<VectorHit>, solutionIds: seq<string>)
    ensures var r := MergeSearchResults(lex, vec, solutionIds);
      forall i, c :: 0 <= i < |r| && c in r[i].matchedChunks ==>
        c.solutionId == r[i].solutionId && c.solutionId in solutionIds
  {
    var r := MergeSearchResults(lex, vec, solutionIds);
    forall i, c | 0 <= i < |r| && c in r[i].matchedChunks
      ensures c.solutionId == r[i].solutionId && c.solutionId in solutionIds
    {
      AggregateFacts(ChunkTable(lex, vec), Distinct(solutionIds)[i]);
    }
  }

  // -------------------------------------------------------------- hybridSearch

  /** Array.prototype.slice(0, n): a negative n counts from the end. */
  function SlicePrefix<T>(s: seq<T>, n: int): (r: seq<T>)
    ensures n >= 0 ==> |r| == if n < |s| then n else |s|
    ensures n < 0 ==> |r| == if |s| + n > 0 then |s| + n else 0
    ensures r == s[..|r|]
  {
    if n >= 0 then StableSort.Take(s, n)
    else if |s| + n > 0 then s[..|s| + n] else []
  }

  /**
   * hybridSearch with the retrievals as inputs. `lexical` is None when the
   * lexical RPC failed; `vector` is None when the embedding call threw or
   * the vector RPC failed; `limit` is None when the caller passed none.
   */
  function Search(solutionIds: seq<string>, limit: Option<int>,
                  lexical: Option<seq<LexicalHit>>, vector: Option<seq<VectorHit>>): (r: seq<SearchResult>)
  {
    if |solutionIds| == 0 then []
    else
      var merged := MergeSearchResults(lexical.GetOr([]), vector.GetOr([]), solutionIds);
      SlicePrefix(StableSort.Sort(merged, ResultScore), limit.GetOr(DefaultLimit))
  }

  /**
   * No ids, no results. Otherwise: sorted best first, never longer than a
   * non-negative limit (5 by default), each entry a merged entry for one of
   * the requested ids, at most one entry per id.
   */
  lemma SearchFacts(solutionIds: seq<string>, limit: Option<int>,
                    lexical: Option<seq<LexicalHit>>, vector: Option<seq<VectorHit>>)
    ensures var r := Search(solutionIds, limit, lexical, vector);
      && (|solutionIds| == 0 ==> r == [])
      && StableSort.SortedDesc(r, ResultScore)
      && (limit.GetOr(DefaultLimit) >= 0 ==> |r| <= limit.GetOr(DefaultLimit))
      && |r| <= |Distinct(solutionIds)|
      && (forall i :: 0 <= i < |r| ==> r[i].solutionId in solutionIds)
      && (forall i, j :: 0 <= i < j < |r| ==> r[i].solutionId != r[j].solutionId)
  {
    if |solutionIds| > 0 {
      var merged := MergeSearchResults(lexical.GetOr([]), vector.GetOr([]), solutionIds);
      SortedPrefixFacts(merged, solutionIds, Search(solutionIds, limit, lexical, vector));
    }
  }

  /** A prefix of the merged entries once sorted: best first, each for a requested id, one per id. */
  lemma SortedPrefixFacts(merged: seq<SearchResult>, ids: seq<string>, r: seq<SearchResult>)
    requires |merged| == |Distinct(ids)|
    requires forall i :: 0 <= i < |merged| ==> merged[i].solutionId == Distinct(ids)[i]
    requires |r| <= |merged| && r == StableSort.Sort(merged, ResultScore)[..|r|]
    ensures StableSort.SortedDesc(r, ResultScore)
    ensures forall i :: 0 <= i < |r| ==> r[i].solutionId in ids
    ensures forall i, j :: 0 <= i < j < |r| ==> r[i].solutionId != r[j].solutionId
  {
    StableSort.SortSorted(merged, ResultScore);
    PrefixIdsRequested(merged, ids, r);
    PrefixIdsDistinct(merged, ids, r);
  }

  /** Each entry of a prefix of the sorted entries is one of the merged entries. */
  lemma PrefixSource(merged: seq<SearchResult>, r: seq<SearchResult>, i: nat) returns (k: nat)
    requires |r| <= |merged| && r == StableSort.Sort(merged, ResultScore)[..|r|]
    requires i < |r|
    ensures k < |merged| && merged[k] == r[i]
  {
    assert r[i] in multiset(StableSort.Sort(merged, ResultScore));
    k :| 0 <= k < |merged| && merged[k] == r[i];
  }

  lemma PrefixIdsRequested(merged: seq<SearchResult>, ids: seq<string>, r: seq<SearchResult>)
    requires |merged| == |Distinct(ids)|
    requires forall i :: 0 <= i < |merged| ==> merged[i].solutionId == Distinct(ids)[i]
    requires |r| <= |merged| && r == StableSort.Sort(merged, ResultScore)[..|r|]
    ensures forall i :: 0 <= i < |r| ==> r[i].solutionId in ids
  {
    forall i | 0 <= i < |r| ensures r[i].solutionId in ids {
      var k := PrefixSource(merged, r, i);
    }
  }

  lemma PrefixIdsDistinct(merged: seq<SearchResult>, ids: seq<string>, r: seq<SearchResult>)
    requires |merged| == |Distinct(ids)|
    requires forall i :: 0 <= i < |merged| ==> merged[i].solutionId == Distinct(ids)[i]
    requires |r| <= |merged| && r == StableSort.Sort(merged, ResultScore)[..|r|]
    ensures forall i, j :: 0 <= i < j < |r| ==> r[i].solutionId != r[j].solutionId
  {
    var sorted := StableSort.Sort(merged, ResultScore);
    assert forall a, b :: 0 <= a < b < |merged| ==> merged[a].solutionId != merged[b].solutionId;
    forall i, j | 0 <= i < j < |r| ensures r[i].solutionId != r[j].solutionId {
      SortedIdsDistinct(merged, sorted, i, j);
    }
  }

  /** A rearrangement of entries with distinct solution ids still has distinct solution ids. */
  lemma SortedIdsDistinct(merged: seq<SearchResult>, sorted: seq<SearchResult>, i: nat, j: nat)
    requires multiset(sorted) == multiset(merged)
    requires forall a, b :: 0 <= a < b < |merged| ==> merged[a].solutionId != merged[b].solutionId
    requires i < j < |sorted|
    ensures sorted[i].solutionId != sorted[j].solutionId
  {
    StableSort.NoRepeatsPermutation(merged, sorted);
    assert sorted[i] in multiset(merged) && sorted[j] in multiset(merged);
    var a :| 0 <= a < |merged| && merged[a] == sorted[i];
    var b :| 0 <= b < |merged| && merged[b] == sorted[j];
    assert a != b;
  }

  /** An entry merged without vector hits has vector score 0, and so has each of its chunks. */
  lemma NoVectorHitsEntry(lex: seq<LexicalHit>, sid: string)
    ensures var r := Aggregate(ChunkTable(lex, []), sid);
      r.vectorScore == 0.0 && forall c :: c in r.matchedChunks ==> c.vectorScore == 0.0
  {
    var table := ChunkTable(lex, []);
    ChunkTableSound(lex, []);
    assert VectorIds([]) == {};
    assert forall e :: e in table ==> e.vectorScore == 0.0;
    AggregateFacts(table, sid);
  }

  /** With the vector side failed, every solution and every chunk has vector score 0. */
  lemma VectorFailureZeroesVectorScores(solutionIds: seq<string>, limit: Option<int>, lexical: Option<seq<LexicalHit>>)
    ensures var r := Search(solutionIds, limit, lexical, None);
      forall i :: 0 <= i < |r| ==>
        r[i].vectorScore == 0.0 && forall c :: c in r[i].matchedChunks ==> c.vectorScore == 0.0
  {
    var lex := lexical.GetOr([]);
    if |solutionIds| > 0 {
      var merged := MergeSearchResults(lex, [], solutionIds);
      var r := Search(solutionIds, limit, lexical, None);
      forall i | 0 <= i < |r|
        ensures r[i].vectorScore == 0.0 && forall c :: c in r[i].matchedChunks ==> c.vectorScore == 0.0
      {
        var k := PrefixSource(merged, r, i);
        NoVectorHitsEntry(lex, Distinct(solutionIds)[k]);
      }
    }
  }

  /**
   * With both retrievals failed the search still returns entries (no error
   * reaches the caller): one per requested id up to the limit, all with zero
   * scores and no chunks.
   */
  lemma BothChannelsFailed(solutionIds: seq<string>, limit: Option<int>)
    ensures var r := Search(solutionIds, limit, None, None);
      && (limit.GetOr(DefaultLimit) >= 0 ==>
            |r| == if |Distinct(solutionIds)| < limit.GetOr(DefaultLimit) then |Distinct(solutionIds)| else limit.GetOr(DefaultLimit))
      && forall i :: 0 <= i < |r| ==>
           r[i].bm25Score == 0.0 && r[i].vectorScore == 0.0 && r[i].combinedScore == 0.0 && r[i].matchedChunks == []
  {
    assert ChunkTable([], []) == [];
    if |solutionIds| > 0 {
      var merged := MergeSearchResults([], [], solutionIds);
      var r := Search(solutionIds, limit, None, None);
      forall i | 0 <= i < |r|
        ensures r[i].bm25Score == 0.0 && r[i].vectorScore == 0.0 && r[i].combinedScore == 0.0 && r[i].matchedChunks == []
      {
        var k := PrefixSource(merged, r, i);
        NoHitsNoSignal([], [], solutionIds, k);
      }
    }
  }

  // ---------------------------------------------------------- generateSearchQuery

  /** Search keywords per category; an unknown category is used as it is. */
  function CategoryKeywords(category: string): string {
    match category
    case "accounting" => "会計 経理 決算"
    case "expense" => "経費精算 経費管理 交通費"
    case "attendance" => "勤怠管理 出退勤 シフト"
    case "hr" => "人事労務 入社手続き 年末調整"
    case "workflow" => "ワークフロー 申請 承認"
    case "e_contract" => "電子契約 契約書 署名"
    case "invoice" => "請求書 請求管理"
    case "procurement" => "購買 調達"
    case _ => category
  }

  /** The query text: category keywords, then each problem, then the free text when it is not empty, space-separated. */
  function SearchQuery(category: string, problems: seq<string>, freeText: Option<string>): string {
    var extra := if freeText.Some? && freeText.value != "" then [freeText.value] else [];
    Join([CategoryKeywords(category)] + problems + extra, " ")
  }

  /** The query is the keywords followed by " p" for each problem in order and " t" for a non-empty free text. */
  lemma SearchQueryShape(category: string, problems: seq<string>, freeText: Option<string>)
    ensures SearchQuery(category, problems, freeText)
      == CategoryKeywords(category) + Prefixed(problems, " ")
         + (if freeText.Some? && freeText.value != "" then " " + freeText.value else "")
  {
    var extra := if freeText.Some? && freeText.value != "" then [freeText.value] else [];
    assert [CategoryKeywords(category)] + problems + extra == [CategoryKeywords(category)] + (problems + extra);
    JoinAsPrefixed(CategoryKeywords(category), problems + extra, " ");
    PrefixedConcat(problems, extra, " ");
    if extra != [] {
      assert Prefixed(extra, " ") == " " + freeText.value + Prefixed([], " ");
    }
  }
}
