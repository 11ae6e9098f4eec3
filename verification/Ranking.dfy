/** Source-level ranking over chunk-level hits: the keyword lane and the dense
    float lane, in both search directions.  Scores are reals. */
module Ranking {
  import opened Ordering

  type Chunk = Bytes
  type Source = Bytes

  datatype Direction = Nearest | Farthest
  datatype Hit = Hit(chunk: Chunk, score: real)
  datatype Entry = Entry(source: Source, score: real)

  predicate Better(dir: Direction, x: real, y: real) {
    match dir
    case Nearest => x > y
    case Farthest => x < y
  }

  /** The output order: better score first, then smaller source id. */
  function Precedes(dir: Direction): (Entry, Entry) -> bool {
    (a: Entry, b: Entry) => if a.score != b.score then Better(dir, a.score, b.score) else BytesLess(a.source, b.source)
  }

  lemma PrecedesIsStrictTotalOrder(dir: Direction)
    ensures StrictTotalOrder(Precedes(dir))
  {
    var less := Precedes(dir);
    forall a, b, c | less(a, b) && less(b, c) ensures less(a, c) {
      if a.score == b.score == c.score { BytesLessTransitive(a.source, b.source, c.source); }
    }
    forall a, b ensures less(a, b) || a == b || less(b, a) { BytesLessConnected(a.source, b.source); }
    forall a ensures !less(a, a) { BytesLessIrreflexive(a.source); }
  }

  // ------------------------------------------------------------ aggregation

  /** The hit counts for a source: its chunk maps there. */
  predicate For(h: Hit, owner: map<Chunk, Source>, s: Source) {
    h.chunk in owner && owner[h.chunk] == s
  }

  /** Every source with a mapped hit, with the best score among its hits. */
  ghost predicate Aggregates(dir: Direction, hits: seq<Hit>, owner: map<Chunk, Source>, best: map<Source, real>) {
    && (forall s :: s in best ==> exists i :: 0 <= i < |hits| && For(hits[i], owner, s) && hits[i].score == best[s])
    && (forall i :: 0 <= i < |hits| && hits[i].chunk in owner ==>
          owner[hits[i].chunk] in best && !Better(dir, hits[i].score, best[owner[hits[i].chunk]]))
  }

  lemma AggregatesNext(dir: Direction, hits: seq<Hit>, owner: map<Chunk, Source>, best: map<Source, real>, h: Hit)
    requires Aggregates(dir, hits, owner, best)
    ensures h.chunk !in owner ==> Aggregates(dir, hits + [h], owner, best)
    ensures h.chunk in owner ==> Aggregates(dir, hits + [h], owner, Improved(dir, best, owner[h.chunk], h.score))
  {
    var hits' := hits + [h];
    var best' := if h.chunk in owner then Improved(dir, best, owner[h.chunk], h.score) else best;
    forall s | s in best' ensures exists i :: 0 <= i < |hits'| && For(hits'[i], owner, s) && hits'[i].score == best'[s] {
      if s in best && best'[s] == best[s] {
        var i :| 0 <= i < |hits| && For(hits[i], owner, s) && hits[i].score == best[s];
        assert hits'[i] == hits[i];
      } else {
        assert hits'[|hits|] == h;
      }
    }
  }

  /** A source's entry after one more of its scores. */
  function Improved(dir: Direction, best: map<Source, real>, s: Source, x: real): map<Source, real> {
    best[s := if s in best && !Better(dir, x, best[s]) then best[s] else x]
  }

  lemma AggregateUnique(dir: Direction, hits: seq<Hit>, owner: map<Chunk, Source>, a: map<Source, real>, b: map<Source, real>)
    requires Aggregates(dir, hits, owner, a) && Aggregates(dir, hits, owner, b)
    ensures a == b
  {
    forall s ensures (s in a ==> s in b && !Better(dir, a[s], b[s])) && (s in b ==> s in a && !Better(dir, b[s], a[s])) {
      if s in a { var i :| 0 <= i < |hits| && For(hits[i], owner, s) && hits[i].score == a[s]; }
      if s in b { var i :| 0 <= i < |hits| && For(hits[i], owner, s) && hits[i].score == b[s]; }
    }
    assert a.Keys == b.Keys;
  }

  /** Collect the best score per source, hit by hit. */
  method Aggregate(dir: Direction, hits: seq<Hit>, owner: map<Chunk, Source>) returns (best: map<Source, real>)
    ensures Aggregates(dir, hits, owner, best)
  {
    best := map[];
    for i := 0 to |hits|
      invariant Aggregates(dir, hits[..i], owner, best)
    {
      AggregatesNext(dir, hits[..i], owner, best, hits[i]);
      assert hits[..i + 1] == hits[..i] + [hits[i]];
      if hits[i].chunk !in owner { continue; }
      best := Improved(dir, best, owner[hits[i].chunk], hits[i].score);
    }
    assert hits[..|hits|] == hits;
  }

  // ---------------------------------------------------------------- ranking

  predicate IsEntry(best: map<Source, real>, e: Entry) {
    e.source in best && e.score == best[e.source]
  }

  /** The entries of all the sources, each once, in output order. */
  ghost predicate IsRanking(dir: Direction, best: map<Source, real>, full: seq<Entry>) {
    && Ascending(full, Precedes(dir))
    && (forall i :: 0 <= i < |full| ==> IsEntry(best, full[i]))
    && (forall s :: s in best ==> Entry(s, best[s]) in full)
  }

  lemma RankingUnique(dir: Direction, best: map<Source, real>, a: seq<Entry>, b: seq<Entry>)
    requires IsRanking(dir, best, a) && IsRanking(dir, best, b)
    ensures a == b
  {
    PrecedesIsStrictTotalOrder(dir);
    forall e ensures e in Elements(a) <==> e in Elements(b) {
      assert e in Elements(a) <==> IsEntry(best, e);
      assert e in Elements(b) <==> IsEntry(best, e);
    }
    AscendingUnique(a, b, Precedes(dir));
  }

  function Prefix<T>(s: seq<T>, limit: nat): seq<T> {
    if limit < |s| then s[..limit] else s
  }

  /** List the entries in whatever order the map yields them, sort, cut. */
  method RankSources(dir: Direction, best: map<Source, real>, limit: nat) returns (ranked: seq<Entry>)
    ensures exists full :: IsRanking(dir, best, full) && ranked == Prefix(full, limit)
  {
    var entries := ListEntries(best);
    SortedIsRanking(dir, best, entries);
    ranked := Prefix(SortBy(entries, Precedes(dir)), limit);
  }

  method ListEntries(best: map<Source, real>) returns (entries: seq<Entry>)
    ensures NoDuplicates(entries) && forall e :: e in Elements(entries) <==> IsEntry(best, e)
  {
    entries := [];
    var left := best.Keys;
    while left != {}
      invariant left <= best.Keys && NoDuplicates(entries)
      invariant forall e :: e in Elements(entries) <==> IsEntry(best, e) && e.source !in left
      decreases left
    {
      var s :| s in left;
      OneMoreAtEnd(entries, Entry(s, best[s]));
      entries := entries + [Entry(s, best[s])];
      left := left - {s};
    }
  }

  lemma SortedIsRanking(dir: Direction, best: map<Source, real>, entries: seq<Entry>)
    requires NoDuplicates(entries) && forall e :: e in Elements(entries) <==> IsEntry(best, e)
    ensures IsRanking(dir, best, SortBy(entries, Precedes(dir)))
  {
    var full := SortBy(entries, Precedes(dir));
    PrecedesIsStrictTotalOrder(dir);
    SortAscends(entries, Precedes(dir));
    forall i | 0 <= i < |full| ensures IsEntry(best, full[i]) { assert full[i] in Elements(full); }
    forall s | s in best ensures Entry(s, best[s]) in full { assert Entry(s, best[s]) in Elements(full); }
  }

  // -------------------------------------------------------------- the lanes

  const OVER_FETCH: nat := 4

  /** The keyword scores start from a default of zero, so a score below zero
      counts as zero. */
  function Clamped(hits: seq<Hit>): (r: seq<Hit>)
    ensures |r| == |hits| && forall i :: 0 <= i < |hits| ==> r[i] == Hit(hits[i].chunk, if hits[i].score > 0.0 then hits[i].score else 0.0)
  {
    seq(|hits|, i requires 0 <= i < |hits| => Hit(hits[i].chunk, if hits[i].score > 0.0 then hits[i].score else 0.0))
  }

  ghost predicate RanksHits(dir: Direction, hits: seq<Hit>, owner: map<Chunk, Source>, limit: nat, ranked: seq<Entry>) {
    exists best, full :: RanksVia(dir, hits, owner, best, full) && ranked == Prefix(full, limit)
  }

  ghost predicate RanksVia(dir: Direction, hits: seq<Hit>, owner: map<Chunk, Source>, best: map<Source, real>, full: seq<Entry>) {
    Aggregates(dir, hits, owner, best) && IsRanking(dir, best, full)
  }

  lemma NeverNegative(hits: seq<Hit>, owner: map<Chunk, Source>, best: map<Source, real>, s: Source)
    requires Aggregates(Nearest, hits, owner, best) && forall i :: 0 <= i < |hits| ==> hits[i].score >= 0.0
    ensures s in best ==> best[s] >= 0.0
  {
    if s in best { var i :| 0 <= i < |hits| && For(hits[i], owner, s) && hits[i].score == best[s]; }
  }

  method Bm25TopKBySource(tokens: seq<Bytes>, limit: int, owner: map<Chunk, Source>, topK: (seq<Bytes>, nat) -> seq<Hit>)
    returns (ranked: seq<Entry>)
    ensures if limit <= 0 || tokens == [] then ranked == []
            else RanksHits(Nearest, Clamped(topK(tokens, 4 * limit)), owner, limit, ranked)
  {
    if limit <= 0 || |tokens| == 0 { return []; }
    var hits := topK(tokens, OVER_FETCH * limit);
    var best: map<Source, real> := map[];
    for i := 0 to |hits|
      invariant Aggregates(Nearest, Clamped(hits)[..i], owner, best)
    {
      ghost var h := Clamped(hits)[i];
      AggregatesNext(Nearest, Clamped(hits)[..i], owner, best, h);
      assert Clamped(hits)[..i + 1] == Clamped(hits)[..i] + [h];
      if hits[i].chunk !in owner { continue; }
      var s := owner[hits[i].chunk];
      NeverNegative(Clamped(hits)[..i], owner, best, s);
      var before := if s in best then best[s] else 0.0;
      assert (if hits[i].score > before then hits[i].score else before) == if s in best && !Better(Nearest, h.score, best[s]) then best[s] else h.score;
      best := best[s := if hits[i].score > before then hits[i].score else before];
    }
    assert Clamped(hits)[..|hits|] == Clamped(hits);
    ranked := RankSources(Nearest, best, limit);
    ghost var full :| IsRanking(Nearest, best, full) && ranked == Prefix(full, limit);
    assert RanksVia(Nearest, Clamped(hits), owner, best, full);
  }

  datatype FloatLaneOutcome = UnavailableNoFloatRows | Hits(entries: seq<Entry>)

  /** A store match carries the cosine distance in ten-thousandths. */
  function Similarity(distance: int): real {
    1.0 - distance as real / 10000.0
  }

  function Similarities(matches: seq<(Chunk, int)>): (hits: seq<Hit>)
    ensures |hits| == |matches| && forall i :: 0 <= i < |hits| ==> hits[i] == Hit(matches[i].0, Similarity(matches[i].1))
  {
    seq(|matches|, i requires 0 <= i < |matches| => Hit(matches[i].0, Similarity(matches[i].1)))
  }

  /** Strictly closer, or strictly farther. */
  predicate Nearer(dir: Direction, d: int, e: int) {
    match dir
    case Nearest => d < e
    case Farthest => d > e
  }

  predicate MatchFor(m: (Chunk, int), owner: map<Chunk, Source>, s: Source) {
    m.0 in owner && owner[m.0] == s
  }

  /** The source's least distance among the matches, or its greatest. */
  ghost predicate BestDistance(dir: Direction, matches: seq<(Chunk, int)>, owner: map<Chunk, Source>, s: Source, d: int) {
    && (exists i :: 0 <= i < |matches| && MatchFor(matches[i], owner, s) && matches[i].1 == d)
    && (forall i :: 0 <= i < |matches| && MatchFor(matches[i], owner, s) ==> !Nearer(dir, matches[i].1, d))
  }

  /** The entry's score is one minus its source's best distance. */
  ghost predicate ScoredByDistance(dir: Direction, matches: seq<(Chunk, int)>, owner: map<Chunk, Source>, e: Entry) {
    exists d :: BestDistance(dir, matches, owner, e.source, d) && e.score * 10000.0 == (10000 - d) as real
  }

  /** The entries in terms of the distances the store returned: scored by them, in
      their order, ties by source id, the best sources first and as many as asked
      for or as there are. */
  ghost predicate RanksDistances(dir: Direction, matches: seq<(Chunk, int)>, owner: map<Chunk, Source>, limit: nat, entries: seq<Entry>) {
    && |entries| <= limit
    && (forall k :: 0 <= k < |entries| ==> ScoredByDistance(dir, matches, owner, entries[k]))
    && (forall k, l :: 0 <= k < l < |entries| ==> InOrder(dir, matches, owner, entries[k].source, entries[l].source))
    && (forall s, k :: Omitted(s, entries) && 0 <= k < |entries| ==> InOrder(dir, matches, owner, entries[k].source, s))
    && (forall s, d :: BestDistance(dir, matches, owner, s, d) && Omitted(s, entries) ==> |entries| == limit)
  }

  /** By their best distances, if they have matches, the one comes before the other. */
  ghost predicate InOrder(dir: Direction, matches: seq<(Chunk, int)>, owner: map<Chunk, Source>, s: Source, t: Source) {
    forall d, e :: BestDistance(dir, matches, owner, s, d) && BestDistance(dir, matches, owner, t, e) ==>
      Nearer(dir, d, e) || (d == e && BytesLess(s, t))
  }

  lemma SimilarityIsDistance(dir: Direction, d: int, e: int)
    ensures Better(dir, Similarity(d), Similarity(e)) <==> Nearer(dir, d, e)
    ensures Similarity(d) * 10000.0 == (10000 - d) as real
    ensures Similarity(d) == Similarity(e) <==> d == e
  {
  }

  lemma BestDistanceIsBest(dir: Direction, matches: seq<(Chunk, int)>, owner: map<Chunk, Source>, best: map<Source, real>, s: Source, d: int)
    requires Aggregates(dir, Similarities(matches), owner, best) && BestDistance(dir, matches, owner, s, d)
    ensures s in best && best[s] == Similarity(d)
  {
    var hits := Similarities(matches);
    var i :| 0 <= i < |matches| && MatchFor(matches[i], owner, s) && matches[i].1 == d;
    assert hits[i] == Hit(matches[i].0, Similarity(d)) && hits[i].chunk in owner;
    var j :| 0 <= j < |hits| && For(hits[j], owner, s) && hits[j].score == best[s];
    assert MatchFor(matches[j], owner, s);
    SimilarityIsDistance(dir, matches[j].1, d);
    SimilarityIsDistance(dir, d, matches[j].1);
  }

  lemma BestHasDistance(dir: Direction, matches: seq<(Chunk, int)>, owner: map<Chunk, Source>, best: map<Source, real>, s: Source) returns (d: int)
    requires Aggregates(dir, Similarities(matches), owner, best) && s in best
    ensures BestDistance(dir, matches, owner, s, d) && best[s] == Similarity(d)
  {
    var hits := Similarities(matches);
    var j :| 0 <= j < |hits| && For(hits[j], owner, s) && hits[j].score == best[s];
    d := matches[j].1;
    assert MatchFor(matches[j], owner, s);
    forall i | 0 <= i < |matches| && MatchFor(matches[i], owner, s) ensures !Nearer(dir, matches[i].1, d) {
      assert hits[i] == Hit(matches[i].0, Similarity(matches[i].1)) && hits[i].chunk in owner;
      SimilarityIsDistance(dir, matches[i].1, d);
    }
  }

  /** Two sources in the ranking's order are in the order of their distances. */
  lemma OrderedByDistance(dir: Direction, matches: seq<(Chunk, int)>, owner: map<Chunk, Source>, best: map<Source, real>, s: Source, t: Source)
    requires Aggregates(dir, Similarities(matches), owner, best)
    requires s in best && t in best ==> Precedes(dir)(Entry(s, best[s]), Entry(t, best[t]))
    ensures InOrder(dir, matches, owner, s, t)
  {
    forall d, e | BestDistance(dir, matches, owner, s, d) && BestDistance(dir, matches, owner, t, e)
      ensures Nearer(dir, d, e) || (d == e && BytesLess(s, t))
    {
      BestDistanceIsBest(dir, matches, owner, best, s, d);
      BestDistanceIsBest(dir, matches, owner, best, t, e);
      SimilarityIsDistance(dir, d, e);
    }
  }

  lemma RankedByDistance(dir: Direction, matches: seq<(Chunk, int)>, owner: map<Chunk, Source>, limit: nat, best: map<Source, real>, full: seq<Entry>)
    requires RanksVia(dir, Similarities(matches), owner, best, full)
    ensures RanksDistances(dir, matches, owner, limit, Prefix(full, limit))
  {
    var entries := Prefix(full, limit);
    assert forall k :: 0 <= k < |entries| ==> entries[k] == full[k] && IsEntry(best, full[k]);
    forall k | 0 <= k < |entries| ensures ScoredByDistance(dir, matches, owner, entries[k]) {
      var d := BestHasDistance(dir, matches, owner, best, entries[k].source);
      SimilarityIsDistance(dir, d, d);
    }
    forall k, l | 0 <= k < l < |entries| ensures InOrder(dir, matches, owner, entries[k].source, entries[l].source) {
      OrderedByDistance(dir, matches, owner, best, entries[k].source, entries[l].source);
    }
    forall s, k | Omitted(s, entries) && 0 <= k < |entries| ensures InOrder(dir, matches, owner, entries[k].source, s) {
      if s in best { OmittedComesLater(dir, best, full, limit, s, k); }
      OrderedByDistance(dir, matches, owner, best, entries[k].source, s);
    }
    forall s, d | BestDistance(dir, matches, owner, s, d) && Omitted(s, entries) ensures |entries| == limit {
      BestDistanceIsBest(dir, matches, owner, best, s, d);
      assert Entry(s, best[s]) in full;
    }
  }

  lemma OmittedComesLater(dir: Direction, best: map<Source, real>, full: seq<Entry>, limit: nat, s: Source, k: nat)
    requires IsRanking(dir, best, full) && s in best && Omitted(s, Prefix(full, limit)) && k < |Prefix(full, limit)|
    ensures Precedes(dir)(full[k], Entry(s, best[s]))
  {
    var j :| 0 <= j < |full| && full[j] == Entry(s, best[s]);
    assert forall x :: 0 <= x < |Prefix(full, limit)| ==> full[x] == Prefix(full, limit)[x];
  }

  method FloatNearest(dir: Direction, limit: nat, owner: map<Chunk, Source>, find: (Direction, nat) -> seq<(Chunk, int)>)
    returns (outcome: FloatLaneOutcome)
    ensures var matches := find(dir, 4 * limit);
      && (outcome.UnavailableNoFloatRows? <==> forall i :: 0 <= i < |matches| ==> matches[i].0 !in owner)
      && (outcome.Hits? ==> RanksHits(dir, Similarities(matches), owner, limit, outcome.entries))
      && (outcome.Hits? ==> RanksDistances(dir, matches, owner, limit, outcome.entries))
  {
    var matches := find(dir, OVER_FETCH * limit);
    if |matches| == 0 { return UnavailableNoFloatRows; }
    var best := Aggregate(dir, Similarities(matches), owner);
    if best == map[] {
      forall i | 0 <= i < |matches| ensures matches[i].0 !in owner { assert Similarities(matches)[i].chunk == matches[i].0; }
      return UnavailableNoFloatRows;
    }
    ghost var s :| s in best;
    var ranked := RankSources(dir, best, limit);
    ghost var full :| IsRanking(dir, best, full) && ranked == Prefix(full, limit);
    assert RanksVia(dir, Similarities(matches), owner, best, full);
    RankedByDistance(dir, matches, owner, limit, best, full);
    outcome := Hits(ranked);
  }

  // -------------------------------------------------------------- exactness

  /** The hits are the true top `n` of the scored chunks. */
  ghost predicate TopN(dir: Direction, scored: map<Chunk, real>, n: nat, hits: seq<Hit>) {
    && |hits| == (if n < |scored| then n else |scored|)
    && (forall i :: 0 <= i < |hits| ==> hits[i].chunk in scored && hits[i].score == scored[hits[i].chunk])
    && (forall i, j :: 0 <= i < j < |hits| ==> hits[i].chunk != hits[j].chunk)
    && (forall c, i :: c in scored && !Fetched(hits, c) && 0 <= i < |hits| ==> !Better(dir, scored[c], hits[i].score))
  }

  ghost predicate Fetched(hits: seq<Hit>, c: Chunk) {
    exists i :: 0 <= i < |hits| && hits[i].chunk == c
  }

  /** The source's best score over all its mapped chunks, fetched or not. */
  ghost predicate IsBest(dir: Direction, scored: map<Chunk, real>, owner: map<Chunk, Source>, s: Source, x: real) {
    && (exists c :: c in scored && c in owner && owner[c] == s && scored[c] == x)
    && (forall c :: c in scored && c in owner && owner[c] == s ==> !Better(dir, scored[c], x))
  }

  lemma AggregateIsBest(dir: Direction, scored: map<Chunk, real>, owner: map<Chunk, Source>, n: nat, hits: seq<Hit>, best: map<Source, real>, s: Source)
    requires TopN(dir, scored, n, hits) && Aggregates(dir, hits, owner, best) && s in best
    ensures IsBest(dir, scored, owner, s, best[s])
  {
    var i :| 0 <= i < |hits| && For(hits[i], owner, s) && hits[i].score == best[s];
    assert scored[hits[i].chunk] == best[s];
    forall c | c in scored && c in owner && owner[c] == s ensures !Better(dir, scored[c], best[s]) {
      if Fetched(hits, c) {
        var j :| 0 <= j < |hits| && hits[j].chunk == c;
      }
    }
  }

  /** A cut ranking: every entry kept precedes every entry dropped. */
  lemma CutRanking(dir: Direction, best: map<Source, real>, full: seq<Entry>, limit: nat, s: Source, e: Entry)
    requires IsRanking(dir, best, full) && s in best && Entry(s, best[s]) !in Prefix(full, limit) && e in Prefix(full, limit)
    ensures Precedes(dir)(e, Entry(s, best[s]))
  {
    var j :| 0 <= j < |full| && full[j] == Entry(s, best[s]);
    var i :| 0 <= i < |Prefix(full, limit)| && Prefix(full, limit)[i] == e;
    assert full[i] == e;
  }

  lemma CutShape(dir: Direction, best: map<Source, real>, full: seq<Entry>, limit: nat)
    requires IsRanking(dir, best, full)
    ensures Ascending(Prefix(full, limit), Precedes(dir)) && forall e :: e in Prefix(full, limit) ==> IsEntry(best, e)
  {
  }

  /** Given the true top hits, every returned score is the source's best over all
      of its chunks, and no omitted source has a strictly better chunk than any
      returned source. */
  lemma SourceRankingIsExact(dir: Direction, scored: map<Chunk, real>, owner: map<Chunk, Source>, n: nat, hits: seq<Hit>, limit: nat, ranked: seq<Entry>)
    requires TopN(dir, scored, n, hits) && RanksHits(dir, hits, owner, limit, ranked)
    ensures |ranked| <= limit && Ascending(ranked, Precedes(dir))
    ensures ScoresAreBest(dir, scored, owner, ranked) && OmittedAreNotBetter(dir, scored, owner, ranked)
  {
    var best, full :| RanksVia(dir, hits, owner, best, full) && ranked == Prefix(full, limit);
    CutShape(dir, best, full, limit);
    CutIsExact(dir, scored, owner, n, hits, best, full, limit);
  }

  /** The score is the best among the source's hits. */
  ghost predicate IsBestHit(hits: seq<Hit>, owner: map<Chunk, Source>, s: Source, x: real) {
    && (exists i :: 0 <= i < |hits| && For(hits[i], owner, s) && hits[i].score == x)
    && (forall i :: 0 <= i < |hits| && For(hits[i], owner, s) ==> hits[i].score <= x)
  }

  /** The score the keyword lane reports for a source is the best of the engine's
      scores if and only if one of them is not negative; otherwise it is zero. */
  lemma KeywordScoreIsBestExactlyWhen(hits: seq<Hit>, owner: map<Chunk, Source>, limit: nat, ranked: seq<Entry>, k: nat)
    requires RanksHits(Nearest, Clamped(hits), owner, limit, ranked) && k < |ranked|
    ensures var some := exists i :: 0 <= i < |hits| && For(hits[i], owner, ranked[k].source) && hits[i].score >= 0.0;
      && (IsBestHit(hits, owner, ranked[k].source, ranked[k].score) <==> some)
      && (!some ==> ranked[k].score == 0.0)
  {
    var best, full :| RanksVia(Nearest, Clamped(hits), owner, best, full) && ranked == Prefix(full, limit);
    assert ranked[k] == full[k] && IsEntry(best, full[k]);
    ClampedBest(hits, owner, best, ranked[k].source);
  }

  lemma ClampedBest(hits: seq<Hit>, owner: map<Chunk, Source>, best: map<Source, real>, s: Source)
    requires Aggregates(Nearest, Clamped(hits), owner, best) && s in best
    ensures var some := exists i :: 0 <= i < |hits| && For(hits[i], owner, s) && hits[i].score >= 0.0;
      (IsBestHit(hits, owner, s, best[s]) <==> some) && (!some ==> best[s] == 0.0)
  {
    var clamped := Clamped(hits);
    var i :| 0 <= i < |clamped| && For(clamped[i], owner, s) && clamped[i].score == best[s];
    assert For(hits[i], owner, s);
    forall j | 0 <= j < |hits| && For(hits[j], owner, s) ensures hits[j].score <= best[s] && 0.0 <= best[s] {
      assert For(clamped[j], owner, s) && !Better(Nearest, clamped[j].score, best[s]);
    }
    if j :| 0 <= j < |hits| && For(hits[j], owner, s) && hits[j].score >= 0.0 {
      if hits[i].score < 0.0 { assert hits[j].score == best[s] == 0.0; }
    }
  }

  ghost predicate ScoresAreBest(dir: Direction, scored: map<Chunk, real>, owner: map<Chunk, Source>, ranked: seq<Entry>) {
    forall i :: 0 <= i < |ranked| ==> IsBest(dir, scored, owner, ranked[i].source, ranked[i].score)
  }

  ghost predicate Omitted(s: Source, ranked: seq<Entry>) {
    forall i :: 0 <= i < |ranked| ==> ranked[i].source != s
  }

  ghost predicate OmittedAreNotBetter(dir: Direction, scored: map<Chunk, real>, owner: map<Chunk, Source>, ranked: seq<Entry>) {
    forall c, i :: c in scored && c in owner && Omitted(owner[c], ranked) && 0 <= i < |ranked| ==> !Better(dir, scored[c], ranked[i].score)
  }

  lemma CutIsExact(dir: Direction, scored: map<Chunk, real>, owner: map<Chunk, Source>, n: nat, hits: seq<Hit>,
                   best: map<Source, real>, full: seq<Entry>, limit: nat)
    requires TopN(dir, scored, n, hits) && Aggregates(dir, hits, owner, best) && IsRanking(dir, best, full)
    ensures ScoresAreBest(dir, scored, owner, Prefix(full, limit))
    ensures OmittedAreNotBetter(dir, scored, owner, Prefix(full, limit))
  {
    var ranked := Prefix(full, limit);
    forall i | 0 <= i < |ranked| ensures IsBest(dir, scored, owner, ranked[i].source, ranked[i].score) {
      assert ranked[i] == full[i];
      AggregateIsBest(dir, scored, owner, n, hits, best, ranked[i].source);
    }
    forall c, i | c in scored && c in owner && Omitted(owner[c], ranked) && 0 <= i < |ranked|
      ensures !Better(dir, scored[c], ranked[i].score)
    {
      OmittedIsNotBetter(dir, scored, owner, n, hits, best, full, limit, c, ranked[i]);
    }
  }

  lemma OmittedIsNotBetter(dir: Direction, scored: map<Chunk, real>, owner: map<Chunk, Source>, n: nat, hits: seq<Hit>,
                           best: map<Source, real>, full: seq<Entry>, limit: nat, c: Chunk, e: Entry)
    requires TopN(dir, scored, n, hits) && Aggregates(dir, hits, owner, best) && IsRanking(dir, best, full)
    requires c in scored && c in owner && e in Prefix(full, limit)
    requires Omitted(owner[c], Prefix(full, limit))
    ensures !Better(dir, scored[c], e.score)
  {
    CutShape(dir, best, full, limit);
    var s := owner[c];
    if s in best {
      AggregateIsBest(dir, scored, owner, n, hits, best, s);
      CutRanking(dir, best, full, limit, s, e);
    } else {
      var i :| 0 <= i < |hits| && For(hits[i], owner, e.source) && hits[i].score == best[e.source];
      assert !Fetched(hits, c);
    }
  }

  // ---------------------------------------------------------------- duality

  function Negated(hits: seq<Hit>): (r: seq<Hit>)
    ensures |r| == |hits| && forall i :: 0 <= i < |hits| ==> r[i] == Hit(hits[i].chunk, -hits[i].score)
  {
    seq(|hits|, i requires 0 <= i < |hits| => Hit(hits[i].chunk, -hits[i].score))
  }

  function NegatedEntries(es: seq<Entry>): (r: seq<Entry>)
    ensures |r| == |es| && forall i :: 0 <= i < |es| ==> r[i] == Entry(es[i].source, -es[i].score)
  {
    seq(|es|, i requires 0 <= i < |es| => Entry(es[i].source, -es[i].score))
  }

  function NegatedScores(best: map<Source, real>): map<Source, real> {
    map s | s in best :: -best[s]
  }

  lemma AggregatesDual(hits: seq<Hit>, owner: map<Chunk, Source>, best: map<Source, real>)
    requires Aggregates(Farthest, hits, owner, best)
    ensures Aggregates(Nearest, Negated(hits), owner, NegatedScores(best))
  {
    var hits', best': map<Source, real> := Negated(hits), NegatedScores(best);
    assert forall s :: s in best' <==> s in best;
    forall s | s in best' ensures exists i :: 0 <= i < |hits'| && For(hits'[i], owner, s) && hits'[i].score == best'[s] {
      var i :| 0 <= i < |hits| && For(hits[i], owner, s) && hits[i].score == best[s];
      assert For(hits'[i], owner, s) && hits'[i].score == best'[s];
    }
  }

  lemma RankingDual(best: map<Source, real>, full: seq<Entry>)
    requires IsRanking(Farthest, best, full)
    ensures IsRanking(Nearest, NegatedScores(best), NegatedEntries(full))
  {
    var best', flipped := NegatedScores(best), NegatedEntries(full);
    forall s | s in best' ensures Entry(s, best'[s]) in flipped {
      var i :| 0 <= i < |full| && full[i] == Entry(s, best[s]);
      assert flipped[i] == Entry(s, best'[s]);
    }
  }

  /** The farthest direction is the nearest one on negated scores, with the same
      tie-break. */
  lemma FarthestIsDualOfNearest(hits: seq<Hit>, owner: map<Chunk, Source>, limit: nat, far: seq<Entry>, near: seq<Entry>)
    requires RanksHits(Farthest, hits, owner, limit, far) && RanksHits(Nearest, Negated(hits), owner, limit, near)
    ensures near == NegatedEntries(far)
  {
    var best, full :| RanksVia(Farthest, hits, owner, best, full) && far == Prefix(full, limit);
    var best', full' :| RanksVia(Nearest, Negated(hits), owner, best', full') && near == Prefix(full', limit);
    RankedDual(hits, owner, best, full, best', full');
    CutDual(full, limit);
  }

  lemma RankedDual(hits: seq<Hit>, owner: map<Chunk, Source>, best: map<Source, real>, full: seq<Entry>, best': map<Source, real>, full': seq<Entry>)
    requires Aggregates(Farthest, hits, owner, best) && IsRanking(Farthest, best, full)
    requires Aggregates(Nearest, Negated(hits), owner, best') && IsRanking(Nearest, best', full')
    ensures full' == NegatedEntries(full)
  {
    AggregatesDual(hits, owner, best);
    AggregateUnique(Nearest, Negated(hits), owner, best', NegatedScores(best));
    RankingDual(best, full);
    RankingUnique(Nearest, best', full', NegatedEntries(full));
  }

  lemma CutDual(full: seq<Entry>, limit: nat)
    ensures Prefix(NegatedEntries(full), limit) == NegatedEntries(Prefix(full, limit))
  {
  }

  // -------------------------------------------------------------- over-fetch

  ghost function SourcesOf(chunks: set<Chunk>, owner: map<Chunk, Source>): set<Source> {
    set c | c in chunks && c in owner :: owner[c]
  }

  /** The chunks that can fill the fetch without leaving the sources `own`. */
  ghost function Reach(chunks: set<Chunk>, owner: map<Chunk, Source>, own: set<Source>): set<Chunk> {
    set c | c in chunks && (c in owner ==> owner[c] in own)
  }

  ghost function FetchedChunks(hits: seq<Hit>): set<Chunk> {
    set i | 0 <= i < |hits| :: hits[i].chunk
  }

  /** Whatever the scores, the fetch reaches as many sources as were asked for,
      or all there are. */
  ghost predicate OverFetchSuffices(chunks: set<Chunk>, owner: map<Chunk, Source>, limit: nat) {
    forall scored: map<Chunk, real>, hits ::
      scored.Keys == chunks && TopN(Nearest, scored, OVER_FETCH * limit, hits) ==>
        |SourcesOf(FetchedChunks(hits), owner)| >= Min(limit, |SourcesOf(chunks, owner)|)
  }

  /** No fewer sources than that can soak up the whole fetch. */
  ghost predicate NoFewSourcesFillFetch(chunks: set<Chunk>, owner: map<Chunk, Source>, limit: nat) {
    forall own :: own <= SourcesOf(chunks, owner) && |own| < Min(limit, |SourcesOf(chunks, owner)|) ==>
      |Reach(chunks, owner, own)| < Min(OVER_FETCH * limit, |chunks|)
  }

  lemma FetchSize(scored: map<Chunk, real>, n: nat, hits: seq<Hit>)
    requires TopN(Nearest, scored, n, hits)
    ensures |FetchedChunks(hits)| == Min(n, |scored|) && FetchedChunks(hits) <= scored.Keys
  {
    var chunks := seq(|hits|, i requires 0 <= i < |hits| => hits[i].chunk);
    DistinctCount(chunks);
    assert Elements(chunks) == FetchedChunks(hits) by {
      forall i | 0 <= i < |hits| ensures hits[i].chunk in Elements(chunks) { assert chunks[i] == hits[i].chunk; }
      forall c | c in Elements(chunks) ensures c in FetchedChunks(hits) { var i :| 0 <= i < |chunks| && chunks[i] == c; }
    }
  }

  lemma {:induction false} SubsetOfSize<T>(s: set<T>, n: nat) returns (r: set<T>)
    requires n <= |s|
    ensures r <= s && |r| == n
    decreases n
  {
    if n == 0 { return {}; }
    var x :| x in s;
    var rest := SubsetOfSize(s - {x}, n - 1);
    r := rest + {x};
  }

  lemma SmallerOrEqual<T>(a: set<T>, b: set<T>)
    requires a <= b
    ensures |a| <= |b|
  {
    assert b == a + (b - a);
  }

  /** Any set of chunks of the fetch size is the top of some scoring. */
  lemma SomeScoringFetches(chunks: set<Chunk>, n: nat, top: set<Chunk>) returns (scored: map<Chunk, real>, hits: seq<Hit>)
    requires top <= chunks && |top| == Min(n, |chunks|)
    ensures scored.Keys == chunks && TopN(Nearest, scored, n, hits) && FetchedChunks(hits) == top
  {
    scored := map c | c in chunks :: if c in top then 2.0 else 1.0;
    assert scored.Keys == chunks && |scored| == |scored.Keys|;
    var order := Enumerate(top);
    hits := seq(|order|, i requires 0 <= i < |order| => Hit(order[i], 2.0));
    ListedHits(top, order, hits);
    ListedIsTop(scored, n, top, order, hits);
  }

  lemma ListedIsTop(scored: map<Chunk, real>, n: nat, top: set<Chunk>, order: seq<Chunk>, hits: seq<Hit>)
    requires |top| == Min(n, |scored|) == |order| == |hits| && NoDuplicates(order)
    requires forall c :: c in scored ==> scored[c] == if c in top then 2.0 else 1.0
    requires forall i :: 0 <= i < |order| ==> hits[i] == Hit(order[i], 2.0) && order[i] in top && order[i] in scored
    requires forall c :: c in top ==> Fetched(hits, c)
    ensures TopN(Nearest, scored, n, hits)
  {
  }

  lemma ListedHits(top: set<Chunk>, order: seq<Chunk>, hits: seq<Hit>)
    requires Elements(order) == top && |hits| == |order| && forall i :: 0 <= i < |order| ==> hits[i] == Hit(order[i], 2.0)
    ensures forall i :: 0 <= i < |hits| ==> hits[i].chunk in top
    ensures FetchedChunks(hits) == top && forall c :: c in top ==> Fetched(hits, c)
  {
    forall i | 0 <= i < |hits| ensures hits[i].chunk in top { assert order[i] in Elements(order); }
    forall c | c in top ensures Fetched(hits, c) && c in FetchedChunks(hits) {
      var i :| 0 <= i < |order| && order[i] == c;
      assert hits[i].chunk == c;
    }
  }

  /** The over-fetch keeps its promise of enough sources exactly when no smaller
      group of sources owns enough of the matching chunks to fill the fetch. */
  lemma OverFetchSufficesExactlyWhen(chunks: set<Chunk>, owner: map<Chunk, Source>, limit: nat)
    ensures OverFetchSuffices(chunks, owner, limit) <==> NoFewSourcesFillFetch(chunks, owner, limit)
  {
    var n, want := OVER_FETCH * limit, Min(limit, |SourcesOf(chunks, owner)|);
    if NoFewSourcesFillFetch(chunks, owner, limit) {
      forall scored: map<Chunk, real>, hits | scored.Keys == chunks && TopN(Nearest, scored, n, hits)
        ensures |SourcesOf(FetchedChunks(hits), owner)| >= want
      {
        FetchSize(scored, n, hits);
        assert |scored| == |scored.Keys|;
        var own := SourcesOf(FetchedChunks(hits), owner);
        SmallerOrEqual(FetchedChunks(hits), Reach(chunks, owner, own));
        assert own <= SourcesOf(chunks, owner);
      }
    }
    if OverFetchSuffices(chunks, owner, limit) {
      forall own | own <= SourcesOf(chunks, owner) && |own| < want ensures |Reach(chunks, owner, own)| < Min(n, |chunks|) {
        if |Reach(chunks, owner, own)| >= Min(n, |chunks|) {
          var top := SubsetOfSize(Reach(chunks, owner, own), Min(n, |chunks|));
          var scored, hits := SomeScoringFetches(chunks, n, top);
          SmallerOrEqual(SourcesOf(top, owner), own);
          assert false;
        }
      }
    }
  }

  ghost function OwnedBy(chunks: set<Chunk>, owner: map<Chunk, Source>, s: Source): set<Chunk> {
    set c | c in chunks && c in owner && owner[c] == s
  }

  lemma ReachSplits(chunks: set<Chunk>, owner: map<Chunk, Source>, own: set<Source>, s: Source)
    requires chunks <= owner.Keys && s in own
    ensures |Reach(chunks, owner, own)| == |Reach(chunks, owner, own - {s})| + |OwnedBy(chunks, owner, s)|
  {
    var rest, its := Reach(chunks, owner, own - {s}), OwnedBy(chunks, owner, s);
    assert Reach(chunks, owner, own) == rest + its;
    assert rest !! its;
  }

  lemma OneMoreTimes(each: nat, n: nat)
    requires n > 0
    ensures each * n == each * (n - 1) + each
  {
  }

  lemma {:induction false} FewChunksEach(chunks: set<Chunk>, owner: map<Chunk, Source>, own: set<Source>, each: nat)
    requires chunks <= owner.Keys && forall s :: s in own ==> |OwnedBy(chunks, owner, s)| <= each
    ensures |Reach(chunks, owner, own)| <= each * |own|
    decreases own
  {
    if own == {} {
      assert Reach(chunks, owner, own) == {};
    } else {
      var s :| s in own;
      FewChunksEach(chunks, owner, own - {s}, each);
      ReachSplits(chunks, owner, own, s);
      OneMoreTimes(each, |own|);
    }
  }

  /** Four matching chunks per source at most, all of them mapped, are enough. */
  lemma FourChunksPerSourceSuffice(chunks: set<Chunk>, owner: map<Chunk, Source>, limit: nat)
    requires chunks <= owner.Keys && forall s :: s in SourcesOf(chunks, owner) ==> |OwnedBy(chunks, owner, s)| <= OVER_FETCH
    ensures OverFetchSuffices(chunks, owner, limit)
  {
    forall own | own <= SourcesOf(chunks, owner) && |own| < Min(limit, |SourcesOf(chunks, owner)|)
      ensures |Reach(chunks, owner, own)| < Min(OVER_FETCH * limit, |chunks|)
    {
      FewChunksEach(chunks, owner, own, OVER_FETCH);
      var s :| s in SourcesOf(chunks, owner) && s !in own by { if SourcesOf(chunks, owner) <= own { SmallerOrEqual(SourcesOf(chunks, owner), own); } }
      var c :| c in chunks && c in owner && owner[c] == s;
      SmallerOrEqual(Reach(chunks, owner, own), chunks - {c});
    }
    OverFetchSufficesExactlyWhen(chunks, owner, limit);
  }

  /** One source with four times the limit in chunks hides all the others, for
      every limit above one: the fetch reaches one source where two match. */
  lemma OneLongSourceHidesTheRest(chunks: set<Chunk>, owner: map<Chunk, Source>, limit: nat, s: Source)
    requires limit > 1 && chunks <= owner.Keys && |OwnedBy(chunks, owner, s)| >= OVER_FETCH * limit
    requires |SourcesOf(chunks, owner)| > 1
    ensures !OverFetchSuffices(chunks, owner, limit)
  {
    OverFetchSufficesExactlyWhen(chunks, owner, limit);
    var c :| c in OwnedBy(chunks, owner, s);
    assert owner[c] == s;
    assert {s} <= SourcesOf(chunks, owner);
    assert Reach(chunks, owner, {s}) == OwnedBy(chunks, owner, s);
  }
}
