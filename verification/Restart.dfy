/** Maintained counts across a restart: fold documents, write the counts blob,
    read it back in another process and fold further documents. */
module Restart {
  import opened Options
  import opened Ordering
  import opened Sums
  import opened BasisCodec
  import opened ProviderBlobs
  import C = Cooccurrence
  import T = TermCounts

  type Document = seq<Bytes>

  /** What a reader makes of a blob; bytes after the blob are not looked at. */
  function Reconstructed<T>(c: Codec<T>, blob: Bytes): Option<T> {
    match c.decode(blob)
    case Ok(x, _) => Some(x)
    case Err(_) => None
  }

  lemma ReconstructedExactlyWhenFits<T(!new)>(c: Codec<T>, x: T)
    requires Lawful(c)
    ensures Reconstructed(c, c.encode(x)) == Some(x) <==> c.fits(x)
  {
    ReturnedExactlyWhenFits(c, x);
  }

  /** A restart after the documents `a` is invisible to every continuation. */
  ghost predicate RestartInvisible<S(!new)>(c: Codec<S>, fold: (S, seq<Document>) -> S, p: S, a: seq<Document>) {
    var restarted := Reconstructed(c, c.encode(fold(p, a)));
    restarted.Some? && forall b :: fold(restarted.value, b) == fold(p, a + b)
  }

  ghost predicate Folds<S(!new)>(fold: (S, seq<Document>) -> S) {
    && (forall p :: fold(p, []) == p)
    && (forall p, a, b :: fold(p, a + b) == fold(fold(p, a), b))
  }

  lemma InvisibleExactlyWhenFits<S(!new)>(c: Codec<S>, fold: (S, seq<Document>) -> S, p: S, a: seq<Document>)
    requires Lawful(c) && Folds(fold)
    ensures RestartInvisible(c, fold, p, a) <==> c.fits(fold(p, a))
  {
    ReconstructedExactlyWhenFits(c, fold(p, a));
    if RestartInvisible(c, fold, p, a) {
      var restarted := Reconstructed(c, c.encode(fold(p, a))).value;
      assert a + [] == a && fold(restarted, []) == fold(p, a + []);
    }
  }

  // ------------------------------------------------------------------ PPMI

  /** The provider after one more `train`. */
  function TrainPpmi(p: PpmiCounts, doc: Document, w: nat): PpmiCounts {
    p.(coCount := C.BumpAll(p.coCount, C.DocumentPairs(doc, w)),
       totalPairs := p.totalPairs + |C.DocumentPairs(doc, w)|,
       termCount := C.CountAll(p.termCount, doc),
       totalTerms := p.totalTerms + |doc|)
  }

  function FoldPpmi(p: PpmiCounts, docs: seq<Document>, w: nat): PpmiCounts
    decreases docs
  {
    if docs == [] then p else FoldPpmi(TrainPpmi(p, docs[0], w), docs[1..], w)
  }

  lemma {:induction false} FoldPpmiSplits(p: PpmiCounts, a: seq<Document>, b: seq<Document>, w: nat)
    ensures FoldPpmi(p, a + b, w) == FoldPpmi(FoldPpmi(p, a, w), b, w)
    decreases a
  {
    if a == [] {
      assert a + b == b;
    } else {
      assert (a + b)[1..] == a[1..] + b;
      FoldPpmiSplits(TrainPpmi(p, a[0], w), a[1..], b, w);
    }
  }

  function AllTerms(docs: seq<Document>): Document {
    if docs == [] then [] else docs[0] + AllTerms(docs[1..])
  }

  lemma {:induction false} CountAllSplits(table: map<Bytes, nat>, a: Document, b: Document)
    ensures C.CountAll(table, a + b) == C.CountAll(C.CountAll(table, a), b)
  {
    if b == [] {
      assert a + b == a;
    } else {
      var n := |b| - 1;
      assert (a + b)[..|a + b| - 1] == a + b[..n];
      CountAllSplits(table, a, b[..n]);
    }
  }

  /** What is folded is what the provider's training computes: the trained table
      and the counts of all terms, on top of what was there; names and seed stay. */
  lemma {:induction false} FoldPpmiIsTraining(p: PpmiCounts, docs: seq<Document>, w: nat)
    ensures var r := FoldPpmi(p, docs, w);
      && r.modelId == p.modelId && r.modelVersion == p.modelVersion && r.seed == p.seed
      && r.coCount == C.TrainedTable(p.coCount, docs, w) && r.totalPairs == p.totalPairs + |C.AllPairs(docs, w)|
      && r.termCount == C.CountAll(p.termCount, AllTerms(docs)) && r.totalTerms == p.totalTerms + |AllTerms(docs)|
    decreases docs
  {
    if docs != [] {
      FoldPpmiIsTraining(TrainPpmi(p, docs[0], w), docs[1..], w);
      CountAllSplits(p.termCount, docs[0], AllTerms(docs[1..]));
    }
  }

  /** The running totals: after any documents the pair total is the sum of all
      table entries and the term total the sum of all term counts. */
  lemma PpmiTotals(p: PpmiCounts, docs: seq<Document>, w: nat)
    requires p.coCount == map[] && p.termCount == map[] && p.totalPairs == 0 && p.totalTerms == 0
    ensures var r := FoldPpmi(p, docs, w);
      && r.totalPairs == SumOver(r.coCount.Keys, t => if t in r.coCount then SumOver(r.coCount[t].Keys, c => if c in r.coCount[t] then r.coCount[t][c] else 0) else 0)
      && r.totalTerms == SumOver(r.termCount.Keys, t => if t in r.termCount then r.termCount[t] else 0)
  {
    FoldPpmiIsTraining(p, docs, w);
    C.TrainedFlat(map[], map[], docs, w, _ => [], 0);
    C.BumpAllTabulates(map[], multiset{}, C.AllPairs(docs, w));
    assert multiset{} + multiset(C.AllPairs(docs, w)) == multiset(C.AllPairs(docs, w));
    C.TableTotal(C.TrainedTable(map[], docs, w), C.AllPairs(docs, w));
    C.CountTotal(AllTerms(docs));
  }

  function PpmiFold(w: nat): (PpmiCounts, seq<Document>) -> PpmiCounts {
    (p: PpmiCounts, docs: seq<Document>) => FoldPpmi(p, docs, w)
  }

  lemma PpmiFolds(w: nat)
    ensures Folds(PpmiFold(w))
  {
    forall p, a, b ensures PpmiFold(w)(p, a + b) == PpmiFold(w)(PpmiFold(w)(p, a), b) { FoldPpmiSplits(p, a, b, w); }
  }

  /** A restart of the PPMI counts is invisible exactly when the counts fit their
      32- and 64-bit fields. */
  lemma PpmiRestartTransparent(p: PpmiCounts, a: seq<Document>, w: nat)
    ensures RestartInvisible(PpmiCountsBlob(), PpmiFold(w), p, a) <==> PpmiCountsBlob().fits(FoldPpmi(p, a, w))
  {
    PpmiCountsBlobLawful();
    PpmiFolds(w);
    InvisibleExactlyWhenFits(PpmiCountsBlob(), PpmiFold(w), p, a);
  }

  // ------------------------------------------------------- Random Indexing

  type Pattern = seq<nat>

  /** 32-bit floats as bit patterns: the pattern of zero, and addition. */
  datatype Floats = Floats(zero: nat, add: (nat, nat) -> nat)

  /** What a trained provider keeps adding: the floats, the index vectors, the
      dimension and the window. */
  datatype Indexing = Indexing(floats: Floats, index: Bytes -> Pattern, dim: nat, window: nat)

  function PatternAt(ri: Indexing, v: Pattern, d: int): nat {
    if 0 <= d < |v| then v[d] else ri.floats.zero
  }

  function AddPatterns(ri: Indexing, a: Pattern, b: Pattern): (r: Pattern)
    ensures |r| == ri.dim
    ensures forall d :: 0 <= d < ri.dim ==> r[d] == ri.floats.add(PatternAt(ri, a, d), PatternAt(ri, b, d))
  {
    seq<nat>(ri.dim, (d: nat) => ri.floats.add(PatternAt(ri, a, d), PatternAt(ri, b, d)))
  }

  function AccumulatePattern(ri: Indexing, vectors: map<Bytes, Pattern>, t: Bytes, c: Bytes): map<Bytes, Pattern> {
    vectors[t := AddPatterns(ri, if t in vectors then vectors[t] else [], ri.index(c))]
  }

  function AccumulatePatterns(ri: Indexing, vectors: map<Bytes, Pattern>, ps: seq<(Bytes, Bytes)>): map<Bytes, Pattern> {
    if ps == [] then vectors
    else AccumulatePattern(ri, AccumulatePatterns(ri, vectors, ps[..|ps| - 1]), ps[|ps| - 1].0, ps[|ps| - 1].1)
  }

  /** The provider after one more `train`. */
  function TrainRi(ri: Indexing, p: VectorBasis, doc: Document): VectorBasis {
    p.(vectors := AccumulatePatterns(ri, p.vectors, C.DocumentPairs(doc, ri.window)))
  }

  function FoldRi(ri: Indexing, p: VectorBasis, docs: seq<Document>): VectorBasis
    decreases docs
  {
    if docs == [] then p else FoldRi(ri, TrainRi(ri, p, docs[0]), docs[1..])
  }

  lemma {:induction false} FoldRiSplits(ri: Indexing, p: VectorBasis, a: seq<Document>, b: seq<Document>)
    ensures FoldRi(ri, p, a + b) == FoldRi(ri, FoldRi(ri, p, a), b)
    decreases a
  {
    if a == [] {
      assert a + b == b;
    } else {
      assert (a + b)[1..] == a[1..] + b;
      FoldRiSplits(ri, TrainRi(ri, p, a[0]), a[1..], b);
    }
  }

  function RiFold(ri: Indexing): (VectorBasis, seq<Document>) -> VectorBasis {
    (p: VectorBasis, docs: seq<Document>) => FoldRi(ri, p, docs)
  }

  lemma RiFolds(ri: Indexing)
    ensures Folds(RiFold(ri))
  {
    forall p, a, b ensures RiFold(ri)(p, a + b) == RiFold(ri)(RiFold(ri)(p, a), b) { FoldRiSplits(ri, p, a, b); }
  }

  /** A restart of the context vectors is invisible exactly when they fit the
      format, however many pairs were folded and whatever the float additions
      rounded. */
  lemma RandomIndexingRestartTransparent(ri: Indexing, p: VectorBasis, a: seq<Document>)
    ensures RestartInvisible(VectorBlob(RI_COUNTS_MAGIC), RiFold(ri), p, a) <==> VectorBlob(RI_COUNTS_MAGIC).fits(FoldRi(ri, p, a))
  {
    VectorBlobLawful(RI_COUNTS_MAGIC);
    RiFolds(ri);
    InvisibleExactlyWhenFits(VectorBlob(RI_COUNTS_MAGIC), RiFold(ri), p, a);
  }

  // The integer context vectors of `Cooccurrence` are these patterns as long as
  // float addition is exact, which it is up to 2^24.

  const EXACT_FLOAT: int := 16777216

  predicate Exact(n: int) {
    -EXACT_FLOAT <= n <= EXACT_FLOAT
  }

  /** Small integers are added exactly. */
  ghost predicate Represents(toBits: int -> nat, floats: Floats) {
    && toBits(0) == floats.zero
    && forall x, y :: Exact(x) && Exact(y) && Exact(x + y) ==> floats.add(toBits(x), toBits(y)) == toBits(x + y)
  }

  function Patterned(v: C.Vector, toBits: int -> nat): (r: Pattern)
    ensures |r| == |v| && forall i :: 0 <= i < |v| ==> r[i] == toBits(v[i])
  {
    seq<nat>(|v|, i requires 0 <= i < |v| => toBits(v[i]))
  }

  function AllPatterned(vocab: map<Bytes, C.Vector>, toBits: int -> nat): map<Bytes, Pattern> {
    map t | t in vocab :: Patterned(vocab[t], toBits)
  }

  ghost predicate Bounded(vocab: map<Bytes, C.Vector>, dim: nat, n: int) {
    forall t :: t in vocab ==> BoundedVector(vocab[t], dim, n)
  }

  ghost predicate BoundedVector(v: C.Vector, dim: nat, n: int) {
    |v| == dim && forall d :: 0 <= d < |v| ==> -n <= v[d] <= n
  }

  /** No component outgrows the number of pairs. */
  lemma {:induction false} PairsBoundComponents(ps: seq<(Bytes, Bytes)>, index: Bytes -> C.Vector, dim: nat)
    requires forall c :: C.Ternary(index(c))
    ensures Bounded(C.AccumulateAll(map[], ps, index, dim), dim, |ps|)
  {
    if ps != [] { PairsBoundComponents(ps[..|ps| - 1], index, dim); }
  }

  lemma SumPatterned(ri: Indexing, a: C.Vector, b: C.Vector, n: int, toBits: int -> nat)
    requires Represents(toBits, ri.floats) && BoundedVector(a, ri.dim, n) && BoundedVector(b, ri.dim, 1) && 0 <= n < EXACT_FLOAT
    ensures AddPatterns(ri, Patterned(a, toBits), Patterned(b, toBits)) == Patterned(C.Add(a, b, ri.dim), toBits)
  {
    var p, q, sum := Patterned(a, toBits), Patterned(b, toBits), C.Add(a, b, ri.dim);
    var left, right := AddPatterns(ri, p, q), Patterned(sum, toBits);
    assert |left| == |right|;
    forall d | 0 <= d < ri.dim ensures left[d] == right[d] {
      assert Exact(a[d]) && Exact(b[d]) && Exact(a[d] + b[d]);
      assert sum[d] == a[d] + b[d];
      assert left[d] == ri.floats.add(p[d], q[d]);
    }
  }

  lemma ZeroPatterned(ri: Indexing, b: C.Vector, toBits: int -> nat)
    requires Represents(toBits, ri.floats) && |b| == ri.dim
    ensures AddPatterns(ri, [], Patterned(b, toBits)) == AddPatterns(ri, Patterned(C.Zero(ri.dim), toBits), Patterned(b, toBits))
  {
    forall d | 0 <= d < ri.dim ensures PatternAt(ri, [], d) == PatternAt(ri, Patterned(C.Zero(ri.dim), toBits), d) { }
  }

  /** Up to 2^24 pairs the float accumulation is the integer accumulation. */
  lemma {:induction false} PatternsFollowIntegers(ri: Indexing, ps: seq<(Bytes, Bytes)>, index: Bytes -> C.Vector, toBits: int -> nat)
    requires Represents(toBits, ri.floats) && |ps| <= EXACT_FLOAT
    requires forall c :: C.Ternary(index(c)) && |index(c)| == ri.dim && ri.index(c) == Patterned(index(c), toBits)
    ensures AccumulatePatterns(ri, map[], ps) == AllPatterned(C.AccumulateAll(map[], ps, index, ri.dim), toBits)
  {
    if ps != [] {
      var n := |ps| - 1;
      var before, t, c := C.AccumulateAll(map[], ps[..n], index, ri.dim), ps[n].0, ps[n].1;
      PatternsFollowIntegers(ri, ps[..n], index, toBits);
      PairsBoundComponents(ps[..n], index, ri.dim);
      var start := if t in before then before[t] else C.Zero(ri.dim);
      assert BoundedVector(start, ri.dim, n) && BoundedVector(index(c), ri.dim, 1);
      SumPatterned(ri, start, index(c), n, toBits);
      ZeroPatterned(ri, index(c), toBits);
    }
  }

  lemma {:induction false} AccumulatePatternsSplits(ri: Indexing, vectors: map<Bytes, Pattern>, a: seq<(Bytes, Bytes)>, b: seq<(Bytes, Bytes)>)
    ensures AccumulatePatterns(ri, vectors, a + b) == AccumulatePatterns(ri, AccumulatePatterns(ri, vectors, a), b)
  {
    if b == [] {
      assert a + b == a;
    } else {
      var n := |b| - 1;
      assert (a + b)[..|a + b| - 1] == a + b[..n];
      AccumulatePatternsSplits(ri, vectors, a, b[..n]);
    }
  }

  lemma {:induction false} FoldRiFlat(ri: Indexing, p: VectorBasis, docs: seq<Document>)
    ensures FoldRi(ri, p, docs) == p.(vectors := AccumulatePatterns(ri, p.vectors, C.AllPairs(docs, ri.window)))
    decreases docs
  {
    if docs != [] {
      FoldRiFlat(ri, TrainRi(ri, p, docs[0]), docs[1..]);
      AccumulatePatternsSplits(ri, p.vectors, C.DocumentPairs(docs[0], ri.window), C.AllPairs(docs[1..], ri.window));
    }
  }

  /** So the folded vectors of a provider that starts empty are the patterns of the
      vectors its training computes, as long as no more pairs were visited. */
  lemma FoldRiIsTraining(ri: Indexing, p: VectorBasis, docs: seq<Document>, index: Bytes -> C.Vector, toBits: int -> nat)
    requires Represents(toBits, ri.floats) && |C.AllPairs(docs, ri.window)| <= EXACT_FLOAT && p.vectors == map[]
    requires forall c :: C.Ternary(index(c)) && |index(c)| == ri.dim && ri.index(c) == Patterned(index(c), toBits)
    ensures FoldRi(ri, p, docs) == p.(vectors := AllPatterned(C.TrainedVectors(map[], docs, ri.window, index, ri.dim), toBits))
  {
    FoldRiFlat(ri, p, docs);
    PatternsFollowIntegers(ri, C.AllPairs(docs, ri.window), index, toBits);
    C.TrainedFlat(map[], map[], docs, ri.window, index, ri.dim);
  }

  // -------------------------------------------------------- anchor builder

  /** The anchor after one more document. */
  function AnchorOne(b: NmfCounts, doc: Document): NmfCounts {
    if doc == [] then b else b.(vocab := T.AssignAll(b.vocab, doc), documentCount := b.documentCount + 1)
  }

  function FoldAnchor(b: NmfCounts, docs: seq<Document>): NmfCounts
    decreases docs
  {
    if docs == [] then b else FoldAnchor(AnchorOne(b, docs[0]), docs[1..])
  }

  lemma {:induction false} FoldAnchorSplits(p: NmfCounts, a: seq<Document>, b: seq<Document>)
    ensures FoldAnchor(p, a + b) == FoldAnchor(FoldAnchor(p, a), b)
    decreases a
  {
    if a == [] {
      assert a + b == b;
    } else {
      assert (a + b)[1..] == a[1..] + b;
      FoldAnchorSplits(AnchorOne(p, a[0]), a[1..], b);
    }
  }

  /** A builder restored from what was read continues by exactly this fold. */
  method ContinueAnchor(read: NmfCounts, docs: seq<Document>) returns (builder: T.TermDocumentCounts)
    ensures builder.vocab == FoldAnchor(read, docs).vocab && |builder.tfCounts| == FoldAnchor(read, docs).documentCount
    ensures fresh(builder)
  {
    builder := new T.TermDocumentCounts.FromRestored(read.vocab, read.documentCount);
    ghost var state := read;
    for k := 0 to |docs|
      invariant fresh(builder) && builder.vocab == state.vocab && |builder.tfCounts| == state.documentCount
      invariant FoldAnchor(state, docs[k..]) == FoldAnchor(read, docs)
    {
      assert docs[k..][0] == docs[k] && docs[k..][1..] == docs[k + 1..];
      builder.AddDocumentForCountsAnchor(docs[k], []);
      state := AnchorOne(state, docs[k]);
      assert docs[k] == [] ==> T.AssignAll(builder.vocab, docs[k]) == builder.vocab;
    }
  }

  function AnchorFold(): (NmfCounts, seq<Document>) -> NmfCounts {
    (p: NmfCounts, docs: seq<Document>) => FoldAnchor(p, docs)
  }

  lemma AnchorFolds()
    ensures Folds(AnchorFold())
  {
    forall p, a, b ensures AnchorFold()(p, a + b) == AnchorFold()(AnchorFold()(p, a), b) { FoldAnchorSplits(p, a, b); }
  }

  /** A restart of the anchor builder is invisible exactly when vocabulary and
      document count fit their fields. */
  lemma AnchorRestartTransparent(p: NmfCounts, a: seq<Document>)
    ensures RestartInvisible(NmfCountsBlob(), AnchorFold(), p, a) <==> NmfCountsBlob().fits(FoldAnchor(p, a))
  {
    NmfCountsBlobLawful();
    AnchorFolds();
    InvisibleExactlyWhenFits(NmfCountsBlob(), AnchorFold(), p, a);
  }
}
