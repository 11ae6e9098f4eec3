/** The NMF provider: training, finalization over the reduced vocabulary, query
    fold-in and the persisted basis.  Floats are bit patterns; the factorizer and
    the float operations are given. */
module Nmf {
  import opened Options
  import opened Ordering
  import opened TermCounts
  import opened ReducedVocab
  import opened ProviderBlobs
  import opened BasisCodec

  type Vector = seq<nat>
  type Matrix = seq<Vector>

  datatype Factorization = Factorization(w: Matrix, h: Matrix, rank: nat)

  /** What finalization replaces as a whole. */
  datatype Basis = Basis(w: Matrix, h: Matrix, effectiveRank: nat, vocab: map<Term, nat>, docEmbeddings: Matrix)

  /** The operations taken from the substrate. */
  datatype Kernel = Kernel(
    factorize: (Matrix, nat) -> Factorization,
    weight: nat -> nat,
    normalize: Vector -> Vector,
    fold: (Vector, Vector) -> nat,
    isZero: nat -> bool)

  ghost predicate Rectangular(m: Matrix, rows: nat, columns: nat) {
    |m| == rows && forall i :: 0 <= i < rows ==> |m[i]| == columns
  }

  /** All that is assumed of the factorizer: the dimensions of its output. */
  ghost predicate Dimensioned(k: Kernel) {
    forall v: Matrix, rows: nat, columns: nat, rank: nat :: DimensionedAt(k, v, rows, columns, rank)
  }

  ghost predicate DimensionedAt(k: Kernel, v: Matrix, rows: nat, columns: nat, rank: nat) {
    Rectangular(v, rows, columns) && rows > 0 ==>
      var f := k.factorize(v, rank);
      f.rank == rank && Rectangular(f.w, rows, rank) && Rectangular(f.h, rank, columns)
  }

  /** Column `c` of the first `rows` rows; in bounds by its precondition. */
  function Column(m: Matrix, rows: nat, c: nat): (v: Vector)
    requires rows <= |m| && forall i :: 0 <= i < rows ==> c < |m[i]|
    ensures |v| == rows && forall i :: 0 <= i < rows ==> v[i] == m[i][c]
  {
    seq(rows, i requires 0 <= i < rows => m[i][c])
  }

  // ------------------------------------------------------- the TF matrix

  /** The weight of a term in a document; 0 is the bit pattern of 0.0. */
  function Cell(k: Kernel, doc: Document, t: Term): nat {
    if t in doc then k.weight(multiset(doc)[t]) else 0
  }

  ghost predicate TfMatrix(v: Matrix, k: Kernel, docs: seq<Document>, kept: seq<Term>) {
    && Rectangular(v, |kept|, |docs|)
    && forall r, d :: 0 <= r < |kept| && 0 <= d < |docs| ==> v[r][d] == Cell(k, docs[d], kept[r])
  }

  /** Filled for the documents before `n`, zero from there on. */
  ghost predicate Filled(v: Matrix, k: Kernel, docs: seq<Document>, kept: seq<Term>, n: nat) {
    && Rectangular(v, |kept|, |docs|)
    && forall r, d :: 0 <= r < |kept| && 0 <= d < |docs| ==>
         v[r][d] == Expected(k, docs, kept, n, r, d)
  }

  function Expected(k: Kernel, docs: seq<Document>, kept: seq<Term>, n: nat, r: nat, d: nat): nat
    requires r < |kept| && d < |docs|
  {
    if d < n then Cell(k, docs[d], kept[r]) else 0
  }

  method BuildTfMatrix(k: Kernel, tf: seq<map<nat, nat>>, vocab: map<Term, nat>, r: ReducedVocabulary, ghost docs: seq<Document>)
    returns (v: Matrix)
    requires Numbers(vocab, EncounterOrder(docs)) && RowsFor(tf, EncounterOrder(docs), docs) && Consistent(r, vocab)
    ensures TfMatrix(v, k, docs, r.keptTerms)
  {
    v := seq(|r.keptTerms|, _ => seq(|tf|, _ => 0));
    for d := 0 to |tf|
      invariant Filled(v, k, docs, r.keptTerms, d)
    {
      v := FillColumn(k, v, tf[d], d, vocab, r, docs);
    }
  }

  /** Write one document's entries, in whatever order its row yields them. */
  method FillColumn(k: Kernel, v: Matrix, row: map<nat, nat>, d: nat, vocab: map<Term, nat>, r: ReducedVocabulary, ghost docs: seq<Document>)
    returns (v': Matrix)
    requires d < |docs| && Numbers(vocab, EncounterOrder(docs)) && RowOf(row, EncounterOrder(docs), docs[d])
    requires Remaps(r.fullIndexToColumn, vocab, r.keptTerms) && Filled(v, k, docs, r.keptTerms, d)
    ensures Filled(v', k, docs, r.keptTerms, d + 1)
  {
    v' := v;
    var done: set<nat> := {};
    FillStart(v, k, row, d, vocab, r, docs);
    while done < row.Keys
      invariant Filling(v', v, k, row, done, d, vocab, r.keptTerms, |docs|)
      decreases row.Keys - done
    {
      var x :| x in row.Keys && x !in done;
      FillNext(v', v, k, row, done, x, d, vocab, r, |docs|);
      if x in r.fullIndexToColumn {
        var i := r.fullIndexToColumn[x];
        v' := WithCell(v', i, d, k.weight(row[x]));
      }
      done := done + {x};
    }
    FillDone(v', v, k, row, d, vocab, r, docs);
  }

  function WithCell(v: Matrix, i: nat, d: nat, x: nat): (v': Matrix)
    requires i < |v| && d < |v[i]|
    ensures |v'| == |v| && forall j :: 0 <= j < |v| ==> v'[j] == if j == i then v[i][d := x] else v[j]
  {
    var line: Vector := v[i][d := x];
    v[i := line]
  }

  /** Column `d` holds the entries of the indices done; the rest is untouched. */
  ghost predicate Filling(v': Matrix, v: Matrix, k: Kernel, row: map<nat, nat>, done: set<nat>, d: nat,
                          vocab: map<Term, nat>, kept: seq<Term>, n: nat) {
    && d < n && Rectangular(v, |kept|, n) && Rectangular(v', |kept|, n) && done <= row.Keys
    && (forall i :: 0 <= i < |kept| ==> kept[i] in vocab)
    && (forall i, c :: 0 <= i < |kept| && 0 <= c < n && c != d ==> v'[i][c] == v[i][c])
    && (forall i :: 0 <= i < |kept| ==> v'[i][d] == Entry(k, row, done, vocab[kept[i]]))
  }

  function Entry(k: Kernel, row: map<nat, nat>, done: set<nat>, x: nat): nat {
    if x in done && x in row then k.weight(row[x]) else 0
  }

  lemma FillStart(v: Matrix, k: Kernel, row: map<nat, nat>, d: nat, vocab: map<Term, nat>, r: ReducedVocabulary, docs: seq<Document>)
    requires d < |docs| && Filled(v, k, docs, r.keptTerms, d) && Remaps(r.fullIndexToColumn, vocab, r.keptTerms)
    ensures Filling(v, v, k, row, {}, d, vocab, r.keptTerms, |docs|)
  {
    assert forall i :: 0 <= i < |r.keptTerms| ==> v[i][d] == Expected(k, docs, r.keptTerms, d, i, d);
  }

  lemma FillNext(v': Matrix, v: Matrix, k: Kernel, row: map<nat, nat>, done: set<nat>, x: nat, d: nat,
                 vocab: map<Term, nat>, r: ReducedVocabulary, n: nat)
    requires Filling(v', v, k, row, done, d, vocab, r.keptTerms, n) && x in row
    requires Remaps(r.fullIndexToColumn, vocab, r.keptTerms)
    ensures x !in r.fullIndexToColumn ==> Filling(v', v, k, row, done + {x}, d, vocab, r.keptTerms, n)
    ensures x in r.fullIndexToColumn ==>
      Filling(WithCell(v', r.fullIndexToColumn[x], d, k.weight(row[x])), v, k, row, done + {x}, d, vocab, r.keptTerms, n)
  {
  }

  lemma FillDone(v': Matrix, v: Matrix, k: Kernel, row: map<nat, nat>, d: nat,
                 vocab: map<Term, nat>, r: ReducedVocabulary, docs: seq<Document>)
    requires d < |docs| && Filled(v, k, docs, r.keptTerms, d)
    requires Numbers(vocab, EncounterOrder(docs)) && RowOf(row, EncounterOrder(docs), docs[d])
    requires Filling(v', v, k, row, row.Keys, d, vocab, r.keptTerms, |docs|)
    ensures Filled(v', k, docs, r.keptTerms, d + 1)
  {
    forall i, c | 0 <= i < |r.keptTerms| && 0 <= c < |docs|
      ensures v'[i][c] == Expected(k, docs, r.keptTerms, d + 1, i, c)
    {
      if c == d {
        CellOf(k, row, vocab, EncounterOrder(docs), docs[d], r.keptTerms[i]);
      } else {
        assert v'[i][c] == v[i][c] == Expected(k, docs, r.keptTerms, d, i, c);
      }
    }
  }

  /** The entry at a term's index is the weight of its count. */
  lemma CellOf(k: Kernel, row: map<nat, nat>, vocab: map<Term, nat>, order: seq<Term>, doc: Document, t: Term)
    requires Numbers(vocab, order) && RowOf(row, order, doc) && t in vocab
    ensures Entry(k, row, row.Keys, vocab[t]) == Cell(k, doc, t)
  {
    IndexOf(vocab, order, t);
    assert Frequency(row, vocab[t]) == multiset(doc)[t];
  }

  // ---------------------------------------------------------- fold-in

  /** How often each basis column occurs among the query terms. */
  function RawCounts(basisVocab: map<Term, nat>, terms: seq<Term>): map<nat, nat> {
    if terms == [] then map[] else
      var before, t := RawCounts(basisVocab, terms[..|terms| - 1]), terms[|terms| - 1];
      if t in basisVocab then before[basisVocab[t] := Frequency(before, basisVocab[t]) + 1] else before
  }

  lemma {:induction false} RawCountsInRange(basisVocab: map<Term, nat>, terms: seq<Term>, n: nat)
    requires forall t :: t in basisVocab ==> basisVocab[t] < n
    ensures forall i :: i in RawCounts(basisVocab, terms) ==> i < n
  {
    if terms != [] { RawCountsInRange(basisVocab, terms[..|terms| - 1], n); }
  }

  /** The shape every embedding relies on. */
  ghost predicate BasisShape(w: Matrix, effectiveRank: nat, basisVocab: map<Term, nat>) {
    && Rectangular(w, |basisVocab|, effectiveRank)
    && (forall t :: t in basisVocab ==> basisVocab[t] < |basisVocab|)
  }

  /** Each column of W folded with the query vector. */
  function Folded(k: Kernel, w: Matrix, effectiveRank: nat, q: Vector): (v: Vector)
    requires forall i :: 0 <= i < |w| ==> |w[i]| == effectiveRank
    ensures |v| == effectiveRank && forall r :: 0 <= r < effectiveRank ==> v[r] == k.fold(Column(w, |w|, r), q)
  {
    seq<nat>(effectiveRank, r requires 0 <= r < effectiveRank => k.fold(Column(w, |w|, r), q))
  }

  /** The dense query vector: the weight of every counted column. */
  function Weighed(k: Kernel, raw: map<nat, nat>, n: nat): (q: Vector)
    ensures |q| == n && forall i :: 0 <= i < n ==> q[i] == Entry(k, raw, raw.Keys, i)
  {
    seq<nat>(n, (i: nat) => Entry(k, raw, raw.Keys, i))
  }

  /** The embedding of a query, as the fold-in defines it. */
  function QueryEmbedding(k: Kernel, w: Matrix, effectiveRank: nat, basisVocab: map<Term, nat>, terms: seq<Term>): Option<Vector>
    requires BasisShape(w, effectiveRank, basisVocab)
  {
    var raw := RawCounts(basisVocab, terms);
    if w == [] || raw == map[] then None
    else Settle(k, Folded(k, w, effectiveRank, Weighed(k, raw, |w|)))
  }

  /** An all-zero vector is no embedding, before and after normalization. */
  function Settle(k: Kernel, folded: Vector): Option<Vector> {
    if forall i :: 0 <= i < |folded| ==> k.isZero(folded[i]) then None else
      var v := k.normalize(folded);
      if forall i :: 0 <= i < |v| ==> k.isZero(v[i]) then None else Some(v)
  }

  /** The places of a document whose term has this basis column. */
  ghost function Places(basisVocab: map<Term, nat>, terms: seq<Term>, column: nat): set<nat> {
    set p | 0 <= p < |terms| && terms[p] in basisVocab && basisVocab[terms[p]] == column
  }

  lemma {:induction false} RawCountsOccurrences(basisVocab: map<Term, nat>, terms: seq<Term>, column: nat)
    ensures var raw := RawCounts(basisVocab, terms);
      Frequency(raw, column) == |Places(basisVocab, terms, column)| && (column in raw <==> |Places(basisVocab, terms, column)| > 0)
  {
    if terms != [] {
      var n := |terms| - 1;
      var before, after := Places(basisVocab, terms[..n], column), Places(basisVocab, terms, column);
      RawCountsOccurrences(basisVocab, terms[..n], column);
      assert n !in before;
      if terms[n] in basisVocab && basisVocab[terms[n]] == column {
        assert after == before + {n};
      } else {
        assert after == before;
      }
    }
  }

  /** The query vector weighs how often each column occurs in the query; a column
      that does not occur is zero. */
  ghost predicate WeighsOccurrences(k: Kernel, basisVocab: map<Term, nat>, terms: seq<Term>, q: Vector) {
    && |q| == |basisVocab|
    && forall i :: 0 <= i < |q| ==> q[i] == OccurrenceWeight(k, |Places(basisVocab, terms, i)|)
  }

  function OccurrenceWeight(k: Kernel, n: nat): nat {
    if n == 0 then 0 else k.weight(n)
  }

  /** One entry per rank: the fold of W's column with the query vector. */
  ghost predicate FoldsColumns(k: Kernel, w: Matrix, rank: nat, q: Vector, v: Vector) {
    && |v| == rank
    && forall r :: 0 <= r < rank ==> FoldsColumn(k, w, r, q, v[r])
  }

  ghost predicate FoldsColumn(k: Kernel, w: Matrix, r: nat, q: Vector, x: nat) {
    exists column :: IsColumn(w, r, column) && x == k.fold(column, q)
  }

  ghost predicate IsColumn(w: Matrix, r: nat, column: Vector) {
    |column| == |w| && forall i :: 0 <= i < |w| ==> r < |w[i]| && column[i] == w[i][r]
  }

  ghost predicate AllZero(k: Kernel, v: Vector) {
    forall i :: 0 <= i < |v| ==> k.isZero(v[i])
  }

  /** What a query embedding is: the normalized fold of the weighed query; there is
      none without a basis, without a known term, or if either vector is zero. */
  ghost predicate EmbedsQuery(k: Kernel, w: Matrix, rank: nat, basisVocab: map<Term, nat>, terms: seq<Term>, e: Option<Vector>) {
    exists q, v :: WeighsOccurrences(k, basisVocab, terms, q) && FoldsColumns(k, w, rank, q, v)
      && e == if w == [] || (forall p :: 0 <= p < |terms| ==> terms[p] !in basisVocab) || AllZero(k, v) || AllZero(k, k.normalize(v))
              then None else Some(k.normalize(v))
  }

  lemma QueryEmbeddingMeans(k: Kernel, w: Matrix, rank: nat, basisVocab: map<Term, nat>, terms: seq<Term>)
    requires BasisShape(w, rank, basisVocab)
    ensures EmbedsQuery(k, w, rank, basisVocab, terms, QueryEmbedding(k, w, rank, basisVocab, terms))
  {
    var raw := RawCounts(basisVocab, terms);
    var q := Weighed(k, raw, |w|);
    var v := Folded(k, w, rank, q);
    forall i | 0 <= i < |q| ensures q[i] == OccurrenceWeight(k, |Places(basisVocab, terms, i)|) {
      RawCountsOccurrences(basisVocab, terms, i);
    }
    assert WeighsOccurrences(k, basisVocab, terms, q);
    forall r | 0 <= r < rank ensures FoldsColumn(k, w, r, q, v[r]) {
      assert IsColumn(w, r, Column(w, |w|, r));
    }
    assert FoldsColumns(k, w, rank, q, v);
    NoKnownTerm(basisVocab, terms);
  }

  lemma NoKnownTerm(basisVocab: map<Term, nat>, terms: seq<Term>)
    ensures RawCounts(basisVocab, terms) == map[] <==> forall p :: 0 <= p < |terms| ==> terms[p] !in basisVocab
  {
    var raw := RawCounts(basisVocab, terms);
    if p :| 0 <= p < |terms| && terms[p] in basisVocab {
      RawCountsOccurrences(basisVocab, terms, basisVocab[terms[p]]);
      assert p in Places(basisVocab, terms, basisVocab[terms[p]]);
    }
    forall i | i in raw ensures exists p :: 0 <= p < |terms| && terms[p] in basisVocab {
      RawCountsOccurrences(basisVocab, terms, i);
      var p :| p in Places(basisVocab, terms, i);
    }
  }

  /** The factors are the factorizer's output on the TF matrix of the documents
      over the kept terms. */
  ghost predicate Factors(k: Kernel, docs: seq<Document>, kept: seq<Term>, rank: nat, w: Matrix, h: Matrix) {
    exists v :: TfMatrix(v, k, docs, kept) && FactorsOf(k, v, rank, w, h)
  }

  predicate FactorsOf(k: Kernel, v: Matrix, rank: nat, w: Matrix, h: Matrix) {
    var f := k.factorize(v, rank);
    w == f.w && h == f.h
  }

  /** The post-finalize state agrees with itself. */
  ghost predicate Shaped(k: Kernel, b: Basis) {
    && BasisShape(b.w, b.effectiveRank, b.vocab)
    && Rectangular(b.h, b.effectiveRank, |b.docEmbeddings|)
    && (b.effectiveRank == 0 <==> b.w == []) && (b.effectiveRank == 0 ==> b.docEmbeddings == [])
    && (forall d :: 0 <= d < |b.docEmbeddings| ==> b.docEmbeddings[d] == k.normalize(Column(b.h, b.effectiveRank, d)))
  }

  /** What the factorizer's dimensions give. */
  lemma FactorsAreShaped(k: Kernel, v: Matrix, docs: seq<Document>, reduced: ReducedVocabulary, rank: nat)
    requires Dimensioned(k) && TfMatrix(v, k, docs, reduced.keptTerms) && Numbers(reduced.termToColumn, reduced.keptTerms)
    requires reduced.keptTerms != [] && 0 < rank
    ensures var f := k.factorize(v, rank);
      && f.rank == rank && f.w != [] && Rectangular(f.h, rank, |docs|)
      && BasisShape(f.w, rank, reduced.termToColumn) && Factors(k, docs, reduced.keptTerms, rank, f.w, f.h)
  {
    assert FactorsOf(k, v, rank, k.factorize(v, rank).w, k.factorize(v, rank).h);
    assert DimensionedAt(k, v, |reduced.keptTerms|, |docs|, rank);
    forall t | t in reduced.termToColumn ensures reduced.termToColumn[t] < |reduced.termToColumn| {
      IndexOf(reduced.termToColumn, reduced.keptTerms, t);
    }
  }

  /** What finalization leaves: the factors over the kept terms, or nothing. */
  ghost predicate FactorsKept(k: Kernel, docs: seq<Document>, kept: seq<Term>, rank: nat, b: Basis) {
    if kept == [] then b == Basis([], [], 0, map[], [])
    else
      && Numbers(b.vocab, kept) && b.effectiveRank == Min(rank, Min(|kept|, |docs|)) > 0
      && Factors(k, docs, kept, b.effectiveRank, b.w, b.h)
  }

  // ------------------------------------------------------------ histories

  datatype Op = OpTrain(terms: Document) | OpFinalize

  /** The documents recorded; one without terms is not. */
  function Recorded(ops: seq<Op>): seq<Document> {
    if ops == [] then [] else
      var before := Recorded(ops[..|ops| - 1]);
      match ops[|ops| - 1]
      case OpTrain(terms) => if terms == [] then before else before + [terms]
      case OpFinalize => before
  }

  /** How many of them the last finalization saw. */
  function Finalized(ops: seq<Op>): nat {
    if ops == [] then 0 else
      match ops[|ops| - 1]
      case OpTrain(_) => Finalized(ops[..|ops| - 1])
      case OpFinalize => |Recorded(ops[..|ops| - 1])|
  }

  /** No document with terms was trained since the last finalization, or ever. */
  predicate UpToDate(ops: seq<Op>) {
    if ops == [] then true else
      match ops[|ops| - 1]
      case OpTrain(terms) => terms == [] && UpToDate(ops[..|ops| - 1])
      case OpFinalize => true
  }

  lemma RecordedNext(ops: seq<Op>, terms: Document)
    ensures Recorded(ops + [OpTrain(terms)]) == if terms == [] then Recorded(ops) else Recorded(ops) + [terms]
    ensures Finalized(ops + [OpTrain(terms)]) == Finalized(ops)
  {
    assert (ops + [OpTrain(terms)])[..|ops|] == ops;
  }

  lemma {:induction false} FinalizedAllExactlyWhenUpToDate(ops: seq<Op>)
    ensures Finalized(ops) <= |Recorded(ops)|
    ensures Finalized(ops) == |Recorded(ops)| <==> UpToDate(ops)
  {
    if ops != [] { FinalizedAllExactlyWhenUpToDate(ops[..|ops| - 1]); }
  }

  // --------------------------------------------------------- the provider

  /** The outcome of code that indexes a vector: a value, or a panic. */
  datatype Access<+T> = Panics | Returns(value: T)

  /** The document accessor over a basis and a document count. */
  function DocumentAccess(b: Basis, documentCount: nat, i: nat): Access<Option<Vector>> {
    if b.w == [] || i >= documentCount then Returns(None)
    else if i < |b.docEmbeddings| then Returns(Some(b.docEmbeddings[i]))
    else Panics
  }

  class NmfProvider {
    const kernel: Kernel
    const rank: nat
    const cap: nat
    const counts: TermDocumentCounts
    var basis: Basis
    ghost var history: seq<Op>

    /** Holds in every state of every run: the counts are those of the recorded
        documents, and the basis has a column for each one the last finalization
        saw, or there is none. */
    ghost predicate Valid()
      reads this, counts
    {
      && rank > 0 && counts.Holds(Recorded(history)) && Shaped(kernel, basis)
      && |basis.docEmbeddings| == (if basis.w == [] then 0 else Finalized(history))
    }

    constructor (kernel: Kernel, rank: nat)
      ensures Valid() && history == [] && fresh(counts)
      ensures this.kernel == kernel
    {
      this.kernel := kernel;
      this.rank := if rank > 1 then rank else 1;
      cap := DEFAULT_REDUCED_VOCAB_CAP;
      counts := new TermDocumentCounts();
      basis := Basis([], [], 0, map[], []);
      history := [];
    }

    method Train(terms: Document)
      requires Valid()
      modifies this`history, counts
      ensures Valid() && history == old(history) + [OpTrain(terms)]
    {
      RecordedNext(history, terms);
      counts.AddDocument(terms, Recorded(history));
      history := history + [OpTrain(terms)];
    }

    /** Factor the TF matrix of the reduced vocabulary, or reset everything when
        the reduction is empty. */
    method Finalize()
      requires Valid() && Dimensioned(kernel)
      modifies this`basis, this`history
      ensures Valid() && history == old(history) + [OpFinalize]
      ensures Recorded(history) != [] ==>
        FactorsKept(kernel, Recorded(history), Kept(counts.vocab, counts.dfCounts, cap, EncounterOrder(Recorded(history))), rank, basis)
    {
      ghost var docs := Recorded(history);
      FinalizedAllExactlyWhenUpToDate(history);
      assert (history + [OpFinalize])[..|history|] == history;
      var n := |counts.tfCounts|;
      if n == 0 || |counts.vocab| == 0 {
        NoTermsNoDocuments(counts, docs);
      } else {
        basis := Reduce(kernel, rank, cap, counts.vocab, counts.dfCounts, counts.tfCounts, docs);
      }
      history := history + [OpFinalize];
    }

    /** A recorded document's embedding: none out of range or without a basis, and
        a panic for a document the last finalization did not see. */
    method DocumentEmbedding(i: nat) returns (a: Access<Option<Vector>>)
      requires Valid()
      ensures a == DocumentAccess(basis, |Recorded(history)|, i)
      ensures a == if basis.w == [] || i >= |Recorded(history)| then Returns(None)
                   else if i < Finalized(history) then Returns(Some(kernel.normalize(Column(basis.h, basis.effectiveRank, i))))
                   else Panics
    {
      if basis.w == [] || i >= |counts.tfCounts| { return Returns(None); }
      if i >= |basis.docEmbeddings| { return Panics; }
      return Returns(Some(basis.docEmbeddings[i]));
    }

    /** The query embedding, by the loops of the fold-in; no index they use is out
        of bounds. */
    method EmbedFloat(terms: seq<Term>) returns (e: Option<Vector>)
      requires Valid()
      ensures e == QueryEmbedding(kernel, basis.w, basis.effectiveRank, basis.vocab, terms)
      ensures EmbedsQuery(kernel, basis.w, basis.effectiveRank, basis.vocab, terms, e)
    {
      QueryEmbeddingMeans(kernel, basis.w, basis.effectiveRank, basis.vocab, terms);
      if basis.w == [] || terms == [] { return None; }
      var raw := CountColumns(basis.vocab, terms);
      if raw == map[] { return None; }
      var q := WeighQuery(kernel, raw, basis.vocab, terms);
      var folded := FoldColumns(kernel, basis.w, basis.effectiveRank, q);
      e := Settle(kernel, folded);
    }

    /** The record the basis blob is written from. */
    function Record(modelId: Bytes, modelVersion: Bytes, maxIterations: nat, seed: nat, projectionSeed: nat): NmfBasis
      reads this, counts
    {
      NmfBasis(modelId, modelVersion, rank, maxIterations, seed, projectionSeed,
               |counts.tfCounts|, basis.effectiveRank, basis.vocab, basis.w, basis.h)
    }

    constructor Restored(kernel: Kernel, b: NmfBasis, embeddings: Matrix)
      ensures this.kernel == kernel && basis == Basis(b.w, b.h, b.effectiveRank, b.vocab, embeddings)
      ensures counts.vocab == b.vocab && |counts.tfCounts| == b.documentCount && fresh(counts)
    {
      this.kernel := kernel;
      rank := if b.rank > 1 then b.rank else 1;
      cap := DEFAULT_REDUCED_VOCAB_CAP;
      counts := new TermDocumentCounts.FromRestored(b.vocab, b.documentCount);
      basis := Basis(b.w, b.h, b.effectiveRank, b.vocab, embeddings);
      history := [];
    }
  }

  /** Each of the first `rank` rows of H has a column for each of `n` documents. */
  predicate ColumnsReach(h: Matrix, rank: nat, n: nat) {
    n > 0 ==> rank <= |h| && forall r :: 0 <= r < rank ==> n <= |h[r]|
  }

  predicate RebuildInBounds(b: NmfBasis) {
    ColumnsReach(b.h, b.effectiveRank, b.documentCount)
  }

  function DocumentColumns(k: Kernel, h: Matrix, rank: nat, n: nat): (es: Matrix)
    requires ColumnsReach(h, rank, n)
    ensures |es| == n && forall d :: 0 <= d < n ==> es[d] == k.normalize(Column(h, rank, d))
  {
    seq(n, d requires 0 <= d < n => k.normalize(Column(h, rank, d)))
  }

  /** The basis of a provider rebuilt from a record. */
  function Rebuilt(k: Kernel, b: NmfBasis): (r: Access<Basis>)
    ensures r.Returns? <==> RebuildInBounds(b)
  {
    if !RebuildInBounds(b) then Panics
    else Returns(Basis(b.w, b.h, b.effectiveRank, b.vocab, DocumentColumns(k, b.h, b.effectiveRank, b.documentCount)))
  }

  /** Rebuild a provider from a record.  The rebuild loop indexes the rows of H once
      per recorded document, and panics where they are too few or too short. */
  method FromRecord(kernel: Kernel, b: NmfBasis) returns (p: Access<NmfProvider>)
    ensures p.Panics? <==> Rebuilt(kernel, b).Panics?
    ensures p.Returns? ==>
      && fresh(p.value) && p.value.kernel == kernel && p.value.basis == Rebuilt(kernel, b).value
      && p.value.counts.vocab == b.vocab && |p.value.counts.tfCounts| == b.documentCount
  {
    var embeddings := EmbedDocuments(kernel, b.h, b.effectiveRank, b.documentCount);
    if embeddings.Panics? { return Panics; }
    var provider := new NmfProvider.Restored(kernel, b, embeddings.value);
    p := Returns(provider);
  }

  /** Select the reduced vocabulary and factor over it; an empty reduction leaves
      an empty basis. */
  method Reduce(kernel: Kernel, rank: nat, cap: nat, vocab: map<Term, nat>, df: map<nat, nat>, tf: seq<map<nat, nat>>, ghost docs: seq<Document>)
    returns (b: Basis)
    requires rank > 0 && Dimensioned(kernel) && docs != []
    requires Numbers(vocab, EncounterOrder(docs)) && RowsFor(tf, EncounterOrder(docs), docs)
    ensures FactorsKept(kernel, docs, Kept(vocab, df, cap, EncounterOrder(docs)), rank, b)
    ensures Shaped(kernel, b) && |b.docEmbeddings| == if b.effectiveRank == 0 then 0 else |docs|
  {
    var reduced := Select(vocab, df, cap);
    SelectionIsKept(reduced, vocab, df, cap, EncounterOrder(docs));
    if |reduced.keptTerms| == 0 {
      return Basis([], [], 0, map[], []);
    }
    b := Factor(kernel, rank, vocab, tf, reduced, docs);
  }

  /** Factor the matrix of the reduced vocabulary and read the document columns. */
  method Factor(kernel: Kernel, rank: nat, vocab: map<Term, nat>, tf: seq<map<nat, nat>>, reduced: ReducedVocabulary, ghost docs: seq<Document>)
    returns (b: Basis)
    requires rank > 0 && Dimensioned(kernel) && docs != []
    requires Numbers(vocab, EncounterOrder(docs)) && RowsFor(tf, EncounterOrder(docs), docs)
    requires Consistent(reduced, vocab) && reduced.keptTerms != []
    ensures FactorsKept(kernel, docs, reduced.keptTerms, rank, b)
    ensures Shaped(kernel, b) && |b.docEmbeddings| == |docs|
  {
    var v := BuildTfMatrix(kernel, tf, vocab, reduced, docs);
    var k := Min(rank, Min(|reduced.keptTerms|, |tf|));
    var f := kernel.factorize(v, k);
    FactorsAreShaped(kernel, v, docs, reduced, k);
    var embeddings := EmbedDocuments(kernel, f.h, k, |tf|);
    assert ColumnsReach(f.h, k, |tf|);
    b := Basis(f.w, f.h, f.rank, reduced.termToColumn, embeddings.value);
  }

  /** The normalized columns of H, one per document. */
  method EmbedDocuments(kernel: Kernel, h: Matrix, rank: nat, n: nat) returns (es: Access<Matrix>)
    ensures es.Returns? <==> ColumnsReach(h, rank, n)
    ensures es.Returns? ==> es.value == DocumentColumns(kernel, h, rank, n)
  {
    var columns: Matrix := [];
    for d := 0 to n
      invariant ColumnsReach(h, rank, d)
      invariant |columns| == d && forall c :: 0 <= c < d ==> columns[c] == kernel.normalize(Column(h, rank, c))
    {
      var column: Vector := [];
      for r := 0 to rank
        invariant r <= |h| && forall i :: 0 <= i < r ==> d < |h[i]|
        invariant |column| == r && forall i :: 0 <= i < r ==> column[i] == h[i][d]
      {
        if r >= |h| || d >= |h[r]| { return Panics; }
        column := column + [h[r][d]];
      }
      assert column == Column(h, rank, d);
      columns := columns + [kernel.normalize(column)];
    }
    assert columns == DocumentColumns(kernel, h, rank, n);
    es := Returns(columns);
  }

  method FoldColumns(kernel: Kernel, w: Matrix, effectiveRank: nat, q: Vector) returns (folded: Vector)
    requires forall i :: 0 <= i < |w| ==> |w[i]| == effectiveRank
    ensures folded == Folded(kernel, w, effectiveRank, q)
  {
    folded := [];
    for r := 0 to effectiveRank
      invariant |folded| == r && forall i :: 0 <= i < r ==> folded[i] == kernel.fold(Column(w, |w|, i), q)
    {
      var column := [];
      for i := 0 to |w|
        invariant |column| == i && forall j :: 0 <= j < i ==> column[j] == w[j][r]
      {
        column := column + [w[i][r]];
      }
      assert column == Column(w, |w|, r);
      folded := folded + [kernel.fold(column, q)];
    }
  }

  lemma SomeTermMet(docs: seq<Document>)
    requires docs != [] && docs[|docs| - 1] != []
    ensures EncounterOrder(docs) != []
  {
    MeetAllExtends(EncounterOrder(docs[..|docs| - 1]), docs[|docs| - 1]);
    assert docs[|docs| - 1][0] in EncounterOrder(docs);
  }

  lemma NoTermsNoDocuments(counts: TermDocumentCounts, docs: seq<Document>)
    requires counts.Holds(docs) && (|counts.tfCounts| == 0 || |counts.vocab| == 0)
    ensures docs == []
  {
    if |counts.vocab| == 0 {
      assert EncounterOrder(docs) == [];
      if docs != [] {
        SomeTermMet(docs);
        assert false;
      }
    }
  }

  method CountColumns(basisVocab: map<Term, nat>, terms: seq<Term>) returns (raw: map<nat, nat>)
    ensures raw == RawCounts(basisVocab, terms)
  {
    raw := map[];
    for i := 0 to |terms|
      invariant raw == RawCounts(basisVocab, terms[..i])
    {
      assert terms[..i + 1][..i] == terms[..i];
      if terms[i] in basisVocab {
        raw := raw[basisVocab[terms[i]] := Frequency(raw, basisVocab[terms[i]]) + 1];
      }
    }
    assert terms[..|terms|] == terms;
  }

  /** Write the weight of every counted column into a dense query vector. */
  method WeighQuery(kernel: Kernel, raw: map<nat, nat>, basisVocab: map<Term, nat>, ghost terms: seq<Term>) returns (q: Vector)
    requires raw == RawCounts(basisVocab, terms) && forall t :: t in basisVocab ==> basisVocab[t] < |basisVocab|
    ensures q == Weighed(kernel, raw, |basisVocab|)
  {
    RawCountsInRange(basisVocab, terms, |basisVocab|);
    q := seq(|basisVocab|, _ => 0);
    var left := raw.Keys;
    while left != {}
      invariant left <= raw.Keys && |q| == |basisVocab|
      invariant forall i :: 0 <= i < |q| ==> q[i] == if i in raw && i !in left then kernel.weight(raw[i]) else 0
      decreases left
    {
      var i :| i in left;
      q := q[i := kernel.weight(raw[i])];
      left := left - {i};
    }
  }

  // ------------------------------------------------------------ round trip

  /** In every run from `new`, a basis written now can be rebuilt without running
      off H if and only if no document with terms was trained since the last
      finalization, or there is no basis. */
  lemma RebuildExactlyWhenUpToDate(p: NmfProvider, id: Bytes, version: Bytes, iterations: nat, seed: nat, projection: nat)
    requires p.Valid()
    ensures RebuildInBounds(p.Record(id, version, iterations, seed, projection)) <==> p.basis.w == [] || UpToDate(p.history)
  {
    FinalizedAllExactlyWhenUpToDate(p.history);
    var b := p.Record(id, version, iterations, seed, projection);
    if p.basis.effectiveRank > 0 {
      assert |b.h[0]| == |p.basis.docEmbeddings|;
    }
  }

  /** In every run from `new`, no document makes the accessor panic if and only if
      no document with terms was trained since the last finalization, or there is
      no basis. */
  lemma AccessorInBoundsExactlyWhenUpToDate(p: NmfProvider)
    requires p.Valid()
    ensures (forall i :: DocumentAccess(p.basis, |p.counts.tfCounts|, i).Returns?) <==> p.basis.w == [] || UpToDate(p.history)
  {
    FinalizedAllExactlyWhenUpToDate(p.history);
    if p.basis.w != [] && !UpToDate(p.history) {
      assert DocumentAccess(p.basis, |p.counts.tfCounts|, |p.basis.docEmbeddings|).Panics?;
    }
  }

  /** Two bases embed every query alike and answer for every document alike. */
  ghost predicate EmbedsAlike(k: Kernel, a: Basis, m: nat, b: Basis, n: nat) {
    && BasisShape(a.w, a.effectiveRank, a.vocab) && BasisShape(b.w, b.effectiveRank, b.vocab)
    && (forall terms :: QueryEmbedding(k, a.w, a.effectiveRank, a.vocab, terms) == QueryEmbedding(k, b.w, b.effectiveRank, b.vocab, terms))
    && (forall i :: DocumentAccess(a, m, i) == DocumentAccess(b, n, i))
  }

  /** Written and read back, the record is the one written, it can be rebuilt, and
      the rebuilt provider embeds every query and every document as the original. */
  ghost predicate Restores(p: NmfProvider, b: NmfBasis)
    reads p, p.counts
  {
    match NmfBasisBlob().decode(NmfBasisBlob().encode(b))
    case Ok(back, _) =>
      && back == b && Rebuilt(p.kernel, back).Returns?
      && EmbedsAlike(p.kernel, p.basis, |p.counts.tfCounts|, Rebuilt(p.kernel, back).value, back.documentCount)
    case Err(_) => false
  }

  /** End to end: it does so if and only if the record fits the format and no
      document with terms was trained since the last finalization, or there is no
      basis. */
  lemma RestoredExactlyWhenFitsAndUpToDate(p: NmfProvider, id: Bytes, version: Bytes, iterations: nat, seed: nat, projection: nat)
    requires p.Valid()
    ensures var b := p.Record(id, version, iterations, seed, projection);
      Restores(p, b) <==> NmfBasisBlob().fits(b) && (p.basis.w == [] || UpToDate(p.history))
  {
    var b := p.Record(id, version, iterations, seed, projection);
    BlobReturnsRecord(b);
    RebuildExactlyWhenUpToDate(p, id, version, iterations, seed, projection);
    if RebuildInBounds(b) { RebuiltEmbedsAlike(p, id, version, iterations, seed, projection); }
  }

  /** The blob returns the record it was written from if and only if the record
      fits. */
  lemma BlobReturnsRecord(b: NmfBasis)
    ensures var back := NmfBasisBlob().decode(NmfBasisBlob().encode(b));
      back.Ok? && back.value == b <==> NmfBasisBlob().fits(b)
  {
    NmfBasisBlobLawful();
    ReturnedExactlyWhenFits(NmfBasisBlob(), b);
  }

  lemma RebuiltEmbedsAlike(p: NmfProvider, id: Bytes, version: Bytes, iterations: nat, seed: nat, projection: nat)
    requires p.Valid() && RebuildInBounds(p.Record(id, version, iterations, seed, projection))
    ensures var b := p.Record(id, version, iterations, seed, projection);
      EmbedsAlike(p.kernel, p.basis, |p.counts.tfCounts|, Rebuilt(p.kernel, b).value, b.documentCount)
  {
    RebuildExactlyWhenUpToDate(p, id, version, iterations, seed, projection);
    FinalizedAllExactlyWhenUpToDate(p.history);
  }

  /** The embeddings alone can survive a record that does not fit: a rank of 2^32
      or more is cut on the way, and no embedding reads it. */
  lemma CutRankStillEmbeds(k: Kernel, b: NmfBasis, cut: NmfBasis)
    requires cut == b.(rank := b.rank % Pow256(4)) && NmfBasisBlob().fits(cut)
    ensures NmfBasisBlob().decode(NmfBasisBlob().encode(b)).Ok? && NmfBasisBlob().decode(NmfBasisBlob().encode(b)).value == cut
    ensures Rebuilt(k, cut) == Rebuilt(k, b)
  {
    RebuiltIgnoresRank(k, b, b.rank % Pow256(4));
    CutRankEncodes(b);
    NmfBasisBlobLawful();
    SameBlobReturns(NmfBasisBlob(), b, cut);
  }

  lemma RebuiltIgnoresRank(k: Kernel, b: NmfBasis, rank: nat)
    ensures Rebuilt(k, b.(rank := rank)) == Rebuilt(k, b)
  {
  }

  lemma CutRankEncodes(b: NmfBasis)
    ensures NmfBasisBlob().encode(b) == NmfBasisBlob().encode(b.(rank := b.rank % Pow256(4)))
  {
    EncodingCuts(4, b.rank);
    NmfBasisEncodes(b);
    NmfBasisEncodes(b.(rank := b.rank % Pow256(4)));
  }

  lemma {:induction false} EncodingCuts(k: nat, n: nat)
    ensures EncodeLe(k, n) == EncodeLe(k, n % Pow256(k))
  {
    if k > 0 {
      var m := Pow256(k - 1);
      EncodingCuts(k - 1, n / 256);
      EncodingCuts(k - 1, n % (256 * m) / 256);
      DigitsOfCut(n, m);
    }
  }

  lemma DigitsOfCut(n: nat, m: nat)
    requires m > 0
    ensures n % (256 * m) % 256 == n % 256 && n % (256 * m) / 256 == n / 256 % m
  {
    var q, r := n / (256 * m), n % (256 * m);
    assert n == 256 * (m * q) + r;
    assert n / 256 == m * q + r / 256;
    assert r / 256 < m;
    ModUnique(n / 256, m, q, r / 256);
  }

  lemma ModUnique(x: nat, m: nat, q: nat, r: nat)
    requires m > 0 && x == m * q + r && r < m
    ensures x % m == r
  {
    var d := x / m - q;
    assert m * d == m * (x / m) - m * q == r - x % m;
    if d > 0 { Grows(m, d); } else if d < 0 { Grows(m, -d); }
  }

  lemma Grows(m: nat, d: nat)
    requires d > 0
    ensures m * d >= m
  {
  }
}
