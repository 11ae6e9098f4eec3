/** The two providers that run the window: PPMI counts pairs into a table,
    Random Indexing adds index vectors into context vectors. */
module CooccurrenceProviders {
  import opened Cooccurrence

  const RI_DIMENSION: nat := 2048
  const RI_NONZEROS: nat := 10

  function Lowered(terms: seq<Term>, lower: Term -> Term): (doc: seq<Term>)
    ensures |doc| == |terms| && forall i :: 0 <= i < |doc| ==> doc[i] == lower(terms[i])
  {
    seq(|terms|, i requires 0 <= i < |terms| => lower(terms[i]))
  }

  // ------------------------------------------------------------------ PPMI

  lemma BumpNext(co: Table, ps: seq<(Term, Term)>, t: Term, c: Term)
    ensures BumpAll(co, ps + [(t, c)]) == Bump(BumpAll(co, ps), t, c)
  {
    assert (ps + [(t, c)])[..|ps|] == ps;
  }

  lemma CountNext(table: map<Term, nat>, doc: seq<Term>, i: nat)
    requires i < |doc|
    ensures CountAll(table, doc[..i + 1]) == Increment(CountAll(table, doc[..i]), doc[i])
  {
    assert doc[..i + 1][..i] == doc[..i];
  }

  class PpmiProvider {
    var coCount: Table
    var termCount: map<Term, nat>
    var totalPairs: nat
    var totalTerms: nat

    constructor ()
      ensures coCount == map[] && termCount == map[] && totalPairs == 0 && totalTerms == 0
    {
      coCount, termCount, totalPairs, totalTerms := map[], map[], 0, 0;
    }

    /** One document adds its windowed pairs and its terms. */
    method Train(terms: seq<Term>, window: nat, lower: Term -> Term)
      modifies this
      ensures var doc := Lowered(terms, lower);
        && coCount == BumpAll(old(coCount), DocumentPairs(doc, window))
        && totalPairs == old(totalPairs) + |DocumentPairs(doc, window)|
        && termCount == CountAll(old(termCount), doc)
        && totalTerms == old(totalTerms) + |doc|
    {
      ghost var doc := Lowered(terms, lower);
      var n := |terms|;
      for i := 0 to n
        invariant coCount == BumpAll(old(coCount), PairsUpTo(doc, window, i))
        invariant totalPairs == old(totalPairs) + |PairsUpTo(doc, window, i)|
        invariant termCount == CountAll(old(termCount), doc[..i]) && totalTerms == old(totalTerms) + i
      {
        CountRow(terms, window, lower, i, PairsUpTo(doc, window, i), old(coCount));
        CountNext(old(termCount), doc, i);
        termCount := Increment(termCount, lower(terms[i]));
        totalTerms := totalTerms + 1;
      }
      assert doc[..n] == doc;
    }

    /** Count the pairs of one target. */
    method CountRow(terms: seq<Term>, window: nat, lower: Term -> Term, i: nat, ghost before: seq<(Term, Term)>, ghost co: Table)
      requires i < |terms| && coCount == BumpAll(co, before)
      modifies this`coCount, this`totalPairs
      ensures var row := RowPairs(Lowered(terms, lower), i, WindowStart(i, window), WindowStop(i, window, |terms|));
        coCount == BumpAll(co, before + row) && totalPairs == old(totalPairs) + |row|
    {
      ghost var doc := Lowered(terms, lower);
      var lo, stop := WindowStart(i, window), WindowStop(i, window, |terms|);
      assert before + [] == before;
      for j := lo to stop
        invariant coCount == BumpAll(co, before + RowPairs(doc, i, lo, j))
        invariant totalPairs == old(totalPairs) + |RowPairs(doc, i, lo, j)|
      {
        ghost var row := RowPairs(doc, i, lo, j);
        if j == i {
          assert RowPairs(doc, i, lo, j + 1) == row;
          continue;
        }
        assert before + RowPairs(doc, i, lo, j + 1) == before + row + [(doc[i], doc[j])];
        BumpNext(co, before + row, doc[i], doc[j]);
        coCount := Bump(coCount, lower(terms[i]), lower(terms[j]));
        totalPairs := totalPairs + 1;
      }
    }
  }

  // -------------------------------------------------------- Random Indexing

  function Sign(draw: nat): int {
    if draw % 2 == 1 then 1 else -1
  }

  /** The sign last written at position `d` by the first `k` (position, sign)
      draws, or 0. */
  function LastSign(draw: nat -> nat, k: nat, d: nat): int {
    if k == 0 then 0
    else if draw(2 * (k - 1)) % RI_DIMENSION == d then Sign(draw(2 * (k - 1) + 1))
    else LastSign(draw, k - 1, d)
  }

  /** The last of the ten pairs of draws that hits this position. */
  ghost predicate LastHit(draw: nat -> nat, i: int, d: int) {
    0 <= i < 10 && draw(2 * i) % 2048 == d && forall j :: i < j < 10 ==> draw(2 * j) % 2048 != d
  }

  /** Zero where no draw hits, and the sign of the last hit elsewhere. */
  ghost predicate IndexEntry(draw: nat -> nat, d: int, x: int) {
    && (x == 0 || exists i :: LastHit(draw, i, d))
    && forall i :: LastHit(draw, i, d) ==> x == if draw(2 * i + 1) % 2 == 1 then 1 else -1
  }

  lemma {:induction false} LastSignMeans(draw: nat -> nat, k: nat, d: nat)
    ensures LastSign(draw, k, d) == 0 <==> forall i :: 0 <= i < k ==> draw(2 * i) % 2048 != d
    ensures forall i :: 0 <= i < k && draw(2 * i) % 2048 == d && (forall j :: i < j < k ==> draw(2 * j) % 2048 != d) ==>
      LastSign(draw, k, d) == if draw(2 * i + 1) % 2 == 1 then 1 else -1
  {
    if k > 0 { LastSignMeans(draw, k - 1, d); }
  }

  ghost function Nonzeros(v: Vector): set<int> {
    set d | 0 <= d < |v| && v[d] != 0
  }

  /** The sparse index vector of a term from its generator's output: ternary, with
      2048 entries of which between one and ten are set.  A position no draw hits
      is zero; one that is hit has the sign drawn with its last hit, plus for an
      odd draw and minus for an even one. */
  method IndexVector(draw: nat -> nat) returns (vec: Vector)
    ensures |vec| == 2048 && Ternary(vec) && 1 <= |Nonzeros(vec)| <= 10
    ensures forall d :: 0 <= d < 2048 ==> IndexEntry(draw, d, vec[d])
  {
    var a := new int[RI_DIMENSION](_ => 0);
    ghost var touched: set<int> := {};
    for i := 0 to RI_NONZEROS
      invariant forall d :: 0 <= d < RI_DIMENSION ==> a[d] == LastSign(draw, i, d) && -1 <= a[d] <= 1
      invariant forall d :: d in touched <==> 0 <= d < RI_DIMENSION && a[d] != 0
      invariant |touched| <= i && (i > 0 ==> touched != {})
    {
      var pos := draw(2 * i) % RI_DIMENSION;
      a[pos] := Sign(draw(2 * i + 1));
      touched := touched + {pos};
    }
    vec := a[..];
    assert Nonzeros(vec) == touched;
    forall d | 0 <= d < 2048 ensures IndexEntry(draw, d, vec[d]) { EntryMeans(draw, d); }
  }

  lemma EntryMeans(draw: nat -> nat, d: nat)
    ensures IndexEntry(draw, d, LastSign(draw, 10, d))
  {
    LastSignMeans(draw, 10, d);
    if LastSign(draw, 10, d) != 0 {
      var i := SomeLastHit(draw, 10, d);
      assert LastHit(draw, i, d);
    }
  }

  lemma {:induction false} SomeLastHit(draw: nat -> nat, k: nat, d: nat) returns (i: nat)
    requires k <= 10 && LastSign(draw, k, d) != 0
    ensures i < k && draw(2 * i) % 2048 == d && forall j :: i < j < k ==> draw(2 * j) % 2048 != d
  {
    if draw(2 * (k - 1)) % 2048 == d { return k - 1; }
    i := SomeLastHit(draw, k - 1, d);
  }

  /** Each position's index vector, computed once. */
  function IndexVectors(keys: seq<Term>, index: Term -> Vector): (vectors: seq<Vector>)
    ensures |vectors| == |keys| && forall j :: 0 <= j < |keys| ==> vectors[j] == index(keys[j])
  {
    seq(|keys|, i requires 0 <= i < |keys| => index(keys[i]))
  }

  ghost predicate Precomputed(keys: seq<Term>, vectors: seq<Vector>, index: Term -> Vector) {
    |vectors| == |keys| && forall j :: 0 <= j < |keys| ==> vectors[j] == index(keys[j]) && |vectors[j]| == RI_DIMENSION
  }

  class RandomIndexingProvider {
    var vocab: map<Term, Vector>

    ghost predicate Valid()
      reads this
    {
      forall t :: t in vocab ==> |vocab[t]| == RI_DIMENSION
    }

    constructor ()
      ensures Valid() && vocab == map[]
    {
      vocab := map[];
    }

    /** The precomputed loop that writes each target back once is the naive
        accumulation, pair by pair. */
    method Train(terms: seq<Term>, window: nat, lower: Term -> Term, index: Term -> Vector)
      requires Valid() && forall t :: |index(t)| == RI_DIMENSION
      modifies this
      ensures Valid()
      ensures vocab == AccumulateAll(old(vocab), DocumentPairs(Lowered(terms, lower), window), index, RI_DIMENSION)
    {
      if |terms| == 0 { return; }
      var keys := Lowered(terms, lower);
      TrainTargets(keys, IndexVectors(keys, index), window, index);
    }

    method TrainTargets(keys: seq<Term>, vectors: seq<Vector>, window: nat, ghost index: Term -> Vector)
      requires Valid() && Precomputed(keys, vectors, index)
      modifies this
      ensures Valid() && vocab == AccumulateAll(old(vocab), DocumentPairs(keys, window), index, RI_DIMENSION)
    {
      for i := 0 to |keys|
        invariant Valid()
        invariant vocab == AccumulateAll(old(vocab), PairsUpTo(keys, window, i), index, RI_DIMENSION)
      {
        ghost var row := RowPairs(keys, i, WindowStart(i, window), WindowStop(i, window, |keys|));
        AccumulateAllSplits(old(vocab), PairsUpTo(keys, window, i), row, index, RI_DIMENSION);
        TrainTarget(keys, vectors, i, window, index);
        assert PairsUpTo(keys, window, i + 1) == PairsUpTo(keys, window, i) + row;
      }
    }

    /** One target: no neighbours, no entry; else one read and one write back. */
    method TrainTarget(keys: seq<Term>, vectors: seq<Vector>, i: nat, window: nat, ghost index: Term -> Vector)
      requires Valid() && i < |keys| && Precomputed(keys, vectors, index)
      modifies this
      ensures Valid()
      ensures vocab == AccumulateAll(old(vocab), RowPairs(keys, i, WindowStart(i, window), WindowStop(i, window, |keys|)), index, RI_DIMENSION)
    {
      var lo, stop := WindowStart(i, window), WindowStop(i, window, |keys|);
      if stop - 1 <= lo {
        assert lo == i && stop == i + 1 && RowPairs(keys, i, i, i) == [];
        return;
      }
      var cv := ContextOf(keys[i]);
      AccumulateRow(keys, vectors, i, lo, stop, cv, index);
      vocab := vocab[keys[i] := cv[..]];
    }

    method ContextOf(key: Term) returns (cv: array<int>)
      requires Valid()
      ensures fresh(cv) && cv.Length == RI_DIMENSION
      ensures cv[..] == if key in vocab then vocab[key] else Zero(RI_DIMENSION)
    {
      var start := if key in vocab then vocab[key] else Zero(RI_DIMENSION);
      cv := new int[RI_DIMENSION](d requires 0 <= d < RI_DIMENSION => start[d]);
    }

    /** Add every neighbour's vector to the target's, in ascending order. */
    method AccumulateRow(keys: seq<Term>, vectors: seq<Vector>, i: nat, lo: nat, stop: nat, cv: array<int>, ghost index: Term -> Vector)
      requires lo <= i < stop <= |keys| && lo + 1 < stop && Precomputed(keys, vectors, index)
      requires cv.Length == RI_DIMENSION && Pending(vocab, [], keys[i], cv[..], index)
      modifies cv
      ensures vocab[keys[i] := cv[..]] == AccumulateAll(vocab, RowPairs(keys, i, lo, stop), index, RI_DIMENSION)
    {
      for j := lo to stop
        invariant Pending(vocab, RowPairs(keys, i, lo, j), keys[i], cv[..], index)
        invariant j > lo + 1 || (j == lo + 1 && lo != i) ==> RowPairs(keys, i, lo, j) != []
      {
        ghost var row := RowPairs(keys, i, lo, j);
        if j == i {
          assert RowPairs(keys, i, lo, j + 1) == row;
          continue;
        }
        PendingNext(vocab, row, keys[i], cv[..], keys[j], index);
        AddInto(cv, vectors[j]);
      }
    }
  }

  /** `cv` is the target's vector after the pairs `ps`, not yet written back. */
  ghost predicate Pending(vocab: map<Term, Vector>, ps: seq<(Term, Term)>, t: Term, cv: Vector, index: Term -> Vector) {
    if ps == [] then cv == (if t in vocab then vocab[t] else Zero(RI_DIMENSION))
    else AccumulateAll(vocab, ps, index, RI_DIMENSION) == vocab[t := cv]
  }

  lemma PendingNext(vocab: map<Term, Vector>, ps: seq<(Term, Term)>, t: Term, cv: Vector, c: Term, index: Term -> Vector)
    requires Pending(vocab, ps, t, cv, index)
    ensures Pending(vocab, ps + [(t, c)], t, Add(cv, index(c), RI_DIMENSION), index)
  {
    assert (ps + [(t, c)])[..|ps|] == ps;
  }

  method AddInto(cv: array<int>, v: Vector)
    requires cv.Length == RI_DIMENSION == |v|
    modifies cv
    ensures cv[..] == Add(old(cv[..]), v, RI_DIMENSION)
  {
    for d := 0 to RI_DIMENSION
      invariant forall k :: 0 <= k < d ==> cv[k] == old(cv[k]) + v[k]
      invariant forall k :: d <= k < RI_DIMENSION ==> cv[k] == old(cv[k])
    {
      cv[d] := cv[d] + v[d];
    }
  }
}
