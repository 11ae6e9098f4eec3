/** The shared reduced vocabulary of the factorization providers: the top terms
    by document frequency, in a fixed column order. */
module ReducedVocab {
  import opened Ordering
  import opened TermCounts

  const DEFAULT_REDUCED_VOCAB_CAP: nat := 512

  datatype ReducedVocabulary = ReducedVocabulary(
    keptTerms: seq<Term>, termToColumn: map<Term, nat>, fullIndexToColumn: map<nat, nat>)

  function TermFrequency(vocab: map<Term, nat>, df: map<nat, nat>, t: Term): nat {
    if t in vocab then Frequency(df, vocab[t]) else 0
  }

  /** Higher document frequency first, then smaller bytes. */
  function Ranks(vocab: map<Term, nat>, df: map<nat, nat>): (Term, Term) -> bool {
    (a, b) =>
      var x, y := TermFrequency(vocab, df, a), TermFrequency(vocab, df, b);
      x > y || (x == y && BytesLess(a, b))
  }

  lemma RanksIsStrictTotalOrder(vocab: map<Term, nat>, df: map<nat, nat>)
    ensures StrictTotalOrder(Ranks(vocab, df))
  {
    BytesLessIsStrictTotalOrder();
    var less := Ranks(vocab, df);
    forall a, b, c | less(a, b) && less(b, c) ensures less(a, c) {
      if TermFrequency(vocab, df, a) == TermFrequency(vocab, df, c) { BytesLessTransitive(a, b, c); }
    }
    forall a, b ensures less(a, b) || a == b || less(b, a) { BytesLessConnected(a, b); }
    forall a ensures !less(a, a) { BytesLessIrreflexive(a); }
  }

  /** The terms that are not hapaxes: those in two documents or more. */
  ghost function Frequent(vocab: map<Term, nat>, df: map<nat, nat>): set<Term> {
    set t | t in vocab && TermFrequency(vocab, df, t) >= 2
  }

  /** The frequent terms, best first. */
  ghost function Ranking(vocab: map<Term, nat>, df: map<nat, nat>): (r: seq<Term>)
    ensures Ascending(r, Ranks(vocab, df)) && NoDuplicates(r)
    ensures Elements(r) == Frequent(vocab, df)
  {
    RanksIsStrictTotalOrder(vocab, df);
    Sorted(Frequent(vocab, df), Ranks(vocab, df))
  }

  // ------------------------------------------------------------ selection

  /** Collect the candidates in whatever order the map yields them. */
  method Candidates(vocab: map<Term, nat>, df: map<nat, nat>) returns (terms: seq<Term>)
    ensures NoDuplicates(terms) && Elements(terms) == Frequent(vocab, df)
  {
    terms := [];
    var left := vocab.Keys;
    while left != {}
      invariant left <= vocab.Keys && NoDuplicates(terms)
      invariant Elements(terms) == Frequent(vocab, df) - left
      decreases left
    {
      var t :| t in left;
      if Frequency(df, vocab[t]) >= 2 {
        OneMoreAtEnd(terms, t);
        terms := terms + [t];
      }
      left := left - {t};
    }
  }

  /** The columns are numbered contiguously and the maps agree with them. */
  ghost predicate Consistent(r: ReducedVocabulary, vocab: map<Term, nat>) {
    Numbers(r.termToColumn, r.keptTerms) && Remaps(r.fullIndexToColumn, vocab, r.keptTerms)
  }

  /** The index of every kept term leads to its column, and nowhere else. */
  ghost predicate Remaps(fullIndexToColumn: map<nat, nat>, vocab: map<Term, nat>, kept: seq<Term>) {
    && (forall i :: 0 <= i < |kept| ==>
         kept[i] in vocab && vocab[kept[i]] in fullIndexToColumn && fullIndexToColumn[vocab[kept[i]]] == i)
    && (forall k :: k in fullIndexToColumn ==>
         fullIndexToColumn[k] < |kept| && kept[fullIndexToColumn[k]] in vocab && vocab[kept[fullIndexToColumn[k]]] == k)
  }

  /** At or below the cap, each place holds a term of that index, or nothing if
      there is none. */
  ghost predicate PlacedByIndex(kept: seq<Term>, vocab: map<Term, nat>) {
    && |kept| == |vocab|
    && forall i :: 0 <= i < |kept| ==> Placed(kept[i], vocab, i) || (kept[i] == [] && forall t :: t in vocab ==> vocab[t] != i)
  }

  predicate Placed(t: Term, vocab: map<Term, nat>, i: nat) {
    t in vocab && vocab[t] == i
  }

  /** Every index of a kept term leads to the last column with that index. */
  ghost predicate LastColumns(fullIndexToColumn: map<nat, nat>, vocab: map<Term, nat>, kept: seq<Term>) {
    && (forall i :: 0 <= i < |kept| ==> kept[i] in vocab && vocab[kept[i]] in fullIndexToColumn)
    && (forall k :: k in fullIndexToColumn ==> LastColumn(fullIndexToColumn[k], vocab, kept, k))
  }

  ghost predicate LastColumn(col: nat, vocab: map<Term, nat>, kept: seq<Term>, k: nat) {
    && col < |kept| && Placed(kept[col], vocab, k)
    && forall j :: col < j < |kept| ==> !Placed(kept[j], vocab, k)
  }

  function Identity(n: nat): (r: map<nat, nat>)
    ensures forall k :: k in r <==> 0 <= k < n
    ensures forall k :: k in r ==> r[k] == k
  {
    if n == 0 then map[] else Identity(n - 1)[n - 1 := n - 1]
  }

  predicate FitsCap(n: nat, cap: nat) {
    n <= Max(cap, 1)
  }

  /** At or below the cap, everything by index; above it, the head of the ranking
      in contiguous columns. */
  ghost predicate Selected(r: ReducedVocabulary, vocab: map<Term, nat>, df: map<nat, nat>, cap: nat) {
    if FitsCap(|vocab|, cap) then
      PlacedByIndex(r.keptTerms, vocab) && r.termToColumn == vocab && r.fullIndexToColumn == Identity(|vocab|)
    else
      && r.keptTerms == Ranking(vocab, df)[..Min(cap, |Ranking(vocab, df)|)]
      && Numbers(r.termToColumn, r.keptTerms) && LastColumns(r.fullIndexToColumn, vocab, r.keptTerms)
  }

  /** For any vocabulary, gaps and repeated indices included. */
  method Select(vocab: map<Term, nat>, df: map<nat, nat>, cap: nat) returns (r: ReducedVocabulary)
    ensures Selected(r, vocab, df, cap)
  {
    var n := |vocab|;
    if FitsCap(n, cap) {
      r := KeepAll(vocab);
      return;
    }
    var candidates := Ranked(vocab, df);
    r := NumberColumns(vocab, candidates[..Min(cap, |candidates|)]);
  }

  /** Where the vocabulary numbers its terms, as the builder's does, the columns are
      contiguous, the maps agree with the list, and the list is the one expected,
      whatever order the map iterates in. */
  lemma SelectionIsKept(r: ReducedVocabulary, vocab: map<Term, nat>, df: map<nat, nat>, cap: nat, order: seq<Term>)
    requires Selected(r, vocab, df, cap) && Numbers(vocab, order)
    ensures Consistent(r, vocab) && r.keptTerms == Kept(vocab, df, cap, order)
  {
    if FitsCap(|vocab|, cap) {
      PlacedInOrder(r.keptTerms, vocab, order);
    } else {
      OneColumnPerIndex(r.fullIndexToColumn, vocab, r.keptTerms, order);
    }
  }

  lemma PlacedInOrder(kept: seq<Term>, vocab: map<Term, nat>, order: seq<Term>)
    requires PlacedByIndex(kept, vocab) && Numbers(vocab, order)
    ensures kept == order
  {
    forall i | 0 <= i < |order| ensures kept[i] == order[i] {
      assert Placed(order[i], vocab, i);
      assert Placed(kept[i], vocab, i);
      IndexOf(vocab, order, kept[i]);
    }
  }

  lemma OneColumnPerIndex(fullIndexToColumn: map<nat, nat>, vocab: map<Term, nat>, kept: seq<Term>, order: seq<Term>)
    requires LastColumns(fullIndexToColumn, vocab, kept) && NoDuplicates(kept) && Numbers(vocab, order)
    ensures Remaps(fullIndexToColumn, vocab, kept)
  {
    forall i | 0 <= i < |kept| ensures fullIndexToColumn[vocab[kept[i]]] == i {
      var col := fullIndexToColumn[vocab[kept[i]]];
      assert LastColumn(col, vocab, kept, vocab[kept[i]]);
      IndexOf(vocab, order, kept[i]);
      IndexOf(vocab, order, kept[col]);
    }
    forall k | k in fullIndexToColumn ensures LastColumn(fullIndexToColumn[k], vocab, kept, k) { }
  }

  /** Sorting the candidates gives the ranking, whatever order they came in. */
  method Ranked(vocab: map<Term, nat>, df: map<nat, nat>) returns (candidates: seq<Term>)
    ensures candidates == Ranking(vocab, df)
    ensures forall i :: 0 <= i < |candidates| ==> candidates[i] in vocab
  {
    candidates := Candidates(vocab, df);
    RanksIsStrictTotalOrder(vocab, df);
    SortingAnyEnumeration(candidates, Frequent(vocab, df), Ranks(vocab, df));
    candidates := SortBy(candidates, Ranks(vocab, df));
    forall i | 0 <= i < |candidates| ensures candidates[i] in vocab { assert candidates[i] in Elements(candidates); }
  }

  ghost function Kept(vocab: map<Term, nat>, df: map<nat, nat>, cap: nat, order: seq<Term>): seq<Term> {
    if FitsCap(|vocab|, cap) then order
    else Ranking(vocab, df)[..Min(cap, |Ranking(vocab, df)|)]
  }

  method KeepAll(vocab: map<Term, nat>) returns (r: ReducedVocabulary)
    ensures PlacedByIndex(r.keptTerms, vocab) && r.termToColumn == vocab
    ensures r.fullIndexToColumn == Identity(|vocab|)
  {
    var n := |vocab|;
    var kept := new Term[n](_ => []);
    var left := vocab.Keys;
    while left != {}
      invariant left <= vocab.Keys
      invariant forall i :: 0 <= i < n ==>
        Placed(kept[i], vocab, i) || (kept[i] == [] && forall t :: t in vocab && t !in left ==> vocab[t] != i)
      decreases left
    {
      var t :| t in left;
      if vocab[t] < n { kept[vocab[t]] := t; }
      left := left - {t};
    }
    var identity: map<nat, nat> := map[];
    for i := 0 to n
      invariant identity == Identity(i)
    {
      identity := identity[i := i];
    }
    r := ReducedVocabulary(kept[..], vocab, identity);
  }

  method NumberColumns(vocab: map<Term, nat>, kept: seq<Term>) returns (r: ReducedVocabulary)
    requires NoDuplicates(kept) && forall i :: 0 <= i < |kept| ==> kept[i] in vocab
    ensures r.keptTerms == kept && Numbers(r.termToColumn, kept) && LastColumns(r.fullIndexToColumn, vocab, kept)
  {
    var termToColumn: map<Term, nat>, fullIndexToColumn: map<nat, nat> := map[], map[];
    for col := 0 to |kept|
      invariant Numbers(termToColumn, kept[..col]) && LastColumns(fullIndexToColumn, vocab, kept[..col])
    {
      ColumnNext(vocab, kept, col, termToColumn, fullIndexToColumn);
      termToColumn := termToColumn[kept[col] := col];
      fullIndexToColumn := fullIndexToColumn[vocab[kept[col]] := col];
    }
    assert kept[..|kept|] == kept;
    r := ReducedVocabulary(kept, termToColumn, fullIndexToColumn);
  }

  lemma ColumnNext(vocab: map<Term, nat>, kept: seq<Term>, col: nat, termToColumn: map<Term, nat>, fullIndexToColumn: map<nat, nat>)
    requires NoDuplicates(kept) && col < |kept| && kept[col] in vocab
    requires Numbers(termToColumn, kept[..col]) && LastColumns(fullIndexToColumn, vocab, kept[..col])
    ensures Numbers(termToColumn[kept[col] := col], kept[..col + 1])
    ensures LastColumns(fullIndexToColumn[vocab[kept[col]] := col], vocab, kept[..col + 1])
  {
    assert kept[..col + 1] == kept[..col] + [kept[col]];
    assert kept[col] !in kept[..col];
    NumbersNext(termToColumn, kept[..col], kept[col]);
    LastColumnsNext(vocab, kept[..col], kept[col], fullIndexToColumn);
  }

  lemma LastColumnsNext(vocab: map<Term, nat>, kept: seq<Term>, t: Term, fullIndexToColumn: map<nat, nat>)
    requires t in vocab && LastColumns(fullIndexToColumn, vocab, kept)
    ensures LastColumns(fullIndexToColumn[vocab[t] := |kept|], vocab, kept + [t])
  {
    var after := fullIndexToColumn[vocab[t] := |kept|];
    forall k | k in after ensures LastColumn(after[k], vocab, kept + [t], k) {
      if k != vocab[t] { assert LastColumn(fullIndexToColumn[k], vocab, kept, k); }
    }
  }

  // ------------------------------------------------------------- top K

  /** Above the cap, every kept term comes before every dropped term that is not
      a hapax: no better term is left out. */
  lemma KeptIsTopK(vocab: map<Term, nat>, df: map<nat, nat>, cap: nat, order: seq<Term>, a: Term, b: Term)
    requires Numbers(vocab, order) && |vocab| > cap && |vocab| > 1
    requires a in Kept(vocab, df, cap, order)
    requires b in vocab && b !in Kept(vocab, df, cap, order) && TermFrequency(vocab, df, b) >= 2
    ensures TermFrequency(vocab, df, a) >= 2 && Ranks(vocab, df)(a, b)
    ensures |Kept(vocab, df, cap, order)| == cap
  {
    var r := Ranking(vocab, df);
    assert b in Elements(r);
    var i :| 0 <= i < |r| && r[i] == b;
    var j :| 0 <= j < Min(cap, |r|) && r[j] == a;
    assert r[j] in Elements(r);
    assert forall k :: 0 <= k < Min(cap, |r|) ==> r[..Min(cap, |r|)][k] == r[k];
  }

  /** Fed from the builder, the frequency that ranks a term is the number of
      documents it occurs in. */
  lemma RankedByDocumentFrequency(counts: TermDocumentCounts, docs: seq<Document>, t: Term)
    requires counts.Holds(docs)
    ensures TermFrequency(counts.vocab, counts.dfCounts, t) == DocumentFrequency(docs, t)
  {
    EncounterOrderTerms(docs, t);
    var order := EncounterOrder(docs);
    if t in order {
      var i :| 0 <= i < |order| && order[i] == t;
    }
  }

  /** While the vocabulary stays above it, a larger cap only extends the list. */
  lemma LargerCapExtends(vocab: map<Term, nat>, df: map<nat, nat>, cap: nat, cap': nat, order: seq<Term>)
    requires Numbers(vocab, order) && cap <= cap' && |vocab| > cap' && |vocab| > 1
    ensures Kept(vocab, df, cap, order) <= Kept(vocab, df, cap', order)
  {
    HeadsAreNested(Ranking(vocab, df), Min(cap, |Ranking(vocab, df)|), Min(cap', |Ranking(vocab, df)|));
  }

  lemma HeadsAreNested<T>(r: seq<T>, m: nat, n: nat)
    requires m <= n <= |r|
    ensures r[..m] <= r[..n]
  {
  }

  /** The first `m` terms met are frequent, already in ranking order, and each
      ranks before every frequent term met later. */
  ghost predicate BestMetFirst(vocab: map<Term, nat>, df: map<nat, nat>, order: seq<Term>, m: nat) {
    && m <= |order|
    && (forall i :: 0 <= i < m ==> TermFrequency(vocab, df, order[i]) >= 2)
    && (forall i, j :: 0 <= i < m && i < j < |order| && TermFrequency(vocab, df, order[j]) >= 2 ==>
          Ranks(vocab, df)(order[i], order[j]))
  }

  /** At the vocabulary size the hapaxes come back and the columns return to
      encounter order.  The list there extends the list of a smaller cap if and
      only if the terms the smaller cap keeps were met first, best first. */
  lemma ExtendsAtVocabularySizeExactlyWhen(vocab: map<Term, nat>, df: map<nat, nat>, cap: nat, order: seq<Term>)
    requires Numbers(vocab, order) && 1 < |vocab| && cap < |vocab|
    ensures Kept(vocab, df, cap, order) <= Kept(vocab, df, |vocab|, order)
       <==> BestMetFirst(vocab, df, order, Min(cap, |Frequent(vocab, df)|))
  {
    var r := Ranking(vocab, df);
    DistinctCount(r);
    var m := Min(cap, |r|);
    FrequentTerms(vocab, df, order);
    if r[..m] <= order { PrefixIsBest(vocab, df, order, m); }
    if BestMetFirst(vocab, df, order, m) { BestIsPrefix(vocab, df, order, m); }
  }

  lemma FrequentTerms(vocab: map<Term, nat>, df: map<nat, nat>, order: seq<Term>)
    requires Numbers(vocab, order)
    ensures forall t :: t in Frequent(vocab, df) <==> t in order && TermFrequency(vocab, df, t) >= 2
    ensures forall t :: t in Ranking(vocab, df) <==> t in Frequent(vocab, df)
  {
    forall t ensures t in order <==> t in vocab {
      if t in order { var i :| 0 <= i < |order| && order[i] == t; }
    }
    assert forall t :: t in Ranking(vocab, df) <==> t in Elements(Ranking(vocab, df));
  }

  lemma PrefixIsBest(vocab: map<Term, nat>, df: map<nat, nat>, order: seq<Term>, m: nat)
    requires Numbers(vocab, order) && m <= |Ranking(vocab, df)| && Ranking(vocab, df)[..m] <= order
    ensures BestMetFirst(vocab, df, order, m)
  {
    var r := Ranking(vocab, df);
    FrequentTerms(vocab, df, order);
    forall i | 0 <= i < m ensures order[i] == r[i] && order[i] in r { assert order[i] == r[..m][i]; }
    forall i, j | 0 <= i < m && i < j < |order| && TermFrequency(vocab, df, order[j]) >= 2
      ensures Ranks(vocab, df)(order[i], order[j])
    {
      assert order[j] in r;
      var p :| 0 <= p < |r| && r[p] == order[j];
      if p < m { assert order[p] == r[p] == order[j]; }
    }
  }

  lemma BestIsPrefix(vocab: map<Term, nat>, df: map<nat, nat>, order: seq<Term>, m: nat)
    requires Numbers(vocab, order) && m <= |Ranking(vocab, df)| && BestMetFirst(vocab, df, order, m)
    ensures Ranking(vocab, df)[..m] <= order
  {
    var less, head := Ranks(vocab, df), order[..m];
    RanksIsStrictTotalOrder(vocab, df);
    var tail := Sorted(Frequent(vocab, df) - Elements(head), less);
    BestComeFirst(vocab, df, order, m, tail);
    HeadOfRanking(head, tail, Ranking(vocab, df), less);
  }

  lemma BestComeFirst(vocab: map<Term, nat>, df: map<nat, nat>, order: seq<Term>, m: nat, tail: seq<Term>)
    requires Numbers(vocab, order) && BestMetFirst(vocab, df, order, m)
    requires Elements(tail) == Frequent(vocab, df) - Elements(order[..m])
    ensures Ascending(order[..m], Ranks(vocab, df)) && Elements(order[..m]) <= Frequent(vocab, df)
    ensures forall i, j :: 0 <= i < m && 0 <= j < |tail| ==> Ranks(vocab, df)(order[..m][i], tail[j])
  {
    HeadIsFrequent(vocab, df, order, m);
    forall i, j | 0 <= i < m && 0 <= j < |tail| ensures Ranks(vocab, df)(order[..m][i], tail[j]) {
      assert tail[j] in Elements(tail);
      TailRanksLater(vocab, df, order, m, i, tail[j]);
    }
  }

  lemma HeadIsFrequent(vocab: map<Term, nat>, df: map<nat, nat>, order: seq<Term>, m: nat)
    requires Numbers(vocab, order) && BestMetFirst(vocab, df, order, m)
    ensures Ascending(order[..m], Ranks(vocab, df)) && Elements(order[..m]) <= Frequent(vocab, df)
  {
    forall t | t in Elements(order[..m]) ensures t in Frequent(vocab, df) {
      var i :| 0 <= i < m && order[..m][i] == t;
      assert order[i] == t && order[i] in vocab;
    }
  }

  lemma TailRanksLater(vocab: map<Term, nat>, df: map<nat, nat>, order: seq<Term>, m: nat, i: nat, t: Term)
    requires Numbers(vocab, order) && BestMetFirst(vocab, df, order, m) && i < m
    requires t in Frequent(vocab, df) && t !in Elements(order[..m])
    ensures Ranks(vocab, df)(order[i], t)
  {
    FrequentTerms(vocab, df, order);
    MetLater(vocab, df, order, m, i, t);
  }

  lemma HeadOfRanking(head: seq<Term>, tail: seq<Term>, ranking: seq<Term>, less: (Term, Term) -> bool)
    requires StrictTotalOrder(less) && Ascending(head, less) && Ascending(tail, less) && Ascending(ranking, less)
    requires forall i, j :: 0 <= i < |head| && 0 <= j < |tail| ==> less(head[i], tail[j])
    requires Elements(head) <= Elements(ranking) && Elements(tail) == Elements(ranking) - Elements(head)
    ensures |head| <= |ranking| && ranking[..|head|] == head
  {
    var all := head + tail;
    forall t ensures t in Elements(all) <==> t in Elements(ranking) {
      assert t in Elements(all) <==> t in Elements(head) || t in Elements(tail);
    }
    AscendingUnique(all, ranking, less);
    assert all[..|head|] == head;
  }

  lemma MetLater(vocab: map<Term, nat>, df: map<nat, nat>, order: seq<Term>, m: nat, i: nat, t: Term)
    requires BestMetFirst(vocab, df, order, m) && i < m && t in order && t !in Elements(order[..m])
    requires TermFrequency(vocab, df, t) >= 2
    ensures Ranks(vocab, df)(order[i], t)
  {
    var j :| 0 <= j < |order| && order[j] == t;
    assert forall p :: 0 <= p < m ==> order[..m][p] == order[p] && order[..m][p] in Elements(order[..m]);
  }
}
