/** Sliding-window co-occurrence: which position pairs the window visits, what
    the count tables and the context vectors say about them, and why the two
    providers that run the window agree. */
module Cooccurrence {
  import opened Ordering
  import opened Sums

  type Term = Bytes
  type Vector = seq<int>
  type Table = map<Term, map<Term, nat>>

  // ------------------------------------------------------------ the window

  function WindowStart(i: nat, w: nat): nat {
    if i < w then 0 else i - w
  }

  /** One past the last position in the window of `i` in a document of `n` terms. */
  function WindowStop(i: nat, w: nat, n: nat): (r: nat)
    requires i < n
    ensures i < r <= n
  {
    if i + w < n - 1 then i + w + 1 else n
  }

  /** Target `i` with each context position in `from..stop` but itself, in order. */
  function RowPositions(i: nat, from: nat, stop: nat): seq<(nat, nat)>
    requires from <= stop
    decreases stop
  {
    if from == stop then []
    else RowPositions(i, from, stop - 1) + (if stop - 1 == i then [] else [(i, stop - 1)])
  }

  /** The position pairs visited for the first `k` targets, in order. */
  function Positions(n: nat, w: nat, k: nat): seq<(nat, nat)>
    requires k <= n
  {
    if k == 0 then [] else Positions(n, w, k - 1) + RowPositions(k - 1, WindowStart(k - 1, w), WindowStop(k - 1, w, n))
  }

  ghost predicate InWindow(p: (nat, nat), n: nat, w: nat) {
    p.0 < n && p.1 < n && p.0 != p.1 && p.0 <= p.1 + w && p.1 <= p.0 + w
  }

  ghost predicate Within(ps: seq<(nat, nat)>, n: nat) {
    forall i :: 0 <= i < |ps| ==> ps[i].0 < n && ps[i].1 < n
  }

  /** The (target, context) terms at the given positions. */
  function Read(doc: seq<Term>, ps: seq<(nat, nat)>): (r: seq<(Term, Term)>)
    requires Within(ps, |doc|)
    ensures |r| == |ps| && forall i :: 0 <= i < |r| ==> r[i] == (doc[ps[i].0], doc[ps[i].1])
  {
    seq(|ps|, i requires 0 <= i < |ps| => (doc[ps[i].0], doc[ps[i].1]))
  }

  lemma {:induction false} RowExact(i: nat, from: nat, stop: nat)
    requires from <= stop
    ensures NoDuplicates(RowPositions(i, from, stop))
    ensures forall p: (nat, nat) :: p in RowPositions(i, from, stop) <==> p.0 == i && from <= p.1 < stop && p.1 != i
    decreases stop
  {
    if from < stop { RowExact(i, from, stop - 1); }
  }

  /** The loops visit every position pair of the window exactly once. */
  lemma {:induction false} PositionsExact(n: nat, w: nat, k: nat)
    requires k <= n
    ensures NoDuplicates(Positions(n, w, k)) && Within(Positions(n, w, k), n)
    ensures forall p: (nat, nat) :: p in Positions(n, w, k) <==> InWindow(p, n, w) && p.0 < k
  {
    if k > 0 {
      var before, row := Positions(n, w, k - 1), RowPositions(k - 1, WindowStart(k - 1, w), WindowStop(k - 1, w, n));
      PositionsExact(n, w, k - 1);
      RowExact(k - 1, WindowStart(k - 1, w), WindowStop(k - 1, w, n));
      forall a, b | 0 <= a < |before| && 0 <= b < |row| ensures before[a] != row[b] {
        assert before[a] in before && row[b] in row;
      }
      forall a | 0 <= a < |before + row| ensures (before + row)[a].0 < n && (before + row)[a].1 < n {
        assert (before + row)[a] in before || (before + row)[a] in row;
      }
    }
  }

  /** Target `i` paired with the contexts in `from..stop`, in order. */
  function RowPairs(doc: seq<Term>, i: nat, from: nat, stop: nat): seq<(Term, Term)>
    requires i < |doc| && from <= stop <= |doc|
    decreases stop
  {
    if from == stop then []
    else RowPairs(doc, i, from, stop - 1) + (if stop - 1 == i then [] else [(doc[i], doc[stop - 1])])
  }

  /** The pairs of the first `k` targets. */
  function PairsUpTo(doc: seq<Term>, w: nat, k: nat): seq<(Term, Term)>
    requires k <= |doc|
  {
    if k == 0 then []
    else PairsUpTo(doc, w, k - 1) + RowPairs(doc, k - 1, WindowStart(k - 1, w), WindowStop(k - 1, w, |doc|))
  }

  /** The term pairs of one document, in the order the loops visit them. */
  function DocumentPairs(doc: seq<Term>, w: nat): seq<(Term, Term)> {
    PairsUpTo(doc, w, |doc|)
  }

  lemma {:induction false} RowPairsRead(doc: seq<Term>, i: nat, from: nat, stop: nat)
    requires i < |doc| && from <= stop <= |doc|
    ensures Within(RowPositions(i, from, stop), |doc|) && RowPairs(doc, i, from, stop) == Read(doc, RowPositions(i, from, stop))
    decreases stop
  {
    if from < stop { RowPairsRead(doc, i, from, stop - 1); }
  }

  lemma ReadConcat(doc: seq<Term>, a: seq<(nat, nat)>, b: seq<(nat, nat)>)
    requires Within(a, |doc|) && Within(b, |doc|)
    ensures Within(a + b, |doc|) && Read(doc, a + b) == Read(doc, a) + Read(doc, b)
  {
  }

  lemma {:induction false} PairsRead(doc: seq<Term>, w: nat, k: nat)
    requires k <= |doc|
    ensures Within(Positions(|doc|, w, k), |doc|) && PairsUpTo(doc, w, k) == Read(doc, Positions(|doc|, w, k))
  {
    if k > 0 {
      PairsRead(doc, w, k - 1);
      var from, stop := WindowStart(k - 1, w), WindowStop(k - 1, w, |doc|);
      RowPairsRead(doc, k - 1, from, stop);
      ReadConcat(doc, Positions(|doc|, w, k - 1), RowPositions(k - 1, from, stop));
    }
  }

  // --------------------------------------------------- counting the pairs

  ghost function PositionPairs(doc: seq<Term>, w: nat, t: Term, c: Term): set<(nat, nat)> {
    set i: nat, j: nat | 0 <= i < |doc| && 0 <= j < |doc| && InWindow((i, j), |doc|, w) && doc[i] == t && doc[j] == c :: (i, j)
  }

  ghost predicate Hit(doc: seq<Term>, p: (nat, nat), t: Term, c: Term) {
    p.0 < |doc| && p.1 < |doc| && doc[p.0] == t && doc[p.1] == c
  }

  ghost function Hits(doc: seq<Term>, ps: seq<(nat, nat)>, t: Term, c: Term): set<(nat, nat)> {
    set p: (nat, nat) | p in ps && Hit(doc, p, t, c)
  }

  lemma {:induction false} ReadCounts(doc: seq<Term>, ps: seq<(nat, nat)>, t: Term, c: Term)
    requires Within(ps, |doc|) && NoDuplicates(ps)
    ensures multiset(Read(doc, ps))[(t, c)] == |Hits(doc, ps, t, c)|
  {
    if ps != [] {
      var n := |ps| - 1;
      var front, last := ps[..n], ps[n];
      ReadCounts(doc, front, t, c);
      var pair := (doc[last.0], doc[last.1]);
      assert Read(doc, ps) == Read(doc, front) + [pair];
      assert multiset(Read(doc, ps)) == multiset(Read(doc, front)) + multiset{pair};
      assert ps == front + [last];
      HitsStep(doc, front, last, t, c);
    }
  }

  lemma HitsStep(doc: seq<Term>, front: seq<(nat, nat)>, last: (nat, nat), t: Term, c: Term)
    requires last !in front
    ensures |Hits(doc, front + [last], t, c)| == |Hits(doc, front, t, c)| + (if Hit(doc, last, t, c) then 1 else 0)
  {
    assert Hits(doc, front + [last], t, c) == Hits(doc, front, t, c) + (if Hit(doc, last, t, c) then {last} else {});
    assert last !in Hits(doc, front, t, c);
  }

  /** The count of a term pair is the number of position pairs within the window
      that read it. */
  lemma PairCountIsPositionCount(doc: seq<Term>, w: nat, t: Term, c: Term)
    ensures multiset(DocumentPairs(doc, w))[(t, c)] == |PositionPairs(doc, w, t, c)|
  {
    var ps := Positions(|doc|, w, |doc|);
    PairsRead(doc, w, |doc|);
    PositionsExact(|doc|, w, |doc|);
    ReadCounts(doc, ps, t, c);
    forall p: (nat, nat) ensures p in Hits(doc, ps, t, c) <==> p in PositionPairs(doc, w, t, c) {
      assert p == (p.0, p.1);
    }
    assert Hits(doc, ps, t, c) == PositionPairs(doc, w, t, c);
  }

  lemma {:induction false} SwapKeepsSize(s: set<(nat, nat)>)
    ensures |set p | p in s :: (p.1, p.0)| == |s|
  {
    var swapped := set p | p in s :: (p.1, p.0);
    if s == {} {
      assert swapped == {};
    } else {
      var x :| x in s;
      SwapKeepsSize(s - {x});
      assert (set p | p in s - {x} :: (p.1, p.0)) == swapped - {(x.1, x.0)};
      assert (x.1, x.0) in swapped;
    }
  }

  /** Co-occurrence is symmetric. */
  lemma PairCountIsSymmetric(doc: seq<Term>, w: nat, t: Term, c: Term)
    ensures multiset(DocumentPairs(doc, w))[(t, c)] == multiset(DocumentPairs(doc, w))[(c, t)]
  {
    PairCountIsPositionCount(doc, w, t, c);
    PairCountIsPositionCount(doc, w, c, t);
    SwapKeepsSize(PositionPairs(doc, w, t, c));
    var swapped := set p | p in PositionPairs(doc, w, t, c) :: (p.1, p.0);
    forall i: nat, j: nat ensures (i, j) in swapped <==> (i, j) in PositionPairs(doc, w, c, t) {
      assert (j, i) in PositionPairs(doc, w, t, c) <==> (i, j) in PositionPairs(doc, w, c, t);
      if (j, i) in PositionPairs(doc, w, t, c) { assert (i, j) in swapped; }
    }
    assert swapped == PositionPairs(doc, w, c, t);
  }

  /** The sum of (n - d) for d = 1..m. */
  function Distances(n: int, m: nat): int {
    if m == 0 then 0 else Distances(n, m - 1) + (n - m)
  }

  lemma {:induction false} DistancesStep(n: int, m: nat)
    ensures Distances(n + 1, m) == Distances(n, m) + m
  {
    if m > 0 { DistancesStep(n, m - 1); }
  }

  lemma {:induction false} RowSize(i: nat, from: nat, stop: nat)
    requires from <= stop
    ensures |RowPositions(i, from, stop)| == stop - from - (if from <= i < stop then 1 else 0)
    decreases stop
  {
    if from < stop { RowSize(i, from, stop - 1); }
  }

  // How many pairs lie within the first k targets, split into contexts before
  // and contexts after the target.
  function Below(w: nat, k: nat): nat {
    if k == 0 then 0 else Below(w, k - 1) + Min(k - 1, w)
  }

  lemma {:induction false} PositionsSize(n: nat, w: nat, k: nat)
    requires k <= n
    ensures |Positions(n, w, k)| == Below(w, k) + Below(w, n) - Below(w, n - k)
  {
    if k > 0 {
      PositionsSize(n, w, k - 1);
      RowSize(k - 1, WindowStart(k - 1, w), WindowStop(k - 1, w, n));
    }
  }

  lemma {:induction false} BelowIsDistances(w: nat, k: nat)
    requires k > 0
    ensures Below(w, k) == Distances(k, Min(w, k - 1))
  {
    if k > 1 {
      BelowIsDistances(w, k - 1);
      DistancesStep(k - 1, Min(w, k - 2));
    }
  }

  /** A document of n terms contributes 2 * sum over d = 1..min(w, n-1) of (n-d)
      pairs. */
  lemma DocumentPairTotal(doc: seq<Term>, w: nat)
    requires doc != []
    ensures |DocumentPairs(doc, w)| == 2 * Distances(|doc|, Min(w, |doc| - 1))
  {
    PairsRead(doc, w, |doc|);
    PositionsSize(|doc|, w, |doc|);
    BelowIsDistances(w, |doc|);
  }

  // --------------------------------------------------------- many documents

  /** The multiset sum of what each document contributes. */
  function Gather<D, P>(docs: seq<D>, f: D -> multiset<P>): multiset<P> {
    if docs == [] then multiset{} else f(docs[0]) + Gather(docs[1..], f)
  }

  function CorpusPairs(docs: seq<seq<Term>>, w: nat): multiset<(Term, Term)> {
    Gather(docs, (doc: seq<Term>) => multiset(DocumentPairs(doc, w)))
  }

  lemma {:induction false} GatherMove<D, P>(a: seq<D>, doc: D, b: seq<D>, f: D -> multiset<P>)
    ensures Gather(a + [doc] + b, f) == f(doc) + Gather(a + b, f)
  {
    if a == [] {
      assert [] + [doc] + b == [doc] + b && [] + b == b && ([doc] + b)[1..] == b;
    } else {
      assert (a + [doc] + b)[1..] == a[1..] + [doc] + b && (a + b)[1..] == a[1..] + b;
      GatherMove(a[1..], doc, b, f);
    }
  }

  lemma Locate<D>(docs: seq<D>, x: D) returns (a: seq<D>, b: seq<D>)
    requires x in docs
    ensures docs == a + [x] + b && multiset(a + b) == multiset(docs) - multiset{x}
  {
    var i :| 0 <= i < |docs| && docs[i] == x;
    a, b := docs[..i], docs[i + 1..];
    assert docs == a + [x] + b;
  }

  /** The sum does not depend on the order of the documents. */
  lemma {:induction false} GatherOrderIrrelevant<D, P>(docs: seq<D>, docs': seq<D>, f: D -> multiset<P>)
    requires multiset(docs) == multiset(docs')
    ensures Gather(docs, f) == Gather(docs', f)
    decreases |docs|
  {
    SamePermutationSameElements(docs, docs');
    if docs != [] {
      var x, rest := docs[0], docs[1..];
      assert docs == [x] + rest;
      assert multiset(rest) == multiset(docs) - multiset{x};
      assert x in Elements(docs');
      var a, b := Locate(docs', x);
      GatherMove(a, x, b, f);
      GatherOrderIrrelevant(rest, a + b, f);
    }
  }

  // ------------------------------------------------------- tables of counts

  ghost function Targets(m: multiset<(Term, Term)>): set<Term> {
    set p | p in m :: p.0
  }

  ghost function Contexts(m: multiset<(Term, Term)>, t: Term): set<Term> {
    set p | p in m && p.0 == t :: p.1
  }

  /** The nested table holds exactly the counts of the pairs, and no empty row. */
  ghost predicate Tabulates(co: Table, m: multiset<(Term, Term)>) {
    co.Keys == Targets(m) && forall t :: t in co ==> RowTabulates(co[t], m, t)
  }

  ghost predicate RowTabulates(row: map<Term, nat>, m: multiset<(Term, Term)>, t: Term) {
    row.Keys == Contexts(m, t) && forall c :: c in row ==> row[c] == m[(t, c)]
  }

  lemma InContexts(m: multiset<(Term, Term)>, t: Term, c: Term)
    ensures (t, c) in m <==> c in Contexts(m, t)
    ensures (t, c) in m ==> t in Targets(m)
  {
    if (t, c) in m { assert (t, c).0 == t && (t, c).1 == c; }
  }

  /** The pairs determine the table. */
  lemma TableUnique(co: Table, co': Table, m: multiset<(Term, Term)>)
    requires Tabulates(co, m) && Tabulates(co', m)
    ensures co == co'
  {
    forall t | t in co ensures co[t] == co'[t] {
      assert RowTabulates(co[t], m, t) && RowTabulates(co'[t], m, t);
      assert co[t].Keys == co'[t].Keys;
    }
  }

  /** Count one pair, creating its row or entry when missing. */
  function Bump(co: Table, t: Term, c: Term): Table {
    var row := if t in co then co[t] else map[];
    co[t := row[c := (if c in row then row[c] else 0) + 1]]
  }

  lemma TargetsStep(m: multiset<(Term, Term)>, p: (Term, Term))
    ensures Targets(m + multiset{p}) == Targets(m) + {p.0}
  {
    var m' := m + multiset{p};
    forall x | x in Targets(m) ensures x in Targets(m') { var q :| q in m && q.0 == x; assert q in m'; }
    assert p in m';
  }

  lemma ContextsStep(m: multiset<(Term, Term)>, t: Term, c: Term, t': Term)
    ensures Contexts(m + multiset{(t, c)}, t') == Contexts(m, t') + (if t' == t then {c} else {})
  {
    forall c' ensures c' in Contexts(m + multiset{(t, c)}, t') <==> c' in Contexts(m, t') || (t' == t && c' == c) {
      InContexts(m + multiset{(t, c)}, t', c');
      InContexts(m, t', c');
    }
  }

  lemma NoContexts(m: multiset<(Term, Term)>, t: Term)
    requires t !in Targets(m)
    ensures Contexts(m, t) == {}
  {
    forall c ensures c !in Contexts(m, t) { InContexts(m, t, c); }
  }

  lemma BumpTabulates(co: Table, m: multiset<(Term, Term)>, t: Term, c: Term)
    requires Tabulates(co, m)
    ensures Tabulates(Bump(co, t, c), m + multiset{(t, c)})
  {
    var m', co' := m + multiset{(t, c)}, Bump(co, t, c);
    TargetsStep(m, (t, c));
    forall t' | t' in co' ensures RowTabulates(co'[t'], m', t') {
      if t' == t {
        if t !in co { NoContexts(m, t); }
        OwnRowTabulates(if t in co then co[t] else map[], m, t, c);
      } else {
        OtherRowTabulates(co[t'], m, t, c, t');
      }
    }
  }

  lemma OwnRowTabulates(row: map<Term, nat>, m: multiset<(Term, Term)>, t: Term, c: Term)
    requires RowTabulates(row, m, t)
    ensures RowTabulates(row[c := (if c in row then row[c] else 0) + 1], m + multiset{(t, c)}, t)
  {
    ContextsStep(m, t, c, t);
    InContexts(m, t, c);
  }

  lemma OtherRowTabulates(row: map<Term, nat>, m: multiset<(Term, Term)>, t: Term, c: Term, t': Term)
    requires RowTabulates(row, m, t') && t' != t
    ensures RowTabulates(row, m + multiset{(t, c)}, t')
  {
    ContextsStep(m, t, c, t');
  }

  /** Count a sequence of pairs, one after the other. */
  function BumpAll(co: Table, ps: seq<(Term, Term)>): Table {
    if ps == [] then co else
      var n := |ps| - 1;
      Bump(BumpAll(co, ps[..n]), ps[n].0, ps[n].1)
  }

  lemma {:induction false} BumpAllTabulates(co: Table, m: multiset<(Term, Term)>, ps: seq<(Term, Term)>)
    requires Tabulates(co, m)
    ensures Tabulates(BumpAll(co, ps), m + multiset(ps))
  {
    if ps == [] {
      assert m + multiset(ps) == m;
    } else {
      var n := |ps| - 1;
      BumpAllTabulates(co, m, ps[..n]);
      BumpTabulates(BumpAll(co, ps[..n]), m + multiset(ps[..n]), ps[n].0, ps[n].1);
      assert ps == ps[..n] + [(ps[n].0, ps[n].1)];
      assert m + multiset(ps) == m + multiset(ps[..n]) + multiset{(ps[n].0, ps[n].1)};
    }
  }

  function Increment(table: map<Term, nat>, t: Term): map<Term, nat> {
    table[t := (if t in table then table[t] else 0) + 1]
  }

  /** Count a sequence of terms. */
  function CountAll(table: map<Term, nat>, terms: seq<Term>): map<Term, nat> {
    if terms == [] then table else Increment(CountAll(table, terms[..|terms| - 1]), terms[|terms| - 1])
  }

  ghost predicate Counts(table: map<Term, nat>, seen: multiset<Term>) {
    && (forall t :: t in table <==> t in seen)
    && forall t :: t in table ==> table[t] == seen[t]
  }

  lemma {:induction false} CountAllCounts(table: map<Term, nat>, seen: multiset<Term>, terms: seq<Term>)
    requires Counts(table, seen)
    ensures Counts(CountAll(table, terms), seen + multiset(terms))
  {
    if terms != [] {
      var n := |terms| - 1;
      CountAllCounts(table, seen, terms[..n]);
      assert terms == terms[..n] + [terms[n]];
      assert seen + multiset(terms) == seen + multiset(terms[..n]) + multiset{terms[n]};
    }
  }

  /** The marginal counts sum to the number of terms seen. */
  lemma {:induction false} CountTotal(terms: seq<Term>)
    ensures var table := CountAll(map[], terms); SumOver(table.Keys, t => if t in table then table[t] else 0) == |terms|
  {
    if terms != [] {
      var n := |terms| - 1;
      CountTotal(terms[..n]);
      var before, after := CountAll(map[], terms[..n]), CountAll(map[], terms);
      var f, g := (t: Term) => if t in before then before[t] else 0, (t: Term) => if t in after then after[t] else 0;
      if terms[n] in before {
        assert after.Keys == before.Keys;
        SumDiffersAt(before.Keys, f, g, terms[n]);
      } else {
        assert after.Keys == before.Keys + {terms[n]};
        SumInsert(before.Keys, g, terms[n]);
        SumSame(before.Keys, f, g);
      }
    }
  }

  // ---------------------------------------------------------- weighted sums

  /** The sum over contexts c of t of count(t, c) * weight(c). */
  ghost function Weighted(m: multiset<(Term, Term)>, t: Term, weight: Term -> int): int {
    SumOver(Contexts(m, t), c => m[(t, c)] * weight(c))
  }

  lemma WeightedStep(m: multiset<(Term, Term)>, t: Term, c: Term, t': Term, weight: Term -> int)
    ensures Weighted(m + multiset{(t, c)}, t', weight) == Weighted(m, t', weight) + (if t' == t then weight(c) else 0)
  {
    if t' == t {
      OwnRowStep(m, t, c, weight);
    } else {
      var m' := m + multiset{(t, c)};
      ContextsStep(m, t, c, t');
      assert Contexts(m', t') == Contexts(m, t');
      SumSame(Contexts(m, t'), x => m[(t', x)] * weight(x), x => m'[(t', x)] * weight(x));
    }
  }

  lemma OwnRowStep(m: multiset<(Term, Term)>, t: Term, c: Term, weight: Term -> int)
    ensures Weighted(m + multiset{(t, c)}, t, weight) == Weighted(m, t, weight) + weight(c)
  {
    var m' := m + multiset{(t, c)};
    var f, g := (x: Term) => m[(t, x)] * weight(x), (x: Term) => m'[(t, x)] * weight(x);
    var cs := Contexts(m, t);
    ContextsStep(m, t, c, t);
    assert Contexts(m', t) == cs + {c};
    assert g(c) == f(c) + weight(c) by { Distribute(m[(t, c)], weight(c)); }
    if c in cs {
      assert cs + {c} == cs;
      SumDiffersAt(cs, f, g, c);
    } else {
      SumInsert(cs, g, c);
      SumSame(cs, f, g);
      InContexts(m, t, c);
    }
  }

  lemma Distribute(n: int, x: int)
    ensures (n + 1) * x == n * x + x
  {
  }

  ghost function RowTotal(m: multiset<(Term, Term)>, t: Term): int {
    Weighted(m, t, _ => 1)
  }

  ghost function Total(m: multiset<(Term, Term)>): int {
    SumOver(Targets(m), t => RowTotal(m, t))
  }

  lemma TotalStep(m: multiset<(Term, Term)>, t: Term, c: Term)
    ensures Total(m + multiset{(t, c)}) == Total(m) + 1
  {
    var m' := m + multiset{(t, c)};
    var f, g := (x: Term) => RowTotal(m, x), (x: Term) => RowTotal(m', x);
    forall x ensures g(x) == f(x) + (if x == t then 1 else 0) {
      WeightedStep(m, t, c, x, _ => 1);
    }
    TargetsStep(m, (t, c));
    if t in Targets(m) {
      assert Targets(m) + {t} == Targets(m);
      SumDiffersAt(Targets(m), f, g, t);
    } else {
      SumInsert(Targets(m), g, t);
      SumSame(Targets(m), f, g);
      NoRow(m, t, _ => 1);
    }
  }

  lemma {:induction false} AllRowsTotal(ps: seq<(Term, Term)>)
    ensures Total(multiset(ps)) == |ps|
  {
    if ps == [] {
      assert Targets(multiset(ps)) == {};
    } else {
      var n := |ps| - 1;
      AllRowsTotal(ps[..n]);
      assert ps == ps[..n] + [(ps[n].0, ps[n].1)];
      assert multiset(ps) == multiset(ps[..n]) + multiset{(ps[n].0, ps[n].1)};
      TotalStep(multiset(ps[..n]), ps[n].0, ps[n].1);
    }
  }

  lemma NoRow(m: multiset<(Term, Term)>, t: Term, weight: Term -> int)
    requires t !in Targets(m)
    ensures Weighted(m, t, weight) == 0
  {
    NoContexts(m, t);
  }

  /** The table's entries sum to the number of pairs. */
  lemma TableTotal(co: Table, ps: seq<(Term, Term)>)
    requires Tabulates(co, multiset(ps))
    ensures SumOver(co.Keys, t => if t in co then SumOver(co[t].Keys, c => if c in co[t] then co[t][c] else 0) else 0) == |ps|
  {
    var m := multiset(ps);
    AllRowsTotal(ps);
    var f := t => if t in co then SumOver(co[t].Keys, c => if c in co[t] then co[t][c] else 0) else 0;
    forall t | t in co.Keys ensures f(t) == RowTotal(m, t) {
      SumSame(co[t].Keys, c => if c in co[t] then co[t][c] else 0, c => m[(t, c)] * 1);
      SumSame(co[t].Keys, c => m[(t, c)] * 1, c => m[(t, c)] * ((x: Term) => 1)(c));
    }
    SumSame(co.Keys, f, t => RowTotal(m, t));
  }

  // --------------------------------------------------------- context vectors

  /** Add the context's index vector to the target's vector, naively: once per
      pair, from a zero vector when the target is new. */
  function Accumulate(vocab: map<Term, Vector>, t: Term, c: Term, index: Term -> Vector, dim: nat): map<Term, Vector> {
    vocab[t := Add(if t in vocab then vocab[t] else Zero(dim), index(c), dim)]
  }

  function Zero(dim: nat): Vector {
    seq(dim, _ => 0)
  }

  function Add(a: Vector, b: Vector, dim: nat): Vector {
    seq(dim, d => At(a, d) + At(b, d))
  }

  function At(v: Vector, d: int): int {
    if 0 <= d < |v| then v[d] else 0
  }

  function AccumulateAll(vocab: map<Term, Vector>, ps: seq<(Term, Term)>, index: Term -> Vector, dim: nat): map<Term, Vector> {
    if ps == [] then vocab
    else Accumulate(AccumulateAll(vocab, ps[..|ps| - 1], index, dim), ps[|ps| - 1].0, ps[|ps| - 1].1, index, dim)
  }

  lemma {:induction false} AccumulateAllSplits(vocab: map<Term, Vector>, a: seq<(Term, Term)>, b: seq<(Term, Term)>, index: Term -> Vector, dim: nat)
    ensures AccumulateAll(vocab, a + b, index, dim) == AccumulateAll(AccumulateAll(vocab, a, index, dim), b, index, dim)
  {
    if b == [] {
      assert a + b == a;
    } else {
      var n := |b| - 1;
      assert (a + b)[..|a + b| - 1] == a + b[..n];
      AccumulateAllSplits(vocab, a, b[..n], index, dim);
    }
  }

  /** Component `d` of every vector is the co-occurrence counts times the index
      vectors. */
  ghost predicate SumsCooccurrence(vocab: map<Term, Vector>, m: multiset<(Term, Term)>, index: Term -> Vector, dim: nat, d: int) {
    && vocab.Keys == Targets(m)
    && forall t :: t in vocab ==> |vocab[t]| == dim && At(vocab[t], d) == Weighted(m, t, c => At(index(c), d))
  }

  lemma AccumulateSums(vocab: map<Term, Vector>, m: multiset<(Term, Term)>, t: Term, c: Term, index: Term -> Vector, dim: nat, d: int)
    requires SumsCooccurrence(vocab, m, index, dim, d) && 0 <= d < dim
    ensures SumsCooccurrence(Accumulate(vocab, t, c, index, dim), m + multiset{(t, c)}, index, dim, d)
  {
    var weight := (c: Term) => At(index(c), d);
    TargetsStep(m, (t, c));
    forall x ensures Weighted(m + multiset{(t, c)}, x, weight) == Weighted(m, x, weight) + (if x == t then weight(c) else 0) {
      WeightedStep(m, t, c, x, weight);
    }
    if t !in vocab { NoRow(m, t, weight); }
  }

  lemma {:induction false} AccumulatedSums(ps: seq<(Term, Term)>, index: Term -> Vector, dim: nat, d: int)
    requires 0 <= d < dim
    ensures SumsCooccurrence(AccumulateAll(map[], ps, index, dim), multiset(ps), index, dim, d)
  {
    if ps == [] {
      assert Targets(multiset(ps)) == {};
    } else {
      var n := |ps| - 1;
      AccumulatedSums(ps[..n], index, dim, d);
      assert ps == ps[..n] + [(ps[n].0, ps[n].1)];
      assert multiset(ps) == multiset(ps[..n]) + multiset{(ps[n].0, ps[n].1)};
      AccumulateSums(AccumulateAll(map[], ps[..n], index, dim), multiset(ps[..n]), ps[n].0, ps[n].1, index, dim, d);
    }
  }

  ghost predicate Ternary(v: Vector) {
    forall d :: 0 <= d < |v| ==> -1 <= v[d] <= 1
  }

  /** Random Indexing is weighted co-occurrence.  After the same pairs, its
      vocabulary is the key set of the PPMI table, every context vector is the
      sum over contexts of the count times the index vector, and no component
      exceeds the term's pair count. */
  lemma RandomIndexingIsWeightedCooccurrence(
    vocab: map<Term, Vector>, co: Table, ps: seq<(Term, Term)>, index: Term -> Vector, dim: nat, t: Term, d: int)
    requires vocab == AccumulateAll(map[], ps, index, dim) && Tabulates(co, multiset(ps))
    requires forall c :: Ternary(index(c))
    requires 0 <= d < dim
    ensures vocab.Keys == co.Keys
    ensures t in vocab ==> |vocab[t]| == dim
    ensures t in vocab ==> vocab[t][d] == SumOver(co[t].Keys, c => (if c in co[t] then co[t][c] else 0) * At(index(c), d))
    ensures t in vocab ==> -RowSum(co[t]) <= vocab[t][d] <= RowSum(co[t])
  {
    AccumulatedSums(ps, index, dim, d);
    if t in vocab {
      var m := multiset(ps);
      var g := (c: Term) => if c in co[t] then co[t][c] else 0;
      var f := (c: Term) => (if c in co[t] then co[t][c] else 0) * At(index(c), d);
      var weight := (c: Term) => At(index(c), d);
      SumSame(co[t].Keys, c => m[(t, c)] * weight(c), f);
      forall c | c in co[t].Keys ensures -g(c) <= f(c) <= g(c) {
        TernaryProduct(g(c), At(index(c), d));
      }
      SumBounded(co[t].Keys, f, g);
    }
  }

  ghost function RowSum(row: map<Term, nat>): int {
    SumOver(row.Keys, c => if c in row then row[c] else 0)
  }

  lemma TernaryProduct(n: int, x: int)
    requires n >= 0 && -1 <= x <= 1
    ensures -n <= n * x <= n
  {
  }

  // --------------------------------------------- whole training sequences

  /** All pairs of a training sequence, in the order they are visited. */
  function AllPairs(docs: seq<seq<Term>>, w: nat): seq<(Term, Term)> {
    if docs == [] then [] else DocumentPairs(docs[0], w) + AllPairs(docs[1..], w)
  }

  /** The PPMI table after training on the documents, one `train` each. */
  function TrainedTable(co: Table, docs: seq<seq<Term>>, w: nat): Table
    decreases docs
  {
    if docs == [] then co else TrainedTable(BumpAll(co, DocumentPairs(docs[0], w)), docs[1..], w)
  }

  /** The Random Indexing vocabulary after training on the documents. */
  function TrainedVectors(vocab: map<Term, Vector>, docs: seq<seq<Term>>, w: nat, index: Term -> Vector, dim: nat): map<Term, Vector>
    decreases docs
  {
    if docs == [] then vocab
    else TrainedVectors(AccumulateAll(vocab, DocumentPairs(docs[0], w), index, dim), docs[1..], w, index, dim)
  }

  lemma {:induction false} BumpAllSplits(co: Table, a: seq<(Term, Term)>, b: seq<(Term, Term)>)
    ensures BumpAll(co, a + b) == BumpAll(BumpAll(co, a), b)
  {
    if b == [] {
      assert a + b == a;
    } else {
      var n := |b| - 1;
      assert (a + b)[..|a + b| - 1] == a + b[..n];
      BumpAllSplits(co, a, b[..n]);
    }
  }

  lemma {:induction false} TrainedFlat(co: Table, vocab: map<Term, Vector>, docs: seq<seq<Term>>, w: nat, index: Term -> Vector, dim: nat)
    ensures TrainedTable(co, docs, w) == BumpAll(co, AllPairs(docs, w))
    ensures TrainedVectors(vocab, docs, w, index, dim) == AccumulateAll(vocab, AllPairs(docs, w), index, dim)
    ensures multiset(AllPairs(docs, w)) == CorpusPairs(docs, w)
    decreases docs
  {
    if docs != [] {
      var first := DocumentPairs(docs[0], w);
      BumpAllSplits(co, first, AllPairs(docs[1..], w));
      AccumulateAllSplits(vocab, first, AllPairs(docs[1..], w), index, dim);
      TrainedFlat(BumpAll(co, first), AccumulateAll(vocab, first, index, dim), docs[1..], w, index, dim);
    }
  }

  ghost function CorpusPositions(docs: seq<seq<Term>>, w: nat, t: Term, c: Term): nat {
    if docs == [] then 0 else |PositionPairs(docs[0], w, t, c)| + CorpusPositions(docs[1..], w, t, c)
  }

  lemma {:induction false} CorpusCounts(docs: seq<seq<Term>>, w: nat, t: Term, c: Term)
    ensures CorpusPairs(docs, w)[(t, c)] == CorpusPositions(docs, w, t, c) == CorpusPairs(docs, w)[(c, t)]
  {
    if docs != [] {
      PairCountIsPositionCount(docs[0], w, t, c);
      PairCountIsSymmetric(docs[0], w, t, c);
      CorpusCounts(docs[1..], w, t, c);
    }
  }

  function Entry(co: Table, t: Term, c: Term): nat {
    if t in co && c in co[t] then co[t][c] else 0
  }

  lemma EntryIsCount(co: Table, m: multiset<(Term, Term)>, t: Term, c: Term)
    requires Tabulates(co, m)
    ensures Entry(co, t, c) == m[(t, c)]
  {
    InContexts(m, t, c);
  }

  /** PPMI counts meet their specification.  After any documents, the entry for
      (t, c) is the number of position pairs within the window that read t and
      c; it is symmetric; and there is no entry without a pair. */
  lemma PpmiCountsMeetSpecification(docs: seq<seq<Term>>, w: nat, t: Term, c: Term)
    ensures var co := TrainedTable(map[], docs, w);
      && Tabulates(co, CorpusPairs(docs, w))
      && Entry(co, t, c) == CorpusPositions(docs, w, t, c)
      && Entry(co, t, c) == Entry(co, c, t)
      && (t in co && c in co[t] <==> CorpusPositions(docs, w, t, c) > 0)
  {
    var co := TrainedTable(map[], docs, w);
    TrainedFlat(map[], map[], docs, w, _ => [], 0);
    BumpAllTabulates(map[], multiset{}, AllPairs(docs, w));
    assert multiset{} + multiset(AllPairs(docs, w)) == CorpusPairs(docs, w);
    CorpusCounts(docs, w, t, c);
    EntryIsCount(co, CorpusPairs(docs, w), t, c);
    EntryIsCount(co, CorpusPairs(docs, w), c, t);
    InContexts(CorpusPairs(docs, w), t, c);
  }

  /** The two providers, trained on the same documents with the same window: the
      same key set, every context vector the weighted sum of the PPMI row, every
      component within the row's total. */
  lemma ProvidersAgree(docs: seq<seq<Term>>, w: nat, index: Term -> Vector, dim: nat, t: Term, d: int)
    requires forall c :: Ternary(index(c))
    requires 0 <= d < dim
    ensures var vocab, co := TrainedVectors(map[], docs, w, index, dim), TrainedTable(map[], docs, w);
      && vocab.Keys == co.Keys
      && (t in vocab ==> |vocab[t]| == dim)
      && (t in vocab ==> vocab[t][d] == SumOver(co[t].Keys, c => (if c in co[t] then co[t][c] else 0) * At(index(c), d)))
      && (t in vocab ==> -RowSum(co[t]) <= vocab[t][d] <= RowSum(co[t]))
  {
    var ps := AllPairs(docs, w);
    TrainedFlat(map[], map[], docs, w, index, dim);
    BumpAllTabulates(map[], multiset{}, ps);
    assert multiset{} + multiset(ps) == multiset(ps);
    RandomIndexingIsWeightedCooccurrence(TrainedVectors(map[], docs, w, index, dim), TrainedTable(map[], docs, w), ps, index, dim, t, d);
  }

  /** Both trained states depend on the documents and not on their order. */
  lemma TrainingOrderIrrelevant(docs: seq<seq<Term>>, docs': seq<seq<Term>>, w: nat, index: Term -> Vector, dim: nat)
    requires multiset(docs) == multiset(docs') && dim > 0
    ensures TrainedTable(map[], docs, w) == TrainedTable(map[], docs', w)
    ensures TrainedVectors(map[], docs, w, index, dim) == TrainedVectors(map[], docs', w, index, dim)
  {
    GatherOrderIrrelevant(docs, docs', (doc: seq<Term>) => multiset(DocumentPairs(doc, w)));
    var t: Term := [];
    PpmiCountsMeetSpecification(docs, w, t, t);
    PpmiCountsMeetSpecification(docs', w, t, t);
    TableUnique(TrainedTable(map[], docs, w), TrainedTable(map[], docs', w), CorpusPairs(docs, w));
    TrainedFlat(map[], map[], docs, w, index, dim);
    TrainedFlat(map[], map[], docs', w, index, dim);
    VectorsUnique(AllPairs(docs, w), AllPairs(docs', w), index, dim);
  }

  lemma VectorsUnique(ps: seq<(Term, Term)>, ps': seq<(Term, Term)>, index: Term -> Vector, dim: nat)
    requires multiset(ps) == multiset(ps') && dim > 0
    ensures AccumulateAll(map[], ps, index, dim) == AccumulateAll(map[], ps', index, dim)
  {
    var a, b := AccumulateAll(map[], ps, index, dim), AccumulateAll(map[], ps', index, dim);
    AccumulatedSums(ps, index, dim, 0);
    AccumulatedSums(ps', index, dim, 0);
    forall t | t in a ensures a[t] == b[t] {
      forall d | 0 <= d < dim ensures a[t][d] == b[t][d] {
        AccumulatedSums(ps, index, dim, d);
        AccumulatedSums(ps', index, dim, d);
      }
    }
  }
}
