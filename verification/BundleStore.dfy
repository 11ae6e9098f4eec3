/** The chunk store: rows with content hashes, one Merkle root per source, and
    the root over all sources.  The hash functions are given; an interior hash
    is a function of its children in any order. */
module BundleStore {
  import opened Options
  import opened Ordering

  type Id = Bytes
  type Source = Bytes
  type Text = Bytes
  type Hash = Bytes

  datatype Chunk = Chunk(id: Id, source: Source, startOffset: nat, length: nat, text: Text)

  /** A stored chunk; rows from before the hash column carry no hash. */
  datatype Row = Row(source: Source, startOffset: nat, length: nat, text: Text, contentHash: Option<Hash>)

  type Rows = map<Id, Row>
  type Roots = map<Source, Hash>

  datatype Hasher = Hasher(leaf: (Id, Text) -> Hash, interior: multiset<(Id, Hash)> -> Hash, corpusUuid: Source -> Id)

  // -------------------------------------------------------------- the roots

  /** The stored hash, or one computed from the text on demand. */
  function HashOf(h: Hasher, id: Id, row: Row): Hash {
    if row.contentHash.Some? then row.contentHash.value else h.leaf(id, row.text)
  }

  function Children(h: Hasher, rows: Rows, s: Source): set<(Id, Hash)> {
    set id | id in rows && rows[id].source == s :: (id, HashOf(h, id, rows[id]))
  }

  function RootOf(h: Hasher, rows: Rows, s: Source): Hash {
    h.interior(multiset(Children(h, rows, s)))
  }

  function SourcesOf(rows: Rows): set<Source> {
    set id | id in rows :: rows[id].source
  }

  /** Every stored root is the recomputation over exactly the source's rows, and
      every source with rows has one. */
  ghost predicate Coherent(h: Hasher, rows: Rows, roots: Roots) {
    SourcesOf(rows) <= roots.Keys && forall s :: s in roots ==> roots[s] == RootOf(h, rows, s)
  }

  // ------------------------------------------------------------------ steps

  function Stored(h: Hasher, c: Chunk): Row {
    Row(c.source, c.startOffset, c.length, c.text, Some(h.leaf(c.id, c.text)))
  }

  function InsertRows(h: Hasher, rows: Rows, chunks: seq<Chunk>): Rows {
    if chunks == [] then rows else
      var before, last := InsertRows(h, rows, chunks[..|chunks| - 1]), chunks[|chunks| - 1];
      if last.id in before then before else before[last.id := Stored(h, last)]
  }

  /** The chunks that were not stored before, in input order. */
  function NewChunks(h: Hasher, rows: Rows, chunks: seq<Chunk>): seq<Chunk> {
    if chunks == [] then [] else
      var front, last := chunks[..|chunks| - 1], chunks[|chunks| - 1];
      NewChunks(h, rows, front) + if last.id in InsertRows(h, rows, front) then [] else [last]
  }

  function ChunkSources(chunks: seq<Chunk>): set<Source> {
    set c | c in chunks :: c.source
  }

  function Rolled(h: Hasher, rows: Rows, roots: Roots, sources: set<Source>): Roots {
    roots + map s | s in sources :: RootOf(h, rows, s)
  }

  lemma RolledNext(h: Hasher, rows: Rows, roots: Roots, done: set<Source>, s: Source)
    ensures Rolled(h, rows, roots, done)[s := RootOf(h, rows, s)] == Rolled(h, rows, roots, done + {s})
  {
  }

  function ScrubRows(rows: Rows, s: Source): Rows {
    map id | id in rows :: if rows[id].source == s then rows[id].(text := []) else rows[id]
  }

  class BundleStore {
    const hasher: Hasher
    var rows: Rows
    var roots: Roots

    constructor (hasher: Hasher)
      ensures this.hasher == hasher && rows == map[] && roots == map[]
    {
      this.hasher := hasher;
      rows, roots := map[], map[];
    }

    /** Store the new chunks and refresh the root of every source in the batch;
        the chunks already stored are left alone and not returned. */
    method Insert(chunks: seq<Chunk>) returns (inserted: seq<Chunk>)
      modifies this
      ensures rows == InsertRows(hasher, old(rows), chunks)
      ensures inserted == NewChunks(hasher, old(rows), chunks)
      ensures roots == Rolled(hasher, rows, old(roots), ChunkSources(chunks))
    {
      if |chunks| == 0 {
        assert Rolled(hasher, rows, roots, ChunkSources(chunks)) == roots;
        return [];
      }
      inserted := [];
      for k := 0 to |chunks|
        invariant rows == InsertRows(hasher, old(rows), chunks[..k]) && roots == old(roots)
        invariant inserted == NewChunks(hasher, old(rows), chunks[..k])
      {
        var c := chunks[k];
        assert chunks[..k + 1][..k] == chunks[..k];
        if c.id !in rows {
          rows := rows[c.id := Stored(hasher, c)];
          inserted := inserted + [c];
        }
      }
      assert chunks[..|chunks|] == chunks;
      RollupAll(ChunkSources(chunks));
    }

    /** Recompute and store the roots of the given sources, in any order. */
    method RollupAll(sources: set<Source>)
      modifies this`roots
      ensures roots == Rolled(hasher, rows, old(roots), sources)
    {
      var done: set<Source> := {};
      while done < sources
        invariant done <= sources && roots == Rolled(hasher, rows, old(roots), done)
        decreases sources - done
      {
        var s :| s in sources && s !in done;
        var root := Rollup(s);
        RolledNext(hasher, rows, old(roots), done, s);
        roots := roots[s := root];
        done := done + {s};
      }
    }

    /** Hash the children of one source, row by row. */
    method Rollup(s: Source) returns (root: Hash)
      ensures root == RootOf(hasher, rows, s)
    {
      var children: set<(Id, Hash)> := {};
      var left := rows.Keys;
      while left != {}
        invariant left <= rows.Keys
        invariant children == set id | id in rows && id !in left && rows[id].source == s :: (id, HashOf(hasher, id, rows[id]))
        decreases left
      {
        var id :| id in left;
        if rows[id].source == s {
          children := children + {(id, HashOf(hasher, id, rows[id]))};
        }
        left := left - {id};
      }
      assert children == Children(hasher, rows, s);
      root := hasher.interior(multiset(children));
    }

    /** Empty the text of a source's rows and nothing else. */
    method ScrubText(s: Source) returns (scrubbed: nat)
      modifies this`rows
      ensures rows == ScrubRows(old(rows), s)
      ensures scrubbed == |set id | id in old(rows) && old(rows)[id].source == s|
    {
      scrubbed := |set id | id in rows && rows[id].source == s|;
      rows := ScrubRows(rows, s);
    }

    /** Opening recomputes the root of every source that has rows. */
    method Reopen()
      modifies this`roots
      ensures roots == Rolled(hasher, rows, old(roots), SourcesOf(rows))
    {
      RollupAll(SourcesOf(rows));
    }

    /** Hash the roots of all sources, row by row. */
    method GlobalRoot() returns (root: Hash)
      ensures exists children :: RootPairs(hasher, roots, roots.Keys, children) && root == hasher.interior(children)
    {
      var children: multiset<(Id, Hash)> := multiset{};
      var done: set<Source> := {};
      while done < roots.Keys
        invariant done <= roots.Keys && RootPairs(hasher, roots, done, children)
        decreases roots.Keys - done
      {
        var s :| s in roots && s !in done;
        RootPairsNext(hasher, roots, done, children, s);
        children := children + multiset{(hasher.corpusUuid(s), roots[s])};
        done := done + {s};
      }
      assert done == roots.Keys;
      root := hasher.interior(children);
    }
  }

  ghost function SourcesOfPair(h: Hasher, roots: Roots, sources: set<Source>, p: (Id, Hash)): set<Source> {
    set s | s in sources && s in roots && (h.corpusUuid(s), roots[s]) == p
  }

  /** One child per source: a pair occurs as often as there are sources with that
      derived id and that root. */
  ghost predicate RootPairs(h: Hasher, roots: Roots, sources: set<Source>, children: multiset<(Id, Hash)>) {
    forall p :: children[p] == |SourcesOfPair(h, roots, sources, p)|
  }

  lemma RootPairsNext(h: Hasher, roots: Roots, done: set<Source>, children: multiset<(Id, Hash)>, s: Source)
    requires RootPairs(h, roots, done, children) && s in roots && s !in done
    ensures RootPairs(h, roots, done + {s}, children + multiset{(h.corpusUuid(s), roots[s])})
  {
    var pair := (h.corpusUuid(s), roots[s]);
    forall p ensures (children + multiset{pair})[p] == |SourcesOfPair(h, roots, done + {s}, p)| {
      var before := SourcesOfPair(h, roots, done, p);
      assert SourcesOfPair(h, roots, done + {s}, p) == if p == pair then before + {s} else before;
      assert children[p] == |before|;
    }
  }

  /** There is only one such collection, so the global root is determined. */
  lemma RootPairsUnique(h: Hasher, roots: Roots, a: multiset<(Id, Hash)>, b: multiset<(Id, Hash)>)
    requires RootPairs(h, roots, roots.Keys, a) && RootPairs(h, roots, roots.Keys, b)
    ensures a == b
  {
    forall p ensures a[p] == b[p] { assert a[p] == |SourcesOfPair(h, roots, roots.Keys, p)|; }
  }

  // ------------------------------------------------------------ whole runs

  datatype Op = Insert(chunks: seq<Chunk>) | Scrub(source: Source) | Reopen

  datatype State = State(rows: Rows, roots: Roots)

  function Step(h: Hasher, st: State, op: Op): State {
    match op
    case Insert(chunks) =>
      var rows := InsertRows(h, st.rows, chunks);
      State(rows, Rolled(h, rows, st.roots, ChunkSources(chunks)))
    case Scrub(s) => State(ScrubRows(st.rows, s), st.roots)
    case Reopen => State(st.rows, Rolled(h, st.rows, st.roots, SourcesOf(st.rows)))
  }

  function Run(h: Hasher, st: State, ops: seq<Op>): State
    decreases ops
  {
    if ops == [] then st else Run(h, Step(h, st, ops[0]), ops[1..])
  }

  /** What insert returned over the run. */
  function Returned(h: Hasher, st: State, ops: seq<Op>): seq<Chunk>
    decreases ops
  {
    if ops == [] then []
    else StepReturned(h, st, ops[0]) + Returned(h, Step(h, st, ops[0]), ops[1..])
  }

  function StepReturned(h: Hasher, st: State, op: Op): seq<Chunk> {
    if op.Insert? then NewChunks(h, st.rows, op.chunks) else []
  }

  /** Rows written by insert carry their hash. */
  ghost predicate Hashed(rows: Rows) {
    forall id :: id in rows ==> rows[id].contentHash.Some?
  }

  lemma {:induction false} InsertKeepsRows(h: Hasher, rows: Rows, chunks: seq<Chunk>)
    ensures var after := InsertRows(h, rows, chunks);
      && (forall id :: id in rows ==> id in after && after[id] == rows[id])
      && (forall id :: id in after && id !in rows ==> exists c :: c in chunks && c.id == id && after[id] == Stored(h, c))
  {
    if chunks != [] {
      var n := |chunks| - 1;
      InsertKeepsRows(h, rows, chunks[..n]);
      assert chunks[n] in chunks;
      assert forall c :: c in chunks[..n] ==> c in chunks;
    }
  }

  /** A source outside the batch keeps its rows, so its root stays right. */
  lemma OtherSourcesKept(h: Hasher, rows: Rows, chunks: seq<Chunk>, s: Source)
    requires s !in ChunkSources(chunks)
    ensures Children(h, InsertRows(h, rows, chunks), s) == Children(h, rows, s)
  {
    InsertKeepsRows(h, rows, chunks);
    var after := InsertRows(h, rows, chunks);
    assert forall id :: id in after && after[id].source == s <==> id in rows && rows[id].source == s;
  }

  lemma ScrubKeepsChildren(h: Hasher, rows: Rows, scrubbed: Source, s: Source)
    requires Hashed(rows)
    ensures Children(h, ScrubRows(rows, scrubbed), s) == Children(h, rows, s)
  {
    var after := ScrubRows(rows, scrubbed);
    assert forall id :: id in rows ==> HashOf(h, id, after[id]) == HashOf(h, id, rows[id]) && after[id].source == rows[id].source;
  }

  lemma InsertKeepsCoherent(h: Hasher, st: State, chunks: seq<Chunk>)
    requires Coherent(h, st.rows, st.roots) && Hashed(st.rows)
    ensures var st' := Step(h, st, Insert(chunks)); Coherent(h, st'.rows, st'.roots) && Hashed(st'.rows)
  {
    var st' := Step(h, st, Insert(chunks));
    InsertKeepsRows(h, st.rows, chunks);
    forall s | s in st'.roots ensures st'.roots[s] == RootOf(h, st'.rows, s) {
      if s !in ChunkSources(chunks) { OtherSourcesKept(h, st.rows, chunks, s); }
    }
    forall id | id in st'.rows ensures st'.rows[id].source in st'.roots && st'.rows[id].contentHash.Some? {
      if id !in st.rows {
        var c :| c in chunks && c.id == id && st'.rows[id] == Stored(h, c);
        assert c.source in ChunkSources(chunks);
      } else {
        assert st.rows[id].source in SourcesOf(st.rows);
      }
    }
  }

  lemma StepKeepsCoherent(h: Hasher, st: State, op: Op)
    requires Coherent(h, st.rows, st.roots) && Hashed(st.rows)
    ensures var st' := Step(h, st, op); Coherent(h, st'.rows, st'.roots) && Hashed(st'.rows)
  {
    match op
    case Insert(chunks) => InsertKeepsCoherent(h, st, chunks);
    case Scrub(scrubbed) =>
      forall s | s in st.roots ensures st.roots[s] == RootOf(h, ScrubRows(st.rows, scrubbed), s) {
        ScrubKeepsChildren(h, st.rows, scrubbed, s);
      }
      assert SourcesOf(ScrubRows(st.rows, scrubbed)) == SourcesOf(st.rows) by {
        forall id | id in st.rows ensures ScrubRows(st.rows, scrubbed)[id].source == st.rows[id].source { }
      }
    case Reopen =>
  }

  /** After every run from the empty store the stored roots are the recomputation
      over the rows. */
  lemma {:induction false} RootsStayCoherent(h: Hasher, st: State, ops: seq<Op>)
    requires Coherent(h, st.rows, st.roots) && Hashed(st.rows)
    ensures var end := Run(h, st, ops); Coherent(h, end.rows, end.roots) && Hashed(end.rows)
    decreases ops
  {
    if ops != [] {
      StepKeepsCoherent(h, st, ops[0]);
      RootsStayCoherent(h, Step(h, st, ops[0]), ops[1..]);
    }
  }

  /** Scrubbing changes no root, now or at any later recomputation. */
  lemma ScrubChangesNoRoot(h: Hasher, st: State, s: Source, t: Source)
    requires Coherent(h, st.rows, st.roots) && Hashed(st.rows)
    ensures Step(h, st, Scrub(s)).roots == st.roots
    ensures RootOf(h, ScrubRows(st.rows, s), t) == RootOf(h, st.rows, t)
    ensures Step(h, Step(h, st, Scrub(s)), Reopen).roots == st.roots
  {
    ScrubKeepsChildren(h, st.rows, s, t);
    var after := ScrubRows(st.rows, s);
    forall x ensures RootOf(h, after, x) == RootOf(h, st.rows, x) { ScrubKeepsChildren(h, st.rows, s, x); }
    StepKeepsCoherent(h, st, Scrub(s));
    assert SourcesOf(after) <= st.roots.Keys;
  }

  /** Distinct leaves and distinct sets of children hash differently. */
  ghost predicate CollisionFree(h: Hasher) {
    && (forall id, a, b :: h.leaf(id, a) == h.leaf(id, b) ==> a == b)
    && (forall x, y :: h.interior(x) == h.interior(y) ==> x == y)
  }

  ghost predicate SafeToScrub(rows: Rows, s: Source) {
    forall id :: id in rows && rows[id].source == s ==> rows[id].contentHash.Some? || rows[id].text == []
  }

  /** With rows from before the hash column, the root that the next open computes
      survives a scrub exactly when every row of the source carries a hash or had
      no text. */
  lemma ScrubSafeExactlyWhen(h: Hasher, rows: Rows, s: Source)
    requires CollisionFree(h)
    ensures RootOf(h, ScrubRows(rows, s), s) == RootOf(h, rows, s) <==> SafeToScrub(rows, s)
  {
    var after := ScrubRows(rows, s);
    if SafeToScrub(rows, s) {
      forall id | id in rows && rows[id].source == s ensures HashOf(h, id, after[id]) == HashOf(h, id, rows[id]) { }
      assert Children(h, after, s) == Children(h, rows, s);
    }
    if RootOf(h, after, s) == RootOf(h, rows, s) {
      forall id | id in rows && rows[id].source == s ensures rows[id].contentHash.Some? || rows[id].text == [] {
        ChildUnchanged(h, rows, after, s, id);
      }
    }
  }

  lemma ChildUnchanged(h: Hasher, rows: Rows, after: Rows, s: Source, id: Id)
    requires CollisionFree(h) && RootOf(h, after, s) == RootOf(h, rows, s) && after == ScrubRows(rows, s)
    requires id in rows && rows[id].source == s
    ensures HashOf(h, id, after[id]) == HashOf(h, id, rows[id])
  {
    assert multiset(Children(h, after, s)) == multiset(Children(h, rows, s));
    assert (id, HashOf(h, id, rows[id])) in Children(h, rows, s);
    assert (id, HashOf(h, id, rows[id])) in multiset(Children(h, rows, s));
    assert (id, HashOf(h, id, rows[id])) in Children(h, after, s);
    var x :| x in after && after[x].source == s && (x, HashOf(h, x, after[x])) == (id, HashOf(h, id, rows[id]));
  }

  /** A row never goes away, and a scrubbed row's text stays empty whatever comes
      after, re-inserting the chunk included. */
  lemma {:induction false} ScrubbedStaysEmpty(h: Hasher, st: State, ops: seq<Op>, id: Id)
    requires id in st.rows && st.rows[id].text == []
    ensures id in Run(h, st, ops).rows && Run(h, st, ops).rows[id].text == []
    decreases ops
  {
    if ops != [] {
      if ops[0].Insert? { InsertKeepsRows(h, st.rows, ops[0].chunks); }
      ScrubbedStaysEmpty(h, Step(h, st, ops[0]), ops[1..], id);
    }
  }

  function Ids(chunks: seq<Chunk>): (ids: seq<Id>)
    ensures |ids| == |chunks| && forall i :: 0 <= i < |ids| ==> ids[i] == chunks[i].id
  {
    seq(|chunks|, i requires 0 <= i < |chunks| => chunks[i].id)
  }

  /** The ids are distinct and lead from one key set to the other. */
  ghost predicate Adds(before: set<Id>, ids: seq<Id>, after: set<Id>) {
    NoDuplicates(ids) && Elements(ids) !! before && after == before + Elements(ids)
  }

  lemma AddsCompose(a: set<Id>, x: seq<Id>, b: set<Id>, y: seq<Id>, c: set<Id>)
    requires Adds(a, x, b) && Adds(b, y, c)
    ensures Adds(a, x + y, c)
  {
    assert Elements(x + y) == Elements(x) + Elements(y) by {
      forall e ensures e in Elements(x + y) <==> e in Elements(x) || e in Elements(y) { }
    }
    forall i, j | 0 <= i < |x| && 0 <= j < |y| ensures x[i] != y[j] {
      assert x[i] in Elements(x) && y[j] in Elements(y);
    }
  }

  lemma {:induction false} InsertAdds(h: Hasher, rows: Rows, chunks: seq<Chunk>)
    ensures Adds(rows.Keys, Ids(NewChunks(h, rows, chunks)), InsertRows(h, rows, chunks).Keys)
  {
    if chunks == [] {
      assert Elements(Ids(NewChunks(h, rows, chunks))) == {};
    } else {
      var n := |chunks| - 1;
      var front, last := chunks[..n], chunks[n];
      InsertAdds(h, rows, front);
      var before := InsertRows(h, rows, front);
      if last.id !in before {
        assert Ids(NewChunks(h, rows, chunks)) == Ids(NewChunks(h, rows, front)) + [last.id];
        assert Elements([last.id]) == {last.id};
        assert Adds(before.Keys, [last.id], InsertRows(h, rows, chunks).Keys);
        AddsCompose(rows.Keys, Ids(NewChunks(h, rows, front)), before.Keys, [last.id], InsertRows(h, rows, chunks).Keys);
      } else {
        assert NewChunks(h, rows, chunks) == NewChunks(h, rows, front);
      }
    }
  }

  /** Over any run the chunks returned by insert name every row added, each
      exactly once: counts folded over them never count a row twice. */
  lemma {:induction false} EachRowReturnedOnce(h: Hasher, st: State, ops: seq<Op>)
    ensures Adds(st.rows.Keys, Ids(Returned(h, st, ops)), Run(h, st, ops).rows.Keys)
    decreases ops
  {
    if ops == [] {
      assert Elements(Ids(Returned(h, st, ops))) == {};
    } else {
      var next := Step(h, st, ops[0]);
      StepAdds(h, st, ops[0]);
      EachRowReturnedOnce(h, next, ops[1..]);
      ReturnedSplits(h, st, ops);
      AddsCompose(st.rows.Keys, Ids(StepReturned(h, st, ops[0])), next.rows.Keys,
                  Ids(Returned(h, next, ops[1..])), Run(h, st, ops).rows.Keys);
    }
  }

  lemma StepAdds(h: Hasher, st: State, op: Op)
    ensures Adds(st.rows.Keys, Ids(StepReturned(h, st, op)), Step(h, st, op).rows.Keys)
  {
    match op
    case Insert(chunks) => InsertAdds(h, st.rows, chunks);
    case Scrub(s) =>
      assert Elements(Ids(StepReturned(h, st, op))) == {};
      assert ScrubRows(st.rows, s).Keys == st.rows.Keys;
    case Reopen =>
      assert Elements(Ids(StepReturned(h, st, op))) == {};
  }

  lemma ReturnedSplits(h: Hasher, st: State, ops: seq<Op>)
    requires ops != []
    ensures Ids(Returned(h, st, ops)) == Ids(StepReturned(h, st, ops[0])) + Ids(Returned(h, Step(h, st, ops[0]), ops[1..]))
  {
    IdsConcat(StepReturned(h, st, ops[0]), Returned(h, Step(h, st, ops[0]), ops[1..]));
  }

  lemma IdsConcat(a: seq<Chunk>, b: seq<Chunk>)
    ensures Ids(a + b) == Ids(a) + Ids(b)
  {
  }

  // --------------------------------------------------------- row histories

  /** The first of the chunks with this id. */
  function FirstWith(chunks: seq<Chunk>, id: Id): Option<Chunk> {
    if chunks == [] then None
    else if chunks[0].id == id then Some(chunks[0])
    else FirstWith(chunks[1..], id)
  }

  /** The first chunk with this id that was ever inserted. */
  function FirstWrite(ops: seq<Op>, id: Id): Option<Chunk> {
    if ops == [] then None else
      var front := ops[..|ops| - 1];
      if FirstWrite(front, id).Some? then FirstWrite(front, id)
      else if ops[|ops| - 1].Insert? then FirstWith(ops[|ops| - 1].chunks, id)
      else None
  }

  /** Its source was scrubbed after that. */
  predicate ScrubbedSince(ops: seq<Op>, id: Id) {
    if ops == [] then false else
      var front := ops[..|ops| - 1];
      ScrubbedSince(front, id)
      || (ops[|ops| - 1].Scrub? && FirstWrite(front, id).Some? && FirstWrite(front, id).value.source == ops[|ops| - 1].source)
  }

  const EMPTY: State := State(map[], map[])

  lemma {:induction false} RunNext(h: Hasher, st: State, ops: seq<Op>)
    requires ops != []
    ensures var n := |ops| - 1; Run(h, st, ops) == Step(h, Run(h, st, ops[..n]), ops[n])
    decreases ops
  {
    var n := |ops| - 1;
    if n > 0 {
      RunNext(h, Step(h, st, ops[0]), ops[1..]);
      assert ops[1..][..n - 1] == ops[..n][1..];
    } else {
      assert ops[1..] == [] && ops[..n] == [];
    }
  }

  lemma {:induction false} FirstWithNext(chunks: seq<Chunk>, last: Chunk, id: Id)
    ensures FirstWith(chunks + [last], id)
         == if FirstWith(chunks, id).Some? then FirstWith(chunks, id) else if last.id == id then Some(last) else None
  {
    if chunks == [] {
      assert ([] + [last])[0] == last && ([] + [last])[1..] == [];
    } else {
      assert (chunks + [last])[1..] == chunks[1..] + [last];
      FirstWithNext(chunks[1..], last, id);
    }
  }

  /** Inserting stores the first chunk of each new id. */
  lemma {:induction false} InsertStoresFirst(h: Hasher, rows: Rows, chunks: seq<Chunk>, id: Id)
    ensures var after := InsertRows(h, rows, chunks);
      && (id in after <==> id in rows || FirstWith(chunks, id).Some?)
      && (id in after ==> after[id] == if id in rows then rows[id] else Stored(h, FirstWith(chunks, id).value))
  {
    if chunks != [] {
      var n := |chunks| - 1;
      InsertStoresFirst(h, rows, chunks[..n], id);
      FirstWithNext(chunks[..n], chunks[n], id);
      assert chunks == chunks[..n] + [chunks[n]];
    }
  }

  lemma {:induction false} FirstWithHasId(chunks: seq<Chunk>, id: Id)
    ensures FirstWith(chunks, id).Some? ==> FirstWith(chunks, id).value.id == id
  {
    if chunks != [] && chunks[0].id != id { FirstWithHasId(chunks[1..], id); }
  }

  /** The row of a chunk first written as `c`, scrubbed or not: its fields are
      those of `c`, its hash is the leaf of the text `c` was written with. */
  ghost predicate RowFor(h: Hasher, rows: Rows, id: Id, first: Option<Chunk>, scrubbed: bool) {
    match first
    case None => id !in rows
    case Some(c) =>
      && id in rows && rows[id].source == c.source && rows[id].startOffset == c.startOffset && rows[id].length == c.length
      && rows[id].contentHash == Some(h.leaf(id, c.text))
      && rows[id].text == if scrubbed then [] else c.text
  }

  /** In every run the store holds exactly the ids ever inserted, each row as the
      first chunk with that id wrote it: its hash that of the text it came with,
      for ever, and its text that text until its source is scrubbed, and empty
      from then on. */
  lemma {:induction false} RowsTrackHistory(h: Hasher, ops: seq<Op>, id: Id)
    ensures RowFor(h, Run(h, EMPTY, ops).rows, id, FirstWrite(ops, id), ScrubbedSince(ops, id))
  {
    if ops != [] {
      var n := |ops| - 1;
      RunNext(h, EMPTY, ops);
      RowsTrackHistory(h, ops[..n], id);
      NotScrubbedUnwritten(ops[..n], id);
      match ops[n]
      case Insert(chunks) =>
        InsertStoresFirst(h, Run(h, EMPTY, ops[..n]).rows, chunks, id);
        FirstWithHasId(chunks, id);
      case _ =>
    }
  }

  lemma {:induction false} NotScrubbedUnwritten(ops: seq<Op>, id: Id)
    ensures ScrubbedSince(ops, id) ==> FirstWrite(ops, id).Some?
  {
    if ops != [] { NotScrubbedUnwritten(ops[..|ops| - 1], id); }
  }

  /** And insert returns a chunk as it first wrote it. */
  lemma {:induction false} InsertReturnsFirst(h: Hasher, rows: Rows, chunks: seq<Chunk>)
    ensures forall c :: c in NewChunks(h, rows, chunks) ==> c.id !in rows && FirstWith(chunks, c.id) == Some(c)
  {
    if chunks != [] {
      var n := |chunks| - 1;
      InsertReturnsFirst(h, rows, chunks[..n]);
      assert chunks == chunks[..n] + [chunks[n]];
      forall c | c in NewChunks(h, rows, chunks) ensures c.id !in rows && FirstWith(chunks, c.id) == Some(c) {
        FirstWithNext(chunks[..n], chunks[n], c.id);
        InsertStoresFirst(h, rows, chunks[..n], c.id);
      }
    }
  }

  // ---------------------------------------------------------- root histories

  /** The leaf of the text first written under the id, if that was for the source. */
  ghost predicate FirstLeaf(h: Hasher, ops: seq<Op>, s: Source, p: (Id, Hash)) {
    match FirstWrite(ops, p.0)
    case None => false
    case Some(c) => c.source == s && p.1 == h.leaf(p.0, c.text)
  }

  /** Some insert named a chunk of the source. */
  predicate Named(ops: seq<Op>, s: Source) {
    ops != [] && (Named(ops[..|ops| - 1], s) || (ops[|ops| - 1].Insert? && s in ChunkSources(ops[|ops| - 1].chunks)))
  }

  lemma {:induction false} RootedWhenNamed(h: Hasher, ops: seq<Op>, s: Source)
    ensures s in Run(h, EMPTY, ops).roots <==> Named(ops, s)
  {
    if ops != [] {
      var front := ops[..|ops| - 1];
      RunNext(h, EMPTY, ops);
      RootedWhenNamed(h, front, s);
      RootsStayCoherent(h, EMPTY, front);
    }
  }

  /** The children are those leaves, each once. */
  ghost predicate FirstLeaves(h: Hasher, ops: seq<Op>, s: Source, children: multiset<(Id, Hash)>) {
    forall p :: children[p] == if FirstLeaf(h, ops, s, p) then 1 else 0
  }

  lemma ChildrenAreFirstLeaves(h: Hasher, ops: seq<Op>, s: Source)
    ensures FirstLeaves(h, ops, s, multiset(Children(h, Run(h, EMPTY, ops).rows, s)))
  {
    var rows := Run(h, EMPTY, ops).rows;
    forall p ensures p in Children(h, rows, s) <==> FirstLeaf(h, ops, s, p) {
      RowsTrackHistory(h, ops, p.0);
    }
  }

  /** The roots say what was written, not what is left of it.  In every run exactly
      the sources some insert named have a root, and it hashes one leaf for each id
      first written under the source, of the text first written: whatever was
      scrubbed, written again or reopened since. */
  lemma RootsHashFirstWrites(h: Hasher, ops: seq<Op>, s: Source)
    ensures var roots := Run(h, EMPTY, ops).roots;
      && (s in roots <==> Named(ops, s))
      && (s in roots ==> exists children :: FirstLeaves(h, ops, s, children) && roots[s] == h.interior(children))
  {
    var st := Run(h, EMPTY, ops);
    RootsStayCoherent(h, EMPTY, ops);
    ChildrenAreFirstLeaves(h, ops, s);
    RootedWhenNamed(h, ops, s);
  }
}
