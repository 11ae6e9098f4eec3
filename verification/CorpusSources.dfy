/** The map from chunks to sources that both query lanes read, and the order
    stamps of the chunk rows, over whole runs. */
module CorpusSources {
  import opened Options
  import opened Ordering
  import opened Corpus
  import opened CorpusRecall
  import opened CorpusRebuild

  // -------------------------------------------------------- the source map

  /** The chunk was written, or found stored by a later reopen, since its source
      was last removed. */
  predicate Mapped(env: Env, ops: seq<Op>, c: Chunk) {
    if ops == [] then false else
      var front := ops[..|ops| - 1];
      var before := Mapped(env, front, c);
      match ops[|ops| - 1]
      case OpRemove(x) => before && x != c.source
      case OpExpunge(x) => before && x != c.source
      case OpIngest(item) => before || Writes(env, item, c)
      case OpBatch(items) => before || AnyWrites(env, items, c)
      case OpImport(items, _) => before || AnyWrites(env, items, c)
      case OpReindex(_) => before
      case OpReopen => Stored(env, front, c)
  }

  /** The chunk is mapped or not as said, to its own source, and only if stored. */
  ghost predicate SourceExact(rows: Rows, sources: map<Chunk, Source>, c: Chunk, mapped: bool) {
    && (c in sources <==> mapped)
    && (c in sources ==> sources[c] == c.source && c in rows)
  }

  lemma {:induction false} MapSourcesExact(sources: map<Chunk, Source>, chunks: seq<Chunk>, c: Chunk)
    ensures var after := MapSources(sources, chunks);
      && (c in after <==> c in chunks || c in sources)
      && (c in after ==> after[c] == if c in chunks then c.source else sources[c])
  {
    if chunks != [] {
      var n := |chunks| - 1;
      MapSourcesExact(sources, chunks[..n], c);
      assert chunks == chunks[..n] + [chunks[n]];
    }
  }

  lemma WriteSource(env: Env, st: State, item: Item, stamp: nat, clock: nat, c: Chunk, mapped: bool)
    requires SourceExact(st.rows, st.sources, c, mapped)
    ensures var st' := Write(env, st, item, stamp, clock); SourceExact(st'.rows, st'.sources, c, mapped || Writes(env, item, c))
  {
    InsertRowsExact(st.rows, ItemChunks(env, item), stamp);
    MapSourcesExact(st.sources, ItemChunks(env, item), c);
  }

  lemma {:induction false} ItemsSource(env: Env, st: State, items: seq<Item>, sharded: bool, c: Chunk, mapped: bool)
    requires SourceExact(st.rows, st.sources, c, mapped)
    ensures var st' := WriteAll(env, st, items); SourceExact(st'.rows, st'.sources, c, mapped || AnyWrites(env, items, c))
    ensures var st' := Import(env, st, items, sharded); SourceExact(st'.rows, st'.sources, c, mapped || AnyWrites(env, items, c))
  {
    if items != [] {
      var n := |items| - 1;
      ItemsSource(env, st, items[..n], sharded, c, mapped);
      AnyWritesNext(env, items, c);
      var a, b := WriteAll(env, st, items[..n]), Import(env, st, items[..n], sharded);
      var made := |env.chunk(items[n].source, items[n].text)|;
      var before := mapped || AnyWrites(env, items[..n], c);
      WriteSource(env, a, items[n], a.clock, a.clock + made, c, before);
      WriteSource(env, b, items[n], if sharded then 0 else b.clock, if sharded then b.clock else b.clock + made, c, before);
    }
  }

  /** In every run the source map holds exactly the chunks written since their
      source was last removed, and those any reopen found stored, each under the
      source it was chunked from. */
  lemma {:induction false} SourceMapIsExact(env: Env, ops: seq<Op>, c: Chunk)
    ensures var st := Run(env, ops); SourceExact(st.rows, st.sources, c, Mapped(env, ops, c))
  {
    if ops != [] {
      var front := ops[..|ops| - 1];
      var st, mapped := Run(env, front), Mapped(env, front, c);
      SourceMapIsExact(env, front, c);
      match ops[|ops| - 1]
      case OpIngest(item) => WriteSource(env, st, item, st.clock, st.clock + |env.chunk(item.source, item.text)|, c, mapped);
      case OpBatch(items) => ItemsSource(env, st, items, false, c, mapped);
      case OpImport(items, sharded) => ItemsSource(env, st, items, sharded, c, mapped);
      case OpReopen => ErasureIsPermanent(env, front, c);
      case _ =>
    }
  }

  /** A live chunk is mapped: no keyword hit is lost between chunk and source. */
  lemma {:induction false} LiveIsMapped(env: Env, ops: seq<Op>, c: Chunk)
    ensures Live(env, ops, c) ==> Mapped(env, ops, c) && Stored(env, ops, c)
    ensures Embedded(env, ops, c) ==> Live(env, ops, c)
  {
    if ops != [] { LiveIsMapped(env, ops[..|ops| - 1], c); }
  }

  /** In every run each posting resolves to the source of its chunk, and so does
      each vector an ingest stored since the source was last removed. */
  lemma HitsResolve(env: Env, ops: seq<Op>, c: Chunk)
    requires Lawful(env) && (c in Run(env, ops).postings || Embedded(env, ops, c))
    ensures var st := Run(env, ops); c in st.sources && st.sources[c] == c.source
  {
    PostingsAreTheLiveChunks(env, ops, c);
    LiveIsMapped(env, ops, c);
    SourceMapIsExact(env, ops, c);
  }

  /** After a reindex the dense lane can resolve an active chunk exactly when it is
      mapped: reindexing itself maps nothing. */
  lemma ReindexedChunkResolvesExactlyWhen(env: Env, ops: seq<Op>, now: Time, c: Chunk)
    requires Lawful(env) && env.models != []
    ensures var st' := Reindex(env, Run(env, ops), now);
      Found(env, st'.vectors, c) && c in st'.sources <==> c in ActiveSet(Run(env, ops)) && Mapped(env, ops, c)
  {
    RunIsQuiet(env, ops);
    SourceMapIsExact(env, ops, c);
    ReindexFindsExactly(env, Run(env, ops), now, c);
  }

  /** So a chunk of an earlier version of a source, removed and ingested again with
      another text, gets its vectors back with the next reindex but answers no
      query before the corpus is opened again; then it does. */
  lemma EarlierVersionWaitsForReopen(env: Env, a: Item, b: Item, c: Chunk, now: Time)
    requires Lawful(env) && env.models != [] && a.source == b.source
    requires Writes(env, a, c) && !Writes(env, b, c) && ItemChunks(env, b) != []
    ensures var st := Reindex(env, Run(env, [OpIngest(a), OpRemove(a.source), OpIngest(b)]), now);
      Found(env, st.vectors, c) && c !in st.sources && c in Reopen(env, st).sources
  {
    var ops := [OpIngest(a), OpRemove(a.source), OpIngest(b)];
    var i :| 0 <= i < |env.chunk(a.source, a.text)| && env.chunk(a.source, a.text)[i] == c;
    EarlierVersionHistory(env, ops, a, b, c);
    RemovedTracksHistory(env, ops, c.source);
    ErasureIsPermanent(env, ops, c);
    ReindexedChunkResolvesExactlyWhen(env, ops, now, c);
    RunIsQuiet(env, ops);
    ReindexFindsExactly(env, Run(env, ops), now, c);
    assert Reindex(env, Run(env, ops), now).rows == Run(env, ops).rows;
  }

  lemma EarlierVersionHistory(env: Env, ops: seq<Op>, a: Item, b: Item, c: Chunk)
    requires |ops| == 3 && ops[0] == OpIngest(a) && ops[1] == OpRemove(a.source) && ops[2] == OpIngest(b)
    requires c.source == a.source == b.source && Writes(env, a, c) && !Writes(env, b, c) && ItemChunks(env, b) != []
    ensures Stored(env, ops, c) && !Mapped(env, ops, c) && !RemovedLast(env, ops, c.source)
  {
    var two, one := ops[..2], ops[..1];
    assert two[..1] == one && one[..0] == [];
    assert Stored(env, one, c);
    assert Stored(env, two, c) && !Mapped(env, two, c);
    assert Revives(env, b, c.source);
  }

  ghost predicate AllMapped(env: Env, ops: seq<Op>) {
    forall c :: Stored(env, ops, c) ==> Mapped(env, ops, c)
  }

  /** A restart leaves the source map as it is exactly when every stored chunk is
      mapped. */
  lemma ReopenKeepsSourceMapExactlyWhen(env: Env, ops: seq<Op>)
    ensures var st := Run(env, ops);
      Reopen(env, st).sources == st.sources <==> AllMapped(env, ops)
  {
    var st := Run(env, ops);
    var sources := Reopen(env, st).sources;
    forall c ensures SourceExact(st.rows, st.sources, c, Mapped(env, ops, c)) && (c in sources <==> Stored(env, ops, c)) {
      SourceMapIsExact(env, ops, c);
      ErasureIsPermanent(env, ops, c);
    }
    if sources == st.sources {
      forall c | Stored(env, ops, c) ensures Mapped(env, ops, c) { assert c in sources; }
    }
    if AllMapped(env, ops) {
      forall c ensures c in sources <==> c in st.sources { assert SourceExact(st.rows, st.sources, c, Mapped(env, ops, c)); }
      forall c | c in sources ensures sources[c] == st.sources[c] { assert SourceExact(st.rows, st.sources, c, Mapped(env, ops, c)); }
      assert sources == st.sources;
    }
  }

  // ------------------------------------------------------------- the stamps

  /** One generator stamps every chunk: no restart and no sharded import. */
  predicate OneGenerator(ops: seq<Op>) {
    forall i :: 0 <= i < |ops| ==> ops[i] != OpReopen && (ops[i].OpImport? ==> !ops[i].sharded)
  }

  /** No two rows share a stamp, and the generator is past all of them. */
  ghost predicate Stamped(rows: Rows, clock: nat) {
    && (forall c :: c in rows ==> rows[c].stamp < clock)
    && (forall c, d :: c in rows && d in rows && c != d ==> rows[c].stamp != rows[d].stamp)
  }

  /** New chunks are stamped by their place in the document. */
  lemma {:induction false} InsertStamps(rows: Rows, chunks: seq<Chunk>, stamp: nat, c: Chunk)
    ensures var after := InsertRows(rows, chunks, stamp);
      c in after && c !in rows ==> exists i :: FirstAt(chunks, i, c) && after[c].stamp == stamp + i
  {
    if chunks != [] {
      var n := |chunks| - 1;
      InsertStamps(rows, chunks[..n], stamp, c);
      InsertRowsExact(rows, chunks[..n], stamp);
      var before := InsertRows(rows, chunks[..n], stamp);
      if c in before && c !in rows {
        var i :| FirstAt(chunks[..n], i, c) && before[c].stamp == stamp + i;
        assert FirstAt(chunks, i, c);
      } else if c !in rows && c == chunks[n] {
        forall j | 0 <= j < n ensures chunks[j] != c { assert chunks[..n][j] in chunks[..n]; }
        assert FirstAt(chunks, n, c);
      }
    }
  }

  ghost predicate FirstAt(chunks: seq<Chunk>, i: int, c: Chunk) {
    0 <= i < |chunks| && chunks[i] == c && forall j :: 0 <= j < i ==> chunks[j] != c
  }

  /** The corpus stamps a document's new chunks onwards from its clock, a shard
      worker from zero; the clock moves by the document's chunks, or not at all. */
  lemma NewChunksAreStampedInPlace(env: Env, st: State, item: Item, sharded: bool, c: Chunk)
    requires c !in st.rows && Writes(env, item, c)
    ensures var st' := Import(env, st, [item], sharded);
      var base := if sharded then 0 else st.clock;
      && c in st'.rows && st'.clock == st.clock + (if sharded then 0 else |ItemChunks(env, item)|)
      && exists i :: FirstAt(ItemChunks(env, item), i, c) && st'.rows[c].stamp == base + i
  {
    var base := if sharded then 0 else st.clock;
    assert [item][..0] == [];
    InsertRowsExact(st.rows, ItemChunks(env, item), base);
    InsertStamps(st.rows, ItemChunks(env, item), base, c);
  }

  lemma InsertKeepsStamped(rows: Rows, chunks: seq<Chunk>, clock: nat)
    requires Stamped(rows, clock)
    ensures Stamped(InsertRows(rows, chunks, clock), clock + |chunks|)
  {
    var after := InsertRows(rows, chunks, clock);
    InsertRowsExact(rows, chunks, clock);
    forall c ensures c in after && c !in rows ==> exists i :: FirstAt(chunks, i, c) && after[c].stamp == clock + i {
      InsertStamps(rows, chunks, clock, c);
    }
  }

  lemma {:induction false} ItemsKeepStamped(env: Env, st: State, items: seq<Item>)
    requires Stamped(st.rows, st.clock)
    ensures var st' := WriteAll(env, st, items); Stamped(st'.rows, st'.clock)
    ensures var st' := Import(env, st, items, false); Stamped(st'.rows, st'.clock)
  {
    if items != [] {
      var n := |items| - 1;
      ItemsKeepStamped(env, st, items[..n]);
      WriteKeepsStamped(env, WriteAll(env, st, items[..n]), items[n]);
      WriteKeepsStamped(env, Import(env, st, items[..n], false), items[n]);
    }
  }

  lemma WriteKeepsStamped(env: Env, st: State, item: Item)
    requires Stamped(st.rows, st.clock)
    ensures var st' := WriteItem(env, st, item); Stamped(st'.rows, st'.clock)
  {
    InsertKeepsStamped(st.rows, ItemChunks(env, item), st.clock);
  }

  /** As long as one generator stamps all chunks, the order stamps of the stored
      rows are distinct, whatever is removed, scrubbed or written again. */
  lemma {:induction false} StampsAreDistinct(env: Env, ops: seq<Op>)
    requires OneGenerator(ops)
    ensures Stamped(Run(env, ops).rows, Run(env, ops).clock)
  {
    if ops != [] {
      var front := ops[..|ops| - 1];
      var st := Run(env, front);
      StampsAreDistinct(env, front);
      match ops[|ops| - 1]
      case OpIngest(item) => WriteKeepsStamped(env, st, item);
      case OpBatch(items) => ItemsKeepStamped(env, st, items);
      case OpImport(items, _) => ItemsKeepStamped(env, st, items);
      case _ =>
    }
  }
}
