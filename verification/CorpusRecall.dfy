/** What stays recallable over whole runs of a corpus, and what does not come
    back. */
module CorpusRecall {
  import opened Ordering
  import opened Corpus

  // --------------------------------------------------------------- vectors

  ghost predicate HasKey(rows: seq<VectorRow>, k: Key) {
    exists i :: 0 <= i < |rows| && rows[i].key == k
  }

  /** All keys belong to these models and these chunks. */
  ghost predicate Confined(vectors: Vectors, models: seq<Model>, chunks: set<Chunk>) {
    forall k :: k in vectors ==> k.model in models && k.chunk in chunks
  }

  ghost predicate RowsConfined(rows: seq<VectorRow>, models: seq<Model>, chunks: set<Chunk>) {
    forall i :: 0 <= i < |rows| ==> rows[i].key.model in models && rows[i].key.chunk in chunks
  }

  lemma {:induction false} UpsertConfined(vectors: Vectors, rows: seq<VectorRow>, models: seq<Model>, chunks: set<Chunk>)
    requires Confined(vectors, models, chunks) && RowsConfined(rows, models, chunks)
    ensures Confined(Upsert(vectors, rows), models, chunks)
  {
    if rows != [] { UpsertConfined(vectors, rows[..|rows| - 1], models, chunks); }
  }

  lemma {:induction false} UpsertKeeps(vectors: Vectors, rows: seq<VectorRow>, k: Key)
    ensures k in Upsert(vectors, rows) <==> k in vectors || HasKey(rows, k)
  {
    if rows != [] {
      var n := |rows| - 1;
      UpsertKeeps(vectors, rows[..n], k);
      if HasKey(rows[..n], k) {
        var i :| 0 <= i < n && rows[..n][i].key == k;
        assert rows[i].key == k;
      }
      if HasKey(rows, k) && rows[n].key != k {
        var i :| 0 <= i < |rows| && rows[i].key == k;
        assert rows[..n][i].key == k;
      }
    }
  }

  lemma HasKeyConcat(a: seq<VectorRow>, b: seq<VectorRow>, k: Key)
    ensures HasKey(a + b, k) <==> HasKey(a, k) || HasKey(b, k)
  {
    if HasKey(a, k) { var i :| 0 <= i < |a| && a[i].key == k; assert (a + b)[i].key == k; }
    if HasKey(b, k) { var i :| 0 <= i < |b| && b[i].key == k; assert (a + b)[|a| + i].key == k; }
  }

  lemma {:induction false} ChunkRowsConfined(env: Env, m: Model, basis: Basis, chunks: seq<Chunk>, text: Chunk -> Text, now: Time, models: seq<Model>, ids: set<Chunk>)
    requires m in models && forall i :: 0 <= i < |chunks| ==> chunks[i] in ids
    ensures RowsConfined(ChunkRows(env, m, basis, chunks, text, now), models, ids)
  {
    if chunks != [] { ChunkRowsConfined(env, m, basis, chunks[..|chunks| - 1], text, now, models, ids); }
  }

  lemma {:induction false} ChunkRowsCover(env: Env, m: Model, basis: Basis, chunks: seq<Chunk>, text: Chunk -> Text, now: Time, c: Chunk)
    requires c in chunks
    ensures HasKey(ChunkRows(env, m, basis, chunks, text, now), Key(m, c, 0))
  {
    var n := |chunks| - 1;
    var before, last := ChunkRows(env, m, basis, chunks[..n], text, now), PairRows(env, m, basis, chunks[n], text(chunks[n]), now);
    if c == chunks[n] {
      assert last[0].key == Key(m, c, 0);
    } else {
      ChunkRowsCover(env, m, basis, chunks[..n], text, now, c);
    }
    HasKeyConcat(before, last, Key(m, c, 0));
  }

  lemma {:induction false} DocumentRowsConfined(env: Env, models: seq<Model>, providers: map<Model, Basis>, chunks: seq<Chunk>, now: Time, all: seq<Model>, ids: set<Chunk>)
    requires (forall m :: m in models ==> m in all) && forall i :: 0 <= i < |chunks| ==> chunks[i] in ids
    ensures RowsConfined(DocumentRows(env, models, providers, chunks, now), all, ids)
  {
    if models != [] {
      var n := |models| - 1;
      DocumentRowsConfined(env, models[..n], providers, chunks, now, all, ids);
      ChunkRowsConfined(env, models[n], ProviderOf(env, providers, models[n]), chunks, (c: Chunk) => c.text, now, all, ids);
    }
  }

  lemma {:induction false} DocumentRowsCover(env: Env, models: seq<Model>, providers: map<Model, Basis>, chunks: seq<Chunk>, now: Time, m: Model, c: Chunk)
    requires m in models && c in chunks
    ensures HasKey(DocumentRows(env, models, providers, chunks, now), Key(m, c, 0))
  {
    var n := |models| - 1;
    var last := ChunkRows(env, models[n], ProviderOf(env, providers, models[n]), chunks, (c: Chunk) => c.text, now);
    if m == models[n] {
      ChunkRowsCover(env, m, ProviderOf(env, providers, m), chunks, (c: Chunk) => c.text, now, c);
    } else {
      DocumentRowsCover(env, models[..n], providers, chunks, now, m, c);
    }
    HasKeyConcat(DocumentRows(env, models[..n], providers, chunks, now), last, Key(m, c, 0));
  }

  // ----------------------------------------------------------- chunk rows

  lemma {:induction false} InsertRowsExact(rows: Rows, chunks: seq<Chunk>, stamp: nat)
    ensures var after := InsertRows(rows, chunks, stamp);
      && (forall c :: c in after <==> c in rows || c in chunks)
      && (forall c :: c in rows ==> after[c] == rows[c])
      && (forall c :: c in after && c !in rows ==> after[c].text == c.text)
  {
    if chunks != [] {
      var n := |chunks| - 1;
      InsertRowsExact(rows, chunks[..n], stamp);
      assert chunks == chunks[..n] + [chunks[n]];
    }
  }

  lemma {:induction false} IndexAllAt(env: Env, postings: map<Chunk, Tokens>, chunks: seq<Chunk>, c: Chunk)
    ensures var after := IndexAll(env, postings, chunks);
      && (c in after <==> if c in chunks then env.tokenize(c.text) != [] else c in postings)
      && (c in after ==> after[c] == if c in chunks then env.tokenize(c.text) else postings[c])
  {
    if chunks != [] {
      var n := |chunks| - 1;
      IndexAllAt(env, postings, chunks[..n], c);
      assert chunks == chunks[..n] + [chunks[n]];
    }
  }

  lemma IndexAllExact(env: Env, postings: map<Chunk, Tokens>, chunks: seq<Chunk>)
    ensures var after := IndexAll(env, postings, chunks);
      && (forall c :: c in after <==> if c in chunks then env.tokenize(c.text) != [] else c in postings)
      && (forall c :: c in after ==> after[c] == if c in chunks then env.tokenize(c.text) else postings[c])
  {
    forall c ensures var after := IndexAll(env, postings, chunks);
      && (c in after <==> if c in chunks then env.tokenize(c.text) != [] else c in postings)
      && (c in after ==> after[c] == if c in chunks then env.tokenize(c.text) else postings[c]) {
      IndexAllAt(env, postings, chunks, c);
    }
  }

  lemma {:induction false} FilterExact<T(!new)>(s: seq<T>, keep: T -> bool)
    ensures forall x :: x in Filter(s, keep) <==> x in s && keep(x)
  {
    if s != [] {
      var n := |s| - 1;
      FilterExact(s[..n], keep);
      assert s == s[..n] + [s[n]];
    }
  }

  ghost function ActiveSet(st: State): set<Chunk> {
    set c | c in st.rows && c.source !in st.removed
  }

  lemma ActiveExact(env: Env, st: State)
    requires Lawful(env)
    ensures forall c :: c in Active(env, st) <==> c in ActiveSet(st)
  {
    FilterExact(env.scan(st.rows), NotIn(st.removed));
    assert forall c :: c in env.scan(st.rows) <==> c in Elements(env.scan(st.rows));
  }

  // -------------------------------------------------------------- recall

  /** Postings and vectors belong to stored chunks of sources not removed. */
  ghost predicate Quiet(env: Env, st: State) {
    && st.postings.Keys <= ActiveSet(st)
    && Confined(st.vectors, env.models, ActiveSet(st))
  }

  lemma ConfinedGrows(vectors: Vectors, models: seq<Model>, a: set<Chunk>, b: set<Chunk>)
    requires Confined(vectors, models, a) && a <= b
    ensures Confined(vectors, models, b)
  {
  }

  lemma WriteKeepsQuiet(env: Env, st: State, item: Item, stamp: nat, clock: nat)
    requires Lawful(env) && Quiet(env, st)
    ensures var st' := Write(env, st, item, stamp, clock);
      Quiet(env, st') && ActiveSet(st) <= ActiveSet(st') && forall c :: c in env.chunk(item.source, item.text) ==> c in ActiveSet(st')
  {
    var chunks := env.chunk(item.source, item.text);
    if chunks != [] {
      InsertRowsExact(st.rows, chunks, stamp);
      IndexAllExact(env, st.postings, chunks);
      var st' := Write(env, st, item, stamp, clock);
      forall c | c in chunks ensures c in ActiveSet(st') {
        var i :| 0 <= i < |chunks| && chunks[i] == c;
      }
      assert ActiveSet(st) <= ActiveSet(st');
      ConfinedGrows(st.vectors, env.models, ActiveSet(st), ActiveSet(st'));
    }
  }

  ghost predicate Written(env: Env, items: seq<Item>, active: set<Chunk>) {
    forall i :: 0 <= i < |items| ==> ItemWritten(env, items[i], active)
  }

  ghost predicate ItemWritten(env: Env, item: Item, active: set<Chunk>) {
    forall c :: c in env.chunk(item.source, item.text) ==> c in active
  }

  lemma WrittenNext(env: Env, items: seq<Item>, before: set<Chunk>, after: set<Chunk>)
    requires items != [] && Written(env, items[..|items| - 1], before) && before <= after
    requires ItemWritten(env, items[|items| - 1], after)
    ensures Written(env, items, after)
  {
    var n := |items| - 1;
    forall i | 0 <= i < |items| ensures ItemWritten(env, items[i], after) {
      if i < n { assert ItemWritten(env, items[..n][i], before); }
    }
  }

  lemma {:induction false} WriteAllKeepsQuiet(env: Env, st: State, items: seq<Item>)
    requires Lawful(env) && Quiet(env, st)
    ensures var st' := WriteAll(env, st, items);
      Quiet(env, st') && ActiveSet(st) <= ActiveSet(st') && Written(env, items, ActiveSet(st'))
  {
    if items != [] {
      var n := |items| - 1;
      var before := WriteAll(env, st, items[..n]);
      WriteAllKeepsQuiet(env, st, items[..n]);
      WriteKeepsQuiet(env, before, items[n], before.clock, before.clock + |env.chunk(items[n].source, items[n].text)|);
      WrittenNext(env, items, ActiveSet(before), ActiveSet(WriteAll(env, st, items)));
    }
  }

  lemma {:induction false} ImportKeepsQuiet(env: Env, st: State, items: seq<Item>, sharded: bool)
    requires Lawful(env) && Quiet(env, st)
    ensures Quiet(env, Import(env, st, items, sharded))
  {
    if items != [] {
      var n := |items| - 1;
      var before := Import(env, st, items[..n], sharded);
      ImportKeepsQuiet(env, st, items[..n], sharded);
      WriteKeepsQuiet(env, before, items[n], if sharded then 0 else before.clock,
                      if sharded then before.clock else before.clock + |env.chunk(items[n].source, items[n].text)|);
    }
  }

  lemma ReembedConfined(env: Env, st: State, m: Model, chunks: seq<Chunk>, now: Time, ids: set<Chunk>)
    requires Confined(st.vectors, env.models, ids) && m in env.models && forall c :: c in chunks ==> c in ids
    ensures Confined(Reembed(env, st, m, chunks, now).vectors, env.models, ids)
  {
    var rows := ChunkRows(env, m, ProviderOf(env, st.providers, m), chunks, StoredText(st.rows), now);
    ChunkRowsConfined(env, m, ProviderOf(env, st.providers, m), chunks, StoredText(st.rows), now, env.models, ids);
    UpsertConfined(WithoutModel(st.vectors, m), rows, env.models, ids);
  }

  lemma {:induction false} TrainMissingConfined(env: Env, st: State, models: seq<Model>, active: seq<Chunk>, now: Time, ids: set<Chunk>)
    requires Confined(st.vectors, env.models, ids) && models <= env.models && forall c :: c in active ==> c in ids
    ensures Confined(TrainMissing(env, st, models, active, now).vectors, env.models, ids)
  {
    if models != [] {
      var n := |models| - 1;
      TrainMissingConfined(env, st, models[..n], active, now, ids);
      var before := TrainMissing(env, st, models[..n], active, now);
      ReembedConfined(env, Train(env, before, models[n], active), models[n], active, now, ids);
    }
  }

  lemma {:induction false} ReembedAllConfined(env: Env, st: State, models: seq<Model>, active: seq<Chunk>, now: Time, ids: set<Chunk>)
    requires Confined(st.vectors, env.models, ids) && models <= env.models && forall c :: c in active ==> c in ids
    ensures Confined(ReembedAll(env, st, models, active, now).vectors, env.models, ids)
  {
    if models != [] {
      var n := |models| - 1;
      ReembedAllConfined(env, st, models[..n], active, now, ids);
      ReembedConfined(env, ReembedAll(env, st, models[..n], active, now), models[n], active, now, ids);
    }
  }

  lemma IngestKeepsQuiet(env: Env, st: State, item: Item)
    requires Lawful(env) && Quiet(env, st)
    ensures Quiet(env, Ingest(env, st, item))
  {
    var chunks := env.chunk(item.source, item.text);
    if chunks != [] {
      var written := WriteItem(env, st, item);
      WriteKeepsQuiet(env, st, item, st.clock, st.clock + |chunks|);
      ActiveExact(env, written);
      var ids := ActiveSet(written);
      TrainMissingConfined(env, written, env.models, Active(env, written), item.now, ids);
      var trained := TrainMissing(env, written, env.models, Active(env, written), item.now);
      var keep := HasBasis(env, written.bases);
      FilterExact(env.models, keep);
      DocumentRowsConfined(env, Filter(env.models, keep), trained.providers, chunks, item.now, env.models, ids);
      UpsertConfined(trained.vectors, DocumentRows(env, Filter(env.models, keep), trained.providers, chunks, item.now), env.models, ids);
      assert ActiveSet(Ingest(env, st, item)) == ids;
    }
  }

  lemma {:induction false} BatchRowsConfined(env: Env, providers: map<Model, Basis>, items: seq<Item>, ids: set<Chunk>)
    requires Written(env, items, ids)
    ensures RowsConfined(BatchRows(env, providers, items), env.models, ids)
  {
    if items != [] {
      var n := |items| - 1;
      assert Written(env, items[..n], ids);
      BatchRowsConfined(env, providers, items[..n], ids);
      var chunks := env.chunk(items[n].source, items[n].text);
      assert ItemWritten(env, items[n], ids);
      DocumentRowsConfined(env, env.models, providers, chunks, items[n].now, env.models, ids);
    }
  }

  lemma BatchKeepsQuiet(env: Env, st: State, items: seq<Item>)
    requires Lawful(env) && Quiet(env, st)
    ensures Quiet(env, IngestBatch(env, st, items))
  {
    if items != [] {
      var written := WriteAll(env, st, items);
      WriteAllKeepsQuiet(env, st, items);
      var ready := Bootstrap(env, written);
      BatchRowsConfined(env, ready.providers, items, ActiveSet(written));
      UpsertConfined(ready.vectors, BatchRows(env, ready.providers, items), env.models, ActiveSet(written));
      assert ActiveSet(IngestBatch(env, st, items)) == ActiveSet(written);
    }
  }

  lemma ReindexKeepsQuiet(env: Env, st: State, now: Time)
    requires Lawful(env) && Quiet(env, st)
    ensures Quiet(env, Reindex(env, st, now))
  {
    var active := Active(env, st);
    ActiveExact(env, st);
    ReembedAllConfined(env, TrainAll(env, st, env.models, active), env.models, active, now, ActiveSet(st));
    assert ActiveSet(Reindex(env, st, now)) == ActiveSet(st);
  }

  lemma RemoveKeepsQuiet(env: Env, st: State, s: Source)
    requires Quiet(env, st)
    ensures Quiet(env, Remove(env, st, s)) && Quiet(env, Expunge(env, st, s))
  {
    var scrubbed := st.(rows := Scrub(st.rows, s));
    assert ActiveSet(scrubbed) == ActiveSet(st);
    RemoveOnce(env, st, s);
    RemoveOnce(env, scrubbed, s);
  }

  lemma RemoveOnce(env: Env, st: State, s: Source)
    requires Quiet(env, st)
    ensures Quiet(env, Remove(env, st, s))
  {
    var st' := Remove(env, st, s);
    forall c | c in st'.postings ensures c in ActiveSet(st') { assert c in ActiveSet(st); }
    forall k | k in st'.vectors ensures k.model in env.models && k.chunk in ActiveSet(st') { assert k.chunk in ActiveSet(st); }
  }

  lemma StepReindex(env: Env, st: State, now: Time)
    ensures Step(env, st, OpReindex(now)) == Reindex(env, st, now)
  {
  }

  lemma StepKeepsQuiet(env: Env, st: State, op: Op)
    requires Lawful(env) && Quiet(env, st)
    ensures Quiet(env, Step(env, st, op))
  {
    match op
    case OpIngest(item) => IngestKeepsQuiet(env, st, item);
    case OpBatch(items) => BatchKeepsQuiet(env, st, items);
    case OpImport(items, sharded) => ImportKeepsQuiet(env, st, items, sharded);
    case OpRemove(s) => RemoveKeepsQuiet(env, st, s);
    case OpExpunge(s) => RemoveKeepsQuiet(env, st, s);
    case OpReindex(now) =>
      StepReindex(env, st, now);
      ReindexKeepsQuiet(env, st, now);
    case OpReopen => assert ActiveSet(Reopen(env, st)) == ActiveSet(st);
  }

  lemma {:induction false} RunIsQuiet(env: Env, ops: seq<Op>)
    requires Lawful(env)
    ensures Quiet(env, Run(env, ops))
  {
    if ops != [] {
      RunIsQuiet(env, ops[..|ops| - 1]);
      StepKeepsQuiet(env, Run(env, ops[..|ops| - 1]), ops[|ops| - 1]);
    }
  }

  // ----------------------------------------------------------- the history

  /** The item leaves at least one chunk of the source. */
  predicate Revives(env: Env, item: Item, s: Source) {
    item.source == s && env.chunk(item.source, item.text) != []
  }

  predicate AnyRevives(env: Env, items: seq<Item>, s: Source) {
    exists i :: 0 <= i < |items| && Revives(env, items[i], s)
  }

  /** The latest non-empty ingest or removal of the source is a removal. */
  predicate RemovedLast(env: Env, ops: seq<Op>, s: Source) {
    if ops == [] then false else
      var before := RemovedLast(env, ops[..|ops| - 1], s);
      match ops[|ops| - 1]
      case OpRemove(x) => before || x == s
      case OpExpunge(x) => before || x == s
      case OpIngest(item) => before && !Revives(env, item, s)
      case OpBatch(items) => before && !AnyRevives(env, items, s)
      case OpImport(items, _) => before && !AnyRevives(env, items, s)
      case OpReindex(_) => before
      case OpReopen => before
  }

  lemma AnyRevivesNext(env: Env, items: seq<Item>, s: Source)
    requires items != []
    ensures AnyRevives(env, items, s) <==> AnyRevives(env, items[..|items| - 1], s) || Revives(env, items[|items| - 1], s)
  {
    var n := |items| - 1;
    if AnyRevives(env, items[..n], s) {
      var i :| 0 <= i < n && Revives(env, items[..n][i], s);
      assert Revives(env, items[i], s);
    }
    if AnyRevives(env, items, s) && !Revives(env, items[n], s) {
      var i :| 0 <= i < |items| && Revives(env, items[i], s);
      assert Revives(env, items[..n][i], s);
    }
  }

  lemma {:induction false} ItemsRemoved(env: Env, st: State, items: seq<Item>, sharded: bool, s: Source)
    ensures s in WriteAll(env, st, items).removed <==> s in st.removed && !AnyRevives(env, items, s)
    ensures s in Import(env, st, items, sharded).removed <==> s in st.removed && !AnyRevives(env, items, s)
  {
    if items != [] {
      ItemsRemoved(env, st, items[..|items| - 1], sharded, s);
      AnyRevivesNext(env, items, s);
    }
  }

  /** The removed set records exactly that. */
  lemma {:induction false} RemovedTracksHistory(env: Env, ops: seq<Op>, s: Source)
    ensures s in Run(env, ops).removed <==> RemovedLast(env, ops, s)
  {
    if ops != [] {
      var before, last := Run(env, ops[..|ops| - 1]), ops[|ops| - 1];
      RemovedTracksHistory(env, ops[..|ops| - 1], s);
      match last
      case OpBatch(items) => ItemsRemoved(env, before, items, false, s);
      case OpImport(items, sharded) => ItemsRemoved(env, before, items, sharded, s);
      case _ =>
    }
  }

  /** No resurrection.  In every run a source whose latest non-empty ingest or
      removal is a removal owns no posting and no vector, through any reindexes,
      first-ingest trainings, imports, reopens and ingests of other sources. */
  lemma NoResurrection(env: Env, ops: seq<Op>, s: Source)
    requires Lawful(env) && RemovedLast(env, ops, s)
    ensures forall c :: c in Run(env, ops).postings ==> c.source != s
    ensures forall k :: k in Run(env, ops).vectors ==> k.chunk.source != s
  {
    RunIsQuiet(env, ops);
    RemovedTracksHistory(env, ops, s);
    var st := Run(env, ops);
    forall c | c in st.postings ensures c.source != s { assert c in ActiveSet(st); }
    forall k | k in st.vectors ensures k.chunk.source != s { assert k.chunk in ActiveSet(st); }
  }

  // ------------------------------------------------------- exact postings

  predicate Writes(env: Env, item: Item, c: Chunk) {
    c in env.chunk(item.source, item.text)
  }

  predicate AnyWrites(env: Env, items: seq<Item>, c: Chunk) {
    exists i :: 0 <= i < |items| && Writes(env, items[i], c)
  }

  lemma AnyWritesNext(env: Env, items: seq<Item>, c: Chunk)
    requires items != []
    ensures AnyWrites(env, items, c) <==> AnyWrites(env, items[..|items| - 1], c) || Writes(env, items[|items| - 1], c)
  {
    var n := |items| - 1;
    if AnyWrites(env, items[..n], c) {
      var i :| 0 <= i < n && Writes(env, items[..n][i], c);
      assert Writes(env, items[i], c);
    }
    if AnyWrites(env, items, c) && !Writes(env, items[n], c) {
      var i :| 0 <= i < |items| && Writes(env, items[i], c);
      assert Writes(env, items[..n][i], c);
    }
  }

  /** The chunk was written by an ingest or import since its source was last
      removed. */
  predicate Live(env: Env, ops: seq<Op>, c: Chunk) {
    ops != [] && LiveAfter(env, ops[|ops| - 1], c, Live(env, ops[..|ops| - 1], c))
  }

  predicate LiveAfter(env: Env, op: Op, c: Chunk, before: bool) {
    match op
    case OpRemove(x) => before && x != c.source
    case OpExpunge(x) => before && x != c.source
    case OpIngest(item) => before || Writes(env, item, c)
    case OpBatch(items) => before || AnyWrites(env, items, c)
    case OpImport(items, _) => before || AnyWrites(env, items, c)
    case OpReindex(_) => before
    case OpReopen => before
  }

  /** A chunk has a posting when it is live and has tokens, and the posting is its
      tokens. */
  ghost predicate PostingExact(env: Env, st: State, c: Chunk, live: bool) {
    && (c in st.postings <==> live && env.tokenize(c.text) != [])
    && (c in st.postings ==> st.postings[c] == env.tokenize(c.text))
  }

  lemma WritePosting(env: Env, st: State, item: Item, stamp: nat, clock: nat, c: Chunk, live: bool)
    requires PostingExact(env, st, c, live)
    ensures PostingExact(env, Write(env, st, item, stamp, clock), c, live || Writes(env, item, c))
  {
    IndexAllAt(env, st.postings, env.chunk(item.source, item.text), c);
  }

  lemma {:induction false} ItemsPosting(env: Env, st: State, items: seq<Item>, sharded: bool, c: Chunk, live: bool)
    requires PostingExact(env, st, c, live)
    ensures PostingExact(env, WriteAll(env, st, items), c, live || AnyWrites(env, items, c))
    ensures PostingExact(env, Import(env, st, items, sharded), c, live || AnyWrites(env, items, c))
  {
    if items != [] {
      var n := |items| - 1;
      ItemsPosting(env, st, items[..n], sharded, c, live);
      AnyWritesNext(env, items, c);
      var a, b := WriteAll(env, st, items[..n]), Import(env, st, items[..n], sharded);
      var made := |env.chunk(items[n].source, items[n].text)|;
      var before := live || AnyWrites(env, items[..n], c);
      WritePosting(env, a, items[n], a.clock, a.clock + made, c, before);
      WritePosting(env, b, items[n], if sharded then 0 else b.clock, if sharded then b.clock else b.clock + made, c, before);
    }
  }

  /** A removal takes exactly the source's postings. */
  lemma RemovalPosting(env: Env, st: State, s: Source, c: Chunk, live: bool)
    requires PostingExact(env, st, c, live) && (c in st.postings ==> c in st.rows)
    ensures PostingExact(env, Remove(env, st, s), c, live && s != c.source)
    ensures PostingExact(env, Expunge(env, st, s), c, live && s != c.source)
  {
  }

  lemma WriteItemPosting(env: Env, st: State, item: Item, c: Chunk, live: bool)
    requires PostingExact(env, st, c, live)
    ensures PostingExact(env, WriteItem(env, st, item), c, live || Writes(env, item, c))
  {
    WritePosting(env, st, item, st.clock, st.clock + |env.chunk(item.source, item.text)|, c, live);
  }

  /** Only the write of an ingest touches the postings. */
  lemma IngestPostings(env: Env, st: State, item: Item)
    ensures Ingest(env, st, item).postings == WriteItem(env, st, item).postings
  {
    if env.chunk(item.source, item.text) == [] { assert WriteItem(env, st, item).postings == st.postings; }
  }

  lemma IngestPosting(env: Env, st: State, item: Item, c: Chunk, live: bool)
    requires PostingExact(env, st, c, live)
    ensures PostingExact(env, Ingest(env, st, item), c, live || Writes(env, item, c))
  {
    IngestPostings(env, st, item);
    WriteItemPosting(env, st, item, c, live);
  }

  lemma BatchPosting(env: Env, st: State, items: seq<Item>, c: Chunk, live: bool)
    requires PostingExact(env, st, c, live)
    ensures PostingExact(env, IngestBatch(env, st, items), c, live || AnyWrites(env, items, c))
  {
    ItemsPosting(env, st, items, false, c, live);
  }

  /** The postings of a chunk after one call. */
  lemma StepPosting(env: Env, st: State, op: Op, c: Chunk, live: bool)
    requires PostingExact(env, st, c, live) && (c in st.postings ==> c in st.rows)
    ensures PostingExact(env, Step(env, st, op), c, LiveAfter(env, op, c, live))
  {
    match op
    case OpIngest(item) => IngestPosting(env, st, item, c, live);
    case OpBatch(items) => BatchPosting(env, st, items, c, live);
    case OpImport(items, sharded) => ItemsPosting(env, st, items, sharded, c, live);
    case OpRemove(s) => RemovalPosting(env, st, s, c, live);
    case OpExpunge(s) => RemovalPosting(env, st, s, c, live);
    case OpReindex(now) => StepReindex(env, st, now);
    case OpReopen =>
  }

  /** After any run the keyword index holds exactly the live chunks that have
      tokens, under their tokens: nothing lingers and nothing is lost. */
  lemma {:induction false} PostingsAreTheLiveChunks(env: Env, ops: seq<Op>, c: Chunk)
    requires Lawful(env)
    ensures PostingExact(env, Run(env, ops), c, Live(env, ops, c))
  {
    if ops != [] {
      var front := ops[..|ops| - 1];
      PostingsAreTheLiveChunks(env, front, c);
      RunIsQuiet(env, front);
      assert c in Run(env, front).postings ==> c in ActiveSet(Run(env, front));
      StepPosting(env, Run(env, front), ops[|ops| - 1], c, Live(env, front, c));
    }
  }

  // ------------------------------------------------- vectors are not lost

  /** The chunk was embedded by an ingest since its source was last removed. */
  predicate Embedded(env: Env, ops: seq<Op>, c: Chunk) {
    if ops == [] then false else
      var before := Embedded(env, ops[..|ops| - 1], c);
      match ops[|ops| - 1]
      case OpRemove(x) => before && x != c.source
      case OpExpunge(x) => before && x != c.source
      case OpIngest(item) => before || Writes(env, item, c)
      case OpBatch(items) => before || AnyWrites(env, items, c)
      case OpImport(_, _) => before
      case OpReindex(_) => before
      case OpReopen => before
  }

  /** The chunk has a binary vector under every model. */
  ghost predicate Found(env: Env, vectors: Vectors, c: Chunk) {
    forall m :: m in env.models ==> Key(m, c, 0) in vectors
  }

  lemma ReembedFound(env: Env, st: State, m: Model, chunks: seq<Chunk>, now: Time, x: Model, c: Chunk)
    requires c in chunks && (Key(x, c, 0) in st.vectors || x == m)
    ensures Key(x, c, 0) in Reembed(env, st, m, chunks, now).vectors
  {
    var rows := ChunkRows(env, m, ProviderOf(env, st.providers, m), chunks, StoredText(st.rows), now);
    ChunkRowsCover(env, m, ProviderOf(env, st.providers, m), chunks, StoredText(st.rows), now, c);
    UpsertKeeps(WithoutModel(st.vectors, m), rows, Key(x, c, 0));
  }

  lemma {:induction false} TrainMissingFound(env: Env, st: State, models: seq<Model>, active: seq<Chunk>, now: Time, x: Model, c: Chunk)
    requires c in active && (Key(x, c, 0) in st.vectors || (x in models && Untrained(env, st.bases, x)))
    ensures Key(x, c, 0) in TrainMissing(env, st, models, active, now).vectors
  {
    if models != [] {
      var n := |models| - 1;
      var before := TrainMissing(env, st, models[..n], active, now);
      assert models == models[..n] + [models[n]];
      if Key(x, c, 0) in st.vectors || x in models[..n] { TrainMissingFound(env, st, models[..n], active, now, x, c); }
      if Untrained(env, st.bases, models[n]) { ReembedFound(env, Train(env, before, models[n], active), models[n], active, now, x, c); }
    }
  }

  lemma {:induction false} ReembedAllFound(env: Env, st: State, models: seq<Model>, active: seq<Chunk>, now: Time, x: Model, c: Chunk)
    requires c in active && (Key(x, c, 0) in st.vectors || x in models)
    ensures Key(x, c, 0) in ReembedAll(env, st, models, active, now).vectors
  {
    if models != [] {
      var n := |models| - 1;
      assert models == models[..n] + [models[n]];
      if Key(x, c, 0) in st.vectors || x in models[..n] { ReembedAllFound(env, st, models[..n], active, now, x, c); }
      ReembedFound(env, ReembedAll(env, st, models[..n], active, now), models[n], active, now, x, c);
    }
  }

  /** Reindexing gives every active chunk its vector. */
  lemma ReindexFinds(env: Env, st: State, now: Time, c: Chunk)
    requires Lawful(env) && c in ActiveSet(st)
    ensures Found(env, Reindex(env, st, now).vectors, c)
  {
    var active := Active(env, st);
    ActiveExact(env, st);
    forall m | m in env.models ensures Key(m, c, 0) in Reindex(env, st, now).vectors {
      ReembedAllFound(env, TrainAll(env, st, env.models, active), env.models, active, now, m, c);
    }
  }

  lemma IngestFinds(env: Env, st: State, item: Item, c: Chunk)
    requires Lawful(env) && Quiet(env, st) && env.models != []
    requires Found(env, st.vectors, c) || Writes(env, item, c)
    ensures Found(env, Ingest(env, st, item).vectors, c)
  {
    var chunks := env.chunk(item.source, item.text);
    if chunks != [] {
      var written := WriteItem(env, st, item);
      WriteKeepsQuiet(env, st, item, st.clock, st.clock + |chunks|);
      ActiveExact(env, written);
      var trained := TrainMissing(env, written, env.models, Active(env, written), item.now);
      var keep := HasBasis(env, written.bases);
      FilterExact(env.models, keep);
      var foldIn := Filter(env.models, keep);
      var rows := DocumentRows(env, foldIn, trained.providers, chunks, item.now);
      assert c in Active(env, written) by {
        if !Writes(env, item, c) { assert Key(env.models[0], c, 0) in st.vectors; }
      }
      forall m | m in env.models ensures Key(m, c, 0) in Upsert(trained.vectors, rows) {
        UpsertKeeps(trained.vectors, rows, Key(m, c, 0));
        if Key(m, c, 0) in written.vectors || Untrained(env, written.bases, m) {
          TrainMissingFound(env, written, env.models, Active(env, written), item.now, m, c);
        } else {
          DocumentRowsCover(env, foldIn, trained.providers, chunks, item.now, m, c);
        }
      }
    }
  }

  lemma {:induction false} BatchRowsCover(env: Env, providers: map<Model, Basis>, items: seq<Item>, m: Model, c: Chunk)
    requires m in env.models && AnyWrites(env, items, c)
    ensures HasKey(BatchRows(env, providers, items), Key(m, c, 0))
  {
    var n := |items| - 1;
    AnyWritesNext(env, items, c);
    var chunks := env.chunk(items[n].source, items[n].text);
    if Writes(env, items[n], c) {
      DocumentRowsCover(env, env.models, providers, chunks, items[n].now, m, c);
    } else {
      BatchRowsCover(env, providers, items[..n], m, c);
    }
    HasKeyConcat(BatchRows(env, providers, items[..n]), DocumentRows(env, env.models, providers, chunks, items[n].now), Key(m, c, 0));
  }

  lemma {:induction false} WritesLeaveVectors(env: Env, st: State, items: seq<Item>, sharded: bool)
    ensures WriteAll(env, st, items).vectors == st.vectors == Import(env, st, items, sharded).vectors
  {
    if items != [] { WritesLeaveVectors(env, st, items[..|items| - 1], sharded); }
  }

  lemma BatchFinds(env: Env, st: State, items: seq<Item>, c: Chunk)
    requires Found(env, st.vectors, c) || AnyWrites(env, items, c)
    ensures Found(env, IngestBatch(env, st, items).vectors, c)
  {
    if items != [] {
      var written := WriteAll(env, st, items);
      var ready := Bootstrap(env, written);
      WritesLeaveVectors(env, st, items, false);
      forall m | m in env.models ensures Key(m, c, 0) in IngestBatch(env, st, items).vectors {
        UpsertKeeps(ready.vectors, BatchRows(env, ready.providers, items), Key(m, c, 0));
        if AnyWrites(env, items, c) { BatchRowsCover(env, ready.providers, items, m, c); }
      }
    }
  }

  /** No loss: a chunk embedded since its source was last removed has a vector
      under every model, whatever trainings, reindexes, imports and reopens came
      after. */
  lemma {:induction false} EmbeddedChunksStayFound(env: Env, ops: seq<Op>, c: Chunk)
    requires Lawful(env) && Embedded(env, ops, c) && env.models != []
    ensures Found(env, Run(env, ops).vectors, c)
  {
    var front, last := ops[..|ops| - 1], ops[|ops| - 1];
    var before := Run(env, front);
    RunIsQuiet(env, front);
    if Embedded(env, front, c) {
      EmbeddedChunksStayFound(env, front, c);
      assert Key(env.models[0], c, 0) in before.vectors;
      assert c in ActiveSet(before);
    }
    match last
    case OpIngest(item) => IngestFinds(env, before, item, c);
    case OpBatch(items) => BatchFinds(env, before, items, c);
    case OpImport(items, sharded) => WritesLeaveVectors(env, before, items, sharded);
    case OpReindex(now) => ReindexFinds(env, before, now, c);
    case _ =>
  }

  // ------------------------------------------------------------ erasure

  /** Some ingest or import wrote the chunk. */
  predicate Stored(env: Env, ops: seq<Op>, c: Chunk) {
    if ops == [] then false else
      var before := Stored(env, ops[..|ops| - 1], c);
      match ops[|ops| - 1]
      case OpIngest(item) => before || Writes(env, item, c)
      case OpBatch(items) => before || AnyWrites(env, items, c)
      case OpImport(items, _) => before || AnyWrites(env, items, c)
      case _ => before
  }

  /** Its source was expunged after that. */
  predicate Scrubbed(env: Env, ops: seq<Op>, c: Chunk) {
    if ops == [] then false else
      var front := ops[..|ops| - 1];
      Scrubbed(env, front, c) || (ops[|ops| - 1] == OpExpunge(c.source) && Stored(env, front, c))
  }

  ghost predicate RowExact(st: State, c: Chunk, stored: bool, scrubbed: bool) {
    && (c in st.rows <==> stored)
    && (c in st.rows ==> st.rows[c].text == if scrubbed then [] else c.text)
  }

  lemma WriteRow(env: Env, st: State, item: Item, stamp: nat, clock: nat, c: Chunk, stored: bool, scrubbed: bool)
    requires RowExact(st, c, stored, scrubbed) && (scrubbed ==> stored)
    ensures RowExact(Write(env, st, item, stamp, clock), c, stored || Writes(env, item, c), scrubbed)
  {
    InsertRowsExact(st.rows, env.chunk(item.source, item.text), stamp);
  }

  lemma {:induction false} ItemsRow(env: Env, st: State, items: seq<Item>, sharded: bool, c: Chunk, stored: bool, scrubbed: bool)
    requires RowExact(st, c, stored, scrubbed) && (scrubbed ==> stored)
    ensures RowExact(WriteAll(env, st, items), c, stored || AnyWrites(env, items, c), scrubbed)
    ensures RowExact(Import(env, st, items, sharded), c, stored || AnyWrites(env, items, c), scrubbed)
  {
    if items != [] {
      var n := |items| - 1;
      ItemsRow(env, st, items[..n], sharded, c, stored, scrubbed);
      AnyWritesNext(env, items, c);
      var a, b := WriteAll(env, st, items[..n]), Import(env, st, items[..n], sharded);
      var made := |env.chunk(items[n].source, items[n].text)|;
      var before := stored || AnyWrites(env, items[..n], c);
      WriteRow(env, a, items[n], a.clock, a.clock + made, c, before, scrubbed);
      WriteRow(env, b, items[n], if sharded then 0 else b.clock, if sharded then b.clock else b.clock + made, c, before, scrubbed);
    }
  }

  lemma {:induction false} ScrubbedWasStored(env: Env, ops: seq<Op>, c: Chunk)
    ensures Scrubbed(env, ops, c) ==> Stored(env, ops, c)
  {
    if ops != [] { ScrubbedWasStored(env, ops[..|ops| - 1], c); }
  }

  /** Erasure is permanent.  The chunk table holds every chunk ever written, with
      its text, or with no text for ever once its source was expunged: writing
      the same chunk again does not bring the text back. */
  lemma {:induction false} ErasureIsPermanent(env: Env, ops: seq<Op>, c: Chunk)
    ensures RowExact(Run(env, ops), c, Stored(env, ops, c), Scrubbed(env, ops, c))
  {
    if ops != [] {
      var front := ops[..|ops| - 1];
      var before, stored, scrubbed := Run(env, front), Stored(env, front, c), Scrubbed(env, front, c);
      ErasureIsPermanent(env, front, c);
      ScrubbedWasStored(env, front, c);
      match ops[|ops| - 1]
      case OpIngest(item) => WriteRow(env, before, item, before.clock, before.clock + |env.chunk(item.source, item.text)|, c, stored, scrubbed);
      case OpBatch(items) => ItemsRow(env, before, items, false, c, stored, scrubbed);
      case OpImport(items, sharded) => ItemsRow(env, before, items, sharded, c, stored, scrubbed);
      case _ =>
    }
  }

  /** The keyword and the vector lane disagree after a reindex exactly about the
      active chunks that are not live or have no tokens: chunks of an earlier
      version of a source that was removed and then ingested again come back as
      vectors and not as postings. */
  lemma LanesAgreeExactlyWhen(env: Env, ops: seq<Op>, now: Time, c: Chunk)
    requires Lawful(env) && env.models != []
    ensures var st := Run(env, ops);
      var st' := Reindex(env, st, now);
      (Found(env, st'.vectors, c) <==> c in st'.postings)
      <==> (c in ActiveSet(st) ==> Live(env, ops, c) && env.tokenize(c.text) != [])
  {
    PostingsAreTheLiveChunks(env, ops, c);
    RunIsQuiet(env, ops);
    ReindexFindsExactly(env, Run(env, ops), now, c);
  }

  lemma ReindexFindsExactly(env: Env, st: State, now: Time, c: Chunk)
    requires Lawful(env) && Quiet(env, st) && env.models != []
    ensures Found(env, Reindex(env, st, now).vectors, c) <==> c in ActiveSet(st)
    ensures Reindex(env, st, now).postings == st.postings
  {
    var st' := Reindex(env, st, now);
    ReindexKeepsQuiet(env, st, now);
    assert ActiveSet(st') == ActiveSet(st);
    if c in ActiveSet(st) {
      ReindexFinds(env, st, now, c);
    } else {
      assert Key(env.models[0], c, 0) !in st'.vectors;
    }
  }
}
