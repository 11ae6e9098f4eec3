/** What rebuilding a corpus computes: reindexing, the batch form of ingest, and
    reopening. */
module CorpusRebuild {
  import opened Options
  import opened Ordering
  import opened Corpus
  import opened CorpusRecall

  // -------------------------------------------------------------- serving

  function BasisFor(env: Env, bases: map<Model, Basis>, m: Model): Basis {
    if env.trainable(m) && m in bases then bases[m] else env.emptyBasis(m)
  }

  /** The slots serve what is persisted, one accumulator per trainable model. */
  ghost predicate Serving(env: Env, st: State) {
    && Serves(env, st.providers, st.bases)
    && (forall m :: m in st.accumulators <==> m in env.models && env.trainable(m))
    && st.saved.Keys <= st.accumulators.Keys
  }

  ghost predicate Serves(env: Env, providers: map<Model, Basis>, bases: map<Model, Basis>) {
    && (forall m :: m in providers <==> m in env.models)
    && (forall m :: m in env.models ==> providers[m] == BasisFor(env, bases, m))
    && (forall m :: m in bases ==> m in env.models && env.trainable(m))
  }

  lemma TrainServes(env: Env, st: State, m: Model, chunks: seq<Chunk>)
    requires Serves(env, st.providers, st.bases) && m in env.models && env.trainable(m)
    ensures var st' := Train(env, st, m, chunks); Serves(env, st'.providers, st'.bases)
  {
  }

  lemma {:induction false} TrainingServes(env: Env, st: State, models: seq<Model>, active: seq<Chunk>, now: Time)
    requires Serves(env, st.providers, st.bases) && models <= env.models
    ensures var r := TrainMissing(env, st, models, active, now); Serves(env, r.providers, r.bases)
    ensures var r := BootstrapModels(env, st, models, active); Serves(env, r.providers, r.bases)
    ensures var r := TrainAll(env, st, models, active); Serves(env, r.providers, r.bases)
  {
    if models != [] {
      var n := |models| - 1;
      TrainingServes(env, st, models[..n], active, now);
      if env.trainable(models[n]) {
        TrainServes(env, TrainMissing(env, st, models[..n], active, now), models[n], active);
        TrainServes(env, BootstrapModels(env, st, models[..n], active), models[n], active);
        TrainServes(env, TrainAll(env, st, models[..n], active), models[n], active);
      }
    }
  }

  /** The slots and the saved counts are as before; only counts may have grown. */
  ghost predicate SameService(a: State, b: State) {
    Is(a.providers, b.providers) && Is(a.bases, b.bases) && Is(a.saved, b.saved) && Is(a.accumulators.Keys, b.accumulators.Keys)
  }

  lemma WriteServes(env: Env, st: State, item: Item, stamp: nat, clock: nat)
    ensures SameService(st, Write(env, st, item, stamp, clock))
  {
    var chunks := ItemChunks(env, item);
    if chunks != [] {
      FoldServes(env, Index(env, Store(st, item.source, chunks, stamp, clock), chunks), NewChunks(st.rows, chunks));
    }
  }

  lemma FoldServes(env: Env, st: State, chunks: seq<Chunk>)
    ensures SameService(st, Fold(env, st, chunks))
  {
  }

  lemma {:induction false} ItemsServe(env: Env, st: State, items: seq<Item>, sharded: bool)
    ensures SameService(st, WriteAll(env, st, items)) && SameService(st, Import(env, st, items, sharded))
  {
    if items != [] {
      var n := |items| - 1;
      ItemsServe(env, st, items[..n], sharded);
      var a, b := WriteAll(env, st, items[..n]), Import(env, st, items[..n], sharded);
      var made := |env.chunk(items[n].source, items[n].text)|;
      WriteServes(env, a, items[n], a.clock, a.clock + made);
      WriteServes(env, b, items[n], if sharded then 0 else b.clock, if sharded then b.clock else b.clock + made);
    }
  }

  lemma IngestKeepsServing(env: Env, st: State, item: Item)
    requires Serving(env, st)
    ensures Serving(env, Ingest(env, st, item))
  {
    if env.chunk(item.source, item.text) != [] {
      var written := WriteItem(env, st, item);
      WriteServes(env, st, item, st.clock, st.clock + |env.chunk(item.source, item.text)|);
      TrainingServes(env, written, env.models, Active(env, written), item.now);
    }
  }

  lemma BatchKeepsServing(env: Env, st: State, items: seq<Item>)
    requires Serving(env, st)
    ensures Serving(env, IngestBatch(env, st, items))
  {
    if items != [] {
      var written := WriteAll(env, st, items);
      ItemsServe(env, st, items, false);
      TrainingServes(env, written, env.models, Active(env, written), 0);
    }
  }

  lemma ReindexKeepsServing(env: Env, st: State, now: Time)
    requires Serving(env, st)
    ensures Serving(env, Reindex(env, st, now)) && Reindex(env, st, now).saved == st.accumulators
  {
    TrainingServes(env, st, env.models, Active(env, st), now);
    SavingAll(st.saved, st.accumulators);
  }

  lemma StepKeepsServing(env: Env, st: State, op: Op)
    requires Serving(env, st)
    ensures Serving(env, Step(env, st, op))
  {
    match op
    case OpIngest(item) => IngestKeepsServing(env, st, item);
    case OpBatch(items) => BatchKeepsServing(env, st, items);
    case OpImport(items, sharded) => ItemsServe(env, st, items, sharded);
    case OpReindex(now) =>
      StepReindex(env, st, now);
      ReindexKeepsServing(env, st, now);
    case OpRemove(s) => RemovalKeepsServing(env, st, s);
    case OpExpunge(s) => RemovalKeepsServing(env, st, s);
    case OpReopen => ReopenKeepsServing(env, st);
  }

  lemma RemovalKeepsServing(env: Env, st: State, s: Source)
    requires Serving(env, st)
    ensures Serving(env, Remove(env, st, s)) && Serving(env, Expunge(env, st, s))
  {
  }

  lemma ReopenKeepsServing(env: Env, st: State)
    requires Serving(env, st)
    ensures Serving(env, Reopen(env, st))
  {
  }

  lemma {:induction false} RunIsServing(env: Env, ops: seq<Op>)
    ensures Serving(env, Run(env, ops))
  {
    if ops != [] {
      RunIsServing(env, ops[..|ops| - 1]);
      StepKeepsServing(env, Run(env, ops[..|ops| - 1]), ops[|ops| - 1]);
    }
  }

  // ------------------------------------------------------------- reindex

  function At(vectors: Vectors, k: Key): Option<Vec> {
    if k in vectors then Some(vectors[k]) else None
  }

  /** What embedding the chunks under a basis stores at a key. */
  function Expected(env: Env, m: Model, basis: Basis, chunks: seq<Chunk>, text: Chunk -> Text, now: Time, k: Key): Option<Vec> {
    if k.model != m || k.chunk !in chunks then None else
      var pair := env.embed(m, basis, text(k.chunk));
      if k.lane == 0 then Some(Vec(pair.0, now))
      else if k.lane == 1 && pair.1 != [] then Some(Vec(pair.1, now))
      else None
  }

  function Else<T>(a: Option<T>, b: Option<T>): Option<T> {
    if a.Some? then a else b
  }

  lemma {:induction false} UpsertSplits(vectors: Vectors, a: seq<VectorRow>, b: seq<VectorRow>)
    ensures Upsert(vectors, a + b) == Upsert(Upsert(vectors, a), b)
  {
    if b == [] {
      assert a + b == a;
    } else {
      var n := |b| - 1;
      assert (a + b)[..|a + b| - 1] == a + b[..n];
      UpsertSplits(vectors, a, b[..n]);
    }
  }

  lemma UpsertPair(vectors: Vectors, env: Env, m: Model, basis: Basis, c: Chunk, text: Chunk -> Text, now: Time, k: Key)
    ensures At(Upsert(vectors, PairRows(env, m, basis, c, text(c), now)), k)
         == Else(Expected(env, m, basis, [c], text, now, k), At(vectors, k))
  {
    var rows := PairRows(env, m, basis, c, text(c), now);
    assert rows[..1][..0] == [] && Upsert(vectors, rows[..1]) == vectors[rows[0].key := rows[0].vec];
    if |rows| == 1 { assert rows[..1] == rows; }
  }

  lemma {:induction false} UpsertEmbeddings(vectors: Vectors, env: Env, m: Model, basis: Basis, chunks: seq<Chunk>, text: Chunk -> Text, now: Time, k: Key)
    ensures At(Upsert(vectors, ChunkRows(env, m, basis, chunks, text, now)), k)
         == Else(Expected(env, m, basis, chunks, text, now, k), At(vectors, k))
  {
    if chunks != [] {
      var n := |chunks| - 1;
      var before, last := ChunkRows(env, m, basis, chunks[..n], text, now), PairRows(env, m, basis, chunks[n], text(chunks[n]), now);
      UpsertEmbeddings(vectors, env, m, basis, chunks[..n], text, now, k);
      UpsertSplits(vectors, before, last);
      UpsertPair(Upsert(vectors, before), env, m, basis, chunks[n], text, now, k);
      assert chunks == chunks[..n] + [chunks[n]];
    }
  }

  lemma {:induction false} ReembedAllExact(env: Env, st: State, models: seq<Model>, active: seq<Chunk>, now: Time, k: Key)
    requires NoDuplicates(models)
    ensures At(ReembedAll(env, st, models, active, now).vectors, k)
         == if k.model in models then Expected(env, k.model, ProviderOf(env, st.providers, k.model), active, StoredText(st.rows), now, k)
            else At(st.vectors, k)
  {
    if models != [] {
      var n := |models| - 1;
      var m, before := models[n], ReembedAll(env, st, models[..n], active, now);
      ReembedAllExact(env, st, models[..n], active, now, k);
      assert models == models[..n] + [m] && m !in models[..n];
      UpsertEmbeddings(WithoutModel(before.vectors, m), env, m, ProviderOf(env, st.providers, m), active, StoredText(st.rows), now, k);
    }
  }

  /** The basis a from-scratch training on the active chunks gives. */
  function ScratchBasis(env: Env, st: State, m: Model): Basis {
    if env.trainable(m) then env.train(m, env.emptyBasis(m), Texts(st.rows, Active(env, st))) else env.emptyBasis(m)
  }

  lemma TrainInstalls(env: Env, st: State, x: Model, active: seq<Chunk>, m: Model)
    ensures var r := Train(env, st, x, active);
      if m == x then m in r.bases && m in r.providers && r.bases[m] == r.providers[m] == env.train(m, env.emptyBasis(m), Texts(st.rows, active))
      else (m in r.bases <==> m in st.bases) && (m in r.providers <==> m in st.providers)
           && (m in st.bases ==> r.bases[m] == st.bases[m]) && (m in st.providers ==> r.providers[m] == st.providers[m])
  {
  }

  lemma {:induction false} TrainAllExact(env: Env, st: State, models: seq<Model>, active: seq<Chunk>, m: Model)
    requires env.trainable(m)
    ensures var r := TrainAll(env, st, models, active);
      if m in models then
        m in r.bases && m in r.providers && r.bases[m] == r.providers[m] == env.train(m, env.emptyBasis(m), Texts(st.rows, active))
      else (m in r.bases <==> m in st.bases)
  {
    if models != [] {
      var n := |models| - 1;
      TrainAllExact(env, st, models[..n], active, m);
      assert models == models[..n] + [models[n]];
      TrainInstalls(env, TrainAll(env, st, models[..n], active), models[n], active, m);
    }
  }

  /** The outcome of a reindex: every basis is the from-scratch training on the
      active chunks, and the vector table is exactly the embeddings of their
      stored texts under those bases. */
  ghost predicate Rebuilt(env: Env, st: State, st': State, now: Time) {
    && (forall m :: m in st'.bases <==> m in env.models && env.trainable(m))
    && (forall m :: m in st'.bases ==> st'.bases[m] == ScratchBasis(env, st, m))
    && (forall m :: m in st'.providers <==> m in env.models)
    && (forall m :: m in st'.providers ==> st'.providers[m] == ScratchBasis(env, st, m))
    && (forall k :: At(st'.vectors, k) == RebuiltAt(env, st, now, k))
  }

  function RebuiltAt(env: Env, st: State, now: Time, k: Key): Option<Vec> {
    if k.model in env.models
    then Expected(env, k.model, ScratchBasis(env, st, k.model), Active(env, st), StoredText(st.rows), now, k)
    else None
  }

  /** A slot after a reindex. */
  ghost predicate SlotRebuilt(env: Env, st: State, st': State, m: Model) {
    && (m in st'.bases <==> m in env.models && env.trainable(m))
    && (m in st'.bases ==> st'.bases[m] == ScratchBasis(env, st, m))
    && (m in st'.providers <==> m in env.models)
    && (m in st'.providers ==> st'.providers[m] == ScratchBasis(env, st, m))
  }

  lemma TrainedSlotRebuilt(env: Env, st: State, m: Model)
    requires Serving(env, st)
    ensures SlotRebuilt(env, st, TrainAll(env, st, env.models, Active(env, st)), m)
  {
    TrainingServes(env, st, env.models, Active(env, st), 0);
    if env.trainable(m) { TrainAllExact(env, st, env.models, Active(env, st), m); }
  }

  lemma ReindexBases(env: Env, st: State, now: Time)
    requires Serving(env, st)
    ensures var st' := Reindex(env, st, now);
      && (forall m :: m in st'.bases <==> m in env.models && env.trainable(m))
      && (forall m :: m in st'.bases ==> st'.bases[m] == ScratchBasis(env, st, m))
      && (forall m :: m in st'.providers <==> m in env.models)
      && (forall m :: m in st'.providers ==> st'.providers[m] == ScratchBasis(env, st, m))
  {
    var st', trained := Reindex(env, st, now), TrainAll(env, st, env.models, Active(env, st));
    assert Is(st'.bases, trained.bases) && Is(st'.providers, trained.providers);
    forall m ensures m in st'.bases <==> m in env.models && env.trainable(m) { TrainedSlotRebuilt(env, st, m); }
    forall m | m in st'.bases ensures st'.bases[m] == ScratchBasis(env, st, m) { TrainedSlotRebuilt(env, st, m); }
    forall m ensures m in st'.providers <==> m in env.models { TrainedSlotRebuilt(env, st, m); }
    forall m | m in st'.providers ensures st'.providers[m] == ScratchBasis(env, st, m) { TrainedSlotRebuilt(env, st, m); }
  }

  lemma ReindexRebuilds(env: Env, st: State, now: Time)
    requires Lawful(env) && Quiet(env, st) && Serving(env, st)
    ensures Rebuilt(env, st, Reindex(env, st, now), now)
  {
    var active := Active(env, st);
    var trained := TrainAll(env, st, env.models, active);
    var st' := Reindex(env, st, now);
    ReindexBases(env, st, now);
    forall k ensures At(st'.vectors, k) == RebuiltAt(env, st, now, k) {
      ReembedAllExact(env, trained, env.models, active, now, k);
    }
  }

  lemma RebuiltUnique(env: Env, st: State, a: State, b: State, now: Time)
    requires Rebuilt(env, st, a, now) && Rebuilt(env, st, b, now)
    ensures a.bases == b.bases && a.providers == b.providers && a.vectors == b.vectors
  {
    assert a.bases.Keys == b.bases.Keys && a.providers.Keys == b.providers.Keys;
    SameLookups(a.vectors, b.vectors);
  }

  lemma SameLookups(a: Vectors, b: Vectors)
    requires forall k :: At(a, k) == At(b, k)
    ensures a == b
  {
    forall k ensures (k in a <==> k in b) && (k in a ==> a[k] == b[k]) { assert At(a, k) == At(b, k); }
    assert a.Keys == b.Keys;
  }

  /** Reindex is history-independent: two histories that leave the same chunk rows
      and the same removed set end with the same bases, providers and vectors. */
  lemma ReindexHistoryIndependent(env: Env, ops: seq<Op>, ops': seq<Op>, now: Time)
    requires Lawful(env) && Run(env, ops).rows == Run(env, ops').rows && Run(env, ops).removed == Run(env, ops').removed
    ensures var a, b := Reindex(env, Run(env, ops), now), Reindex(env, Run(env, ops'), now);
      a.bases == b.bases && a.providers == b.providers && a.vectors == b.vectors
  {
    var st, st' := Run(env, ops), Run(env, ops');
    RunIsQuiet(env, ops);
    RunIsServing(env, ops);
    RunIsQuiet(env, ops');
    RunIsServing(env, ops');
    ReindexRebuilds(env, st, now);
    ReindexRebuilds(env, st', now);
    RebuiltDependsOnRows(env, st, st', Reindex(env, st', now), now);
    RebuiltUnique(env, st, Reindex(env, st, now), Reindex(env, st', now), now);
  }

  lemma RebuiltDependsOnRows(env: Env, a: State, b: State, r: State, now: Time)
    requires a.rows == b.rows && a.removed == b.removed && Rebuilt(env, b, r, now)
    ensures Rebuilt(env, a, r, now)
  {
    assert Active(env, a) == Active(env, b);
    assert forall m :: ScratchBasis(env, a, m) == ScratchBasis(env, b, m);
    assert forall k :: RebuiltAt(env, a, now, k) == RebuiltAt(env, b, now, k);
  }

  /** Reindexing again changes nothing. */
  lemma ReindexIdempotent(env: Env, ops: seq<Op>, now: Time)
    requires Lawful(env)
    ensures var once := Reindex(env, Run(env, ops), now); Reindex(env, once, now) == once
  {
    RunIsQuiet(env, ops);
    RunIsServing(env, ops);
    ReindexTwice(env, Run(env, ops), now);
  }

  lemma ReindexFrame(env: Env, st: State, now: Time)
    ensures var r := Reindex(env, st, now);
      r == st.(bases := r.bases, providers := r.providers, vectors := r.vectors, saved := r.saved)
  {
  }

  lemma ReindexTwice(env: Env, st: State, now: Time)
    requires Lawful(env) && Quiet(env, st) && Serving(env, st)
    ensures var once := Reindex(env, st, now); Reindex(env, once, now) == once
  {
    var once := Reindex(env, st, now);
    var twice := Reindex(env, once, now);
    ReindexKeepsQuiet(env, st, now);
    ReindexKeepsServing(env, st, now);
    ReindexKeepsServing(env, once, now);
    ReindexRebuilds(env, st, now);
    ReindexRebuilds(env, once, now);
    RebuiltDependsOnRows(env, st, once, twice, now);
    RebuiltUnique(env, st, once, twice, now);
    ReindexFrame(env, st, now);
    ReindexFrame(env, once, now);
  }

  /** The vector a reindex gives an active chunk is the embedding of the chunk's
      own text, unless its source was expunged after the chunk was first written:
      then it is the embedding of the empty text, even if the same text was
      ingested again since. */
  lemma ReindexEmbedsOwnTextUnlessScrubbed(env: Env, ops: seq<Op>, now: Time, m: Model, c: Chunk)
    requires Lawful(env) && m in env.models && c in ActiveSet(Run(env, ops))
    ensures var st := Run(env, ops);
      At(Reindex(env, st, now).vectors, Key(m, c, 0))
      == Some(Vec(env.embed(m, ScratchBasis(env, st, m), if Scrubbed(env, ops, c) then [] else c.text).0, now))
  {
    var st := Run(env, ops);
    RunIsQuiet(env, ops);
    RunIsServing(env, ops);
    ReindexRebuilds(env, st, now);
    ErasureIsPermanent(env, ops, c);
    ActiveExact(env, st);
    assert At(Reindex(env, st, now).vectors, Key(m, c, 0)) == RebuiltAt(env, st, now, Key(m, c, 0));
  }

  // ------------------------------------------------------ batch and single

  function IngestEach(env: Env, st: State, items: seq<Item>): State {
    if items == [] then st else Ingest(env, IngestEach(env, st, items[..|items| - 1]), items[|items| - 1])
  }

  /** Every trainable model has a persisted basis. */
  ghost predicate Trained(env: Env, st: State) {
    forall m :: m in env.models ==> !Untrained(env, st.bases, m)
  }

  lemma {:induction false} NothingMissing(env: Env, st: State, models: seq<Model>, active: seq<Chunk>, now: Time)
    requires Trained(env, st) && models <= env.models
    ensures TrainMissing(env, st, models, active, now) == st == BootstrapModels(env, st, models, active)
  {
    if models != [] { NothingMissing(env, st, models[..|models| - 1], active, now); }
  }

  lemma {:induction false} FilterAll<T>(s: seq<T>, keep: T -> bool)
    requires forall i :: 0 <= i < |s| ==> keep(s[i])
    ensures Filter(s, keep) == s
  {
    if s != [] { FilterAll(s[..|s| - 1], keep); }
  }

  /** Once trained, an ingest writes and folds in, nothing else. */
  lemma TrainedIngest(env: Env, st: State, item: Item)
    requires Trained(env, st)
    ensures var chunks := env.chunk(item.source, item.text);
      Ingest(env, st, item) == if chunks == [] then st else
        var written := WriteItem(env, st, item);
        Save(written.(vectors := Upsert(st.vectors, DocumentRows(env, env.models, st.providers, chunks, item.now))))
  {
    if env.chunk(item.source, item.text) != [] {
      var written := WriteItem(env, st, item);
      NothingMissing(env, written, env.models, Active(env, written), item.now);
      FilterAll(env.models, HasBasis(env, written.bases));
    }
  }

  lemma {:induction false} NoChunksNoRows(env: Env, models: seq<Model>, providers: map<Model, Basis>, now: Time)
    ensures DocumentRows(env, models, providers, [], now) == []
  {
    if models != [] { NoChunksNoRows(env, models[..|models| - 1], providers, now); }
  }

  /** All of a state but the saved counts. */
  function Unsaved(st: State): State {
    st.(saved := map[])
  }

  function BatchCore(env: Env, st: State, items: seq<Item>): State {
    var written := WriteAll(env, st, items);
    written.(vectors := Upsert(st.vectors, BatchRows(env, st.providers, items)))
  }

  lemma WriteIgnoresVectors(env: Env, st: State, vectors: Vectors, saved: map<Model, Accumulator>, item: Item)
    ensures Is(WriteItem(env, st.(vectors := vectors, saved := saved), item),
               WriteItem(env, st, item).(vectors := vectors, saved := saved))
  {
  }

  lemma {:induction false} EachIsBatchCore(env: Env, st: State, items: seq<Item>)
    requires Trained(env, st)
    ensures Unsaved(IngestEach(env, st, items)) == Unsaved(BatchCore(env, st, items))
    ensures Trained(env, IngestEach(env, st, items)) && IngestEach(env, st, items).providers == st.providers
  {
    ItemsServe(env, st, items, false);
    if items != [] {
      var n := |items| - 1;
      EachIsBatchCore(env, st, items[..n]);
      EachNext(env, st, items, IngestEach(env, st, items[..n]));
    }
  }

  lemma EachNext(env: Env, st: State, items: seq<Item>, before: State)
    requires items != [] && Trained(env, before) && before.providers == st.providers
    requires Unsaved(before) == Unsaved(BatchCore(env, st, items[..|items| - 1]))
    ensures var item := items[|items| - 1];
      Unsaved(Ingest(env, before, item)) == Unsaved(BatchCore(env, st, items))
      && Trained(env, Ingest(env, before, item)) && Ingest(env, before, item).providers == st.providers
  {
    var n := |items| - 1;
    TrainedIngest(env, before, items[n]);
    var chunks := env.chunk(items[n].source, items[n].text);
    var rows := DocumentRows(env, env.models, st.providers, chunks, items[n].now);
    UpsertSplits(st.vectors, BatchRows(env, st.providers, items[..n]), rows);
    var written := WriteAll(env, st, items[..n]);
    assert before == written.(vectors := before.vectors, saved := before.saved);
    WriteIgnoresVectors(env, written, before.vectors, before.saved, items[n]);
    if chunks == [] { NoChunksNoRows(env, env.models, st.providers, items[n].now); }
  }

  predicate AnyChunks(env: Env, items: seq<Item>) {
    exists i :: 0 <= i < |items| && env.chunk(items[i].source, items[i].text) != []
  }

  lemma AnyChunksNext(env: Env, items: seq<Item>)
    requires items != []
    ensures var n := |items| - 1;
      AnyChunks(env, items) <==> AnyChunks(env, items[..n]) || env.chunk(items[n].source, items[n].text) != []
  {
    var n := |items| - 1;
    if AnyChunks(env, items[..n]) {
      var i :| 0 <= i < n && env.chunk(items[..n][i].source, items[..n][i].text) != [];
      assert items[i] == items[..n][i];
    }
    if AnyChunks(env, items) && env.chunk(items[n].source, items[n].text) == [] {
      var i :| 0 <= i < |items| && env.chunk(items[i].source, items[i].text) != [];
      assert items[..n][i] == items[i];
    }
  }

  /** The saved counts after one ingest per item. */
  lemma {:induction false} EachSaves(env: Env, st: State, items: seq<Item>)
    requires Trained(env, st) && Serving(env, st)
    ensures var r := IngestEach(env, st, items);
      Serving(env, r) && if AnyChunks(env, items) then r.saved == r.accumulators else r.saved == st.saved && r.accumulators == st.accumulators
  {
    if items != [] {
      var n := |items| - 1;
      var before := IngestEach(env, st, items[..n]);
      EachSaves(env, st, items[..n]);
      EachIsBatchCore(env, st, items[..n]);
      AnyChunksNext(env, items);
      TrainedIngest(env, before, items[n]);
      StepKeepsServing(env, before, OpIngest(items[n]));
      var r := Ingest(env, before, items[n]);
      if env.chunk(items[n].source, items[n].text) != [] { SavingAll(WriteItem(env, before, items[n]).saved, r.accumulators); }
    }
  }

  lemma SavingAll(saved: map<Model, Accumulator>, accumulators: map<Model, Accumulator>)
    requires saved.Keys <= accumulators.Keys
    ensures saved + accumulators == accumulators
  {
  }

  /** The parallel form refines the simple one.  Once every trainable model has a
      basis, the batch leaves the chunks, removed set, postings, vectors, bases
      and maintained counts that one ingest per item leaves. */
  lemma BatchIsIngestEach(env: Env, st: State, items: seq<Item>)
    requires Trained(env, st)
    ensures Unsaved(IngestBatch(env, st, items)) == Unsaved(IngestEach(env, st, items))
  {
    EachIsBatchCore(env, st, items);
    BatchIsCore(env, st, items);
  }

  lemma BatchIsCore(env: Env, st: State, items: seq<Item>)
    requires Trained(env, st)
    ensures IngestBatch(env, st, items) == if items == [] then st else Save(BatchCore(env, st, items))
  {
    if items != [] {
      var written := WriteAll(env, st, items);
      ItemsServe(env, st, items, false);
      WritesLeaveVectors(env, st, items, false);
      NothingMissing(env, written, env.models, Active(env, written), 0);
    }
  }

  /** Only the saved counts can differ: a batch saves them even if none of its
      items has any text to chunk.  The two forms agree altogether exactly when
      some item does, or the batch is empty, or nothing was waiting to be saved. */
  lemma BatchSavesTheSameExactlyWhen(env: Env, st: State, items: seq<Item>)
    requires Trained(env, st) && Serving(env, st)
    ensures IngestBatch(env, st, items) == IngestEach(env, st, items)
       <==> AnyChunks(env, items) || items == [] || st.saved == st.accumulators
  {
    BatchIsIngestEach(env, st, items);
    BatchIsCore(env, st, items);
    EachIsBatchCore(env, st, items);
    EachSaves(env, st, items);
    var each, batch := IngestEach(env, st, items), IngestBatch(env, st, items);
    assert batch.accumulators == each.accumulators by {
      assert Unsaved(batch).accumulators == batch.accumulators && Unsaved(each).accumulators == each.accumulators;
    }
    if items != [] {
      ItemsServe(env, st, items, false);
      SavingAll(st.saved, batch.accumulators);
      SameButSaved(batch, each);
    }
  }

  lemma SameButSaved(a: State, b: State)
    requires Unsaved(a) == Unsaved(b)
    ensures a == b <==> a.saved == b.saved
  {
    assert a == Unsaved(a).(saved := a.saved) && b == Unsaved(b).(saved := b.saved);
  }

  // ------------------------------------------------------------- reopening

  /** Nothing was folded since the counts were last saved. */
  ghost predicate CountsSaved(env: Env, st: State) {
    forall m :: m in st.accumulators ==>
      st.accumulators[m] == if m in st.saved then st.saved[m] else Accumulator(env.emptyCounts(m), 0)
  }

  /** A restart is invisible to the content, the vectors and the bases; it keeps
      the maintained counts exactly when they were saved. */
  lemma ReopenTransparent(env: Env, ops: seq<Op>)
    ensures var st := Run(env, ops);
      var st' := Reopen(env, st);
      && st' == st.(accumulators := st'.accumulators, sources := st'.sources, clock := 0)
      && (st'.accumulators == st.accumulators <==> CountsSaved(env, st))
  {
    RunIsServing(env, ops);
    var st := Run(env, ops);
    var st' := Reopen(env, st);
    assert st'.providers == st.providers;
    assert st'.accumulators.Keys == st.accumulators.Keys;
    if st'.accumulators == st.accumulators {
      forall m | m in st.accumulators
        ensures st.accumulators[m] == if m in st.saved then st.saved[m] else Accumulator(env.emptyCounts(m), 0)
      {
        assert st'.accumulators[m] == st.accumulators[m];
      }
    }
  }

  /** No import is waiting for its counts to be saved. */
  predicate NothingPending(env: Env, ops: seq<Op>) {
    if ops == [] then true else
      var before := NothingPending(env, ops[..|ops| - 1]);
      match ops[|ops| - 1]
      case OpIngest(item) => before || env.chunk(item.source, item.text) != []
      case OpBatch(items) => before || items != []
      case OpImport(items, _) => before && !AnyChunks(env, items)
      case OpReindex(_) => true
      case OpReopen => true
      case _ => before
  }

  lemma {:induction false} EmptyItemsImport(env: Env, st: State, items: seq<Item>, sharded: bool)
    requires !AnyChunks(env, items)
    ensures Import(env, st, items, sharded) == st
  {
    if items != [] {
      AnyChunksNext(env, items);
      EmptyItemsImport(env, st, items[..|items| - 1], sharded);
    }
  }

  lemma {:induction false} CountsSavedUnlessPending(env: Env, ops: seq<Op>)
    ensures NothingPending(env, ops) ==> CountsSaved(env, Run(env, ops))
  {
    if ops != [] {
      var front := ops[..|ops| - 1];
      var before := Run(env, front);
      CountsSavedUnlessPending(env, front);
      RunIsServing(env, front);
      match ops[|ops| - 1]
      case OpImport(items, sharded) => if !AnyChunks(env, items) { EmptyItemsImport(env, before, items, sharded); }
      case _ =>
    }
  }

  // ------------------------------------------------- counts count each row

  /** No restart happens while an import's counts wait to be saved. */
  predicate Careful(env: Env, ops: seq<Op>) {
    if ops == [] then true else
      var front := ops[..|ops| - 1];
      Careful(env, front) && (ops[|ops| - 1] == OpReopen ==> NothingPending(env, front))
  }

  /** The accumulators are the fold of all stored chunks, in some order, each
      exactly once. */
  ghost predicate FoldsEachOnce(env: Env, st: State) {
    exists order :: FoldsInOrder(env, st, order)
  }

  ghost predicate FoldsInOrder(env: Env, st: State, order: seq<Chunk>) {
    && NoDuplicates(order) && Elements(order) == st.rows.Keys
    && forall m :: m in st.accumulators ==>
         st.accumulators[m] == Accumulator(FoldTexts(env, m, env.emptyCounts(m), order), |order|)
  }

  lemma {:induction false} NewChunksExact(rows: Rows, chunks: seq<Chunk>)
    ensures NoDuplicates(NewChunks(rows, chunks))
    ensures forall c :: c in Elements(NewChunks(rows, chunks)) <==> c in chunks && c !in rows
  {
    if chunks != [] {
      var n := |chunks| - 1;
      NewChunksExact(rows, chunks[..n]);
      assert chunks == chunks[..n] + [chunks[n]];
      if chunks[n] !in rows && chunks[n] !in chunks[..n] {
        OneMoreAtEnd(NewChunks(rows, chunks[..n]), chunks[n]);
      } else {
        assert NewChunks(rows, chunks) == NewChunks(rows, chunks[..n]);
      }
    }
  }

  lemma {:induction false} FoldTextsSplits(env: Env, m: Model, counts: Counts, a: seq<Chunk>, b: seq<Chunk>)
    ensures FoldTexts(env, m, counts, a + b) == FoldTexts(env, m, FoldTexts(env, m, counts, a), b)
  {
    if b == [] {
      assert a + b == a;
    } else {
      var n := |b| - 1;
      assert (a + b)[..|a + b| - 1] == a + b[..n];
      FoldTextsSplits(env, m, counts, a, b[..n]);
    }
  }

  lemma DisjointConcat(a: seq<Chunk>, b: seq<Chunk>)
    requires NoDuplicates(a) && NoDuplicates(b) && Elements(a) !! Elements(b)
    ensures NoDuplicates(a + b) && Elements(a + b) == Elements(a) + Elements(b)
  {
    forall i, j | 0 <= i < |a| && 0 <= j < |b| ensures a[i] != b[j] { assert a[i] in Elements(a) && b[j] in Elements(b); }
  }

  lemma WriteFoldsOnce(env: Env, st: State, item: Item, stamp: nat, clock: nat)
    requires FoldsEachOnce(env, st)
    ensures FoldsEachOnce(env, Write(env, st, item, stamp, clock))
  {
    var chunks := ItemChunks(env, item);
    if chunks != [] {
      var order :| FoldsInOrder(env, st, order);
      var added := NewChunks(st.rows, chunks);
      NewChunksExact(st.rows, chunks);
      InsertRowsExact(st.rows, chunks, stamp);
      DisjointConcat(order, added);
      FoldedFurther(env, st.accumulators, order, added);
      assert FoldsInOrder(env, Write(env, st, item, stamp, clock), order + added);
    }
  }

  lemma FoldedFurther(env: Env, accumulators: map<Model, Accumulator>, order: seq<Chunk>, added: seq<Chunk>)
    requires forall m :: m in accumulators ==> accumulators[m] == Accumulator(FoldTexts(env, m, env.emptyCounts(m), order), |order|)
    ensures var after := FoldCounts(env, accumulators, added);
      forall m :: m in after ==> after[m] == Accumulator(FoldTexts(env, m, env.emptyCounts(m), order + added), |order + added|)
  {
    forall m | m in accumulators
      ensures FoldTexts(env, m, env.emptyCounts(m), order + added) == FoldTexts(env, m, accumulators[m].counts, added)
    {
      FoldTextsSplits(env, m, env.emptyCounts(m), order, added);
    }
  }

  lemma {:induction false} ItemsFoldOnce(env: Env, st: State, items: seq<Item>, sharded: bool)
    requires FoldsEachOnce(env, st)
    ensures FoldsEachOnce(env, WriteAll(env, st, items)) && FoldsEachOnce(env, Import(env, st, items, sharded))
  {
    if items != [] {
      var n := |items| - 1;
      ItemsFoldOnce(env, st, items[..n], sharded);
      var a, b := WriteAll(env, st, items[..n]), Import(env, st, items[..n], sharded);
      var made := |env.chunk(items[n].source, items[n].text)|;
      WriteFoldsOnce(env, a, items[n], a.clock, a.clock + made);
      WriteFoldsOnce(env, b, items[n], if sharded then 0 else b.clock, if sharded then b.clock else b.clock + made);
    }
  }

  lemma SameRowsSameFold(env: Env, a: State, b: State)
    requires FoldsEachOnce(env, a) && b.rows.Keys == a.rows.Keys && b.accumulators == a.accumulators
    ensures FoldsEachOnce(env, b)
  {
    var order :| FoldsInOrder(env, a, order);
    assert FoldsInOrder(env, b, order);
  }

  lemma {:induction false} RunFoldsOnce(env: Env, ops: seq<Op>)
    requires Careful(env, ops)
    ensures FoldsEachOnce(env, Run(env, ops))
  {
    if ops == [] {
      assert FoldsInOrder(env, Run(env, ops), []);
    } else {
      RunFoldsOnce(env, ops[..|ops| - 1]);
      StepFoldsOnce(env, ops);
    }
  }

  /** The counts after each chunk of a training, from the empty ones on. */
  ghost predicate Trains(env: Env, m: Model, order: seq<Chunk>, counts: seq<Counts>) {
    && |counts| == |order| + 1 && counts[0] == env.emptyCounts(m)
    && forall i :: 0 <= i < |order| ==> counts[i + 1] == env.fold(m, counts[i], order[i].text)
  }

  /** The accumulator is what one training pass over these chunks leaves. */
  ghost predicate CountsOf(env: Env, m: Model, order: seq<Chunk>, a: Accumulator) {
    a.documents == |order| && exists counts :: Trains(env, m, order, counts) && counts[|order|] == a.counts
  }

  lemma {:induction false} FoldTextsTrains(env: Env, m: Model, order: seq<Chunk>) returns (counts: seq<Counts>)
    ensures Trains(env, m, order, counts) && counts[|order|] == FoldTexts(env, m, env.emptyCounts(m), order)
  {
    if order == [] { return [env.emptyCounts(m)]; }
    var n := |order| - 1;
    var before := FoldTextsTrains(env, m, order[..n]);
    counts := before + [env.fold(m, before[n], order[n].text)];
    forall i | 0 <= i < |order| ensures counts[i + 1] == env.fold(m, counts[i], order[i].text) {
      if i < n { assert order[..n][i] == order[i] && counts[i] == before[i]; }
    }
  }

  /** The order names the stored chunks, each exactly once, and every accumulator
      is what a training pass in this order leaves. */
  ghost predicate CountedInOrder(env: Env, st: State, order: seq<Chunk>) {
    && (forall i, j :: 0 <= i < j < |order| ==> order[i] != order[j])
    && (forall c :: c in order <==> c in st.rows)
    && (forall m :: m in st.accumulators ==> CountsOf(env, m, order, st.accumulators[m]))
  }

  /** The maintained counts are those of one training pass over every stored chunk,
      each exactly once, however often it was ingested, removed, expunged or
      ingested again. */
  lemma CountsFoldEachRowOnce(env: Env, ops: seq<Op>)
    requires Careful(env, ops)
    ensures exists order :: CountedInOrder(env, Run(env, ops), order)
  {
    RunFoldsOnce(env, ops);
    var st := Run(env, ops);
    var order :| FoldsInOrder(env, st, order);
    forall c ensures c in order <==> c in st.rows { assert c in order <==> c in Elements(order); }
    forall m | m in st.accumulators ensures CountsOf(env, m, order, st.accumulators[m]) {
      var counts := FoldTextsTrains(env, m, order);
    }
    assert CountedInOrder(env, st, order);
  }

  lemma IngestFoldsOnce(env: Env, st: State, item: Item)
    requires FoldsEachOnce(env, st)
    ensures FoldsEachOnce(env, Ingest(env, st, item))
  {
    var written := WriteItem(env, st, item);
    WriteFoldsOnce(env, st, item, st.clock, st.clock + |env.chunk(item.source, item.text)|);
    if ItemChunks(env, item) != [] { SameRowsSameFold(env, written, Ingest(env, st, item)); }
  }

  lemma BatchFoldsOnce(env: Env, st: State, items: seq<Item>)
    requires FoldsEachOnce(env, st)
    ensures FoldsEachOnce(env, IngestBatch(env, st, items))
  {
    ItemsFoldOnce(env, st, items, false);
    if items != [] { SameRowsSameFold(env, WriteAll(env, st, items), IngestBatch(env, st, items)); }
  }

  lemma RemovalFoldsOnce(env: Env, st: State, s: Source)
    requires FoldsEachOnce(env, st)
    ensures FoldsEachOnce(env, Remove(env, st, s)) && FoldsEachOnce(env, Expunge(env, st, s))
  {
    assert Scrub(st.rows, s).Keys == st.rows.Keys;
    SameRowsSameFold(env, st, Remove(env, st, s));
    SameRowsSameFold(env, st, Expunge(env, st, s));
  }

  lemma ReindexFoldsOnce(env: Env, st: State, now: Time)
    requires FoldsEachOnce(env, st)
    ensures FoldsEachOnce(env, Reindex(env, st, now))
  {
    SameRowsSameFold(env, st, Reindex(env, st, now));
  }

  lemma ReopenFoldsOnce(env: Env, ops: seq<Op>)
    requires FoldsEachOnce(env, Run(env, ops)) && NothingPending(env, ops)
    ensures FoldsEachOnce(env, Reopen(env, Run(env, ops)))
  {
    CountsSavedUnlessPending(env, ops);
    ReopenTransparent(env, ops);
    SameRowsSameFold(env, Run(env, ops), Reopen(env, Run(env, ops)));
  }

  lemma StepFoldsOnce(env: Env, ops: seq<Op>)
    requires ops != [] && Careful(env, ops) && FoldsEachOnce(env, Run(env, ops[..|ops| - 1]))
    ensures FoldsEachOnce(env, Run(env, ops))
  {
    var before := Run(env, ops[..|ops| - 1]);
    match ops[|ops| - 1]
    case OpIngest(item) => IngestFoldsOnce(env, before, item);
    case OpBatch(items) => BatchFoldsOnce(env, before, items);
    case OpImport(items, sharded) => ItemsFoldOnce(env, before, items, sharded);
    case OpRemove(s) => RemovalFoldsOnce(env, before, s);
    case OpExpunge(s) => RemovalFoldsOnce(env, before, s);
    case OpReindex(now) => ReindexFoldsOnce(env, before, now);
    case OpReopen => ReopenFoldsOnce(env, ops[..|ops| - 1]);
  }
}
