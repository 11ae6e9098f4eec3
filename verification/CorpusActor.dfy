/** The corpus as an object over its stores: each public call, by the loops it
    runs, takes the state to exactly the one the lifecycle steps define. */
module CorpusActor {
  import opened Options
  import opened Ordering
  import opened Corpus
  import opened CorpusRecall
  import opened CorpusRebuild
  import opened FanOut

  const COMMIT_ITEMS: nat := 512
  const COMMIT_ROWS: nat := 4096
  const SHARD_ITEMS: nat := 2500

  class CorpusActor {
    const env: Env
    var rows: Rows
    var removed: set<Source>
    var postings: map<Chunk, Tokens>
    var vectors: Vectors
    var bases: map<Model, Basis>
    var saved: map<Model, Accumulator>
    var providers: map<Model, Basis>
    var accumulators: map<Model, Accumulator>
    var sources: map<Chunk, Source>
    var clock: nat

    function View(): State
      reads this
    {
      State(rows, removed, postings, vectors, bases, saved, providers, accumulators, sources, clock)
    }

    /** Open over existing stores: resolve every slot, warm the source map. */
    constructor Open(env: Env, stores: State)
      ensures this.env == env && Is(View(), Reopen(env, stores))
    {
      this.env := env;
      rows, removed, postings, vectors, bases, saved :=
        stores.rows, stores.removed, stores.postings, stores.vectors, stores.bases, stores.saved;
      var served, restored := ResolveSlots(env, stores.bases, stores.saved);
      providers, accumulators, clock := served, restored, 0;
      sources := map c | c in stores.rows :: c.source;
    }

    // ------------------------------------------------------------ writing

    /** Insert what is not stored yet and return it. */
    method StoreChunks(chunks: seq<Chunk>, stamp: nat) returns (inserted: seq<Chunk>)
      modifies this`rows
      ensures Is(rows, InsertRows(old(rows), chunks, stamp)) && Is(inserted, NewChunks(old(rows), chunks))
    {
      inserted := [];
      for k := 0 to |chunks|
        invariant rows == InsertRows(old(rows), chunks[..k], stamp) && inserted == NewChunks(old(rows), chunks[..k])
      {
        assert chunks[..k + 1][..k] == chunks[..k];
        InsertRowsExact(old(rows), chunks[..k], stamp);
        if chunks[k] !in rows {
          rows := rows[chunks[k] := Row(chunks[k].text, stamp + k)];
          inserted := inserted + [chunks[k]];
        }
      }
      assert chunks[..|chunks|] == chunks;
    }

    method IndexChunks(chunks: seq<Chunk>)
      modifies this`postings, this`sources
      ensures Is(postings, IndexAll(env, old(postings), chunks)) && Is(sources, MapSources(old(sources), chunks))
    {
      for k := 0 to |chunks|
        invariant postings == IndexAll(env, old(postings), chunks[..k]) && sources == MapSources(old(sources), chunks[..k])
      {
        assert chunks[..k + 1][..k] == chunks[..k];
        var tokens := env.tokenize(chunks[k].text);
        postings := postings - {chunks[k]};
        if tokens != [] { postings := postings[chunks[k] := tokens]; }
        assert postings == IndexChunk(env, IndexAll(env, old(postings), chunks[..k]), chunks[k]);
        sources := sources[chunks[k] := chunks[k].source];
      }
      assert chunks[..|chunks|] == chunks;
    }

    /** Fold the new chunks into every accumulator, slot by slot. */
    method FoldChunks(chunks: seq<Chunk>)
      modifies this`accumulators
      ensures Is(accumulators, FoldCounts(env, old(accumulators), chunks))
    {
      if |chunks| == 0 {
        assert FoldCounts(env, accumulators, chunks) == accumulators;
        return;
      }
      var left := accumulators.Keys;
      while left != {}
        invariant left <= accumulators.Keys == old(accumulators).Keys
        invariant forall m :: m in accumulators ==>
          accumulators[m] == if m in left then old(accumulators)[m] else FoldCounts(env, old(accumulators), chunks)[m]
        decreases left
      {
        var m :| m in left;
        var counts := accumulators[m].counts;
        for k := 0 to |chunks|
          invariant counts == FoldTexts(env, m, accumulators[m].counts, chunks[..k])
        {
          assert chunks[..k + 1][..k] == chunks[..k];
          counts := env.fold(m, counts, chunks[k].text);
        }
        assert chunks[..|chunks|] == chunks;
        accumulators := accumulators[m := Accumulator(counts, accumulators[m].documents + |chunks|)];
        left := left - {m};
      }
      assert accumulators == FoldCounts(env, old(accumulators), chunks);
    }

    method WriteOne(item: Item, chunks: seq<Chunk>)
      requires chunks == ItemChunks(env, item) && chunks != []
      modifies this
      ensures Is(View(), WriteItem(env, old(View()), item))
    {
      var inserted := Reactivate(item.source, chunks, clock, clock + |chunks|);
      IndexStored(chunks);
      FoldStored(inserted);
    }

    method Reactivate(s: Source, chunks: seq<Chunk>, stamp: nat, next: nat) returns (inserted: seq<Chunk>)
      modifies this`removed, this`rows, this`clock
      ensures Is(View(), Store(old(View()), s, chunks, stamp, next)) && Is(inserted, NewChunks(old(rows), chunks))
    {
      removed := removed - {s};
      inserted := StoreChunks(chunks, stamp);
      clock := next;
    }

    method IndexStored(chunks: seq<Chunk>)
      modifies this`postings, this`sources
      ensures Is(View(), Index(env, old(View()), chunks))
    {
      IndexChunks(chunks);
    }

    method FoldStored(inserted: seq<Chunk>)
      modifies this`accumulators
      ensures Is(View(), Fold(env, old(View()), inserted))
    {
      FoldChunks(inserted);
    }

    method WriteNext(item: Item) returns (chunks: seq<Chunk>)
      modifies this
      ensures Is(chunks, ItemChunks(env, item)) && Is(View(), WriteItem(env, old(View()), item))
    {
      chunks := ItemChunks(env, item);
      if |chunks| == 0 { return; }
      WriteOne(item, chunks);
    }

    method AddPayloads(batch: seq<VectorRow>)
      modifies this`vectors
      ensures vectors == Upsert(old(vectors), batch)
    {
      for k := 0 to |batch|
        invariant vectors == Upsert(old(vectors), batch[..k])
      {
        assert batch[..k + 1][..k] == batch[..k];
        vectors := vectors[batch[k].key := batch[k].vec];
      }
      assert batch[..|batch|] == batch;
    }

    /** Save every accumulator. */
    method PersistCounts()
      modifies this`saved
      ensures Is(View(), Save(old(View())))
    {
      saved := saved + accumulators;
    }

    // ----------------------------------------------------------- training

    method ActiveChunks() returns (active: seq<Chunk>)
      ensures active == Active(env, View())
    {
      var all := env.scan(rows);
      ghost var keep := NotIn(removed);
      active := [];
      for k := 0 to |all|
        invariant active == Filter(all[..k], keep)
      {
        FilterNext(all, k, keep);
        if all[k].source !in removed { active := active + [all[k]]; }
      }
      assert all[..|all|] == all;
    }

    method TrainSlot(m: Model, chunks: seq<Chunk>)
      modifies this`providers, this`bases
      ensures Is(View(), Train(env, old(View()), m, chunks))
    {
      var basis := env.train(m, env.emptyBasis(m), Texts(rows, chunks));
      providers := providers[m := basis];
      bases := bases[m := basis];
    }

    method ReembedSlot(m: Model, chunks: seq<Chunk>, now: Time, cap: nat)
      requires cap >= 1
      modifies this`vectors
      ensures Is(View(), Reembed(env, old(View()), m, chunks, now))
    {
      var batch := EmbedChunks(env, m, ProviderOf(env, providers, m), chunks, StoredText(rows), now, cap);
      vectors := WithoutModel(vectors, m);
      AddPayloads(batch);
    }

    // ------------------------------------------------------- public calls

    method Ingest(item: Item, cap: nat)
      requires cap >= 1 && NoDuplicates(env.models)
      modifies this
      ensures Is(View(), Corpus.Ingest(env, old(View()), item))
    {
      var chunks := ItemChunks(env, item);
      if |chunks| == 0 { return; }
      WriteOne(item, chunks);
      var foldIn := TrainMissingSlots(item.now, cap);
      var batch := EmbedDocument(env, foldIn, providers, chunks, item.now, cap);
      ghost var trained := View();
      AddPayloads(batch);
      assert Is(View(), trained.(vectors := Upsert(trained.vectors, batch)));
      PersistCounts();
    }

    /** Train the slots without a basis on the active chunks, loaded once, and
        return the others. */
    method TrainMissingSlots(now: Time, cap: nat) returns (foldIn: seq<Model>)
      requires cap >= 1 && NoDuplicates(env.models)
      modifies this`providers, this`bases, this`vectors
      ensures Is(View(), TrainMissing(env, old(View()), env.models, Active(env, old(View())), now))
      ensures FoldsIn(env, old(View()), foldIn)
    {
      ghost var st := View();
      ghost var active := Active(env, st);
      var cached: Option<seq<Chunk>> := None;
      foldIn := [];
      for i := 0 to |env.models|
        invariant Is(View(), TrainMissing(env, st, env.models[..i], active, now))
        invariant foldIn == Filter(env.models[..i], HasBasis(env, st.bases))
        invariant cached.Some? ==> cached.value == active
      {
        var m := env.models[i];
        FilterNext(env.models, i, HasBasis(env, st.bases));
        assert env.models[..i + 1][..i] == env.models[..i];
        OthersStayUntrained(env, st, env.models[..i], active, now, m);
        if env.trainable(m) && m !in bases {
          if cached.None? {
            var loaded := ActiveChunks();
            cached := Some(loaded);
          }
          TrainSlot(m, cached.value);
          ReembedSlot(m, cached.value, now, cap);
          continue;
        }
        foldIn := foldIn + [m];
      }
      assert env.models[..|env.models|] == env.models;
    }

    method IngestBatch(items: seq<Item>, cap: nat)
      requires cap >= 1 && NoDuplicates(env.models)
      modifies this
      ensures Is(View(), Corpus.IngestBatch(env, old(View()), items))
    {
      if |items| == 0 { return; }
      var perItem := WriteItems(items);
      BootstrapSlots();
      var all := EmbedBatch(env, providers, items, perItem, cap);
      CommitRows(all);
      PersistCounts();
    }

    /** Write the items in windows of one commit each. */
    method WriteItems(items: seq<Item>) returns (perItem: seq<seq<Chunk>>)
      modifies this
      ensures Is(View(), WriteAll(env, old(View()), items)) && Is(perItem, ShardChunks(env, items))
    {
      perItem := [];
      var offset := 0;
      while offset < |items|
        invariant WrittenUpTo(old(View()), items, offset, perItem)
      {
        var end := if offset + COMMIT_ITEMS < |items| then offset + COMMIT_ITEMS else |items|;
        perItem := WriteWindow(items, offset, end, perItem, old(View()));
        offset := end;
      }
      assert items[..|items|] == items;
    }

    method WriteWindow(items: seq<Item>, offset: nat, end: nat, before: seq<seq<Chunk>>, ghost st: State)
      returns (perItem: seq<seq<Chunk>>)
      requires offset <= end <= |items| && WrittenUpTo(st, items, offset, before)
      modifies this
      ensures WrittenUpTo(st, items, end, perItem)
    {
      perItem := before;
      for k := offset to end
        invariant WrittenUpTo(st, items, k, perItem)
      {
        var chunks := WriteNext(items[k]);
        WriteAllNext(env, st, items, k);
        perItem := perItem + [chunks];
      }
    }

    /** The items before `k` have been written and their chunks collected. */
    ghost predicate WrittenUpTo(st: State, items: seq<Item>, k: nat, perItem: seq<seq<Chunk>>)
      reads this
    {
      k <= |items| && Is(View(), WriteAll(env, st, items[..k])) && Is(perItem, ShardChunks(env, items[..k]))
    }

    /** Train each missing basis once on the whole corpus, without re-embedding. */
    method BootstrapSlots()
      requires NoDuplicates(env.models)
      modifies this`providers, this`bases
      ensures Is(View(), Bootstrap(env, old(View())))
    {
      var needed := NeedsBootstrap();
      if !needed {
        NothingMissing(env, View(), env.models, Active(env, View()), 0);
        return;
      }
      var active := ActiveChunks();
      if |active| == 0 { return; }
      BootstrapMissing(active);
    }

    method NeedsBootstrap() returns (needed: bool)
      ensures !needed ==> Trained(env, View())
    {
      for i := 0 to |env.models|
        invariant forall j :: 0 <= j < i ==> !Untrained(env, bases, env.models[j])
      {
        if env.trainable(env.models[i]) && env.models[i] !in bases { return true; }
      }
      needed := false;
    }

    method BootstrapMissing(active: seq<Chunk>)
      requires NoDuplicates(env.models)
      modifies this`providers, this`bases
      ensures Is(View(), BootstrapModels(env, old(View()), env.models, active))
    {
      for i := 0 to |env.models|
        invariant Is(View(), BootstrapModels(env, old(View()), env.models[..i], active))
      {
        assert env.models[..i + 1][..i] == env.models[..i];
        OthersStayUnbootstrapped(env, old(View()), env.models[..i], active, env.models[i]);
        if env.trainable(env.models[i]) && env.models[i] !in bases {
          TrainSlot(env.models[i], active);
        }
      }
      assert env.models[..|env.models|] == env.models;
    }

    /** Upsert the rows in windows of one commit each. */
    method CommitRows(all: seq<VectorRow>)
      modifies this`vectors
      ensures vectors == Upsert(old(vectors), all)
    {
      var offset := 0;
      while offset < |all|
        invariant 0 <= offset <= |all| && vectors == Upsert(old(vectors), all[..offset])
      {
        var end := if offset + COMMIT_ROWS < |all| then offset + COMMIT_ROWS else |all|;
        assert all[..end] == all[..offset] + all[offset..end];
        UpsertSplits(old(vectors), all[..offset], all[offset..end]);
        AddPayloads(all[offset..end]);
        offset := end;
      }
      assert all[..|all|] == all;
    }

    method ImportSerial(items: seq<Item>)
      modifies this
      ensures Is(View(), Import(env, old(View()), items, false))
    {
      var perItem := WriteItems(items);
      ImportIsWriteAll(env, old(View()), items);
    }

    /** The sharded import: workers chunk and tokenize their slices, the writer
        stores the rows, then the postings of all shards are merged in. */
    method ImportSharded(items: seq<Item>)
      requires Tokenized(env, postings)
      modifies this
      ensures Is(View(), Import(env, old(View()), items, true))
    {
      var slices := Slice(items, SHARD_ITEMS);
      var outs := BoundedConcurrentMap(slices, |slices| + 1, (slice: seq<Item>) => ShardChunks(env, slice));
      FlattenShards(env, slices, outs);
      var perItem := Flatten(outs);
      StoreItems(items, perItem);
      MergeShards(outs);
      ImportIsStoreThenMerge(env, old(View()), items);
    }

    /** Shard after shard. */
    method MergeShards(outs: seq<seq<seq<Chunk>>>)
      modifies this`postings
      ensures Is(postings, MergeAll(env, old(postings), Flatten(Flatten(outs))))
    {
      for s := 0 to |outs|
        invariant Is(postings, MergeAll(env, old(postings), Flatten(Flatten(outs[..s]))))
      {
        MergeNext(env, old(postings), outs, s);
        MergeShard(Flatten(outs[s]));
      }
      assert outs[..|outs|] == outs;
    }

    /** `INSERT OR REPLACE` of a shard's postings; a chunk without tokens has none. */
    method MergeShard(chunks: seq<Chunk>)
      modifies this`postings
      ensures Is(postings, MergeAll(env, old(postings), chunks))
    {
      for k := 0 to |chunks|
        invariant postings == MergeAll(env, old(postings), chunks[..k])
      {
        assert chunks[..k + 1][..k] == chunks[..k];
        var tokens := env.tokenize(chunks[k].text);
        if tokens == [] { continue; }
        postings := postings[chunks[k] := tokens];
      }
      assert chunks[..|chunks|] == chunks;
    }

    /** The single writer's window over the computed chunks: everything but the
        postings. */
    method StoreItems(items: seq<Item>, perItem: seq<seq<Chunk>>)
      requires perItem == ShardChunks(env, items)
      modifies this
      ensures Is(View(), StoreAll(env, old(View()), items))
    {
      var offset := 0;
      while offset < |items|
        invariant 0 <= offset <= |items| && Is(View(), StoreAll(env, old(View()), items[..offset]))
      {
        var end := if offset + COMMIT_ITEMS < |items| then offset + COMMIT_ITEMS else |items|;
        StoreWindow(items, perItem, offset, end, old(View()));
        offset := end;
      }
      assert items[..|items|] == items;
    }

    method StoreWindow(items: seq<Item>, perItem: seq<seq<Chunk>>, offset: nat, end: nat, ghost st: State)
      requires perItem == ShardChunks(env, items) && offset <= end <= |items|
      requires Is(View(), StoreAll(env, st, items[..offset]))
      modifies this
      ensures Is(View(), StoreAll(env, st, items[..end]))
    {
      for k := offset to end
        invariant Is(View(), StoreAll(env, st, items[..k]))
      {
        StoreAllNext(env, st, items, k);
        if |perItem[k]| == 0 { continue; }
        StoreOne(items[k], perItem[k]);
      }
    }

    method StoreOne(item: Item, chunks: seq<Chunk>)
      requires chunks == ItemChunks(env, item) && chunks != []
      modifies this
      ensures Is(View(), StoreItem(env, old(View()), item))
    {
      var inserted := Reactivate(item.source, chunks, 0, clock);
      MapChunks(chunks);
      FoldStored(inserted);
    }

    method MapChunks(chunks: seq<Chunk>)
      modifies this`sources
      ensures Is(sources, MapSources(old(sources), chunks))
    {
      for k := 0 to |chunks|
        invariant sources == MapSources(old(sources), chunks[..k])
      {
        assert chunks[..k + 1][..k] == chunks[..k];
        sources := sources[chunks[k] := chunks[k].source];
      }
      assert chunks[..|chunks|] == chunks;
    }

    method Reindex(now: Time, cap: nat)
      requires cap >= 1
      modifies this
      ensures Is(View(), Corpus.Reindex(env, old(View()), now))
    {
      var active := ActiveChunks();
      TrainSlots(active);
      ghost var trained := View();
      for i := 0 to |env.models|
        invariant Is(View(), ReembedAll(env, trained, env.models[..i], active, now))
      {
        assert env.models[..i + 1][..i] == env.models[..i];
        ReembedSlot(env.models[i], active, now, cap);
      }
      assert env.models[..|env.models|] == env.models;
      PersistCounts();
    }

    /** Train all trainable slots concurrently, then install in slot order. */
    method TrainSlots(active: seq<Chunk>)
      modifies this`providers, this`bases
      ensures Is(View(), TrainAll(env, old(View()), env.models, active))
    {
      var inputs := TrainableModels(env);
      var trained := TrainConcurrently(env, inputs, Texts(rows, active));
      TrainAllFiltered(env, View(), env.models, active);
      InstallTrained(inputs, trained, active);
    }

    method InstallTrained(inputs: seq<Model>, trained: seq<Basis>, active: seq<Chunk>)
      requires |trained| == |inputs|
      requires forall i :: 0 <= i < |inputs| ==>
        env.trainable(inputs[i]) && trained[i] == env.train(inputs[i], env.emptyBasis(inputs[i]), Texts(rows, active))
      modifies this`providers, this`bases
      ensures Is(View(), TrainAll(env, old(View()), inputs, active))
    {
      for i := 0 to |inputs|
        invariant Is(View(), TrainAll(env, old(View()), inputs[..i], active))
      {
        TrainAllNext(env, old(View()), inputs, i, active);
        providers := providers[inputs[i] := trained[i]];
        bases := bases[inputs[i] := trained[i]];
      }
      assert inputs[..|inputs|] == inputs;
    }

    method Remove(s: Source)
      modifies this
      ensures Is(View(), Corpus.Remove(env, old(View()), s))
    {
      var its := set c | c in rows && c.source == s;
      var left := its;
      while left != {}
        invariant left <= its
        invariant Is(View(), Gone(env, old(View()), its - left))
        decreases left
      {
        var c :| c in left;
        postings := postings - {c};
        sources := sources - {c};
        DeleteVectors(c);
        GoneNext(env, old(View()), its - left, c);
        assert its - (left - {c}) == its - left + {c};
        left := left - {c};
      }
      assert its - left == its;
      GoneIsRemoved(env, old(View()), s, its);
      removed := removed + {s};
    }

    /** Delete the chunk's vectors under every model. */
    method DeleteVectors(c: Chunk)
      modifies this`vectors
      ensures vectors == WithoutChunk(old(vectors), env.models, c)
    {
      for i := 0 to |env.models|
        invariant vectors == WithoutChunk(old(vectors), env.models[..i], c)
      {
        var m := env.models[i];
        assert forall x :: x in env.models[..i + 1] <==> x in env.models[..i] || x == m;
        vectors := map k | k in vectors && !(k.model == m && k.chunk == c) :: vectors[k];
      }
      assert env.models[..|env.models|] == env.models;
    }

    method Expunge(s: Source)
      modifies this
      ensures Is(View(), Corpus.Expunge(env, old(View()), s))
    {
      rows := Scrub(rows, s);
      Remove(s);
    }
  }

  // ------------------------------------------------------ about the loops

  method TrainableModels(env: Env) returns (inputs: seq<Model>)
    ensures inputs == Filter(env.models, env.trainable)
    ensures forall i :: 0 <= i < |inputs| ==> env.trainable(inputs[i])
  {
    inputs := [];
    for i := 0 to |env.models|
      invariant inputs == Filter(env.models[..i], env.trainable)
      invariant forall i :: 0 <= i < |inputs| ==> env.trainable(inputs[i])
    {
      FilterNext(env.models, i, env.trainable);
      if env.trainable(env.models[i]) { inputs := inputs + [env.models[i]]; }
    }
    assert env.models[..|env.models|] == env.models;
  }

  method TrainConcurrently(env: Env, inputs: seq<Model>, texts: seq<Text>) returns (trained: seq<Basis>)
    ensures |trained| == |inputs|
    ensures forall i :: 0 <= i < |inputs| ==> trained[i] == env.train(inputs[i], env.emptyBasis(inputs[i]), texts)
  {
    trained := BoundedConcurrentMap(inputs, |inputs| + 1, (m: Model) => env.train(m, env.emptyBasis(m), texts));
  }

  /** Each model serves its persisted basis or the untrained one; a trainable one
      gets an accumulator, restored if it was saved. */
  method ResolveSlots(env: Env, bases: map<Model, Basis>, saved: map<Model, Accumulator>)
    returns (providers: map<Model, Basis>, accumulators: map<Model, Accumulator>)
    ensures providers == map m | m in env.models :: if env.trainable(m) && m in bases then bases[m] else env.emptyBasis(m)
    ensures accumulators == map m | m in env.models && env.trainable(m) ::
              if m in saved then saved[m] else Accumulator(env.emptyCounts(m), 0)
  {
    providers, accumulators := map[], map[];
    for i := 0 to |env.models|
      invariant forall m :: m in providers <==> m in env.models[..i]
      invariant forall m :: m in providers ==> providers[m] == BasisFor(env, bases, m)
      invariant forall m :: m in accumulators <==> m in env.models[..i] && env.trainable(m)
      invariant forall m :: m in accumulators ==> accumulators[m] == if m in saved then saved[m] else Accumulator(env.emptyCounts(m), 0)
    {
      var m := env.models[i];
      assert env.models[..i + 1] == env.models[..i] + [m];
      providers := providers[m := BasisFor(env, bases, m)];
      if env.trainable(m) {
        accumulators := accumulators[m := if m in saved then saved[m] else Accumulator(env.emptyCounts(m), 0)];
      }
    }
    assert env.models[..|env.models|] == env.models;
  }

  lemma FilterNext<T>(s: seq<T>, k: nat, keep: T -> bool)
    requires k < |s|
    ensures Filter(s[..k + 1], keep) == Filter(s[..k], keep) + if keep(s[k]) then [s[k]] else []
  {
    assert s[..k + 1][..k] == s[..k];
  }

  lemma WriteAllNext(env: Env, st: State, items: seq<Item>, k: nat)
    requires k < |items|
    ensures WriteAll(env, st, items[..k + 1]) == WriteItem(env, WriteAll(env, st, items[..k]), items[k])
    ensures ShardChunks(env, items[..k + 1]) == ShardChunks(env, items[..k]) + [ItemChunks(env, items[k])]
  {
    assert items[..k + 1][..k] == items[..k];
  }

  ghost predicate FoldsIn(env: Env, st: State, foldIn: seq<Model>) {
    foldIn == Filter(env.models, HasBasis(env, st.bases))
  }

  /** Training some models leaves the others without a basis. */
  lemma {:induction false} OthersStayUntrained(env: Env, st: State, models: seq<Model>, active: seq<Chunk>, now: Time, m: Model)
    requires m !in models
    ensures m in TrainMissing(env, st, models, active, now).bases <==> m in st.bases
  {
    if models != [] { OthersStayUntrained(env, st, models[..|models| - 1], active, now, m); }
  }

  lemma {:induction false} OthersStayUnbootstrapped(env: Env, st: State, models: seq<Model>, active: seq<Chunk>, m: Model)
    requires m !in models
    ensures m in BootstrapModels(env, st, models, active).bases <==> m in st.bases
  {
    if models != [] { OthersStayUnbootstrapped(env, st, models[..|models| - 1], active, m); }
  }

  lemma TrainAllNext(env: Env, st: State, models: seq<Model>, i: nat, active: seq<Chunk>)
    requires i < |models| && env.trainable(models[i])
    ensures TrainAll(env, st, models[..i + 1], active) == Train(env, TrainAll(env, st, models[..i], active), models[i], active)
  {
    assert models[..i + 1][..i] == models[..i];
  }

  lemma {:induction false} TrainAllFiltered(env: Env, st: State, models: seq<Model>, active: seq<Chunk>)
    ensures TrainAll(env, st, models, active) == TrainAll(env, st, Filter(models, env.trainable), active)
  {
    if models != [] {
      var n := |models| - 1;
      TrainAllFiltered(env, st, models[..n], active);
      var front := Filter(models[..n], env.trainable);
      assert (front + [models[n]])[..|front|] == front && front + [] == front;
    }
  }

  lemma {:induction false} ImportIsWriteAll(env: Env, st: State, items: seq<Item>)
    ensures Import(env, st, items, false) == WriteAll(env, st, items)
  {
    if items != [] { ImportIsWriteAll(env, st, items[..|items| - 1]); }
  }

  // ----------------------------------------------------- the sharded import

  /** The chunks of each item, as a shard worker computes them. */
  function ShardChunks(env: Env, items: seq<Item>): (r: seq<seq<Chunk>>)
    ensures |r| == |items| && forall i :: 0 <= i < |items| ==> r[i] == ItemChunks(env, items[i])
  {
    seq(|items|, i requires 0 <= i < |items| => ItemChunks(env, items[i]))
  }

  lemma {:induction false} FlattenShards(env: Env, slices: seq<seq<Item>>, outs: seq<seq<seq<Chunk>>>)
    requires |outs| == |slices| && forall i :: 0 <= i < |slices| ==> outs[i] == ShardChunks(env, slices[i])
    ensures Flatten(outs) == ShardChunks(env, Flatten(slices))
  {
    if slices != [] { FlattenShards(env, slices[..|slices| - 1], outs[..|outs| - 1]); }
  }

  lemma {:induction false} FlattenSplits<T>(a: seq<seq<T>>, b: seq<seq<T>>)
    ensures Flatten(a + b) == Flatten(a) + Flatten(b)
  {
    if b == [] {
      assert a + b == a;
    } else {
      var n := |b| - 1;
      assert (a + b)[..|a + b| - 1] == a + b[..n];
      FlattenSplits(a, b[..n]);
    }
  }

  /** Every posting has tokens, as in every state a run reaches. */
  ghost predicate Tokenized(env: Env, postings: map<Chunk, Tokens>) {
    forall c :: c in postings ==> env.tokenize(c.text) != []
  }

  lemma RunIsTokenized(env: Env, ops: seq<Op>)
    requires Lawful(env)
    ensures Tokenized(env, Run(env, ops).postings)
  {
    forall c | c in Run(env, ops).postings ensures env.tokenize(c.text) != [] { PostingsAreTheLiveChunks(env, ops, c); }
  }

  function MergeAll(env: Env, postings: map<Chunk, Tokens>, chunks: seq<Chunk>): map<Chunk, Tokens> {
    if chunks == [] then postings else
      var before, c := MergeAll(env, postings, chunks[..|chunks| - 1]), chunks[|chunks| - 1];
      if env.tokenize(c.text) == [] then before else before[c := env.tokenize(c.text)]
  }

  lemma {:induction false} MergeSplits(env: Env, postings: map<Chunk, Tokens>, a: seq<Chunk>, b: seq<Chunk>)
    ensures MergeAll(env, postings, a + b) == MergeAll(env, MergeAll(env, postings, a), b)
  {
    if b == [] {
      assert a + b == a;
    } else {
      var n := |b| - 1;
      assert (a + b)[..|a + b| - 1] == a + b[..n];
      MergeSplits(env, postings, a, b[..n]);
    }
  }

  lemma MergeNext(env: Env, postings: map<Chunk, Tokens>, outs: seq<seq<seq<Chunk>>>, s: nat)
    requires s < |outs|
    ensures Is(MergeAll(env, postings, Flatten(Flatten(outs[..s + 1]))),
               MergeAll(env, MergeAll(env, postings, Flatten(Flatten(outs[..s]))), Flatten(outs[s])))
  {
    assert outs[..s + 1] == outs[..s] + [outs[s]];
    FlattenNext(outs[..s], outs[s]);
    FlattenSplits(Flatten(outs[..s]), outs[s]);
    MergeSplits(env, postings, Flatten(Flatten(outs[..s])), Flatten(outs[s]));
  }

  /** Merging never has to delete: a chunk without tokens has no old posting. */
  lemma {:induction false} MergeIsIndex(env: Env, postings: map<Chunk, Tokens>, chunks: seq<Chunk>)
    requires Tokenized(env, postings)
    ensures MergeAll(env, postings, chunks) == IndexAll(env, postings, chunks) && Tokenized(env, MergeAll(env, postings, chunks))
  {
    if chunks != [] { MergeIsIndex(env, postings, chunks[..|chunks| - 1]); }
  }

  /** The import without its postings. */
  function StoreAll(env: Env, st: State, items: seq<Item>): State {
    if items == [] then st else StoreItem(env, StoreAll(env, st, items[..|items| - 1]), items[|items| - 1])
  }

  function StoreItem(env: Env, st: State, item: Item): State {
    Write(env, st, item, 0, st.clock).(postings := st.postings)
  }

  lemma StoreAllNext(env: Env, st: State, items: seq<Item>, k: nat)
    requires k < |items|
    ensures StoreAll(env, st, items[..k + 1]) == StoreItem(env, StoreAll(env, st, items[..k]), items[k])
  {
    assert items[..k + 1][..k] == items[..k];
  }

  lemma {:induction false} ImportIsStoreThenMerge(env: Env, st: State, items: seq<Item>)
    requires Tokenized(env, st.postings)
    ensures Import(env, st, items, true)
         == StoreAll(env, st, items).(postings := MergeAll(env, st.postings, Flatten(ShardChunks(env, items))))
    ensures StoreAll(env, st, items).postings == st.postings
  {
    if items != [] {
      var n := |items| - 1;
      ImportIsStoreThenMerge(env, st, items[..n]);
      var chunks := ItemChunks(env, items[n]);
      assert ShardChunks(env, items) == ShardChunks(env, items[..n]) + [chunks];
      FlattenNext(ShardChunks(env, items[..n]), chunks);
      var merged := MergeAll(env, st.postings, Flatten(ShardChunks(env, items[..n])));
      MergeSplits(env, st.postings, Flatten(ShardChunks(env, items[..n])), chunks);
      MergeIsIndex(env, st.postings, Flatten(ShardChunks(env, items[..n])));
      MergeIsIndex(env, merged, chunks);
    }
  }

  // ---------------------------------------------------------------- removal

  function WithoutChunk(vectors: Vectors, models: seq<Model>, c: Chunk): Vectors {
    map k | k in vectors && !(k.model in models && k.chunk == c) :: vectors[k]
  }

  /** The state without the recall rows of some chunks. */
  function Gone(env: Env, st: State, chunks: set<Chunk>): State {
    st.(postings := st.postings - chunks,
        sources := st.sources - chunks,
        vectors := map k | k in st.vectors && !(k.model in env.models && k.chunk in chunks) :: st.vectors[k])
  }

  lemma GoneNext(env: Env, st: State, chunks: set<Chunk>, c: Chunk)
    ensures var g := Gone(env, st, chunks);
      Gone(env, st, chunks + {c})
      == g.(postings := g.postings - {c}, sources := g.sources - {c}, vectors := WithoutChunk(g.vectors, env.models, c))
  {
  }

  lemma GoneIsRemoved(env: Env, st: State, s: Source, its: set<Chunk>)
    requires its == set c | c in st.rows && c.source == s
    ensures Gone(env, st, its).(removed := st.removed + {s}) == Remove(env, st, s)
  {
  }
}
