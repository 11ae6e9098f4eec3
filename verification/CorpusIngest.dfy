/** What the calls that write vectors leave, key by key: which basis a first
    ingest trains, what is stored at every key of both lanes, and that in every
    run each stored vector is an embedding under the basis that serves queries. */
module CorpusIngest {
  import opened Options
  import opened Ordering
  import opened Corpus
  import opened CorpusRecall
  import opened CorpusRebuild

  // ------------------------------------------------- what is trained on

  /** The first sequence names elements of the second in the order they have there. */
  ghost predicate InOrderOf<T>(a: seq<T>, s: seq<T>) {
    exists at: seq<nat> :: Embedding(a, s, at)
  }

  ghost predicate Embedding<T>(a: seq<T>, s: seq<T>, at: seq<nat>) {
    && |at| == |a| && (forall i :: 0 <= i < |a| ==> at[i] < |s| && a[i] == s[at[i]])
    && (forall i, j :: 0 <= i < j < |a| ==> at[i] < at[j])
  }

  lemma {:induction false} FilterInOrder<T>(s: seq<T>, keep: T -> bool) returns (at: seq<nat>)
    ensures Embedding(Filter(s, keep), s, at)
  {
    if s == [] { return []; }
    var n := |s| - 1;
    var before := FilterInOrder(s[..n], keep);
    EmbeddingNext(Filter(s[..n], keep), s, before);
    at := if keep(s[n]) then before + [n] else before;
    assert Filter(s[..n], keep) + [] == Filter(s[..n], keep);
  }

  lemma EmbeddingNext<T>(a: seq<T>, s: seq<T>, at: seq<nat>)
    requires s != [] && Embedding(a, s[..|s| - 1], at)
    ensures Embedding(a, s, at) && Embedding(a + [s[|s| - 1]], s, at + [|s| - 1])
  {
    assert forall i :: 0 <= i < |a| ==> s[..|s| - 1][at[i]] == s[at[i]];
  }

  /** Every training sees the active chunks, all of them, each once, in the order
      the chunk table yields them. */
  lemma ActiveInScanOrder(env: Env, st: State)
    requires Lawful(env)
    ensures InOrderOf(Active(env, st), env.scan(st.rows)) && NoDuplicates(Active(env, st))
    ensures forall c :: c in Active(env, st) <==> c in st.rows && c.source !in st.removed
  {
    ActiveExact(env, st);
    var at := FilterInOrder(env.scan(st.rows), NotIn(st.removed));
    forall i, j | 0 <= i < j < |Active(env, st)| ensures Active(env, st)[i] != Active(env, st)[j] {
      assert env.scan(st.rows)[at[i]] != env.scan(st.rows)[at[j]];
    }
  }

  /** In every run a from-scratch training reads the chunks' own texts, and nothing
      of a chunk whose source was expunged after it was first written. */
  lemma TrainsOnUnscrubbedTexts(env: Env, ops: seq<Op>, m: Model, texts: seq<Text>)
    requires Lawful(env) && |texts| == |Active(env, Run(env, ops))|
    requires forall i :: 0 <= i < |texts| ==>
      var c := Active(env, Run(env, ops))[i]; texts[i] == if Scrubbed(env, ops, c) then [] else c.text
    ensures ScratchBasis(env, Run(env, ops), m) == if env.trainable(m) then env.train(m, env.emptyBasis(m), texts) else env.emptyBasis(m)
  {
    var st := Run(env, ops);
    var active := Active(env, st);
    ActiveExact(env, st);
    forall i | 0 <= i < |texts| ensures Texts(st.rows, active)[i] == texts[i] {
      assert active[i] in ActiveSet(st);
      ErasureIsPermanent(env, ops, active[i]);
    }
    assert Texts(st.rows, active) == texts;
  }

  // -------------------------------------------------------- first training

  function Lookup(bases: map<Model, Basis>, m: Model): Option<Basis> {
    if m in bases then Some(bases[m]) else None
  }

  /** The slot and its persisted basis are as they were. */
  ghost predicate SlotKept(st: State, st': State, m: Model) {
    Lookup(st'.bases, m) == Lookup(st.bases, m) && Lookup(st'.providers, m) == Lookup(st.providers, m)
  }

  /** The slot serves this basis, and it is the persisted one. */
  ghost predicate SlotTrained(st': State, m: Model, basis: Basis) {
    Lookup(st'.bases, m) == Lookup(st'.providers, m) == Some(basis)
  }

  function FreshlyTrained(env: Env, rows: Rows, active: seq<Chunk>, m: Model): Basis {
    env.train(m, env.emptyBasis(m), Texts(rows, active))
  }

  lemma TrainTouchesOneSlot(env: Env, st: State, x: Model, chunks: seq<Chunk>, m: Model)
    ensures var st' := Train(env, st, x, chunks);
      && Is(st'.rows, st.rows) && Is(st'.vectors, st.vectors)
      && if m == x then SlotTrained(st', m, FreshlyTrained(env, st.rows, chunks, m)) else SlotKept(st, st', m)
  {
  }

  lemma {:induction false} TrainMissingBases(env: Env, st: State, models: seq<Model>, active: seq<Chunk>, now: Time, m: Model)
    requires NoDuplicates(models)
    ensures var r := TrainMissing(env, st, models, active, now);
      if m in models && Untrained(env, st.bases, m) then SlotTrained(r, m, FreshlyTrained(env, st.rows, active, m)) else SlotKept(st, r, m)
  {
    if models != [] {
      var n := |models| - 1;
      var before := TrainMissing(env, st, models[..n], active, now);
      TrainMissingBases(env, st, models[..n], active, now, m);
      assert models == models[..n] + [models[n]] && models[n] !in models[..n];
      TrainTouchesOneSlot(env, before, models[n], active, m);
    }
  }

  lemma {:induction false} BootstrapBases(env: Env, st: State, models: seq<Model>, active: seq<Chunk>, m: Model)
    requires NoDuplicates(models)
    ensures var r := BootstrapModels(env, st, models, active);
      if m in models && Untrained(env, st.bases, m) then SlotTrained(r, m, FreshlyTrained(env, st.rows, active, m)) else SlotKept(st, r, m)
  {
    if models != [] {
      var n := |models| - 1;
      var before := BootstrapModels(env, st, models[..n], active);
      BootstrapBases(env, st, models[..n], active, m);
      assert models == models[..n] + [models[n]] && models[n] !in models[..n];
      TrainTouchesOneSlot(env, before, models[n], active, m);
    }
  }

  /** Training one model replaces its vectors and no other's. */
  lemma RetrainedVectors(env: Env, st: State, x: Model, active: seq<Chunk>, now: Time, k: Key)
    ensures At(Reembed(env, Train(env, st, x, active), x, active, now).vectors, k)
         == if k.model == x then Expected(env, x, FreshlyTrained(env, st.rows, active, x), active, StoredText(st.rows), now, k)
            else At(st.vectors, k)
  {
    var trained := Train(env, st, x, active);
    UpsertEmbeddings(WithoutModel(trained.vectors, x), env, x, ProviderOf(env, trained.providers, x), active, StoredText(st.rows), now, k);
  }

  lemma {:induction false} TrainMissingVectors(env: Env, st: State, models: seq<Model>, active: seq<Chunk>, now: Time, k: Key)
    requires NoDuplicates(models)
    ensures At(TrainMissing(env, st, models, active, now).vectors, k)
         == if k.model in models && Untrained(env, st.bases, k.model)
            then Expected(env, k.model, FreshlyTrained(env, st.rows, active, k.model), active, StoredText(st.rows), now, k)
            else At(st.vectors, k)
  {
    if models != [] {
      var n := |models| - 1;
      var before := TrainMissing(env, st, models[..n], active, now);
      TrainMissingVectors(env, st, models[..n], active, now, k);
      assert models == models[..n] + [models[n]] && models[n] !in models[..n];
      RetrainedVectors(env, before, models[n], active, now, k);
    }
  }

  /** A non-empty ingest trains each model that is to be trained and has no basis
      from the empty basis on all active chunks, the new ones included, installs
      that basis and persists it; every other slot is left alone. */
  lemma FirstIngestTrains(env: Env, st: State, item: Item, m: Model)
    requires Lawful(env) && ItemChunks(env, item) != []
    ensures var st' := Ingest(env, st, item);
      if m in env.models && Untrained(env, st.bases, m) then SlotTrained(st', m, ScratchBasis(env, st', m)) else SlotKept(st, st', m)
  {
    var written := WriteItem(env, st, item);
    WriteServes(env, st, item, st.clock, st.clock + |ItemChunks(env, item)|);
    TrainMissingBases(env, written, env.models, Active(env, written), item.now, m);
    assert Active(env, Ingest(env, st, item)) == Active(env, written);
  }

  // ------------------------------------------------------------ every key

  /** The rows of one document. */
  lemma {:induction false} UpsertDocument(vectors: Vectors, env: Env, models: seq<Model>, providers: map<Model, Basis>, chunks: seq<Chunk>, now: Time, k: Key)
    ensures At(Upsert(vectors, DocumentRows(env, models, providers, chunks, now)), k)
         == if k.model in models
            then Else(Expected(env, k.model, ProviderOf(env, providers, k.model), chunks, (c: Chunk) => c.text, now, k), At(vectors, k))
            else At(vectors, k)
  {
    if models != [] {
      var n := |models| - 1;
      var m, before := models[n], DocumentRows(env, models[..n], providers, chunks, now);
      var last := ChunkRows(env, m, ProviderOf(env, providers, m), chunks, (c: Chunk) => c.text, now);
      UpsertDocument(vectors, env, models[..n], providers, chunks, now, k);
      UpsertSplits(vectors, before, last);
      UpsertEmbeddings(Upsert(vectors, before), env, m, ProviderOf(env, providers, m), chunks, (c: Chunk) => c.text, now, k);
      assert models == models[..n] + [m];
    }
  }

  /** What an ingest stores at a key, given the state it ends in: a model trained
      by it has exactly the embeddings of the active chunks' stored texts, any
      other gets those of the document's chunks on top of what it had. */
  function IngestedAt(env: Env, st: State, st': State, item: Item, k: Key): Option<Vec> {
    if k.model !in env.models then At(st.vectors, k)
    else if Untrained(env, st.bases, k.model)
    then Expected(env, k.model, ScratchBasis(env, st', k.model), Active(env, st'), StoredText(st'.rows), item.now, k)
    else Else(Expected(env, k.model, ProviderOf(env, st.providers, k.model), ItemChunks(env, item), (c: Chunk) => c.text, item.now, k),
              At(st.vectors, k))
  }

  lemma IngestVectors(env: Env, st: State, item: Item, k: Key)
    requires Lawful(env) && ItemChunks(env, item) != []
    ensures var st' := Ingest(env, st, item); At(st'.vectors, k) == IngestedAt(env, st, st', item, k)
  {
    var st', written := Ingest(env, st, item), WriteItem(env, st, item);
    WriteServes(env, st, item, st.clock, st.clock + |ItemChunks(env, item)|);
    WriteLeavesVectors(env, st, item);
    TrainedThenFolded(env, written, item, k);
    assert Active(env, st') == Active(env, written);
    assert st'.rows == written.rows;
  }

  lemma WriteLeavesVectors(env: Env, st: State, item: Item)
    ensures Is(WriteItem(env, st, item).vectors, st.vectors)
  {
  }

  /** The vectors of an ingest once its document is written. */
  lemma TrainedThenFolded(env: Env, written: State, item: Item, k: Key)
    requires Lawful(env)
    ensures var active, foldIn := Active(env, written), Filter(env.models, HasBasis(env, written.bases));
      var trained := TrainMissing(env, written, env.models, active, item.now);
      At(Upsert(trained.vectors, DocumentRows(env, foldIn, trained.providers, ItemChunks(env, item), item.now)), k)
      == if k.model !in env.models then At(written.vectors, k)
         else if Untrained(env, written.bases, k.model)
         then Expected(env, k.model, FreshlyTrained(env, written.rows, active, k.model), active, StoredText(written.rows), item.now, k)
         else Else(Expected(env, k.model, ProviderOf(env, written.providers, k.model), ItemChunks(env, item), (c: Chunk) => c.text, item.now, k),
                   At(written.vectors, k))
  {
    var active, keep := Active(env, written), HasBasis(env, written.bases);
    var trained := TrainMissing(env, written, env.models, active, item.now);
    FilterExact(env.models, keep);
    TrainMissingVectors(env, written, env.models, active, item.now, k);
    TrainMissingBases(env, written, env.models, active, item.now, k.model);
    assert k.model in env.models && !Untrained(env, written.bases, k.model) ==>
      ProviderOf(env, trained.providers, k.model) == ProviderOf(env, written.providers, k.model);
    UpsertDocument(trained.vectors, env, Filter(env.models, keep), trained.providers, ItemChunks(env, item), item.now, k);
  }

  // -------------------------------------------------------------- the batch

  lemma BatchFrame(env: Env, st: State, items: seq<Item>)
    requires items != []
    ensures var written, st' := WriteAll(env, st, items), IngestBatch(env, st, items);
      && Is(st'.rows, written.rows) && Is(st'.removed, written.removed) && Active(env, st') == Active(env, written)
      && Is(written.bases, st.bases) && Is(written.providers, st.providers) && Is(written.vectors, st.vectors)
      && Is(st'.providers, Bootstrap(env, written).providers) && Is(st'.bases, Bootstrap(env, written).bases)
  {
    ItemsServe(env, st, items, false);
    WritesLeaveVectors(env, st, items, false);
  }

  /** The batch trains the same way, once, on all the chunks that are active after
      its last item; only if there are none it trains nothing. */
  lemma FirstBatchTrains(env: Env, st: State, items: seq<Item>, m: Model)
    requires Lawful(env) && items != []
    ensures var st' := IngestBatch(env, st, items);
      if m in env.models && Untrained(env, st.bases, m) && Active(env, st') != []
      then SlotTrained(st', m, ScratchBasis(env, st', m))
      else SlotKept(st, st', m)
  {
    var written := WriteAll(env, st, items);
    BatchFrame(env, st, items);
    BootstrapBases(env, written, env.models, Active(env, written), m);
  }

  /** The last item of the batch that has this chunk. */
  ghost predicate WritesLast(env: Env, items: seq<Item>, i: nat, c: Chunk) {
    i < |items| && Writes(env, items[i], c) && forall j :: i < j < |items| ==> !Writes(env, items[j], c)
  }

  lemma {:induction false} UpsertBatchElsewhere(vectors: Vectors, env: Env, providers: map<Model, Basis>, items: seq<Item>, k: Key)
    requires k.model !in env.models || !AnyWrites(env, items, k.chunk)
    ensures At(Upsert(vectors, BatchRows(env, providers, items)), k) == At(vectors, k)
  {
    if items != [] {
      var n := |items| - 1;
      AnyWritesNext(env, items, k.chunk);
      UpsertBatchElsewhere(vectors, env, providers, items[..n], k);
      UpsertBatchNext(vectors, env, providers, items, k);
    }
  }

  lemma UpsertBatchNext(vectors: Vectors, env: Env, providers: map<Model, Basis>, items: seq<Item>, k: Key)
    requires items != []
    ensures var last := items[|items| - 1];
      var before := At(Upsert(vectors, BatchRows(env, providers, items[..|items| - 1])), k);
      At(Upsert(vectors, BatchRows(env, providers, items)), k)
      == if k.model in env.models && Writes(env, last, k.chunk)
         then Else(Expected(env, k.model, ProviderOf(env, providers, k.model), [k.chunk], (c: Chunk) => c.text, last.now, k), before)
         else before
  {
    var n := |items| - 1;
    var chunks := env.chunk(items[n].source, items[n].text);
    var before, last := BatchRows(env, providers, items[..n]), DocumentRows(env, env.models, providers, chunks, items[n].now);
    UpsertSplits(vectors, before, last);
    UpsertDocument(Upsert(vectors, before), env, env.models, providers, chunks, items[n].now, k);
  }

  /** What is expected at a key does not depend on when it is filed. */
  lemma ExpectedAnyTime(env: Env, m: Model, basis: Basis, chunks: seq<Chunk>, text: Chunk -> Text, now: Time, later: Time, k: Key)
    ensures Expected(env, m, basis, chunks, text, now, k).Some? <==> Expected(env, m, basis, chunks, text, later, k).Some?
  {
  }

  lemma {:induction false} UpsertBatchAt(vectors: Vectors, env: Env, providers: map<Model, Basis>, items: seq<Item>, k: Key, i: nat)
    requires k.model in env.models && WritesLast(env, items, i, k.chunk)
    ensures At(Upsert(vectors, BatchRows(env, providers, items)), k)
         == Else(Expected(env, k.model, ProviderOf(env, providers, k.model), [k.chunk], (c: Chunk) => c.text, items[i].now, k), At(vectors, k))
  {
    var n := |items| - 1;
    UpsertBatchNext(vectors, env, providers, items, k);
    if i < n {
      assert WritesLast(env, items[..n], i, k.chunk);
      UpsertBatchAt(vectors, env, providers, items[..n], k, i);
    } else {
      BeforeLast(vectors, env, providers, items[..n], k, items[n].now);
    }
  }

  /** Before its last item the batch has stored nothing at the key, or what the
      last item replaces. */
  lemma {:induction false} BeforeLast(vectors: Vectors, env: Env, providers: map<Model, Basis>, items: seq<Item>, k: Key, now: Time)
    requires k.model in env.models
    ensures var last := Expected(env, k.model, ProviderOf(env, providers, k.model), [k.chunk], (c: Chunk) => c.text, now, k);
      Else(last, At(Upsert(vectors, BatchRows(env, providers, items)), k)) == Else(last, At(vectors, k))
  {
    if items != [] {
      var n := |items| - 1;
      BeforeLast(vectors, env, providers, items[..n], k, now);
      UpsertBatchNext(vectors, env, providers, items, k);
      ExpectedAnyTime(env, k.model, ProviderOf(env, providers, k.model), [k.chunk], (c: Chunk) => c.text, now, items[n].now, k);
    }
  }

  lemma {:induction false} LastWriter(env: Env, items: seq<Item>, c: Chunk) returns (i: nat)
    requires AnyWrites(env, items, c)
    ensures WritesLast(env, items, i, c)
  {
    var n := |items| - 1;
    AnyWritesNext(env, items, c);
    if Writes(env, items[n], c) { return n; }
    i := LastWriter(env, items[..n], c);
    forall j | i < j < |items| ensures !Writes(env, items[j], c) { assert j < n ==> items[j] == items[..n][j]; }
  }

  /** What a batch stores at a key: a chunk it writes has the embedding of its own
      text under the basis served afterwards, filed by the last item that has it;
      all else is as it was. */
  lemma BatchVectors(env: Env, st: State, items: seq<Item>, k: Key)
    requires items != []
    ensures var st' := IngestBatch(env, st, items);
      && (k.model !in env.models || !AnyWrites(env, items, k.chunk) ==> At(st'.vectors, k) == At(st.vectors, k))
      && forall i: nat :: k.model in env.models && WritesLast(env, items, i, k.chunk) ==>
           At(st'.vectors, k)
           == Else(Expected(env, k.model, ProviderOf(env, st'.providers, k.model), [k.chunk], (c: Chunk) => c.text, items[i].now, k), At(st.vectors, k))
  {
    BatchFrame(env, st, items);
    var providers := IngestBatch(env, st, items).providers;
    if k.model !in env.models || !AnyWrites(env, items, k.chunk) { UpsertBatchElsewhere(st.vectors, env, providers, items, k); }
    forall i: nat | k.model in env.models && WritesLast(env, items, i, k.chunk)
      ensures At(Upsert(st.vectors, BatchRows(env, providers, items)), k)
           == Else(Expected(env, k.model, ProviderOf(env, providers, k.model), [k.chunk], (c: Chunk) => c.text, items[i].now, k), At(st.vectors, k))
    {
      UpsertBatchAt(st.vectors, env, providers, items, k, i);
    }
  }

  // -------------------------------------------------------------- removal

  /** In every run a removal takes exactly the source's recall rows, in both lanes
      and under every model, and leaves every other row of the corpus alone. */
  lemma RemovalIsExact(env: Env, ops: seq<Op>, s: Source, k: Key, c: Chunk)
    requires Lawful(env)
    ensures var st := Run(env, ops);
      var st' := Remove(env, st, s);
      && At(st'.vectors, k) == (if k.chunk.source == s then None else At(st.vectors, k))
      && PostingAt(st'.postings, c) == (if c.source == s then None else PostingAt(st.postings, c))
  {
    RunIsQuiet(env, ops);
    RemovedRows(env, Run(env, ops), s, k, c);
  }

  function PostingAt(postings: map<Chunk, Tokens>, c: Chunk): Option<Tokens> {
    if c in postings then Some(postings[c]) else None
  }

  lemma RemovedRows(env: Env, st: State, s: Source, k: Key, c: Chunk)
    requires Quiet(env, st)
    ensures var st' := Remove(env, st, s);
      && At(st'.vectors, k) == (if k.chunk.source == s then None else At(st.vectors, k))
      && PostingAt(st'.postings, c) == (if c.source == s then None else PostingAt(st.postings, c))
  {
    assert k in st.vectors ==> k.model in env.models && k.chunk in ActiveSet(st);
    assert c in st.postings ==> c in ActiveSet(st);
  }

  // ------------------------------------------------------------- every run

  /** The stored vector is this lane of the embedding of the text. */
  predicate Embeds(env: Env, k: Key, basis: Basis, vec: Vec, text: Text) {
    var pair := env.embed(k.model, basis, text);
    (k.lane == 0 && vec.payload == pair.0) || (k.lane == 1 && pair.1 != [] && vec.payload == pair.1)
  }

  /** A stored vector embeds the chunk's own text, or no text if it was scrubbed,
      under the basis that serves the model's queries; and a model that still
      waits for its first training has no vectors. */
  predicate CurrentAt(env: Env, k: Key, vec: Option<Vec>, persisted: Option<Basis>, served: Option<Basis>, scrubbed: bool) {
    vec.Some? ==>
      && served.Some? && (env.trainable(k.model) ==> persisted.Some?)
      && (Embeds(env, k, served.value, vec.value, k.chunk.text) || (scrubbed && Embeds(env, k, served.value, vec.value, [])))
  }

  ghost predicate Current(env: Env, st: State, k: Key, scrubbed: bool) {
    CurrentAt(env, k, At(st.vectors, k), Lookup(st.bases, k.model), Lookup(st.providers, k.model), scrubbed)
  }

  lemma ExpectedIsCurrent(env: Env, k: Key, basis: Basis, chunks: seq<Chunk>, text: Chunk -> Text, now: Time, persisted: Option<Basis>, scrubbed: bool)
    requires env.trainable(k.model) ==> persisted.Some?
    requires text(k.chunk) == k.chunk.text || (scrubbed && text(k.chunk) == [])
    ensures CurrentAt(env, k, Expected(env, k.model, basis, chunks, text, now, k), persisted, Some(basis), scrubbed)
  {
  }

  /** The stored text of a chunk is its own, or empty if it was scrubbed. */
  ghost predicate TextKnown(rows: Rows, c: Chunk, scrubbed: bool) {
    c in rows && rows[c].text == if scrubbed then [] else c.text
  }

  /** A key of a model that the ingest trains. */
  lemma FirstIngestIsCurrent(env: Env, st: State, item: Item, st': State, k: Key, scrubbed: bool)
    requires SlotTrained(st', k.model, ScratchBasis(env, st', k.model)) && TextKnown(st'.rows, k.chunk, scrubbed)
    requires k.model in env.models && Untrained(env, st.bases, k.model) && At(st'.vectors, k) == IngestedAt(env, st, st', item, k)
    ensures Current(env, st', k, scrubbed)
  {
    ExpectedIsCurrent(env, k, ScratchBasis(env, st', k.model), Active(env, st'), StoredText(st'.rows), item.now, Lookup(st'.bases, k.model), scrubbed);
  }

  /** A key of any other model. */
  lemma FoldedIsCurrent(env: Env, st: State, item: Item, st': State, k: Key, scrubbed: bool)
    requires SlotKept(st, st', k.model) && Current(env, st, k, scrubbed) && k.model in st.providers
    requires k.model in env.models && !Untrained(env, st.bases, k.model) && At(st'.vectors, k) == IngestedAt(env, st, st', item, k)
    ensures Current(env, st', k, scrubbed)
  {
    ExpectedIsCurrent(env, k, st.providers[k.model], ItemChunks(env, item), (c: Chunk) => c.text, item.now, Lookup(st'.bases, k.model), scrubbed);
  }

  lemma IngestKeepsCurrent(env: Env, st: State, item: Item, k: Key, scrubbed: bool)
    requires Lawful(env) && Serving(env, st) && Quiet(env, st) && Current(env, st, k, scrubbed)
    requires var st' := Ingest(env, st, item); k in st'.vectors ==> TextKnown(st'.rows, k.chunk, scrubbed)
    ensures Current(env, Ingest(env, st, item), k, scrubbed)
  {
    var st' := Ingest(env, st, item);
    if ItemChunks(env, item) != [] && k in st'.vectors {
      FirstIngestTrains(env, st, item, k.model);
      IngestVectors(env, st, item, k);
      assert k.model in env.models by { IngestKeepsQuiet(env, st, item); }
      if Untrained(env, st.bases, k.model) {
        FirstIngestIsCurrent(env, st, item, st', k, scrubbed);
      } else {
        FoldedIsCurrent(env, st, item, st', k, scrubbed);
      }
    }
  }

  lemma BatchKeepsCurrent(env: Env, st: State, items: seq<Item>, k: Key, scrubbed: bool)
    requires Lawful(env) && Quiet(env, st) && Serving(env, st) && Current(env, st, k, scrubbed)
    ensures Current(env, IngestBatch(env, st, items), k, scrubbed)
  {
    var st' := IngestBatch(env, st, items);
    if items != [] && k in st'.vectors {
      assert k.model in env.models && k.chunk in Active(env, st') by {
        BatchKeepsQuiet(env, st, items);
        ActiveExact(env, st');
      }
      assert k.model in st'.providers by { BatchKeepsServing(env, st, items); }
      FirstBatchTrains(env, st, items, k.model);
      BatchVectors(env, st, items, k);
      if AnyWrites(env, items, k.chunk) {
        var i := LastWriter(env, items, k.chunk);
        ExpectedIsCurrent(env, k, st'.providers[k.model], [k.chunk], (c: Chunk) => c.text, items[i].now, Lookup(st'.bases, k.model), scrubbed);
      }
    }
  }

  lemma ReindexIsCurrent(env: Env, st: State, now: Time, k: Key, scrubbed: bool)
    requires Lawful(env) && Quiet(env, st) && Serving(env, st)
    requires k.chunk in st.rows ==> TextKnown(st.rows, k.chunk, scrubbed)
    ensures Current(env, Reindex(env, st, now), k, scrubbed)
  {
    var st' := Reindex(env, st, now);
    ReindexRebuilds(env, st, now);
    if k in st'.vectors {
      assert k.chunk in st.rows by {
        assert At(st'.vectors, k) == RebuiltAt(env, st, now, k);
        ActiveExact(env, st);
      }
      RebuiltIsCurrent(env, st, now, st', k, scrubbed);
    }
  }

  lemma RebuiltIsCurrent(env: Env, st: State, now: Time, st': State, k: Key, scrubbed: bool)
    requires Rebuilt(env, st, st', now) && k in st'.vectors && TextKnown(st.rows, k.chunk, scrubbed)
    ensures Current(env, st', k, scrubbed)
  {
    assert At(st'.vectors, k) == RebuiltAt(env, st, now, k);
    assert k.model in st'.providers && (env.trainable(k.model) ==> k.model in st'.bases);
    ExpectedIsCurrent(env, k, ScratchBasis(env, st, k.model), Active(env, st), StoredText(st.rows), now, Lookup(st'.bases, k.model), scrubbed);
  }

  /** A vector's chunk is stored, with the text its history says. */
  lemma VectorTextKnown(env: Env, ops: seq<Op>, k: Key)
    requires Lawful(env) && k in Run(env, ops).vectors
    ensures TextKnown(Run(env, ops).rows, k.chunk, Scrubbed(env, ops, k.chunk))
  {
    RunIsQuiet(env, ops);
    ErasureIsPermanent(env, ops, k.chunk);
    assert k.chunk in ActiveSet(Run(env, ops));
  }

  lemma MoreScrubbed(env: Env, st: State, k: Key, scrubbed: bool, later: bool)
    requires Current(env, st, k, scrubbed) && (scrubbed ==> later)
    ensures Current(env, st, k, later)
  {
  }

  /** No vector is stale.  In every run each stored vector, of either lane, is the
      embedding of its chunk's own text (or of no text, for a chunk whose source
      was expunged after it was written) under the very basis that serves queries
      now, however often the bases were trained, rebuilt and reloaded since; and a
      model without its first basis has no vectors at all. */
  lemma {:induction false} VectorsServeTheInstalledBasis(env: Env, ops: seq<Op>, k: Key)
    requires Lawful(env)
    ensures Current(env, Run(env, ops), k, Scrubbed(env, ops, k.chunk))
  {
    if ops != [] {
      VectorsServeTheInstalledBasis(env, ops[..|ops| - 1], k);
      LastStepKeepsCurrent(env, ops, k);
    }
  }

  lemma LastStepKeepsCurrent(env: Env, ops: seq<Op>, k: Key)
    requires Lawful(env) && ops != []
    requires var front := ops[..|ops| - 1]; Current(env, Run(env, front), k, Scrubbed(env, front, k.chunk))
    ensures Current(env, Run(env, ops), k, Scrubbed(env, ops, k.chunk))
  {
    var front, last := ops[..|ops| - 1], ops[|ops| - 1];
    RunIsQuiet(env, front);
    RunIsServing(env, front);
    if k in Run(env, ops).vectors { VectorTextKnown(env, ops, k); }
    ErasureIsPermanent(env, front, k.chunk);
    MoreScrubbed(env, Run(env, front), k, Scrubbed(env, front, k.chunk), Scrubbed(env, ops, k.chunk));
    StepKeepsCurrent(env, Run(env, front), last, k, Scrubbed(env, ops, k.chunk));
  }

  lemma StepKeepsCurrent(env: Env, st: State, op: Op, k: Key, scrubbed: bool)
    requires Lawful(env) && Quiet(env, st) && Serving(env, st) && Current(env, st, k, scrubbed)
    requires op.OpIngest? && k in Ingest(env, st, op.item).vectors ==> TextKnown(Ingest(env, st, op.item).rows, k.chunk, scrubbed)
    requires op.OpReindex? && k.chunk in st.rows ==> TextKnown(st.rows, k.chunk, scrubbed)
    ensures Current(env, Step(env, st, op), k, scrubbed)
  {
    match op
    case OpIngest(item) => IngestKeepsCurrent(env, st, item, k, scrubbed);
    case OpBatch(items) => BatchKeepsCurrent(env, st, items, k, scrubbed);
    case OpReindex(now) =>
      StepReindex(env, st, now);
      ReindexIsCurrent(env, st, now, k, scrubbed);
    case _ => QuietStepKeepsCurrent(env, st, op, k, scrubbed);
  }

  lemma QuietStepKeepsCurrent(env: Env, st: State, op: Op, k: Key, scrubbed: bool)
    requires Serving(env, st) && Current(env, st, k, scrubbed) && !op.OpIngest? && !op.OpBatch? && !op.OpReindex?
    ensures Current(env, Step(env, st, op), k, scrubbed)
  {
    match op
    case OpImport(items, sharded) => ImportKeepsCurrent(env, st, items, sharded, k, scrubbed);
    case OpRemove(s) => RemovalKeepsCurrent(env, st, s, k, scrubbed);
    case OpExpunge(s) => RemovalKeepsCurrent(env, st, s, k, scrubbed);
    case OpReopen => ReopenKeepsCurrent(env, st, k, scrubbed);
  }

  lemma RemovalKeepsCurrent(env: Env, st: State, s: Source, k: Key, scrubbed: bool)
    requires Current(env, st, k, scrubbed)
    ensures Current(env, Remove(env, st, s), k, scrubbed) && Current(env, Expunge(env, st, s), k, scrubbed)
  {
  }

  lemma ReopenKeepsCurrent(env: Env, st: State, k: Key, scrubbed: bool)
    requires Serving(env, st) && Current(env, st, k, scrubbed)
    ensures Current(env, Reopen(env, st), k, scrubbed)
  {
  }

  lemma ImportKeepsCurrent(env: Env, st: State, items: seq<Item>, sharded: bool, k: Key, scrubbed: bool)
    requires Current(env, st, k, scrubbed)
    ensures Current(env, Import(env, st, items, sharded), k, scrubbed)
  {
    WritesLeaveVectors(env, st, items, sharded);
    ItemsServe(env, st, items, sharded);
  }
}
