/** The corpus lifecycle: chunk rows, keyword postings, per-model vectors, the
    removed set, trained bases and maintained counts, as one state and the public
    calls as steps on it. */
module Corpus {
  import opened Ordering

  type Source = Bytes
  type Text = Bytes
  type Tokens = seq<Bytes>
  type Model = Bytes
  type Basis = Bytes
  type Counts = Bytes
  type Payload = Bytes
  type Time = int

  /** A chunk and its content-addressed id, which determine each other. */
  datatype Chunk = Chunk(source: Source, offset: nat, text: Text)

  /** A stored chunk: its text, empty once scrubbed, and its order stamp. */
  datatype Row = Row(text: Text, stamp: nat)
  type Rows = map<Chunk, Row>

  datatype Item = Item(text: Text, source: Source, now: Time)

  /** Binary engrams are lane 0, float vectors lane 1. */
  datatype Key = Key(model: Model, chunk: Chunk, lane: nat)
  datatype Vec = Vec(payload: Payload, filedAt: Time)
  datatype VectorRow = VectorRow(key: Key, vec: Vec)
  type Vectors = map<Key, Vec>

  datatype Accumulator = Accumulator(counts: Counts, documents: nat)

  /** What is taken as given: the chunker, the tokenizer, the order in which a
      table scan yields the rows, and the providers. */
  datatype Env = Env(
    models: seq<Model>,
    chunk: (Source, Text) -> seq<Chunk>,
    tokenize: Text -> Tokens,
    scan: Rows -> seq<Chunk>,
    trainable: Model -> bool,
    emptyBasis: Model -> Basis,
    train: (Model, Basis, seq<Text>) -> Basis,
    embed: (Model, Basis, Text) -> (Payload, Payload),
    emptyCounts: Model -> Counts,
    fold: (Model, Counts, Text) -> Counts)

  ghost predicate Lawful(env: Env) {
    && (forall s, t, i :: 0 <= i < |env.chunk(s, t)| ==> env.chunk(s, t)[i].source == s)
    && (forall rows :: NoDuplicates(env.scan(rows)) && Elements(env.scan(rows)) == rows.Keys)
    && NoDuplicates(env.models)
  }

  datatype State = State(
    rows: Rows,
    removed: set<Source>,
    postings: map<Chunk, Tokens>,
    vectors: Vectors,
    bases: map<Model, Basis>,
    saved: map<Model, Accumulator>,
    providers: map<Model, Basis>,
    accumulators: map<Model, Accumulator>,
    sources: map<Chunk, Source>,
    clock: nat)

  function Initial(env: Env): State {
    Reopen(env, State(map[], {}, map[], map[], map[], map[], map[], map[], map[], 0))
  }

  /** The very same value. */
  ghost predicate Is<T>(a: T, b: T) {
    a == b
  }

  // ------------------------------------------------------------ chunk rows

  function ItemChunks(env: Env, item: Item): seq<Chunk> {
    env.chunk(item.source, item.text)
  }

  /** A chunk already stored is left alone, scrubbed or not. */
  function InsertRows(rows: Rows, chunks: seq<Chunk>, stamp: nat): Rows {
    if chunks == [] then rows else
      var n := |chunks| - 1;
      var before := InsertRows(rows, chunks[..n], stamp);
      if chunks[n] in before then before else before[chunks[n] := Row(chunks[n].text, stamp + n)]
  }

  function NewChunks(rows: Rows, chunks: seq<Chunk>): seq<Chunk> {
    if chunks == [] then [] else
      var n := |chunks| - 1;
      NewChunks(rows, chunks[..n]) + if chunks[n] in rows || chunks[n] in chunks[..n] then [] else [chunks[n]]
  }

  /** Indexing replaces the chunk's postings; without tokens it only deletes. */
  function IndexChunk(env: Env, postings: map<Chunk, Tokens>, c: Chunk): map<Chunk, Tokens> {
    if env.tokenize(c.text) == [] then postings - {c} else postings[c := env.tokenize(c.text)]
  }

  function IndexAll(env: Env, postings: map<Chunk, Tokens>, chunks: seq<Chunk>): map<Chunk, Tokens> {
    if chunks == [] then postings
    else IndexChunk(env, IndexAll(env, postings, chunks[..|chunks| - 1]), chunks[|chunks| - 1])
  }

  function MapSources(sources: map<Chunk, Source>, chunks: seq<Chunk>): map<Chunk, Source> {
    if chunks == [] then sources
    else MapSources(sources, chunks[..|chunks| - 1])[chunks[|chunks| - 1] := chunks[|chunks| - 1].source]
  }

  function FoldTexts(env: Env, m: Model, counts: Counts, chunks: seq<Chunk>): Counts {
    if chunks == [] then counts
    else env.fold(m, FoldTexts(env, m, counts, chunks[..|chunks| - 1]), chunks[|chunks| - 1].text)
  }

  /** Every accumulator after the newly stored chunks. */
  function FoldCounts(env: Env, accumulators: map<Model, Accumulator>, chunks: seq<Chunk>): (r: map<Model, Accumulator>)
    ensures r.Keys == accumulators.Keys
  {
    map m | m in accumulators :: Accumulator(FoldTexts(env, m, accumulators[m].counts, chunks), accumulators[m].documents + |chunks|)
  }

  /** The part every ingest shares: reactivate and store, index and map, fold. */
  function Write(env: Env, st: State, item: Item, stamp: nat, clock: nat): State {
    var chunks := env.chunk(item.source, item.text);
    if chunks == [] then st
    else Fold(env, Index(env, Store(st, item.source, chunks, stamp, clock), chunks), NewChunks(st.rows, chunks))
  }

  function Store(st: State, s: Source, chunks: seq<Chunk>, stamp: nat, clock: nat): State {
    st.(removed := st.removed - {s}, rows := InsertRows(st.rows, chunks, stamp), clock := clock)
  }

  function Index(env: Env, st: State, chunks: seq<Chunk>): State {
    st.(postings := IndexAll(env, st.postings, chunks), sources := MapSources(st.sources, chunks))
  }

  function Fold(env: Env, st: State, chunks: seq<Chunk>): State {
    st.(accumulators := FoldCounts(env, st.accumulators, chunks))
  }

  /** Chunks are stamped from the corpus's own generator. */
  function WriteItem(env: Env, st: State, item: Item): State {
    Write(env, st, item, st.clock, st.clock + |env.chunk(item.source, item.text)|)
  }

  function WriteAll(env: Env, st: State, items: seq<Item>): State {
    if items == [] then st else WriteItem(env, WriteAll(env, st, items[..|items| - 1]), items[|items| - 1])
  }

  // --------------------------------------------------------------- vectors

  /** One inference pass: the engram, and the float vector unless it is empty. */
  function PairRows(env: Env, m: Model, basis: Basis, c: Chunk, text: Text, now: Time): seq<VectorRow> {
    var pair := env.embed(m, basis, text);
    [VectorRow(Key(m, c, 0), Vec(pair.0, now))] + if pair.1 == [] then [] else [VectorRow(Key(m, c, 1), Vec(pair.1, now))]
  }

  /** The rows of some chunks, embedding the given text of each. */
  function ChunkRows(env: Env, m: Model, basis: Basis, chunks: seq<Chunk>, text: Chunk -> Text, now: Time): seq<VectorRow> {
    if chunks == [] then [] else
      var n := |chunks| - 1;
      ChunkRows(env, m, basis, chunks[..n], text, now) + PairRows(env, m, basis, chunks[n], text(chunks[n]), now)
  }

  function ProviderOf(env: Env, providers: map<Model, Basis>, m: Model): Basis {
    if m in providers then providers[m] else env.emptyBasis(m)
  }

  /** The rows of one document under each of the models. */
  function DocumentRows(env: Env, models: seq<Model>, providers: map<Model, Basis>, chunks: seq<Chunk>, now: Time): seq<VectorRow> {
    if models == [] then [] else
      var n := |models| - 1;
      DocumentRows(env, models[..n], providers, chunks, now)
      + ChunkRows(env, models[n], ProviderOf(env, providers, models[n]), chunks, (c: Chunk) => c.text, now)
  }

  function Upsert(vectors: Vectors, rows: seq<VectorRow>): Vectors {
    if rows == [] then vectors
    else Upsert(vectors, rows[..|rows| - 1])[rows[|rows| - 1].key := rows[|rows| - 1].vec]
  }

  function WithoutModel(vectors: Vectors, m: Model): Vectors {
    map k | k in vectors && k.model != m :: vectors[k]
  }

  // ---------------------------------------------------------- training

  /** The chunks of the sources that are not removed, in scan order. */
  function Active(env: Env, st: State): seq<Chunk> {
    Filter(env.scan(st.rows), NotIn(st.removed))
  }

  function NotIn(removed: set<Source>): Chunk -> bool {
    (c: Chunk) => c.source !in removed
  }

  function Filter<T>(s: seq<T>, keep: T -> bool): seq<T> {
    if s == [] then [] else
      var n := |s| - 1;
      Filter(s[..n], keep) + if keep(s[n]) then [s[n]] else []
  }

  /** The text a rebuild reads: the stored one. */
  function StoredText(rows: Rows): Chunk -> Text {
    (c: Chunk) => if c in rows then rows[c].text else []
  }

  function Texts(rows: Rows, chunks: seq<Chunk>): (texts: seq<Text>)
    ensures |texts| == |chunks| && forall i :: 0 <= i < |chunks| ==> texts[i] == StoredText(rows)(chunks[i])
  {
    seq(|chunks|, i requires 0 <= i < |chunks| => StoredText(rows)(chunks[i]))
  }

  /** Train from the empty basis, install and persist. */
  function Train(env: Env, st: State, m: Model, chunks: seq<Chunk>): State {
    var basis := env.train(m, env.emptyBasis(m), Texts(st.rows, chunks));
    st.(providers := st.providers[m := basis], bases := st.bases[m := basis])
  }

  /** Replace all of the model's vectors. */
  function Reembed(env: Env, st: State, m: Model, chunks: seq<Chunk>, now: Time): State {
    st.(vectors := Upsert(WithoutModel(st.vectors, m),
                          ChunkRows(env, m, ProviderOf(env, st.providers, m), chunks, StoredText(st.rows), now)))
  }

  predicate Untrained(env: Env, bases: map<Model, Basis>, m: Model) {
    env.trainable(m) && m !in bases
  }

  function HasBasis(env: Env, bases: map<Model, Basis>): Model -> bool {
    (m: Model) => !Untrained(env, bases, m)
  }

  /** First-ingest training of the models without a basis. */
  function TrainMissing(env: Env, st: State, models: seq<Model>, active: seq<Chunk>, now: Time): (r: State)
    ensures r == st.(vectors := r.vectors, bases := r.bases, providers := r.providers)
  {
    if models == [] then st else
      var n := |models| - 1;
      var before := TrainMissing(env, st, models[..n], active, now);
      if Untrained(env, st.bases, models[n])
      then Reembed(env, Train(env, before, models[n], active), models[n], active, now)
      else before
  }

  /** The batch bootstrap trains without re-embedding. */
  function BootstrapModels(env: Env, st: State, models: seq<Model>, active: seq<Chunk>): (r: State)
    ensures r == st.(bases := r.bases, providers := r.providers)
  {
    if models == [] then st else
      var n := |models| - 1;
      var before := BootstrapModels(env, st, models[..n], active);
      if Untrained(env, st.bases, models[n]) then Train(env, before, models[n], active) else before
  }

  function TrainAll(env: Env, st: State, models: seq<Model>, active: seq<Chunk>): (r: State)
    ensures r == st.(bases := r.bases, providers := r.providers)
  {
    if models == [] then st else
      var n := |models| - 1;
      var before := TrainAll(env, st, models[..n], active);
      if env.trainable(models[n]) then Train(env, before, models[n], active) else before
  }

  function ReembedAll(env: Env, st: State, models: seq<Model>, active: seq<Chunk>, now: Time): (r: State)
    ensures r == st.(vectors := r.vectors)
  {
    if models == [] then st else
      var n := |models| - 1;
      Reembed(env, ReembedAll(env, st, models[..n], active, now), models[n], active, now)
  }

  function Save(st: State): State {
    st.(saved := st.saved + st.accumulators)
  }

  // ------------------------------------------------------ the public calls

  function Ingest(env: Env, st: State, item: Item): State {
    var chunks := env.chunk(item.source, item.text);
    if chunks == [] then st else
      var written := WriteItem(env, st, item);
      var trained := TrainMissing(env, written, env.models, Active(env, written), item.now);
      var foldIn := Filter(env.models, HasBasis(env, written.bases));
      Save(trained.(vectors := Upsert(trained.vectors, DocumentRows(env, foldIn, trained.providers, chunks, item.now))))
  }

  function BatchRows(env: Env, providers: map<Model, Basis>, items: seq<Item>): seq<VectorRow> {
    if items == [] then [] else
      var n := |items| - 1;
      BatchRows(env, providers, items[..n])
      + DocumentRows(env, env.models, providers, env.chunk(items[n].source, items[n].text), items[n].now)
  }

  function Bootstrap(env: Env, st: State): (r: State)
    ensures r == st.(bases := r.bases, providers := r.providers)
  {
    if Active(env, st) == [] then st else BootstrapModels(env, st, env.models, Active(env, st))
  }

  function IngestBatch(env: Env, st: State, items: seq<Item>): State {
    if items == [] then st else
      var ready := Bootstrap(env, WriteAll(env, st, items));
      Save(ready.(vectors := Upsert(ready.vectors, BatchRows(env, ready.providers, items))))
  }

  /** The bulk import: no training, no vectors, counts not yet saved.  Shard
      workers stamp each document from a generator of its own. */
  function Import(env: Env, st: State, items: seq<Item>, sharded: bool): State {
    if items == [] then st else
      var n := |items| - 1;
      var before := Import(env, st, items[..n], sharded);
      if sharded then Write(env, before, items[n], 0, before.clock) else WriteItem(env, before, items[n])
  }

  function Reindex(env: Env, st: State, now: Time): State {
    var active := Active(env, st);
    Save(ReembedAll(env, TrainAll(env, st, env.models, active), env.models, active, now))
  }

  function Remove(env: Env, st: State, s: Source): State {
    st.(postings := map c | c in st.postings && !(c in st.rows && c.source == s) :: st.postings[c],
        sources := map c | c in st.sources && !(c in st.rows && c.source == s) :: st.sources[c],
        vectors := map k | k in st.vectors && !(k.chunk in st.rows && k.chunk.source == s && k.model in env.models) :: st.vectors[k],
        removed := st.removed + {s})
  }

  function Scrub(rows: Rows, s: Source): Rows {
    map c | c in rows :: if c.source == s then rows[c].(text := []) else rows[c]
  }

  function Expunge(env: Env, st: State, s: Source): State {
    Remove(env, st.(rows := Scrub(st.rows, s)), s)
  }

  /** A new process over the same stores. */
  function Reopen(env: Env, st: State): State {
    st.(providers := map m | m in env.models :: if env.trainable(m) && m in st.bases then st.bases[m] else env.emptyBasis(m),
        accumulators := map m | m in env.models && env.trainable(m) ::
                          if m in st.saved then st.saved[m] else Accumulator(env.emptyCounts(m), 0),
        sources := map c | c in st.rows :: c.source,
        clock := 0)
  }

  datatype Op =
    | OpIngest(item: Item)
    | OpBatch(items: seq<Item>)
    | OpImport(items: seq<Item>, sharded: bool)
    | OpRemove(source: Source)
    | OpExpunge(source: Source)
    | OpReindex(now: Time)
    | OpReopen

  function Step(env: Env, st: State, op: Op): State {
    match op
    case OpIngest(item) => Ingest(env, st, item)
    case OpBatch(items) => IngestBatch(env, st, items)
    case OpImport(items, sharded) => Import(env, st, items, sharded)
    case OpRemove(s) => Remove(env, st, s)
    case OpExpunge(s) => Expunge(env, st, s)
    case OpReindex(now) => Reindex(env, st, now)
    case OpReopen => Reopen(env, st)
  }

  function Run(env: Env, ops: seq<Op>): State {
    if ops == [] then Initial(env) else Step(env, Run(env, ops[..|ops| - 1]), ops[|ops| - 1])
  }
}
