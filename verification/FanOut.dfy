/** The parallel embed: bounded task groups that finish in any order, contiguous
    slices, and the scatter of results back to their documents. */
module FanOut {
  import opened Options
  import opened Corpus
  import opened CorpusRebuild

  // ------------------------------------------------------- bounded groups

  /** `got` holds the results of the inputs in `done`, at their own index. */
  ghost predicate Collected<I, O>(inputs: seq<I>, work: I -> O, got: seq<Option<O>>, done: set<nat>) {
    |got| == |inputs| && forall i :: 0 <= i < |inputs| ==> got[i] == if i in done then Some(work(inputs[i])) else None
  }

  /** The input indices of one group. */
  function Group(start: nat, end: nat): (g: set<nat>)
    requires start <= end
    ensures forall i :: i in g <==> start <= i < end
  {
    if start == end then {} else Group(start, end - 1) + {end - 1}
  }

  /** At most `cap` tasks in flight, a barrier between groups; within a group the
      tasks finish in any order.  Every result lands at its input's index. */
  method BoundedConcurrentMap<I, O>(inputs: seq<I>, cap: nat, work: I -> O) returns (out: seq<O>)
    requires cap >= 1
    ensures |out| == |inputs| && forall i :: 0 <= i < |inputs| ==> out[i] == work(inputs[i])
  {
    var results: seq<Option<O>> := seq(|inputs|, _ => None);
    var start := 0;
    ghost var done: set<nat> := {};
    while start < |inputs|
      invariant 0 <= start <= |inputs| && Collected(inputs, work, results, done)
      invariant forall i: nat :: i in done <==> i < start
    {
      var end := if start + cap < |inputs| then start + cap else |inputs|;
      results := RunGroup(inputs, start, end, work, results, done);
      done := done + Group(start, end);
      start := end;
    }
    out := seq(|inputs|, i requires 0 <= i < |inputs| => results[i].value);
  }

  /** One group: whichever task finishes next stores its result. */
  method RunGroup<I, O>(inputs: seq<I>, start: nat, end: nat, work: I -> O, results: seq<Option<O>>, ghost done: set<nat>)
    returns (results': seq<Option<O>>)
    requires start <= end <= |inputs| && Collected(inputs, work, results, done)
    ensures Collected(inputs, work, results', done + Group(start, end))
  {
    results' := results;
    var running := Group(start, end);
    ghost var group := running;
    while running != {}
      invariant running <= group && Collected(inputs, work, results', done + (group - running))
      decreases running
    {
      var i :| i in running;
      results' := results'[i := Some(work(inputs[i]))];
      running := running - {i};
    }
    assert group - running == group;
  }

  // -------------------------------------------------------------- slicing

  function Flatten<T>(ss: seq<seq<T>>): seq<T> {
    if ss == [] then [] else Flatten(ss[..|ss| - 1]) + ss[|ss| - 1]
  }

  lemma FlattenNext<T>(ss: seq<seq<T>>, s: seq<T>)
    ensures Flatten(ss + [s]) == Flatten(ss) + s
  {
    assert (ss + [s])[..|ss|] == ss;
  }

  /** Contiguous slices of the given length; the last may be shorter. */
  method Slice<T>(s: seq<T>, length: nat) returns (slices: seq<seq<T>>)
    requires length >= 1
    ensures Flatten(slices) == s && forall i :: 0 <= i < |slices| ==> 1 <= |slices[i]| <= length
    ensures |s| <= length * |slices| < |s| + length
  {
    slices := [];
    var start := 0;
    while start < |s|
      invariant 0 <= start <= |s| && Flatten(slices) == s[..start]
      invariant forall i :: 0 <= i < |slices| ==> 1 <= |slices[i]| <= length
      invariant start == |s| || length * |slices| == start
      invariant start <= length * |slices| < start + length
    {
      var end := if start + length < |s| then start + length else |s|;
      FlattenNext(slices, s[start..end]);
      assert s[..start] + s[start..end] == s[..end];
      LengthNext(length, |slices|);
      slices := slices + [s[start..end]];
      start := end;
    }
    assert s[..|s|] == s;
  }

  lemma LengthNext(length: nat, n: nat)
    ensures length * (n + 1) == length * n + length
  {
  }

  /** No more slices than workers. */
  lemma AtMostCapSlices(n: nat, cap: nat, length: nat, slices: nat)
    requires cap >= 1 && length == SliceLength(n, cap) && length * slices < n + length
    ensures slices <= cap
  {
    CeilingCovers(n, cap);
    LengthNext(length, cap);
    CancelLess(length, slices, cap + 1);
  }

  lemma CancelLess(a: nat, b: nat, c: nat)
    requires a * b < a * c
    ensures b < c
  {
    if b >= c { Monotone(a, c, b); }
  }

  lemma Monotone(a: nat, b: nat, c: nat)
    requires b <= c
    ensures a * b <= a * c
  {
  }

  lemma CeilingCovers(n: nat, cap: nat)
    requires cap >= 1
    ensures n <= SliceLength(n, cap) * cap
  {
    var q := (n + cap - 1) / cap;
    assert n + cap - 1 == q * cap + (n + cap - 1) % cap;
    Monotone(cap, q, SliceLength(n, cap));
  }

  function SliceLength(n: nat, cap: nat): (r: nat)
    requires cap >= 1
    ensures r >= 1
  {
    if (n + cap - 1) / cap > 1 then (n + cap - 1) / cap else 1
  }

  // ------------------------------------------------------------- documents

  /** A document with chunks, under its place in the batch. */
  type Input = (nat, seq<Chunk>)
  type Output = (nat, seq<VectorRow>)

  /** The rows of one document of the batch. */
  function RowsFor(env: Env, providers: map<Model, Basis>, items: seq<Item>, i: nat, chunks: seq<Chunk>): seq<VectorRow> {
    DocumentRows(env, env.models, providers, chunks, if i < |items| then items[i].now else 0)
  }

  /** What a worker computes for its slice, one document after the other. */
  function EmbedSlice(env: Env, providers: map<Model, Basis>, items: seq<Item>, slice: seq<Input>): (out: seq<Output>)
    ensures |out| == |slice|
    ensures forall j :: 0 <= j < |slice| ==> out[j] == (slice[j].0, RowsFor(env, providers, items, slice[j].0, slice[j].1))
  {
    seq(|slice|, j requires 0 <= j < |slice| => (slice[j].0, RowsFor(env, providers, items, slice[j].0, slice[j].1)))
  }

  ghost function Indices(inputs: seq<Input>): set<nat> {
    set j | 0 <= j < |inputs| :: inputs[j].0
  }

  lemma IndicesNext(inputs: seq<Input>, x: Input)
    ensures Indices(inputs + [x]) == Indices(inputs) + {x.0}
  {
    assert (inputs + [x])[|inputs|] == x;
    forall i | i in Indices(inputs) ensures i in Indices(inputs + [x]) {
      var j :| 0 <= j < |inputs| && inputs[j].0 == i;
      assert (inputs + [x])[j].0 == i;
    }
  }

  /** The inputs name documents of the batch with their own chunks. */
  ghost predicate Names(inputs: seq<Input>, perItem: seq<seq<Chunk>>) {
    forall j :: 0 <= j < |inputs| ==> inputs[j].0 < |perItem| && inputs[j].1 == perItem[inputs[j].0]
  }

  /** The documents that have chunks, each under its original index. */
  method NonEmpty(perItem: seq<seq<Chunk>>) returns (inputs: seq<Input>)
    ensures Names(inputs, perItem)
    ensures forall i :: 0 <= i < |perItem| ==> (i in Indices(inputs) <==> perItem[i] != [])
  {
    inputs := [];
    for i := 0 to |perItem|
      invariant Names(inputs, perItem)
      invariant forall j :: j in Indices(inputs) <==> 0 <= j < i && perItem[j] != []
    {
      if perItem[i] != [] {
        IndicesNext(inputs, (i, perItem[i]));
        inputs := inputs + [(i, perItem[i])];
      }
    }
  }

  /** Rows have been scattered to the documents in `done`; the rest are empty. */
  ghost predicate Scattered(env: Env, providers: map<Model, Basis>, items: seq<Item>, perItem: seq<seq<Chunk>>,
                            acc: seq<seq<VectorRow>>, done: set<nat>) {
    |acc| == |perItem| && forall i :: 0 <= i < |perItem| ==> acc[i] == if i in done then RowsFor(env, providers, items, i, perItem[i]) else []
  }

  /** Put every computed row list at its document's index. */
  method Scatter(env: Env, providers: map<Model, Basis>, items: seq<Item>, ghost perItem: seq<seq<Chunk>>, n: nat,
                 ghost slices: seq<seq<Input>>, computed: seq<seq<Output>>)
    returns (acc: seq<seq<VectorRow>>)
    requires n == |perItem| && |computed| == |slices|
    requires forall s :: 0 <= s < |slices| ==> Names(slices[s], perItem) && computed[s] == EmbedSlice(env, providers, items, slices[s])
    ensures Scattered(env, providers, items, perItem, acc, Indices(Flatten(slices)))
  {
    acc := seq(n, _ => []);
    for s := 0 to |computed|
      invariant Scattered(env, providers, items, perItem, acc, Indices(Flatten(slices[..s])))
    {
      acc := ScatterSlice(env, providers, items, perItem, Flatten(slices[..s]), slices[s], computed[s], acc);
      assert slices[..s + 1] == slices[..s] + [slices[s]];
      FlattenNext(slices[..s], slices[s]);
    }
    assert slices[..|slices|] == slices;
  }

  method ScatterSlice(env: Env, providers: map<Model, Basis>, items: seq<Item>, ghost perItem: seq<seq<Chunk>>,
                      ghost before: seq<Input>, ghost slice: seq<Input>, computed: seq<Output>, acc: seq<seq<VectorRow>>)
    returns (acc': seq<seq<VectorRow>>)
    requires Names(slice, perItem) && computed == EmbedSlice(env, providers, items, slice)
    requires Scattered(env, providers, items, perItem, acc, Indices(before))
    ensures Scattered(env, providers, items, perItem, acc', Indices(before + slice))
  {
    acc' := acc;
    assert before + slice[..0] == before;
    for j := 0 to |computed|
      invariant Scattered(env, providers, items, perItem, acc', Indices(before + slice[..j]))
    {
      assert before + slice[..j + 1] == before + slice[..j] + [slice[j]];
      IndicesNext(before + slice[..j], slice[j]);
      acc' := acc'[computed[j].0 := computed[j].1];
    }
    assert slice[..|slice|] == slice;
  }

  lemma SlicesName(slices: seq<seq<Input>>, inputs: seq<Input>, perItem: seq<seq<Chunk>>, s: nat)
    requires Flatten(slices) == inputs && Names(inputs, perItem) && s < |slices|
    ensures Names(slices[s], perItem)
  {
    InFlatten(slices, s);
    forall j | 0 <= j < |slices[s]| ensures slices[s][j].0 < |perItem| && slices[s][j].1 == perItem[slices[s][j].0] {
      assert slices[s][j] in inputs;
    }
  }

  lemma {:induction false} InFlatten<T(!new)>(ss: seq<seq<T>>, s: nat)
    requires s < |ss|
    ensures forall x :: x in ss[s] ==> x in Flatten(ss)
  {
    if s < |ss| - 1 {
      InFlatten(ss[..|ss| - 1], s);
    }
  }

  lemma {:induction false} FlattenIsBatchRows(env: Env, providers: map<Model, Basis>, items: seq<Item>, acc: seq<seq<VectorRow>>)
    requires |acc| == |items|
    requires forall i :: 0 <= i < |items| ==>
      acc[i] == DocumentRows(env, env.models, providers, env.chunk(items[i].source, items[i].text), items[i].now)
    ensures Flatten(acc) == BatchRows(env, providers, items)
  {
    if items != [] { FlattenIsBatchRows(env, providers, items[..|items| - 1], acc[..|acc| - 1]); }
  }

  /** The sliced, concurrent, scattered embed gives the rows of the plain loop over
      the items, for every cap and every order in which tasks finish. */
  method EmbedBatch(env: Env, providers: map<Model, Basis>, items: seq<Item>, perItem: seq<seq<Chunk>>, cap: nat)
    returns (rows: seq<VectorRow>)
    requires cap >= 1 && |perItem| == |items|
    requires forall i :: 0 <= i < |items| ==> perItem[i] == ItemChunks(env, items[i])
    ensures rows == BatchRows(env, providers, items)
  {
    var inputs := NonEmpty(perItem);
    var slices := Slice(inputs, SliceLength(|inputs|, cap));
    AtMostCapSlices(|inputs|, cap, SliceLength(|inputs|, cap), |slices|);
    assert |slices| <= cap;
    var computed := BoundedConcurrentMap(slices, cap, (slice: seq<Input>) => EmbedSlice(env, providers, items, slice));
    forall s | 0 <= s < |slices| ensures Names(slices[s], perItem) { SlicesName(slices, inputs, perItem, s); }
    var acc := Scatter(env, providers, items, perItem, |perItem|, slices, computed);
    forall i | 0 <= i < |items| ensures acc[i] == DocumentRows(env, env.models, providers, perItem[i], items[i].now) {
      NoChunksNoRows(env, env.models, providers, items[i].now);
    }
    FlattenIsBatchRows(env, providers, items, acc);
    rows := Flatten(acc);
  }

  // ------------------------------------------------------------- re-embed

  lemma {:induction false} ChunkRowsSplit(env: Env, m: Model, basis: Basis, a: seq<Chunk>, b: seq<Chunk>, text: Chunk -> Text, now: Time)
    ensures ChunkRows(env, m, basis, a + b, text, now)
         == ChunkRows(env, m, basis, a, text, now) + ChunkRows(env, m, basis, b, text, now)
  {
    if b == [] {
      assert a + b == a;
    } else {
      var n := |b| - 1;
      assert (a + b)[..|a + b| - 1] == a + b[..n];
      ChunkRowsSplit(env, m, basis, a, b[..n], text, now);
    }
  }

  lemma {:induction false} FlattenChunkRows(env: Env, m: Model, basis: Basis, batches: seq<seq<Chunk>>, per: seq<seq<VectorRow>>, text: Chunk -> Text, now: Time)
    requires |per| == |batches| && forall i :: 0 <= i < |batches| ==> per[i] == ChunkRows(env, m, basis, batches[i], text, now)
    ensures Flatten(per) == ChunkRows(env, m, basis, Flatten(batches), text, now)
  {
    if batches != [] {
      var n := |batches| - 1;
      FlattenChunkRows(env, m, basis, batches[..n], per[..n], text, now);
      ChunkRowsSplit(env, m, basis, Flatten(batches[..n]), batches[n], text, now);
    }
  }

  const REEMBED_BATCH: nat := 3000

  /** Fixed-size batches embedded concurrently give the rows of the serial loop. */
  method EmbedChunks(env: Env, m: Model, basis: Basis, chunks: seq<Chunk>, text: Chunk -> Text, now: Time, cap: nat)
    returns (rows: seq<VectorRow>)
    requires cap >= 1
    ensures rows == ChunkRows(env, m, basis, chunks, text, now)
  {
    var batches := Slice(chunks, REEMBED_BATCH);
    var per := BoundedConcurrentMap(batches, cap, (batch: seq<Chunk>) => ChunkRows(env, m, basis, batch, text, now));
    FlattenChunkRows(env, m, basis, batches, per, text, now);
    rows := Flatten(per);
  }

  /** The fold-in of one document: one task per model, results in model order. */
  method EmbedDocument(env: Env, models: seq<Model>, providers: map<Model, Basis>, chunks: seq<Chunk>, now: Time, cap: nat)
    returns (rows: seq<VectorRow>)
    requires cap >= 1
    ensures rows == DocumentRows(env, models, providers, chunks, now)
  {
    var per := BoundedConcurrentMap(models, cap,
      (m: Model) => ChunkRows(env, m, ProviderOf(env, providers, m), chunks, (c: Chunk) => c.text, now));
    FlattenDocumentRows(env, models, providers, chunks, now, per);
    rows := Flatten(per);
  }

  lemma {:induction false} FlattenDocumentRows(env: Env, models: seq<Model>, providers: map<Model, Basis>, chunks: seq<Chunk>, now: Time, per: seq<seq<VectorRow>>)
    requires |per| == |models|
    requires forall i :: 0 <= i < |models| ==>
      per[i] == ChunkRows(env, models[i], ProviderOf(env, providers, models[i]), chunks, (c: Chunk) => c.text, now)
    ensures Flatten(per) == DocumentRows(env, models, providers, chunks, now)
  {
    if models != [] { FlattenDocumentRows(env, models[..|models| - 1], providers, chunks, now, per[..|per| - 1]); }
  }
}
