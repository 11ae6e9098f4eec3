/** The sentence-aware chunker: a buffer that is flushed at a target size and
    keeps an overlap.  Segmentation is external; the segments are the input. */
module Chunker {
  import opened Ordering

  type Text = seq<char>

  datatype Configuration = Configuration(target: nat, overlap: nat) {
    ghost predicate Clamped() {
      overlap < target
    }
  }

  /** At least one character of target, and an overlap below it. */
  function NewConfiguration(target: nat, overlap: nat): (c: Configuration)
    ensures c.Clamped() && c.target >= target && c.overlap <= overlap
    ensures 0 < target && overlap < target ==> c == Configuration(target, overlap)
  {
    var t := if target > 1 then target else 1;
    Configuration(t, if overlap < t - 1 then overlap else t - 1)
  }

  datatype Chunk = Chunk(start: nat, length: nat, text: Text)

  function Concat(segments: seq<Text>): Text {
    if segments == [] then [] else Concat(segments[..|segments| - 1]) + segments[|segments| - 1]
  }

  // --------------------------------------------------------- what is promised

  /** A chunk is the slice of the text at its offset and length. */
  ghost predicate SliceOf(c: Chunk, text: Text) {
    c.start + c.length <= |text| && c.text == text[c.start..c.start + c.length]
  }

  function End(c: Chunk): nat {
    c.start + c.length
  }

  /** Strictly increasing by (start, length). */
  predicate Precedes(a: Chunk, b: Chunk) {
    a.start < b.start || (a.start == b.start && a.length < b.length)
  }

  /** How far the text is covered: the furthest end so far. */
  function Covered(chunks: seq<Chunk>): nat {
    if chunks == [] then 0 else Max(Covered(chunks[..|chunks| - 1]), End(chunks[|chunks| - 1]))
  }

  /** What a chunk adds to a text covered up to `covered`. */
  function Fresh(c: Chunk, covered: nat): Text {
    if covered <= c.start then c.text
    else if covered - c.start <= |c.text| then c.text[covered - c.start..]
    else []
  }

  /** Drop from each chunk what earlier chunks cover and join the rest. */
  function Reassemble(chunks: seq<Chunk>): Text {
    if chunks == [] then [] else
      var before := chunks[..|chunks| - 1];
      Reassemble(before) + Fresh(chunks[|chunks| - 1], Covered(before))
  }

  lemma OneMoreChunk(chunks: seq<Chunk>, c: Chunk)
    ensures Covered(chunks + [c]) == Max(Covered(chunks), End(c))
    ensures Reassemble(chunks + [c]) == Reassemble(chunks) + Fresh(c, Covered(chunks))
  {
    assert (chunks + [c])[..|chunks|] == chunks;
  }

  // ------------------------------------------------- where chunks begin and end

  /** The first `k` segments end at this offset. */
  ghost predicate Boundary(segments: seq<Text>, k: nat, at: nat) {
    k <= |segments| && |Concat(segments[..k])| == at
  }

  ghost predicate EndsAtBoundary(c: Chunk, segments: seq<Text>) {
    exists k: nat :: Boundary(segments, k, End(c))
  }

  /** The chunk reached the target, or the segment that comes next would have taken
      it past the target. */
  ghost predicate Filled(c: Chunk, segments: seq<Text>, config: Configuration) {
    c.length >= config.target
    || exists k: nat :: k < |segments| && Boundary(segments, k, End(c)) && c.length + |segments[k]| > config.target
  }

  /** A chunk past the target has one segment, alone or behind what was kept of a
      chunk that ended there below the target. */
  ghost predicate AtMostOneOver(chunks: seq<Chunk>, i: nat, segments: seq<Text>, config: Configuration)
    requires i < |chunks|
  {
    chunks[i].length > config.target ==> exists k: nat :: k < |segments| && LastSegment(chunks, i, segments, k, config)
  }

  ghost predicate LastSegment(chunks: seq<Chunk>, i: nat, segments: seq<Text>, k: nat, config: Configuration)
    requires i < |chunks| && k < |segments|
  {
    && Boundary(segments, k + 1, End(chunks[i]))
    && (Boundary(segments, k, chunks[i].start)
        || (i > 0 && chunks[i - 1].length < config.target && Boundary(segments, k, End(chunks[i - 1]))))
  }

  /** A chunk that adds no text follows one that reached the target. */
  predicate AddsText(chunks: seq<Chunk>, i: nat, config: Configuration)
    requires i < |chunks|
  {
    i > 0 && End(chunks[i]) <= End(chunks[i - 1]) ==> chunks[i - 1].length >= config.target
  }

  /** The start of the chunk that follows these. */
  function NextStart(chunks: seq<Chunk>, config: Configuration): int {
    if chunks == [] then 0 else
      var last := chunks[|chunks| - 1];
      End(last) - Min(config.overlap, last.length)
  }

  /** Each chunk starts where the one before leaves its overlap. */
  ghost predicate Overlapping(chunks: seq<Chunk>, config: Configuration) {
    forall i :: 0 <= i < |chunks| ==> StartsAfter(chunks, i, config)
  }

  predicate StartsAfter(chunks: seq<Chunk>, i: nat, config: Configuration)
    requires i < |chunks|
  {
    chunks[i].start == NextStart(chunks[..i], config)
  }

  ghost predicate CutAt(chunks: seq<Chunk>, i: nat, segments: seq<Text>, config: Configuration)
    requires i < |chunks|
  {
    EndsAtBoundary(chunks[i], segments) && AtMostOneOver(chunks, i, segments, config) && AddsText(chunks, i, config)
  }

  ghost predicate WellCut(chunks: seq<Chunk>, segments: seq<Text>, config: Configuration) {
    Overlapping(chunks, config) && forall i :: 0 <= i < |chunks| ==> CutAt(chunks, i, segments, config)
  }

  /** All but the last `open` chunks are filled. */
  ghost predicate AllFilled(chunks: seq<Chunk>, segments: seq<Text>, config: Configuration, open: nat) {
    forall i :: 0 <= i < |chunks| - open ==> Filled(chunks[i], segments, config)
  }

  /** This chunk may come next. */
  ghost predicate CanFollow(chunks: seq<Chunk>, c: Chunk, segments: seq<Text>, config: Configuration) {
    c.start == NextStart(chunks, config) && CutAt(chunks + [c], |chunks|, segments, config)
  }

  lemma CutOnce(chunks: seq<Chunk>, c: Chunk, segments: seq<Text>, config: Configuration)
    requires WellCut(chunks, segments, config) && AllFilled(chunks, segments, config, 0) && CanFollow(chunks, c, segments, config)
    ensures WellCut(chunks + [c], segments, config) && AllFilled(chunks + [c], segments, config, 1)
    ensures Filled(c, segments, config) ==> AllFilled(chunks + [c], segments, config, 0)
  {
    var all := chunks + [c];
    forall i | 0 <= i < |all| ensures StartsAfter(all, i, config) {
      if i < |chunks| { assert StartsAfter(chunks, i, config) && all[..i] == chunks[..i]; } else { assert all[..i] == chunks; }
    }
    forall i | 0 <= i < |chunks| ensures CutAt(all, i, segments, config) { CutAtStays(chunks, c, i, segments, config); }
  }

  lemma CutAtStays(chunks: seq<Chunk>, c: Chunk, i: nat, segments: seq<Text>, config: Configuration)
    requires i < |chunks| && CutAt(chunks, i, segments, config)
    ensures CutAt(chunks + [c], i, segments, config)
  {
    if chunks[i].length > config.target {
      var k: nat :| k < |segments| && LastSegment(chunks, i, segments, k, config);
      assert LastSegment(chunks + [c], i, segments, k, config);
    }
  }

  ghost predicate Longest(limit: nat, segments: seq<Text>) {
    forall i :: 0 <= i < |segments| ==> |segments[i]| <= limit
  }

  // -------------------------------------------------------------- the chunker

  /** The chunks emitted so far describe `text`: slices of it without a gap, in
      strictly increasing order, no longer than `limit`, joining to all of it
      up to `covered`. */
  ghost predicate Describes(chunks: seq<Chunk>, text: Text, limit: nat) {
    && (forall i :: 0 <= i < |chunks| ==> SliceOf(chunks[i], text))
    && (forall i :: 0 <= i < |chunks| ==> 0 < chunks[i].length <= limit)
    && (forall i, j :: 0 <= i < j < |chunks| ==> Precedes(chunks[i], chunks[j]))
    && Covered(chunks) <= |text|
    && Reassemble(chunks) == text[..Covered(chunks)]
  }

  /** Reading further text does not change what the chunks describe. */
  lemma DescribesMore(chunks: seq<Chunk>, text: Text, more: Text, limit: nat)
    requires Describes(chunks, text, limit)
    ensures Describes(chunks, text + more, limit)
  {
    forall i | 0 <= i < |chunks| ensures SliceOf(chunks[i], text + more) {
      var c := chunks[i];
      assert SliceOf(c, text);
      assert (text + more)[c.start..End(c)] == text[c.start..End(c)];
    }
    assert (text + more)[..Covered(chunks)] == text[..Covered(chunks)];
  }

  /** Emitting the buffer, which reaches to the end of the text read so far. */
  lemma EmitDescribes(chunks: seq<Chunk>, text: Text, c: Chunk, limit: nat)
    requires Describes(chunks, text, limit)
    requires SliceOf(c, text) && End(c) == |text| && 0 < c.length <= limit
    requires c.start <= Covered(chunks)
    requires chunks != [] ==> Precedes(chunks[|chunks| - 1], c)
    ensures Describes(chunks + [c], text, limit) && Covered(chunks + [c]) == |text|
  {
    var all := chunks + [c];
    EmitCovers(chunks, text, c);
    forall i, j | 0 <= i < j < |all| ensures Precedes(all[i], all[j]) {
      if j == |chunks| && i < |chunks| - 1 { assert Precedes(chunks[i], chunks[|chunks| - 1]); }
    }
    forall i | 0 <= i < |all| ensures SliceOf(all[i], text) && 0 < all[i].length <= limit {
      if i < |chunks| { assert SliceOf(chunks[i], text) && 0 < chunks[i].length <= limit; }
    }
  }

  lemma EmitCovers(chunks: seq<Chunk>, text: Text, c: Chunk)
    requires Covered(chunks) <= |text| && Reassemble(chunks) == text[..Covered(chunks)]
    requires SliceOf(c, text) && End(c) == |text| && c.start <= Covered(chunks)
    ensures Covered(chunks + [c]) == |text| && Reassemble(chunks + [c]) == text[..|text|]
  {
    OneMoreChunk(chunks, c);
    FreshTail(text, c, Covered(chunks));
  }

  lemma FreshTail(text: Text, c: Chunk, n: nat)
    requires SliceOf(c, text) && End(c) == |text| && c.start <= n <= |text|
    ensures text[..n] + Fresh(c, n) == text[..|text|]
  {
    assert Fresh(c, n) == text[n..];
  }

  /** Emit the buffer and keep its last `overlap` characters.  A buffer no longer
      than the overlap stays whole and its start does not move. */
  method Flush(chunks: seq<Chunk>, buffer: Text, start: nat, config: Configuration)
    returns (chunks': seq<Chunk>, buffer': Text, start': nat)
    ensures buffer == [] ==> chunks' == chunks && buffer' == buffer && start' == start
    ensures buffer != [] ==> chunks' == chunks + [Chunk(start, |buffer|, buffer)]
    ensures |buffer'| == (if |buffer| < config.overlap then |buffer| else config.overlap)
    ensures buffer' == buffer[|buffer| - |buffer'|..] && start' + |buffer'| == start + |buffer|
  {
    if buffer == [] { return chunks, buffer, start; }
    chunks' := chunks + [Chunk(start, |buffer|, buffer)];
    var overlap := if config.overlap < |buffer| then config.overlap else |buffer|;
    start' := start + |buffer| - overlap;
    if overlap > 0 {
      buffer' := buffer[|buffer| - overlap..];
    } else {
      buffer' := [];
    }
  }

  /** The loop's state after reading `text`: the buffer is its tail. */
  ghost predicate Buffering(chunks: seq<Chunk>, buffer: Text, start: nat, text: Text, limit: nat) {
    && start + |buffer| == |text| && buffer == text[start..]
    && Describes(chunks, text, limit) && start <= Covered(chunks)
    && (buffer == [] ==> Covered(chunks) == |text|)
  }

  /** Emitting the buffer now would follow the last chunk. */
  ghost predicate Advanced(chunks: seq<Chunk>, start: nat, text: Text) {
    chunks != [] ==>
      var last := chunks[|chunks| - 1];
      last.start < start || (last.start == start && End(last) < |text|)
  }

  /** Emitting the buffer completes the description. */
  lemma BufferDescribes(chunks: seq<Chunk>, buffer: Text, start: nat, text: Text, limit: nat)
    requires Buffering(chunks, buffer, start, text, limit) && Advanced(chunks, start, text) && 0 < |buffer| <= limit
    ensures var all := chunks + [Chunk(start, |buffer|, buffer)];
      Describes(all, text, limit) && Covered(all) == |text| && Reassemble(all) == text
  {
    assert text[..|text|] == text;
    EmitDescribes(chunks, text, Chunk(start, |buffer|, buffer), limit);
  }

  lemma NothingBuffered(chunks: seq<Chunk>, start: nat, text: Text, limit: nat)
    requires Buffering(chunks, [], start, text, limit)
    ensures Describes(chunks, text, limit) && Reassemble(chunks) == text && (chunks == [] <==> text == [])
  {
    assert text[..|text|] == text;
  }

  method FlushBuffer(chunks: seq<Chunk>, buffer: Text, start: nat, config: Configuration, ghost text: Text, ghost limit: nat)
    returns (chunks': seq<Chunk>, buffer': Text, start': nat)
    requires Buffering(chunks, buffer, start, text, limit) && Advanced(chunks, start, text)
    requires 0 < |buffer| <= limit
    ensures Buffering(chunks', buffer', start', text, limit) && |buffer'| <= config.overlap
    ensures |buffer| > config.overlap ==> Advanced(chunks', start', text)
    ensures chunks' == chunks + [Chunk(start, |buffer|, buffer)] && start <= start'
    ensures start' == start + |buffer| - Min(config.overlap, |buffer|)
  {
    BufferDescribes(chunks, buffer, start, text, limit);
    chunks', buffer', start' := Flush(chunks, buffer, start, config);
  }

  lemma AppendBuffers(chunks: seq<Chunk>, buffer: Text, start: nat, text: Text, segment: Text, limit: nat)
    requires Buffering(chunks, buffer, start, text, limit) && (buffer == [] ==> start == |text|)
    ensures Buffering(chunks, buffer + segment, start, text + segment, limit)
  {
    assert Describes(chunks, text + segment, limit) by { DescribesMore(chunks, text, segment, limit); }
    assert (text + segment)[start..] == text[start..] + segment;
  }

  /** What fixes where the chunks begin and end. */
  ghost predicate Determined(chunks: seq<Chunk>, segments: seq<Text>, config: Configuration) {
    && WellCut(chunks, segments, config) && AllFilled(chunks, segments, config, 1)
    && (chunks != [] ==>
         var last := chunks[|chunks| - 1];
         End(last) == |Concat(segments)| && (last.length < config.target || config.overlap == 0))
  }

  /** How the chunks so far were cut; the buffer begins where the next chunk does,
      and holds nothing new only behind a chunk that reached the target. */
  ghost predicate Cut(chunks: seq<Chunk>, buffer: Text, start: nat, segments: seq<Text>, config: Configuration) {
    && WellCut(chunks, segments, config) && AllFilled(chunks, segments, config, 0) && start == NextStart(chunks, config)
    && AddsText(chunks + [Chunk(start, |buffer|, buffer)], |chunks|, config)
  }

  /** Flushing a filled buffer that ends at a boundary. */
  lemma FlushCuts(chunks: seq<Chunk>, buffer: Text, start: nat, segments: seq<Text>, config: Configuration)
    requires Cut(chunks, buffer, start, segments, config)
    requires var c := Chunk(start, |buffer|, buffer);
      EndsAtBoundary(c, segments) && Filled(c, segments, config) && AtMostOneOver(chunks + [c], |chunks|, segments, config)
    ensures var all := chunks + [Chunk(start, |buffer|, buffer)];
      WellCut(all, segments, config) && AllFilled(all, segments, config, 0)
      && NextStart(all, config) == start + |buffer| - Min(config.overlap, |buffer|)
  {
    CutOnce(chunks, Chunk(start, |buffer|, buffer), segments, config);
  }

  /** Flushing the buffer behind the first `k` segments. */
  method FlushFilled(chunks: seq<Chunk>, buffer: Text, start: nat, config: Configuration, ghost segments: seq<Text>, ghost k: nat, ghost limit: nat)
    returns (chunks': seq<Chunk>, buffer': Text, start': nat)
    requires config.Clamped() && k <= |segments| && 0 < |buffer| <= limit
    requires Buffering(chunks, buffer, start, Concat(segments[..k]), limit) && Advanced(chunks, start, Concat(segments[..k]))
    requires Cut(chunks, buffer, start, segments, config)
    requires var c := Chunk(start, |buffer|, buffer); Filled(c, segments, config) && AtMostOneOver(chunks + [c], |chunks|, segments, config)
    ensures Buffering(chunks', buffer', start', Concat(segments[..k]), limit) && |buffer'| <= config.overlap
    ensures |buffer| > config.overlap ==> Advanced(chunks', start', Concat(segments[..k]))
    ensures WellCut(chunks', segments, config) && AllFilled(chunks', segments, config, 0) && start' == NextStart(chunks', config)
    ensures chunks' == chunks + [Chunk(start, |buffer|, buffer)] && start <= start'
    ensures End(chunks'[|chunks|]) == |Concat(segments[..k])|
  {
    assert Boundary(segments, k, End(Chunk(start, |buffer|, buffer)));
    FlushCuts(chunks, buffer, start, segments, config);
    chunks', buffer', start' := FlushBuffer(chunks, buffer, start, config, Concat(segments[..k]), limit);
  }

  lemma {:induction false} LastWithinCovered(chunks: seq<Chunk>)
    ensures chunks != [] ==> End(chunks[|chunks| - 1]) <= Covered(chunks)
  {
  }

  /** One round of the chunker's loop, on segment `i`. */
  method AddSegment(chunks: seq<Chunk>, buffer: Text, start: nat, offset: nat, segment: Text, config: Configuration,
                    ghost segments: seq<Text>, ghost i: nat, ghost limit: nat)
    returns (chunks': seq<Chunk>, buffer': Text, start': nat)
    requires config.Clamped() && config.target <= limit && config.overlap + |segment| <= limit
    requires i < |segments| && segment == segments[i]
    requires Buffering(chunks, buffer, start, Concat(segments[..i]), limit) && Advanced(chunks, start, Concat(segments[..i]))
    requires |buffer| < config.target && offset == |Concat(segments[..i])|
    requires Cut(chunks, buffer, start, segments, config)
    ensures Buffering(chunks', buffer', start', Concat(segments[..i + 1]), limit) && |buffer'| < config.target
    ensures Advanced(chunks', start', Concat(segments[..i + 1]))
    ensures Cut(chunks', buffer', start', segments, config)
  {
    chunks', buffer', start' := TakeSegment(chunks, buffer, start, offset, segment, config, segments, i, limit);
    if |buffer'| >= config.target {
      chunks', buffer', start' := FlushFilled(chunks', buffer', start', config, segments, i + 1, limit);
    }
  }

  /** Append the segment, flushing first if it would not fit. */
  method TakeSegment(chunks: seq<Chunk>, buffer: Text, start: nat, offset: nat, segment: Text, config: Configuration,
                     ghost segments: seq<Text>, ghost i: nat, ghost limit: nat)
    returns (chunks': seq<Chunk>, buffer': Text, start': nat)
    requires config.Clamped() && config.target <= limit && config.overlap + |segment| <= limit
    requires i < |segments| && segment == segments[i]
    requires Buffering(chunks, buffer, start, Concat(segments[..i]), limit) && Advanced(chunks, start, Concat(segments[..i]))
    requires |buffer| < config.target && offset == |Concat(segments[..i])|
    requires Cut(chunks, buffer, start, segments, config)
    ensures Buffering(chunks', buffer', start', Concat(segments[..i + 1]), limit)
    ensures Advanced(chunks', start', Concat(segments[..i + 1])) && |buffer'| <= limit
    ensures Cut(chunks', buffer', start', segments, config)
    ensures AtMostOneOver(chunks' + [Chunk(start', |buffer'|, buffer')], |chunks'|, segments, config)
  {
    chunks', buffer', start' := chunks, buffer, start;
    if buffer' == [] { start' := offset; }
    if |buffer'| + |segment| <= config.target || buffer' == [] {
      GrownBuffer(chunks', buffer', start', config, segments, i, limit);
      buffer' := buffer' + segment;
    } else {
      assert Boundary(segments, i, End(Chunk(start', |buffer'|, buffer')));
      chunks', buffer', start' := FlushFilled(chunks', buffer', start', config, segments, i, limit);
      if buffer' == [] { start' := offset; }
      KeptBuffer(chunks', buffer', start', config, segments, i, limit);
      buffer' := buffer' + segment;
    }
  }

  /** Appending a segment that fits, or the first one. */
  lemma GrownBuffer(chunks: seq<Chunk>, buffer: Text, start: nat, config: Configuration, segments: seq<Text>, i: nat, limit: nat)
    requires config.Clamped() && i < |segments| && (|buffer| + |segments[i]| <= config.target || buffer == [])
    requires Buffering(chunks, buffer, start, Concat(segments[..i]), limit) && Advanced(chunks, start, Concat(segments[..i]))
    requires Cut(chunks, buffer, start, segments, config)
    ensures var buffer' := buffer + segments[i];
      && Buffering(chunks, buffer', start, Concat(segments[..i + 1]), limit) && Advanced(chunks, start, Concat(segments[..i + 1]))
      && Cut(chunks, buffer', start, segments, config)
      && AtMostOneOver(chunks + [Chunk(start, |buffer'|, buffer')], |chunks|, segments, config)
  {
    ConcatNext(segments, i);
    LastWithinCovered(chunks);
    AppendBuffers(chunks, buffer, start, Concat(segments[..i]), segments[i], limit);
    if buffer == [] { OnlySegment(chunks, Chunk(start, |segments[i]|, [] + segments[i]), segments, i, config); }
  }

  /** Appending a segment behind what a flush below the target left. */
  lemma KeptBuffer(chunks: seq<Chunk>, buffer: Text, start: nat, config: Configuration, segments: seq<Text>, i: nat, limit: nat)
    requires config.Clamped() && i < |segments| && segments[i] != []
    requires Buffering(chunks, buffer, start, Concat(segments[..i]), limit)
    requires chunks != [] && chunks[|chunks| - 1].length < config.target && End(chunks[|chunks| - 1]) == |Concat(segments[..i])|
    requires chunks[|chunks| - 1].start <= start
    requires WellCut(chunks, segments, config) && AllFilled(chunks, segments, config, 0) && start == NextStart(chunks, config)
    ensures var buffer' := buffer + segments[i];
      && Buffering(chunks, buffer', start, Concat(segments[..i + 1]), limit) && Advanced(chunks, start, Concat(segments[..i + 1]))
      && Cut(chunks, buffer', start, segments, config)
      && AtMostOneOver(chunks + [Chunk(start, |buffer'|, buffer')], |chunks|, segments, config)
  {
    ConcatNext(segments, i);
    AppendBuffers(chunks, buffer, start, Concat(segments[..i]), segments[i], limit);
    OnlySegment(chunks, Chunk(start, |buffer + segments[i]|, buffer + segments[i]), segments, i, config);
  }

  lemma OnlySegment(chunks: seq<Chunk>, c: Chunk, segments: seq<Text>, i: nat, config: Configuration)
    requires i < |segments| && End(c) == |Concat(segments[..i + 1])|
    requires c.start == |Concat(segments[..i])|
      || (chunks != [] && chunks[|chunks| - 1].length < config.target && End(chunks[|chunks| - 1]) == |Concat(segments[..i])|)
    ensures AtMostOneOver(chunks + [c], |chunks|, segments, config)
  {
    assert LastSegment(chunks + [c], |chunks|, segments, i, config);
  }

  /** What is left in the buffer becomes the last chunk. */
  method EmitRest(chunks: seq<Chunk>, buffer: Text, start: nat, ghost segments: seq<Text>, config: Configuration, ghost limit: nat)
    returns (chunks': seq<Chunk>)
    requires Buffering(chunks, buffer, start, Concat(segments), limit) && Advanced(chunks, start, Concat(segments)) && |buffer| <= limit
    requires Cut(chunks, buffer, start, segments, config) && |buffer| < config.target
    ensures Describes(chunks', Concat(segments), limit) && Reassemble(chunks') == Concat(segments)
    ensures chunks' == [] <==> Concat(segments) == []
    ensures Determined(chunks', segments, config)
  {
    if buffer == [] {
      NothingBuffered(chunks, start, Concat(segments), limit);
      NoRestCuts(chunks, start, segments, config);
      return chunks;
    }
    BufferDescribes(chunks, buffer, start, Concat(segments), limit);
    chunks' := chunks + [Chunk(start, |buffer|, buffer)];
    RestCuts(chunks, buffer, start, segments, config);
  }

  lemma RestCuts(chunks: seq<Chunk>, buffer: Text, start: nat, segments: seq<Text>, config: Configuration)
    requires Cut(chunks, buffer, start, segments, config) && |buffer| < config.target && start + |buffer| == |Concat(segments)|
    ensures Determined(chunks + [Chunk(start, |buffer|, buffer)], segments, config)
  {
    assert segments[..|segments|] == segments;
    assert Boundary(segments, |segments|, End(Chunk(start, |buffer|, buffer)));
    CutOnce(chunks, Chunk(start, |buffer|, buffer), segments, config);
  }

  lemma NoRestCuts(chunks: seq<Chunk>, start: nat, segments: seq<Text>, config: Configuration)
    requires Cut(chunks, [], start, segments, config) && start == |Concat(segments)| && Covered(chunks) <= start
    requires forall i :: 0 <= i < |chunks| ==> chunks[i].length > 0
    ensures Determined(chunks, segments, config)
  {
    LastWithinCovered(chunks);
  }

  lemma ConcatNext(segments: seq<Text>, i: nat)
    requires i < |segments|
    ensures Concat(segments[..i + 1]) == Concat(segments[..i]) + segments[i]
  {
    assert segments[..i + 1][..i] == segments[..i];
  }

  /** For any segments: every chunk is the slice of the whole text at its offset
      and length; the chunks come in strictly increasing (start, length) order
      and leave no gap; dropping the overlaps and joining them gives back the
      whole text; none is longer than the target or than the overlap with the
      longest segment; and there is no chunk exactly when there is no text.
      Every chunk ends where a segment ends and starts the overlap, or the whole
      previous chunk if that is shorter, before the previous end.  All but the last
      are filled: they reach the target, or the next segment would have taken them
      past it.  Past the target a chunk has one segment, alone or behind what a
      chunk below the target left.  A chunk adds text unless the one before reached
      the target.  The last ends with the text; with an overlap it is below the
      target. */
  method Split(segments: seq<Text>, config: Configuration, ghost longest: nat) returns (chunks: seq<Chunk>)
    requires config.Clamped() && Longest(longest, segments)
    ensures Describes(chunks, Concat(segments), Max(config.target, config.overlap + longest))
    ensures Reassemble(chunks) == Concat(segments)
    ensures chunks == [] <==> Concat(segments) == []
    ensures Determined(chunks, segments, config)
  {
    ghost var limit := Max(config.target, config.overlap + longest);
    chunks := [];
    var buffer: Text := [];
    var start: nat := 0;
    var offset: nat := 0;
    for i := 0 to |segments|
      invariant Buffering(chunks, buffer, start, Concat(segments[..i]), limit)
      invariant Advanced(chunks, start, Concat(segments[..i]))
      invariant |buffer| < config.target && offset == |Concat(segments[..i])|
      invariant Cut(chunks, buffer, start, segments, config)
    {
      ConcatNext(segments, i);
      chunks, buffer, start := AddSegment(chunks, buffer, start, offset, segments[i], config, segments, i, limit);
      offset := offset + |segments[i]|;
    }
    assert segments[..|segments|] == segments;
    chunks := EmitRest(chunks, buffer, start, segments, config, limit);
  }

  // ------------------------------------------------------------- uniqueness

  lemma {:induction false} ConcatGrows(segments: seq<Text>, j: nat, k: nat)
    requires j <= k <= |segments|
    ensures |Concat(segments[..j])| <= |Concat(segments[..k])|
  {
    if j < k {
      ConcatNext(segments, k - 1);
      ConcatGrows(segments, j, k - 1);
    }
  }

  /** A chunk that ends before another with the same start and the same chunks in
      front leaves room it had to fill. */
  lemma NeitherEndsFirst(a: seq<Chunk>, b: seq<Chunk>, i: nat, segments: seq<Text>, config: Configuration)
    requires config.Clamped() && i < |a| && i < |b| && a[..i] == b[..i] && a[i].start == b[i].start && a[i].length > 0
    requires CutAt(a, i, segments, config) && CutAt(b, i, segments, config) && Filled(a[i], segments, config)
    ensures End(b[i]) <= End(a[i])
  {
    assert i > 0 ==> a[..i][i - 1] == b[..i][i - 1];
    if End(a[i]) < End(b[i]) {
      var x: nat :| Boundary(segments, x, End(a[i]));
      var y: nat :| Boundary(segments, y, End(b[i]));
      if a[i].length < config.target {
        var k: nat :| k < |segments| && Boundary(segments, k, End(a[i])) && a[i].length + |segments[k]| > config.target;
        ConcatNext(segments, k);
        if y <= k { ConcatGrows(segments, y, k); } else { ConcatGrows(segments, k + 1, y); }
      }
      var k: nat :| k < |segments| && LastSegment(b, i, segments, k, config);
      if x <= k { ConcatGrows(segments, x, k); } else { ConcatGrows(segments, k + 1, x); }
    }
  }

  /** Non-empty slices of the text. */
  ghost predicate Slices(chunks: seq<Chunk>, text: Text) {
    forall i :: 0 <= i < |chunks| ==> SliceOf(chunks[i], text) && 0 < chunks[i].length
  }

  /** Behind a chunk that ends with the text and closes one split, the other has no
      more. */
  lemma NoneAfterLast(a: seq<Chunk>, b: seq<Chunk>, segments: seq<Text>, config: Configuration)
    requires a != [] && Determined(a, segments, config) && Determined(b, segments, config) && Slices(b, Concat(segments))
    requires |a| <= |b| && a == b[..|a|]
    ensures |a| == |b|
  {
    var n := |a| - 1;
    if |a| < |b| {
      assert a[n] == b[n] && StartsAfter(b, n + 1, config);
      assert SliceOf(b[n + 1], Concat(segments)) && 0 < b[n + 1].length;
      if config.overlap > 0 { NothingLeftToFit(b[n], segments, config); }
    }
  }

  lemma NothingLeftToFit(c: Chunk, segments: seq<Text>, config: Configuration)
    requires End(c) == |Concat(segments)| && Filled(c, segments, config)
    ensures c.length >= config.target
  {
    if c.length < config.target {
      var k: nat :| k < |segments| && Boundary(segments, k, End(c)) && c.length + |segments[k]| > config.target;
      assert segments[..|segments|] == segments;
      ConcatNext(segments, k);
      ConcatGrows(segments, k + 1, |segments|);
    }
  }

  /** What is fixed about one chunk. */
  ghost predicate FixedAt(a: seq<Chunk>, n: nat, segments: seq<Text>, config: Configuration)
    requires n < |a|
  {
    && StartsAfter(a, n, config) && CutAt(a, n, segments, config)
    && SliceOf(a[n], Concat(segments)) && 0 < a[n].length
    && (Filled(a[n], segments, config) || End(a[n]) == |Concat(segments)|)
  }

  lemma DeterminedAt(a: seq<Chunk>, n: nat, segments: seq<Text>, config: Configuration)
    requires Determined(a, segments, config) && Slices(a, Concat(segments)) && n < |a|
    ensures FixedAt(a, n, segments, config)
  {
    assert StartsAfter(a, n, config) && CutAt(a, n, segments, config);
    assert SliceOf(a[n], Concat(segments)) && 0 < a[n].length;
  }

  lemma SameNext(a: seq<Chunk>, b: seq<Chunk>, n: nat, segments: seq<Text>, config: Configuration)
    requires config.Clamped() && n < |a| && n < |b| && a[..n] == b[..n]
    requires FixedAt(a, n, segments, config) && FixedAt(b, n, segments, config)
    ensures a[n] == b[n]
  {
    if Filled(a[n], segments, config) { NeitherEndsFirst(a, b, n, segments, config); }
    if Filled(b[n], segments, config) { NeitherEndsFirst(b, a, n, segments, config); }
  }

  lemma {:induction false} FirstDifference<T>(a: seq<T>, b: seq<T>) returns (n: nat)
    ensures n <= |a| && n <= |b| && a[..n] == b[..n]
    ensures n == |a| || n == |b| || a[n] != b[n]
  {
    if a == [] || b == [] || a[0] != b[0] { return 0; }
    var m := FirstDifference(a[1..], b[1..]);
    n := m + 1;
    assert a[..n] == [a[0]] + a[1..][..m] && b[..n] == [b[0]] + b[1..][..m];
  }

  /** What `Split` promises leaves no choice: for the same segments and the same
      configuration there is only one such list of chunks. */
  lemma SplitIsDetermined(a: seq<Chunk>, b: seq<Chunk>, segments: seq<Text>, config: Configuration, limit: nat)
    requires config.Clamped() && Determined(a, segments, config) && Determined(b, segments, config)
    requires Describes(a, Concat(segments), limit) && (a == [] <==> Concat(segments) == [])
    requires Describes(b, Concat(segments), limit) && (b == [] <==> Concat(segments) == [])
    ensures a == b
  {
    assert Slices(a, Concat(segments)) && Slices(b, Concat(segments));
    var n := FirstDifference(a, b);
    assert a[..|a|] == a && b[..|b|] == b;
    if n < |a| && n < |b| {
      DeterminedAt(a, n, segments, config);
      DeterminedAt(b, n, segments, config);
      SameNext(a, b, n, segments, config);
    } else if a != [] && n == |a| {
      NoneAfterLast(a, b, segments, config);
    } else if b != [] {
      NoneAfterLast(b, a, segments, config);
    }
  }
}
