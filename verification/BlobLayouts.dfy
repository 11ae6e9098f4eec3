/** Where each byte of a blob goes, and the functions that write and read whole
    blobs, call by call. */
module BlobLayouts {
  import opened Ordering
  import opened BasisCodec
  import opened BasisStreams
  import opened ProviderBlobs

  // ------------------------------------------------------------ the bytes

  /** Four bytes at this offset hold the number, low byte first. */
  predicate U32At(s: Bytes, at: nat, n: nat) {
    && at + 4 <= |s|
    && s[at] == n % 256 && s[at + 1] == n / 256 % 256 && s[at + 2] == n / 65536 % 256 && s[at + 3] == n / 16777216 % 256
  }

  lemma {:induction false} LeBytes(k: nat, n: nat, i: nat)
    requires i < k
    ensures EncodeLe(k, n)[i] == n / Pow256(i) % 256
  {
    if i > 0 {
      LeBytes(k - 1, n / 256, i - 1);
      DivTwice(n, Pow256(i - 1));
      assert EncodeLe(k, n)[i] == EncodeLe(k - 1, n / 256)[i - 1];
    }
  }

  lemma DivTwice(n: nat, m: nat)
    requires m > 0
    ensures n / 256 / m == n / (256 * m)
  {
    var q := n / 256 / m;
    var r := n / 256 % m;
    assert n / 256 == m * q + r;
    var low := n % 256;
    assert n == 256 * (m * q + r) + low == (256 * m) * q + (256 * r + low);
    assert 256 * r + low < 256 * m;
    DivUnique(n, 256 * m, q, 256 * r + low);
  }

  lemma DivUnique(x: nat, m: nat, q: nat, r: nat)
    requires m > 0 && x == m * q + r && r < m
    ensures x / m == q
  {
    var d := x / m - q;
    assert m * d == m * (x / m) - m * q == r - x % m;
    if d > 0 { AtLeast(m, d); } else if d < 0 { AtLeast(m, -d); }
  }

  lemma AtLeast(m: nat, d: nat)
    requires d > 0
    ensures m * d >= m
  {
  }

  /** A 32-bit field, byte by byte; larger numbers are cut. */
  lemma U32Layout(n: nat)
    ensures |U32().encode(n)| == 4 && U32At(U32().encode(n), 0, n)
  {
    LeBytes(4, n, 0);
    LeBytes(4, n, 1);
    LeBytes(4, n, 2);
    LeBytes(4, n, 3);
    assert Pow256(0) == 1 && Pow256(1) == 256 && Pow256(2) == 65536 && Pow256(3) == 16777216;
  }

  /** A 64-bit field: its low half, then its high half. */
  lemma U64Layout(n: nat)
    ensures var s := U64().encode(n); |s| == 8 && U32At(s, 0, n) && U32At(s, 4, n / 0x1_0000_0000)
  {
    forall i | 0 <= i < 8 ensures EncodeLe(8, n)[i] == n / Pow256(i) % 256 { LeBytes(8, n, i); }
    var high := n / 0x1_0000_0000;
    assert Pow256(0) == 1 && Pow256(1) == 256 && Pow256(2) == 65536 && Pow256(3) == 16777216 && Pow256(4) == 0x1_0000_0000;
    assert Pow256(5) == 0x1_0000_0000 * 256 && Pow256(6) == 0x1_0000_0000 * 65536 && Pow256(7) == 0x1_0000_0000 * 16777216;
    assert EncodeLe(8, n)[5] == n / Pow256(5) % 256 && n / Pow256(5) == high / 256;
    assert EncodeLe(8, n)[6] == n / Pow256(6) % 256 && n / Pow256(6) == high / 65536;
    assert EncodeLe(8, n)[7] == n / Pow256(7) % 256 && n / Pow256(7) == high / 16777216;
  }

  /** A string: four bytes of length, then its bytes. */
  lemma StrLayout(t: Bytes)
    ensures var s := Str().encode(t); |s| == 4 + |t| && U32At(s, 0, |t|) && s[4..] == t
  {
    U32Layout(|t|);
  }

  /** The parts fill the bytes from this offset to the end, one after the other. */
  ghost predicate Consecutive(s: Bytes, from: nat, parts: seq<Bytes>, offsets: seq<nat>) {
    && |offsets| == |parts| + 1 && offsets[0] == from && offsets[|parts|] == |s|
    && (forall i :: 0 <= i < |parts| ==> PartAt(s, parts, offsets, i))
  }

  predicate PartAt(s: Bytes, parts: seq<Bytes>, offsets: seq<nat>, i: nat)
    requires i < |parts| && |offsets| == |parts| + 1
  {
    offsets[i] <= offsets[i + 1] <= |s| && s[offsets[i]..offsets[i + 1]] == parts[i]
  }

  /** A count, then the parts. */
  ghost predicate CountedLayout(s: Bytes, parts: seq<Bytes>) {
    U32At(s, 0, |parts|) && exists offsets :: Consecutive(s, 4, parts, offsets)
  }

  /** The encoding of each element. */
  function Parts<T>(encode: T -> Bytes, xs: seq<T>): (parts: seq<Bytes>)
    ensures |parts| == |xs| && forall i :: 0 <= i < |xs| ==> parts[i] == encode(xs[i])
  {
    seq(|xs|, i requires 0 <= i < |xs| => encode(xs[i]))
  }

  lemma {:induction false} PartsInOrder<T>(encode: T -> Bytes, xs: seq<T>, front: Bytes) returns (offsets: seq<nat>)
    ensures Consecutive(front + EncodeAll(encode, xs), |front|, Parts(encode, xs), offsets)
  {
    if xs == [] {
      offsets := [|front|];
      assert front + [] == front;
    } else {
      var rest := PartsInOrder(encode, xs[1..], front + encode(xs[0]));
      offsets := [|front|] + rest;
      var s := front + EncodeAll(encode, xs);
      assert front + encode(xs[0]) + EncodeAll(encode, xs[1..]) == s;
      forall i | 0 <= i < |xs| ensures PartAt(s, Parts(encode, xs), offsets, i) {
        if i > 0 { assert PartAt(s, Parts(encode, xs[1..]), rest, i - 1); }
      }
    }
  }

  /** A count, then every element of a counted sequence, in order. */
  lemma CountedParts<T>(c: Codec<T>, xs: seq<T>)
    ensures CountedLayout(Counted(c).encode(xs), Parts(c.encode, xs))
  {
    U32Layout(|xs|);
    var offsets := PartsInOrder(c.encode, xs, EncodeLe(4, |xs|));
  }

  lemma SliceBehind(x: Bytes, tail: Bytes, at: nat, n: nat)
    requires |x| <= at && at + n <= |x| + |tail|
    ensures (x + tail)[at..at + n] == tail[at - |x|..at - |x| + n]
  {
  }

  lemma {:induction false} ElementAt(a: seq<nat>, i: nat)
    requires i < |a|
    ensures var s := EncodeAll(U32().encode, a); |s| == 4 * |a| && s[4 * i..4 * i + 4] == U32().encode(a[i])
  {
    var first, tail := EncodeLe(4, a[0]), EncodeAll(U32().encode, a[1..]);
    assert EncodeAll(U32().encode, a) == first + tail;
    if i > 0 {
      ElementAt(a[1..], i - 1);
      SliceBehind(first, tail, 4 * i, 4);
    } else {
      if |a| > 1 { ElementAt(a[1..], 0); }
      assert (first + tail)[..4] == first;
    }
  }

  /** An array of floats: the count, then four bytes per element, in order. */
  lemma ArrayLayout(a: seq<nat>)
    ensures var s := F32Array().encode(a);
      |s| == 4 + 4 * |a| && U32At(s, 0, |a|) && forall i :: 0 <= i < |a| ==> U32At(s, 4 + 4 * i, a[i])
  {
    var s := F32Array().encode(a);
    U32Layout(|a|);
    if a != [] { ElementAt(a, 0); }
    forall i | 0 <= i < |a| ensures U32At(s, 4 + 4 * i, a[i]) {
      ElementAt(a, i);
      U32Layout(a[i]);
      var field := EncodeAll(U32().encode, a)[4 * i..4 * i + 4];
      assert forall j :: 0 <= j < 4 ==> s[4 + 4 * i + j] == field[j];
    }
  }

  /** A matrix: the count of its rows, then each row as an array. */
  lemma MatrixLayout(m: seq<seq<nat>>)
    ensures CountedLayout(F32Matrix().encode(m), Parts(F32Array().encode, m))
  {
    CountedParts(F32Array(), m);
  }

  /** Key and value of each entry. */
  function EntryParts<V>(encode: V -> Bytes, m: map<Bytes, V>, keys: seq<Bytes>): (parts: seq<Bytes>)
    requires forall k :: k in keys ==> k in m
    ensures |parts| == |keys| && forall i :: 0 <= i < |keys| ==> parts[i] == Str().encode(keys[i]) + encode(m[keys[i]])
  {
    seq(|keys|, i requires 0 <= i < |keys| => Str().encode(keys[i]) + encode(m[keys[i]]))
  }

  lemma SameParts<V>(c: Codec<V>, m: map<Bytes, V>, keys: seq<Bytes>)
    requires forall k :: k in keys ==> k in m
    ensures Parts(Pair(Str(), c).encode, EntriesAt(m, keys)) == EntryParts(c.encode, m, keys)
  {
    var es := EntriesAt(m, keys);
    forall i | 0 <= i < |keys| ensures Pair(Str(), c).encode(es[i]) == EntryParts(c.encode, m, keys)[i] { assert es[i] == (keys[i], m[keys[i]]); }
  }

  /** A map: the count of its entries, then key and value of each, by strictly
      ascending key bytes. */
  lemma MapLayout<V>(c: Codec<V>, m: map<Bytes, V>) returns (keys: seq<Bytes>)
    ensures Ascending(keys, BytesLess) && (forall k :: k in keys <==> k in m) && |keys| == |m|
    ensures CountedLayout(SortedMap(c).encode(m), EntryParts(c.encode, m, keys))
  {
    keys := SortedKeys(m);
    assert forall k :: k in keys <==> k in Elements(keys);
    SameParts(c, m, keys);
    EntriesLayout(c, m, keys);
  }

  lemma EntriesLayout<V>(c: Codec<V>, m: map<Bytes, V>, keys: seq<Bytes>)
    requires keys == SortedKeys(m) && forall k :: k in keys ==> k in m
    ensures CountedLayout(SortedMap(c).encode(m), Parts(Pair(Str(), c).encode, EntriesAt(m, keys)))
  {
    CountedParts(Pair(Str(), c), EntriesAt(m, keys));
    assert SortedMap(c).encode(m) == Counted(Pair(Str(), c)).encode(Entries(m));
  }

  // ------------------------------------------------------------- the blobs

  /** Magic, version 1, model id and model version open every blob. */
  function Opening(magic: Bytes, modelId: Bytes, modelVersion: Bytes): Bytes {
    magic + [1] + Str().encode(modelId) + Str().encode(modelVersion)
  }

  lemma FramedLayout<T, B>(magic: Bytes, payload: Codec<T>, decoded: (Bytes, Bytes, T) -> B,
                           modelId: B -> Bytes, modelVersion: B -> Bytes, fields: B -> T, b: B)
    ensures FramedAs(magic, payload, decoded, modelId, modelVersion, fields).encode(b)
         == Opening(magic, modelId(b), modelVersion(b)) + payload.encode(fields(b))
  {
    FramedAsEncodes(magic, payload, decoded, modelId, modelVersion, fields, b);
    Regroup(magic + [1], Str().encode(modelId(b)), Str().encode(modelVersion(b)) + payload.encode(fields(b)));
    Regroup(magic + [1] + Str().encode(modelId(b)), Str().encode(modelVersion(b)), payload.encode(fields(b)));
  }

  lemma VectorBlobLayout(magic: Bytes, b: VectorBasis)
    ensures VectorBlob(magic).encode(b)
         == Opening(magic, b.modelId, b.modelVersion) + U64().encode(b.seed) + SortedMap(F32Array()).encode(b.vectors)
  {
    FramedLayout(magic, VectorPayload(),
                 (i, v, t: (nat, map<Bytes, seq<nat>>)) => VectorBasis(i, v, t.0, t.1),
                 (b: VectorBasis) => b.modelId, (b: VectorBasis) => b.modelVersion,
                 (b: VectorBasis) => (b.seed, b.vectors), b);
    Regroup(Opening(magic, b.modelId, b.modelVersion), U64().encode(b.seed), SortedMap(F32Array()).encode(b.vectors));
  }

  lemma Regroup(a: Bytes, b: Bytes, c: Bytes)
    ensures a + (b + c) == a + b + c
  {
  }

  lemma PpmiCountsLayout(b: PpmiCounts)
    ensures PpmiCountsBlob().encode(b)
         == Opening([80, 80, 77, 67], b.modelId, b.modelVersion) + U64().encode(b.seed) + U64().encode(b.totalPairs)
            + U64().encode(b.totalTerms) + SortedMap(U32()).encode(b.termCount) + SortedMap(SortedMap(U32())).encode(b.coCount)
  {
    FramedLayout(PPMI_COUNTS_MAGIC, PpmiPayload(),
                 (i, v, t: PpmiFields) => PpmiCounts(i, v, t.0, t.1.0, t.1.1.0, t.1.1.1.0, t.1.1.1.1),
                 (b: PpmiCounts) => b.modelId, (b: PpmiCounts) => b.modelVersion,
                 (b: PpmiCounts) => (b.seed, (b.totalPairs, (b.totalTerms, (b.termCount, b.coCount)))), b);
    Regroup5(Opening(PPMI_COUNTS_MAGIC, b.modelId, b.modelVersion), U64().encode(b.seed), U64().encode(b.totalPairs),
             U64().encode(b.totalTerms), SortedMap(U32()).encode(b.termCount), SortedMap(SortedMap(U32())).encode(b.coCount));
  }

  lemma Regroup5(a: Bytes, b: Bytes, c: Bytes, d: Bytes, e: Bytes, f: Bytes)
    ensures a + (b + (c + (d + (e + f)))) == a + b + c + d + e + f
  {
    Regroup(a, b, c + (d + (e + f)));
    Regroup(a + b, c, d + (e + f));
    Regroup(a + b + c, d, e + f);
    Regroup(a + b + c + d, e, f);
  }

  lemma NmfCountsLayout(b: NmfCounts)
    ensures NmfCountsBlob().encode(b)
         == Opening([78, 77, 70, 67], b.modelId, b.modelVersion) + U64().encode(b.seed) + U32().encode(b.documentCount)
            + SortedMap(U32()).encode(b.vocab)
  {
    FramedLayout(NMF_COUNTS_MAGIC, NmfCountsPayload(),
                 (i, v, t: (nat, (nat, map<Bytes, nat>))) => NmfCounts(i, v, t.0, t.1.0, t.1.1),
                 (b: NmfCounts) => b.modelId, (b: NmfCounts) => b.modelVersion,
                 (b: NmfCounts) => (b.seed, (b.documentCount, b.vocab)), b);
    var opening := Opening(NMF_COUNTS_MAGIC, b.modelId, b.modelVersion);
    Regroup(opening, U64().encode(b.seed), U32().encode(b.documentCount) + SortedMap(U32()).encode(b.vocab));
    Regroup(opening + U64().encode(b.seed), U32().encode(b.documentCount), SortedMap(U32()).encode(b.vocab));
  }

  /** The six numbers of the NMF basis, in their order. */
  function NmfNumberBytes(b: NmfBasis): Bytes {
    U32().encode(b.rank) + U32().encode(b.maxIterations) + U64().encode(b.seed) + U64().encode(b.projectionSeed)
    + U32().encode(b.documentCount) + U32().encode(b.effectiveRank)
  }

  lemma NmfBasisLayout(b: NmfBasis)
    ensures NmfBasisBlob().encode(b)
         == Opening([78, 77, 66, 49], b.modelId, b.modelVersion) + NmfNumberBytes(b)
            + SortedMap(U32()).encode(b.vocab) + F32Matrix().encode(b.w) + F32Matrix().encode(b.h)
  {
    FramedLayout(NMF_BASIS_MAGIC, Pair(NmfNumbersCodec(), NmfFactorsCodec()),
                 (i, v, t: (NmfNumbers, NmfFactors)) =>
                   NmfBasis(i, v, t.0.0, t.0.1.0, t.0.1.1.0, t.0.1.1.1.0, t.0.1.1.1.1.0, t.0.1.1.1.1.1, t.1.0, t.1.1.0, t.1.1.1),
                 (b: NmfBasis) => b.modelId, (b: NmfBasis) => b.modelVersion, NmfFields, b);
    NumbersLayout(b);
    FactorsLayout(b);
    var opening := Opening(NMF_BASIS_MAGIC, b.modelId, b.modelVersion);
    var vocab, w, h := SortedMap(U32()).encode(b.vocab), F32Matrix().encode(b.w), F32Matrix().encode(b.h);
    Regroup(opening, NmfNumberBytes(b), vocab + (w + h));
    Regroup(opening + NmfNumberBytes(b), vocab, w + h);
    Regroup(opening + NmfNumberBytes(b) + vocab, w, h);
  }

  lemma NumbersLayout(b: NmfBasis)
    ensures NmfNumbersCodec().encode(NmfFields(b).0) == NmfNumberBytes(b)
  {
    Regroup5(U32().encode(b.rank), U32().encode(b.maxIterations), U64().encode(b.seed), U64().encode(b.projectionSeed),
             U32().encode(b.documentCount), U32().encode(b.effectiveRank));
  }

  lemma FactorsLayout(b: NmfBasis)
    ensures NmfFactorsCodec().encode(NmfFields(b).1)
         == SortedMap(U32()).encode(b.vocab) + (F32Matrix().encode(b.w) + F32Matrix().encode(b.h))
  {
  }

  // ------------------------------------------------------------ rejections

  /** Which error a blob is refused with, by its first bytes: too short for the
      magic, another magic, nothing behind it, another version. */
  lemma HeaderRefusesExactly(magic: Bytes, s: Bytes)
    ensures var n, r := |magic|, Header(magic).decode(s);
      && (r == Err(MagicMismatch) <==> |s| >= n && s[..n] != magic)
      && (r == Err(UnsupportedVersion) <==> |s| > n && s[..n] == magic && s[n] != 1)
      && (r == Err(Truncated) <==> |s| < n || (|s| == n && s == magic))
      && (r.Ok? <==> |s| > n && s[..n] == magic && s[n] == 1)
      && (r.Ok? ==> r.rest == s[n + 1..])
  {
    if |s| == |magic| { assert s[..|magic|] == s; }
  }

  /** What opens a blob, read back. */
  function DecodeOpening(magic: Bytes, s: Bytes): Parsed<(Bytes, Bytes)> {
    match DecodeHeader(magic, s)
    case Err(e) => Err(e)
    case Ok(_, rest) => DecodePair(Str().decode, Str().decode, rest)
  }

  lemma FramedAsDecodes<T, B>(magic: Bytes, payload: Codec<T>, decoded: (Bytes, Bytes, T) -> B,
                              modelId: B -> Bytes, modelVersion: B -> Bytes, fields: B -> T, s: Bytes)
    ensures FramedAs(magic, payload, decoded, modelId, modelVersion, fields).decode(s) ==
      match DecodeOpening(magic, s)
      case Err(e) => Err(e)
      case Ok(o, rest) => Map(payload.decode(rest), t => decoded(o.0, o.1, t))
  {
    var framed := Framed(magic, payload).decode(s);
    assert FramedAs(magic, payload, decoded, modelId, modelVersion, fields).decode(s)
        == Map(framed, (t: (Bytes, (Bytes, (Bytes, T)))) => decoded(t.1.0, t.1.1.0, t.1.1.1));
  }

  /** A blob of another provider or of another version is refused as such, whatever
      follows. */
  lemma ForeignBlobRefused<T, B>(magic: Bytes, payload: Codec<T>, decoded: (Bytes, Bytes, T) -> B,
                                 modelId: B -> Bytes, modelVersion: B -> Bytes, fields: B -> T, s: Bytes)
    ensures var n, r := |magic|, FramedAs(magic, payload, decoded, modelId, modelVersion, fields).decode(s);
      && (|s| >= n && s[..n] != magic ==> r == Err(MagicMismatch))
      && (|s| > n && s[..n] == magic && s[n] != 1 ==> r == Err(UnsupportedVersion))
  {
    HeaderRefusesExactly(magic, s);
    FramedAsDecodes(magic, payload, decoded, modelId, modelVersion, fields, s);
    assert Header(magic).decode(s) == DecodeHeader(magic, s);
  }

  /** A string field is refused as malformed exactly when its bytes are all there
      and are not UTF-8, and as truncated exactly when they are not all there. */
  lemma StringRefusesExactly(s: Bytes)
    ensures var r := Str().decode(s);
      && (r == Err(Truncated) <==> |s| < 4 || |s| - 4 < DecodeLe(s[..4]))
      && (r == Err(InvalidUtf8) <==> 4 <= |s| && DecodeLe(s[..4]) <= |s| - 4 && !Utf8(s[4..][..DecodeLe(s[..4])]))
  {
  }
}
