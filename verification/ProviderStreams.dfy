/** The functions that write and read whole provider blobs, call by call. */
module ProviderStreams {
  import opened Ordering
  import opened BasisCodec
  import opened BasisStreams
  import opened ProviderBlobs
  import opened BlobLayouts

  // ---------------------------------------------------------------- writing

  method Open(magic: Bytes, modelId: Bytes, modelVersion: Bytes) returns (w: BasisWriter)
    ensures fresh(w) && w.bytes == Opening(magic, modelId, modelVersion)
  {
    w := new BasisWriter();
    w.WriteMagic(magic);
    w.WriteByte(FORMAT_VERSION);
    w.WriteString(modelId);
    w.WriteString(modelVersion);
  }

  method WriteVectors(magic: Bytes, b: VectorBasis) returns (blob: Bytes)
    ensures blob == VectorBlob(magic).encode(b)
  {
    var w := Open(magic, b.modelId, b.modelVersion);
    w.WriteU64(b.seed);
    w.WriteVectorMap(b.vectors);
    VectorBlobLayout(magic, b);
    blob := w.bytes;
  }

  method WritePpmiCounts(b: PpmiCounts) returns (blob: Bytes)
    ensures blob == PpmiCountsBlob().encode(b)
  {
    var w := Open(PPMI_COUNTS_MAGIC, b.modelId, b.modelVersion);
    w.WriteU64(b.seed);
    w.WriteU64(b.totalPairs);
    w.WriteU64(b.totalTerms);
    w.WriteU32Map(b.termCount);
    w.WriteNestedMap(b.coCount);
    PpmiCountsLayout(b);
    blob := w.bytes;
  }

  method WriteNmfCounts(b: NmfCounts) returns (blob: Bytes)
    ensures blob == NmfCountsBlob().encode(b)
  {
    var w := Open(NMF_COUNTS_MAGIC, b.modelId, b.modelVersion);
    w.WriteU64(b.seed);
    w.WriteU32(b.documentCount);
    w.WriteU32Map(b.vocab);
    NmfCountsLayout(b);
    blob := w.bytes;
  }

  method WriteNmfBasis(b: NmfBasis) returns (blob: Bytes)
    ensures blob == NmfBasisBlob().encode(b)
  {
    var w := Open(NMF_BASIS_MAGIC, b.modelId, b.modelVersion);
    WriteNmfNumbers(w, b);
    w.WriteU32Map(b.vocab);
    w.WriteF32Matrix(b.w);
    w.WriteF32Matrix(b.h);
    NmfBasisLayout(b);
    blob := w.bytes;
  }

  method WriteNmfNumbers(w: BasisWriter, b: NmfBasis)
    modifies w
    ensures w.bytes == old(w.bytes) + NmfNumberBytes(b)
  {
    ghost var front := w.bytes;
    w.WriteU32(b.rank);
    w.WriteU32(b.maxIterations);
    w.WriteU64(b.seed);
    w.WriteU64(b.projectionSeed);
    w.WriteU32(b.documentCount);
    w.WriteU32(b.effectiveRank);
    SixFields(front, U32().encode(b.rank), U32().encode(b.maxIterations), U64().encode(b.seed),
              U64().encode(b.projectionSeed), U32().encode(b.documentCount), U32().encode(b.effectiveRank));
  }

  lemma SixFields(front: Bytes, a: Bytes, b: Bytes, c: Bytes, d: Bytes, e: Bytes, f: Bytes)
    ensures front + a + b + c + d + e + f == front + (a + b + c + d + e + f)
  {
    Regroup(front, a, b);
    Regroup(front, a + b, c);
    Regroup(front, a + b + c, d);
    Regroup(front, a + b + c + d, e);
    Regroup(front, a + b + c + d + e, f);
  }

  // ---------------------------------------------------------------- reading

  /** A whole blob was read as its format says: the value, or the same error. */
  ghost predicate Reads<T>(p: Parsed<T>, r: Result<T>) {
    match p
    case Ok(v, _) => r == Success(v)
    case Err(e) => r == Failure(e)
  }

  method ReadOpening(r: BasisReader, magic: Bytes) returns (o: Result<(Bytes, Bytes)>)
    requires r.Valid()
    modifies r
    ensures r.Valid() && Agrees(DecodeOpening(magic, old(r.Unread())), o, r.Unread())
  {
    var m :- r.ExpectMagic(magic);
    var v :- r.ExpectVersion();
    var id :- r.ReadString();
    var version :- r.ReadString();
    return Success((id, version));
  }

  /** `from_serialized_basis` and `restore_counts` of Random Indexing, and the
      PPMI basis. */
  method ReadVectors(magic: Bytes, blob: Bytes) returns (b: Result<VectorBasis>)
    ensures Reads(VectorBlob(magic).decode(blob), b)
  {
    FramedAsDecodes(magic, VectorPayload(),
                    (i, v, t: (nat, map<Bytes, seq<nat>>)) => VectorBasis(i, v, t.0, t.1),
                    (b: VectorBasis) => b.modelId, (b: VectorBasis) => b.modelVersion,
                    (b: VectorBasis) => (b.seed, b.vectors), blob);
    var r := new BasisReader(blob);
    var o :- ReadOpening(r, magic);
    var t :- ReadVectorFields(r);
    return Success(VectorBasis(o.0, o.1, t.0, t.1));
  }

  method ReadVectorFields(r: BasisReader) returns (t: Result<(nat, map<Bytes, seq<nat>>)>)
    requires r.Valid()
    modifies r
    ensures r.Valid() && Agrees(VectorPayload().decode(old(r.Unread())), t, r.Unread())
  {
    var seed :- r.ReadU64();
    var vectors :- r.ReadVectorMap();
    return Success((seed, vectors));
  }

  method ReadPpmiCounts(blob: Bytes) returns (b: Result<PpmiCounts>)
    ensures Reads(PpmiCountsBlob().decode(blob), b)
  {
    FramedAsDecodes(PPMI_COUNTS_MAGIC, PpmiPayload(),
                    (i, v, t: PpmiFields) => PpmiCounts(i, v, t.0, t.1.0, t.1.1.0, t.1.1.1.0, t.1.1.1.1),
                    (b: PpmiCounts) => b.modelId, (b: PpmiCounts) => b.modelVersion,
                    (b: PpmiCounts) => (b.seed, (b.totalPairs, (b.totalTerms, (b.termCount, b.coCount)))), blob);
    var r := new BasisReader(blob);
    var o :- ReadOpening(r, PPMI_COUNTS_MAGIC);
    var t :- ReadPpmiFields(r);
    return Success(PpmiCounts(o.0, o.1, t.0, t.1.0, t.1.1.0, t.1.1.1.0, t.1.1.1.1));
  }

  method ReadPpmiFields(r: BasisReader) returns (t: Result<PpmiFields>)
    requires r.Valid()
    modifies r
    ensures r.Valid() && Agrees(PpmiPayload().decode(old(r.Unread())), t, r.Unread())
  {
    var seed :- r.ReadU64();
    var pairs :- r.ReadU64();
    var terms :- r.ReadU64();
    var tables :- ReadPpmiTables(r);
    return Success((seed, (pairs, (terms, tables))));
  }

  method ReadPpmiTables(r: BasisReader) returns (t: Result<(map<Bytes, nat>, map<Bytes, map<Bytes, nat>>)>)
    requires r.Valid()
    modifies r
    ensures r.Valid() && Agrees(Pair(SortedMap(U32()), CoCountMap()).decode(old(r.Unread())), t, r.Unread())
  {
    var counts :- r.ReadU32Map();
    var nested :- r.ReadNestedMap();
    return Success((counts, nested));
  }

  method ReadNmfCounts(blob: Bytes) returns (b: Result<NmfCounts>)
    ensures Reads(NmfCountsBlob().decode(blob), b)
  {
    FramedAsDecodes(NMF_COUNTS_MAGIC, NmfCountsPayload(),
                    (i, v, t: (nat, (nat, map<Bytes, nat>))) => NmfCounts(i, v, t.0, t.1.0, t.1.1),
                    (b: NmfCounts) => b.modelId, (b: NmfCounts) => b.modelVersion,
                    (b: NmfCounts) => (b.seed, (b.documentCount, b.vocab)), blob);
    var r := new BasisReader(blob);
    var o :- ReadOpening(r, NMF_COUNTS_MAGIC);
    var t :- ReadNmfCountsFields(r);
    return Success(NmfCounts(o.0, o.1, t.0, t.1.0, t.1.1));
  }

  method ReadNmfCountsFields(r: BasisReader) returns (t: Result<(nat, (nat, map<Bytes, nat>))>)
    requires r.Valid()
    modifies r
    ensures r.Valid() && Agrees(NmfCountsPayload().decode(old(r.Unread())), t, r.Unread())
  {
    var seed :- r.ReadU64();
    var documents :- r.ReadU32();
    var vocab :- r.ReadU32Map();
    return Success((seed, (documents, vocab)));
  }

  method ReadNmfBasis(blob: Bytes) returns (b: Result<NmfBasis>)
    ensures Reads(NmfBasisBlob().decode(blob), b)
  {
    FramedAsDecodes(NMF_BASIS_MAGIC, Pair(NmfNumbersCodec(), NmfFactorsCodec()),
                    (i, v, t: (NmfNumbers, NmfFactors)) =>
                      NmfBasis(i, v, t.0.0, t.0.1.0, t.0.1.1.0, t.0.1.1.1.0, t.0.1.1.1.1.0, t.0.1.1.1.1.1, t.1.0, t.1.1.0, t.1.1.1),
                    (b: NmfBasis) => b.modelId, (b: NmfBasis) => b.modelVersion, NmfFields, blob);
    var r := new BasisReader(blob);
    var o :- ReadOpening(r, NMF_BASIS_MAGIC);
    var t :- ReadNmfFields(r);
    return Success(NmfBasis(o.0, o.1, t.0.0, t.0.1.0, t.0.1.1.0, t.0.1.1.1.0, t.0.1.1.1.1.0, t.0.1.1.1.1.1, t.1.0, t.1.1.0, t.1.1.1));
  }

  method ReadNmfFields(r: BasisReader) returns (t: Result<(NmfNumbers, NmfFactors)>)
    requires r.Valid()
    modifies r
    ensures r.Valid() && Agrees(Pair(NmfNumbersCodec(), NmfFactorsCodec()).decode(old(r.Unread())), t, r.Unread())
  {
    var numbers :- ReadNmfNumbers(r);
    var factors :- ReadNmfFactors(r);
    return Success((numbers, factors));
  }

  method ReadNmfNumbers(r: BasisReader) returns (t: Result<NmfNumbers>)
    requires r.Valid()
    modifies r
    ensures r.Valid() && Agrees(NmfNumbersCodec().decode(old(r.Unread())), t, r.Unread())
  {
    var rank :- r.ReadU32();
    var iterations :- r.ReadU32();
    var seed :- r.ReadU64();
    var projection :- r.ReadU64();
    var counts :- ReadTwo(r);
    return Success((rank, (iterations, (seed, (projection, counts)))));
  }

  method ReadTwo(r: BasisReader) returns (t: Result<(nat, nat)>)
    requires r.Valid()
    modifies r
    ensures r.Valid() && Agrees(Pair(U32(), U32()).decode(old(r.Unread())), t, r.Unread())
  {
    var documents :- r.ReadU32();
    var rank :- r.ReadU32();
    return Success((documents, rank));
  }

  method ReadNmfFactors(r: BasisReader) returns (t: Result<NmfFactors>)
    requires r.Valid()
    modifies r
    ensures r.Valid() && Agrees(NmfFactorsCodec().decode(old(r.Unread())), t, r.Unread())
  {
    var vocab :- r.ReadU32Map();
    var w :- r.ReadF32Matrix();
    var h :- r.ReadF32Matrix();
    return Success((vocab, (w, h)));
  }
}
