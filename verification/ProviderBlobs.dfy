/** The blobs the providers persist, built from the codec primitives, with the
    serializers and deserializers that write and read them. */
module ProviderBlobs {
  import opened Ordering
  import opened BasisCodec
  import opened BasisStreams

  /** A finalized vector basis (Random Indexing and PPMI) or the Random Indexing
      counts: term to context vector, under a provider's magic. */
  datatype VectorBasis = VectorBasis(modelId: Bytes, modelVersion: Bytes, seed: nat, vectors: map<Bytes, seq<nat>>)

  datatype PpmiCounts = PpmiCounts(
    modelId: Bytes, modelVersion: Bytes, seed: nat, totalPairs: nat, totalTerms: nat,
    termCount: map<Bytes, nat>, coCount: map<Bytes, map<Bytes, nat>>)

  datatype NmfCounts = NmfCounts(modelId: Bytes, modelVersion: Bytes, seed: nat, documentCount: nat, vocab: map<Bytes, nat>)

  datatype NmfBasis = NmfBasis(
    modelId: Bytes, modelVersion: Bytes, rank: nat, maxIterations: nat, seed: nat, projectionSeed: nat,
    documentCount: nat, effectiveRank: nat, vocab: map<Bytes, nat>, w: seq<seq<nat>>, h: seq<seq<nat>>)

  const RI_BASIS_MAGIC: Bytes := [82, 73, 66, 49]
  const RI_COUNTS_MAGIC: Bytes := [82, 73, 67, 84]
  const PPMI_BASIS_MAGIC: Bytes := [80, 80, 66, 49]
  const PPMI_COUNTS_MAGIC: Bytes := [80, 80, 77, 67]
  const NMF_BASIS_MAGIC: Bytes := [78, 77, 66, 49]
  const NMF_COUNTS_MAGIC: Bytes := [78, 77, 70, 67]

  // -------------------------------------------------------------- formats

  /** Every blob opens with magic, version, model id and model version. */
  ghost function Framed<T>(magic: Bytes, payload: Codec<T>): Codec<(Bytes, (Bytes, (Bytes, T)))> {
    Pair(Header(magic), Pair(Str(), Pair(Str(), payload)))
  }

  lemma FramedLawful<T(!new)>(magic: Bytes, payload: Codec<T>)
    requires Lawful(payload)
    ensures Lawful(Framed(magic, payload))
  {
    HeaderLawful(magic);
    StrLawful();
    PairLawful(Str(), payload);
    PairLawful(Str(), Pair(Str(), payload));
    PairLawful(Header(magic), Pair(Str(), Pair(Str(), payload)));
  }

  ghost function FramedAs<T, B>(magic: Bytes, payload: Codec<T>, decoded: (Bytes, Bytes, T) -> B,
                                modelId: B -> Bytes, modelVersion: B -> Bytes, fields: B -> T): Codec<B> {
    var e := Framed(magic, payload);
    Via(e, (t: (Bytes, (Bytes, (Bytes, T)))) => decoded(t.1.0, t.1.1.0, t.1.1.1),
        (b: B) => (magic, (modelId(b), (modelVersion(b), fields(b)))),
        (b: B) => Str().fits(modelId(b)) && Str().fits(modelVersion(b)) && payload.fits(fields(b)))
  }

  lemma FramedAsEncodes<T, B>(magic: Bytes, payload: Codec<T>, decoded: (Bytes, Bytes, T) -> B,
                              modelId: B -> Bytes, modelVersion: B -> Bytes, fields: B -> T, b: B)
    ensures FramedAs(magic, payload, decoded, modelId, modelVersion, fields).encode(b)
         == Header(magic).encode(magic) + (Str().encode(modelId(b)) + (Str().encode(modelVersion(b)) + payload.encode(fields(b))))
  {
  }

  lemma FramedAsLawful<T(!new), B(!new)>(magic: Bytes, payload: Codec<T>, decoded: (Bytes, Bytes, T) -> B,
                                         modelId: B -> Bytes, modelVersion: B -> Bytes, fields: B -> T)
    requires Lawful(payload)
    requires forall b :: decoded(modelId(b), modelVersion(b), fields(b)) == b
    requires forall i, v, t ::
      modelId(decoded(i, v, t)) == i && modelVersion(decoded(i, v, t)) == v && fields(decoded(i, v, t)) == t
    ensures Lawful(FramedAs(magic, payload, decoded, modelId, modelVersion, fields))
  {
    FramedLawful(magic, payload);
    var unframe := (t: (Bytes, (Bytes, (Bytes, T)))) => decoded(t.1.0, t.1.1.0, t.1.1.1);
    var fits := (b: B) => Str().fits(modelId(b)) && Str().fits(modelVersion(b)) && payload.fits(fields(b));
    forall t | Framed(magic, payload).fits(t) ensures fits(unframe(t)) {
      assert unframe(t) == decoded(t.1.0, t.1.1.0, t.1.1.1);
      assert modelId(unframe(t)) == t.1.0 && modelVersion(unframe(t)) == t.1.1.0 && fields(unframe(t)) == t.1.1.1;
    }
    ViaLawful(Framed(magic, payload), unframe, (b: B) => (magic, (modelId(b), (modelVersion(b), fields(b)))), fits);
  }

  // ------------------------------------- Random Indexing and PPMI vectors

  ghost function VectorPayload(): Codec<(nat, map<Bytes, seq<nat>>)> {
    Pair(U64(), SortedMap(F32Array()))
  }

  ghost function VectorBlob(magic: Bytes): Codec<VectorBasis> {
    FramedAs(magic, VectorPayload(),
             (i, v, t: (nat, map<Bytes, seq<nat>>)) => VectorBasis(i, v, t.0, t.1),
             (b: VectorBasis) => b.modelId, (b: VectorBasis) => b.modelVersion,
             (b: VectorBasis) => (b.seed, b.vectors))
  }

  lemma F32Lawful()
    ensures Lawful(U32()) && Lawful(U64()) && Lawful(F32Array()) && Lawful(F32Matrix())
  {
    UIntLawful(4);
    UIntLawful(8);
    CountedLawful(U32());
    CountedLawful(F32Array());
  }

  /** The Random Indexing basis, the Random Indexing counts and the PPMI basis:
      each round-trips ahead of any further bytes, and every proper prefix is
      rejected as truncated. */
  lemma VectorBlobLawful(magic: Bytes)
    ensures Lawful(VectorBlob(magic))
  {
    F32Lawful();
    SortedMapLawful(F32Array());
    PairLawful(U64(), SortedMap(F32Array()));
    FramedAsLawful(magic, VectorPayload(),
                   (i, v, t: (nat, map<Bytes, seq<nat>>)) => VectorBasis(i, v, t.0, t.1),
                   (b: VectorBasis) => b.modelId, (b: VectorBasis) => b.modelVersion,
                   (b: VectorBasis) => (b.seed, b.vectors));
  }

  // ----------------------------------------------------------- PPMI counts

  ghost function CoCountMap(): Codec<map<Bytes, map<Bytes, nat>>> {
    SortedMap(SortedMap(U32()))
  }

  type PpmiFields = (nat, (nat, (nat, (map<Bytes, nat>, map<Bytes, map<Bytes, nat>>))))

  ghost function PpmiPayload(): Codec<PpmiFields> {
    Pair(U64(), Pair(U64(), Pair(U64(), Pair(SortedMap(U32()), CoCountMap()))))
  }

  ghost function PpmiCountsBlob(): Codec<PpmiCounts> {
    FramedAs(PPMI_COUNTS_MAGIC, PpmiPayload(),
             (i, v, t: PpmiFields) => PpmiCounts(i, v, t.0, t.1.0, t.1.1.0, t.1.1.1.0, t.1.1.1.1),
             (b: PpmiCounts) => b.modelId, (b: PpmiCounts) => b.modelVersion,
             (b: PpmiCounts) => (b.seed, (b.totalPairs, (b.totalTerms, (b.termCount, b.coCount)))))
  }

  lemma PpmiPayloadLawful()
    ensures Lawful(PpmiPayload())
  {
    F32Lawful();
    SortedMapLawful(U32());
    SortedMapLawful(SortedMap(U32()));
    PairLawful(SortedMap(U32()), CoCountMap());
    PairLawful(U64(), Pair(SortedMap(U32()), CoCountMap()));
    PairLawful(U64(), Pair(U64(), Pair(SortedMap(U32()), CoCountMap())));
    PairLawful(U64(), Pair(U64(), Pair(U64(), Pair(SortedMap(U32()), CoCountMap()))));
  }

  /** The PPMI counts, with their map of maps. */
  lemma PpmiCountsBlobLawful()
    ensures Lawful(PpmiCountsBlob())
  {
    PpmiPayloadLawful();
    FramedAsLawful(PPMI_COUNTS_MAGIC, PpmiPayload(),
                   (i, v, t: PpmiFields) => PpmiCounts(i, v, t.0, t.1.0, t.1.1.0, t.1.1.1.0, t.1.1.1.1),
                   (b: PpmiCounts) => b.modelId, (b: PpmiCounts) => b.modelVersion,
                   (b: PpmiCounts) => (b.seed, (b.totalPairs, (b.totalTerms, (b.termCount, b.coCount)))));
  }

  // ------------------------------------------------------------------- NMF

  ghost function NmfCountsPayload(): Codec<(nat, (nat, map<Bytes, nat>))> {
    Pair(U64(), Pair(U32(), SortedMap(U32())))
  }

  ghost function NmfCountsBlob(): Codec<NmfCounts> {
    FramedAs(NMF_COUNTS_MAGIC, NmfCountsPayload(),
             (i, v, t: (nat, (nat, map<Bytes, nat>))) => NmfCounts(i, v, t.0, t.1.0, t.1.1),
             (b: NmfCounts) => b.modelId, (b: NmfCounts) => b.modelVersion,
             (b: NmfCounts) => (b.seed, (b.documentCount, b.vocab)))
  }

  lemma NmfCountsBlobLawful()
    ensures Lawful(NmfCountsBlob())
  {
    F32Lawful();
    SortedMapLawful(U32());
    PairLawful(U32(), SortedMap(U32()));
    PairLawful(U64(), Pair(U32(), SortedMap(U32())));
    FramedAsLawful(NMF_COUNTS_MAGIC, NmfCountsPayload(),
                   (i, v, t: (nat, (nat, map<Bytes, nat>))) => NmfCounts(i, v, t.0, t.1.0, t.1.1),
                   (b: NmfCounts) => b.modelId, (b: NmfCounts) => b.modelVersion,
                   (b: NmfCounts) => (b.seed, (b.documentCount, b.vocab)));
  }

  type NmfNumbers = (nat, (nat, (nat, (nat, (nat, nat)))))
  type NmfFactors = (map<Bytes, nat>, (seq<seq<nat>>, seq<seq<nat>>))

  /** Rank, iterations, seeds, document count and effective rank. */
  function NmfNumbersCodec(): Codec<NmfNumbers> {
    Pair(U32(), NmfRest())
  }

  function NmfRest(): Codec<(nat, (nat, (nat, (nat, nat))))> {
    Pair(U32(), Pair(U64(), Pair(U64(), Pair(U32(), U32()))))
  }

  ghost function NmfFactorsCodec(): Codec<NmfFactors> {
    Pair(SortedMap(U32()), Pair(F32Matrix(), F32Matrix()))
  }

  ghost function NmfBasisBlob(): Codec<NmfBasis> {
    FramedAs(NMF_BASIS_MAGIC, Pair(NmfNumbersCodec(), NmfFactorsCodec()),
             (i, v, t: (NmfNumbers, NmfFactors)) =>
               NmfBasis(i, v, t.0.0, t.0.1.0, t.0.1.1.0, t.0.1.1.1.0, t.0.1.1.1.1.0, t.0.1.1.1.1.1, t.1.0, t.1.1.0, t.1.1.1),
             (b: NmfBasis) => b.modelId, (b: NmfBasis) => b.modelVersion, NmfFields)
  }

  function NmfFields(b: NmfBasis): (NmfNumbers, NmfFactors) {
    ((b.rank, (b.maxIterations, (b.seed, (b.projectionSeed, (b.documentCount, b.effectiveRank))))), (b.vocab, (b.w, b.h)))
  }

  /** The blob's bytes: the frame, then the rank, then everything else. */
  lemma NmfBasisEncodes(b: NmfBasis)
    ensures NmfBasisBlob().encode(b)
         == Header(NMF_BASIS_MAGIC).encode(NMF_BASIS_MAGIC) + (Str().encode(b.modelId) + (Str().encode(b.modelVersion)
            + (U32().encode(b.rank) + NmfRest().encode(NmfFields(b).0.1) + NmfFactorsCodec().encode(NmfFields(b).1))))
  {
    FramedAsEncodes(NMF_BASIS_MAGIC, Pair(NmfNumbersCodec(), NmfFactorsCodec()),
                    (i, v, t: (NmfNumbers, NmfFactors)) =>
                      NmfBasis(i, v, t.0.0, t.0.1.0, t.0.1.1.0, t.0.1.1.1.0, t.0.1.1.1.1.0, t.0.1.1.1.1.1, t.1.0, t.1.1.0, t.1.1.1),
                    (b: NmfBasis) => b.modelId, (b: NmfBasis) => b.modelVersion, NmfFields, b);
  }

  lemma NmfPayloadLawful()
    ensures Lawful(Pair(NmfNumbersCodec(), NmfFactorsCodec()))
  {
    F32Lawful();
    PairLawful(U32(), U32());
    PairLawful(U64(), Pair(U32(), U32()));
    PairLawful(U64(), Pair(U64(), Pair(U32(), U32())));
    PairLawful(U32(), Pair(U64(), Pair(U64(), Pair(U32(), U32()))));
    PairLawful(U32(), Pair(U32(), Pair(U64(), Pair(U64(), Pair(U32(), U32())))));
    SortedMapLawful(U32());
    PairLawful(F32Matrix(), F32Matrix());
    PairLawful(SortedMap(U32()), Pair(F32Matrix(), F32Matrix()));
    PairLawful(NmfNumbersCodec(), NmfFactorsCodec());
  }

  lemma NmfBasisBlobLawful()
    ensures Lawful(NmfBasisBlob())
  {
    NmfPayloadLawful();
    FramedAsLawful(NMF_BASIS_MAGIC, Pair(NmfNumbersCodec(), NmfFactorsCodec()),
                   (i, v, t: (NmfNumbers, NmfFactors)) =>
                     NmfBasis(i, v, t.0.0, t.0.1.0, t.0.1.1.0, t.0.1.1.1.0, t.0.1.1.1.1.0, t.0.1.1.1.1.1, t.1.0, t.1.1.0, t.1.1.1),
                   (b: NmfBasis) => b.modelId, (b: NmfBasis) => b.modelVersion, NmfFields);
  }
}
