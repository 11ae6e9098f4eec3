/** The byte format of the provider blobs, as codecs: an encoder, a decoder and
    the values the format can hold.  Lengths, counts and indices are cut to
    32 bits on the way out, as the `as u32` casts do. */
module BasisCodec {
  import opened Ordering

  datatype CodecError = Truncated | MagicMismatch | UnsupportedVersion | InvalidUtf8

  datatype Parsed<+T> = Ok(value: T, rest: Bytes) | Err(error: CodecError)

  datatype Codec<!T> = Codec(encode: T -> Bytes, decode: Bytes -> Parsed<T>, fits: T -> bool)

  /** What every blob format promises. */
  ghost predicate Lawful<T(!new)>(c: Codec<T>) {
    RoundTrips(c) && RejectsPrefixes(c) && DecodesOnlyFitting(c)
  }

  ghost predicate RoundTrips<T(!new)>(c: Codec<T>) {
    forall x, rest :: c.fits(x) ==> c.decode(c.encode(x) + rest) == Ok(x, rest)
  }

  ghost predicate RejectsPrefixes<T(!new)>(c: Codec<T>) {
    forall x, k :: c.fits(x) && 0 <= k < |c.encode(x)| ==> c.decode(c.encode(x)[..k]) == Err(Truncated)
  }

  ghost predicate DecodesOnlyFitting<T(!new)>(c: Codec<T>) {
    forall s :: c.decode(s).Ok? ==> c.fits(c.decode(s).value)
  }

  /** A value survives the trip exactly when the format can hold it; the other
      values (a length of 2^32 or more) come back changed or not at all. */
  lemma RoundTripExactlyWhenFits<T(!new)>(c: Codec<T>, x: T, rest: Bytes)
    requires Lawful(c)
    ensures c.decode(c.encode(x) + rest) == Ok(x, rest) <==> c.fits(x)
  {
    if c.decode(c.encode(x) + rest) == Ok(x, rest) {
      assert c.decode(c.encode(x) + rest).Ok?;
    }
  }

  /** Read back on its own, a value is returned exactly when the format can hold
      it. */
  lemma ReturnedExactlyWhenFits<T(!new)>(c: Codec<T>, x: T)
    requires Lawful(c)
    ensures c.decode(c.encode(x)).Ok? && c.decode(c.encode(x)).value == x <==> c.fits(x)
  {
    assert c.encode(x) + [] == c.encode(x);
    RoundTripExactlyWhenFits(c, x, []);
    if c.decode(c.encode(x)).Ok? && c.decode(c.encode(x)).value == x {
      assert c.fits(c.decode(c.encode(x)).value);
    }
  }

  lemma SameBlobReturns<T(!new)>(c: Codec<T>, x: T, y: T)
    requires Lawful(c) && c.fits(y) && c.encode(x) == c.encode(y)
    ensures c.decode(c.encode(x)).Ok? && c.decode(c.encode(x)).value == y
  {
    ReturnedExactlyWhenFits(c, y);
  }

  /** Equal blobs come from equal values, and no blob is a prefix of another. */
  lemma EncodingIsPrefixFree<T(!new)>(c: Codec<T>, x: T, y: T, rest: Bytes)
    requires Lawful(c) && c.fits(x) && c.fits(y)
    requires c.encode(x) == c.encode(y) + rest
    ensures x == y && rest == []
  {
    assert c.encode(x) + [] == c.encode(y) + rest;
    assert c.decode(c.encode(x) + []) == Ok(x, []);
    assert c.decode(c.encode(y) + rest) == Ok(y, rest);
  }

  // ------------------------------------------------------------- integers

  function Pow256(k: nat): (r: nat)
    ensures r > 0
  {
    if k == 0 then 1 else 256 * Pow256(k - 1)
  }

  function EncodeLe(k: nat, n: nat): (s: Bytes)
    ensures |s| == k
  {
    if k == 0 then [] else [n % 256] + EncodeLe(k - 1, n / 256)
  }

  function DecodeLe(s: Bytes): nat {
    if s == [] then 0 else s[0] + 256 * DecodeLe(s[1..])
  }

  /** An unsigned integer of `k` bytes, low byte first. */
  function UInt(k: nat): Codec<nat> {
    Codec(n => EncodeLe(k, n),
          s => if |s| < k then Err(Truncated) else Ok(DecodeLe(s[..k]), s[k..]),
          n => n < Pow256(k))
  }

  function U32(): Codec<nat> { UInt(4) }

  function U64(): Codec<nat> { UInt(8) }

  lemma {:induction false} LeRoundTrip(k: nat, n: nat)
    requires n < Pow256(k)
    ensures DecodeLe(EncodeLe(k, n)) == n
  {
    if k > 0 {
      LeRoundTrip(k - 1, n / 256);
      assert EncodeLe(k, n)[1..] == EncodeLe(k - 1, n / 256);
    }
  }

  lemma {:induction false} LeBound(s: Bytes)
    ensures DecodeLe(s) < Pow256(|s|)
  {
    if s != [] { LeBound(s[1..]); }
  }

  lemma UIntLawful(k: nat)
    ensures Lawful(UInt(k))
  {
    var c := UInt(k);
    forall n: nat, rest: Bytes | c.fits(n) ensures c.decode(c.encode(n) + rest) == Ok(n, rest) {
      LeRoundTrip(k, n);
      assert (EncodeLe(k, n) + rest)[..k] == EncodeLe(k, n) && (EncodeLe(k, n) + rest)[k..] == rest;
    }
    forall s: Bytes | c.decode(s).Ok? ensures c.fits(c.decode(s).value) { LeBound(s[..k]); }
  }

  // -------------------------------------------------------------- strings

  predicate Continuation(b: Byte) { 0x80 <= b < 0xC0 }

  /** Well-formed UTF-8 (table 3-7 of the Unicode standard). */
  predicate Utf8(s: Bytes) {
    if s == [] then true
    else if s[0] < 0x80 then Utf8(s[1..])
    else if 0xC2 <= s[0] < 0xE0 then |s| >= 2 && Continuation(s[1]) && Utf8(s[2..])
    else if 0xE0 <= s[0] < 0xF0 then
      |s| >= 3 && Continuation(s[1]) && Continuation(s[2]) && Utf8(s[3..])
      && (s[0] == 0xE0 ==> s[1] >= 0xA0) && (s[0] == 0xED ==> s[1] < 0xA0)
    else if 0xF0 <= s[0] < 0xF5 then
      |s| >= 4 && Continuation(s[1]) && Continuation(s[2]) && Continuation(s[3]) && Utf8(s[4..])
      && (s[0] == 0xF0 ==> s[1] >= 0x90) && (s[0] == 0xF4 ==> s[1] < 0x90)
    else false
  }

  /** A string: its byte length, then its bytes. */
  function Str(): Codec<Bytes> {
    Codec(t => EncodeLe(4, |t|) + t,
          DecodeString,
          t => |t| < Pow256(4) && Utf8(t))
  }

  function DecodeString(s: Bytes): Parsed<Bytes> {
    match U32().decode(s)
    case Err(e) => Err(e)
    case Ok(n, rest) =>
      if n > |rest| then Err(Truncated)
      else if !Utf8(rest[..n]) then Err(InvalidUtf8)
      else Ok(rest[..n], rest[n..])
  }

  lemma StrLawful()
    ensures Lawful(Str())
  {
    var c := Str();
    UIntLawful(4);
    forall t: Bytes, rest: Bytes | c.fits(t) ensures c.decode(c.encode(t) + rest) == Ok(t, rest) {
      assert c.encode(t) + rest == U32().encode(|t|) + (t + rest);
      assert (t + rest)[..|t|] == t && (t + rest)[|t|..] == rest;
    }
    forall t: Bytes, k | c.fits(t) && 0 <= k < |c.encode(t)| ensures c.decode(c.encode(t)[..k]) == Err(Truncated) {
      if k >= 4 { assert c.encode(t)[..k] == U32().encode(|t|) + t[..k - 4]; }
    }
    forall s: Bytes | c.decode(s).Ok? ensures c.fits(c.decode(s).value) {
      assert U32().fits(U32().decode(s).value);
    }
  }

  // ---------------------------------------------------------- composition

  /** The magic bytes and the format version that open every blob. */
  const FORMAT_VERSION: Byte := 1

  function DecodeMagic(magic: Bytes, s: Bytes): Parsed<Bytes> {
    if |s| < |magic| then Err(Truncated)
    else if s[..|magic|] != magic then Err(MagicMismatch)
    else Ok(magic, s[|magic|..])
  }

  function DecodeVersion(s: Bytes): Parsed<Byte> {
    if |s| < 1 then Err(Truncated)
    else if s[0] != FORMAT_VERSION then Err(UnsupportedVersion)
    else Ok(s[0], s[1..])
  }

  function DecodeHeader(magic: Bytes, s: Bytes): Parsed<Bytes> {
    match DecodeMagic(magic, s)
    case Err(e) => Err(e)
    case Ok(m, rest) => Map(DecodeVersion(rest), _ => m)
  }

  /** The provider tag and version byte; its one value is the tag itself. */
  function Header(magic: Bytes): Codec<Bytes> {
    Codec(m => m + [FORMAT_VERSION], s => DecodeHeader(magic, s), m => m == magic)
  }

  lemma HeaderLawful(magic: Bytes)
    ensures Lawful(Header(magic))
  {
    var c := Header(magic);
    forall x: Bytes, rest: Bytes | c.fits(x) ensures c.decode(c.encode(x) + rest) == Ok(x, rest) {
      var blob := magic + [FORMAT_VERSION] + rest;
      assert blob[..|magic|] == magic && blob[|magic|..] == [FORMAT_VERSION] + rest;
      assert blob[|magic|..][1..] == rest;
    }
    forall x: Bytes, k | c.fits(x) && 0 <= k < |c.encode(x)| ensures c.decode(c.encode(x)[..k]) == Err(Truncated) {
      if k == |magic| { assert (magic + [FORMAT_VERSION])[..k] == magic; }
    }
  }

  function Map<A, B>(p: Parsed<A>, f: A -> B): Parsed<B> {
    match p case Err(e) => Err(e) case Ok(x, rest) => Ok(f(x), rest)
  }

  function DecodePair<A, B>(a: Bytes -> Parsed<A>, b: Bytes -> Parsed<B>, s: Bytes): Parsed<(A, B)> {
    match a(s) case Err(e) => Err(e) case Ok(x, rest) => Map(b(rest), y => (x, y))
  }

  function Pair<A, B>(a: Codec<A>, b: Codec<B>): Codec<(A, B)> {
    Codec((p: (A, B)) => a.encode(p.0) + b.encode(p.1),
          s => DecodePair(a.decode, b.decode, s),
          (p: (A, B)) => a.fits(p.0) && b.fits(p.1))
  }

  lemma PairLawful<A(!new), B(!new)>(a: Codec<A>, b: Codec<B>)
    requires Lawful(a) && Lawful(b)
    ensures Lawful(Pair(a, b))
  {
    var c := Pair(a, b);
    forall p: (A, B), rest: Bytes | c.fits(p) ensures c.decode(c.encode(p) + rest) == Ok(p, rest) {
      assert c.encode(p) + rest == a.encode(p.0) + (b.encode(p.1) + rest);
    }
    forall p: (A, B), k | c.fits(p) && 0 <= k < |c.encode(p)| ensures c.decode(c.encode(p)[..k]) == Err(Truncated) {
      var cut := |a.encode(p.0)|;
      if k < cut {
        assert c.encode(p)[..k] == a.encode(p.0)[..k];
      } else {
        assert c.encode(p)[..k] == a.encode(p.0) + b.encode(p.1)[..k - cut];
      }
    }
  }

  /** A codec seen through a conversion of its values. */
  function Via<E, M>(e: Codec<E>, decoded: E -> M, encoded: M -> E, fits: M -> bool): Codec<M> {
    Codec((m: M) => e.encode(encoded(m)), s => Map(e.decode(s), decoded), fits)
  }

  lemma ViaLawful<E(!new), M(!new)>(e: Codec<E>, decoded: E -> M, encoded: M -> E, fits: M -> bool)
    requires Lawful(e)
    requires forall m :: fits(m) ==> e.fits(encoded(m)) && decoded(encoded(m)) == m
    requires forall x :: e.fits(x) ==> fits(decoded(x))
    ensures Lawful(Via(e, decoded, encoded, fits))
  {
    var c := Via(e, decoded, encoded, fits);
    forall m: M, rest: Bytes | c.fits(m) ensures c.decode(c.encode(m) + rest) == Ok(m, rest) {
      assert e.decode(e.encode(encoded(m)) + rest) == Ok(encoded(m), rest);
    }
    forall m: M, k | c.fits(m) && 0 <= k < |c.encode(m)| ensures c.decode(c.encode(m)[..k]) == Err(Truncated) {
      assert e.decode(e.encode(encoded(m))[..k]) == Err(Truncated);
    }
  }

  function EncodeAll<T>(encode: T -> Bytes, xs: seq<T>): Bytes {
    if xs == [] then [] else encode(xs[0]) + EncodeAll(encode, xs[1..])
  }

  function Prepend<T>(front: seq<T>, p: Parsed<seq<T>>): Parsed<seq<T>> {
    match p case Err(e) => Err(e) case Ok(xs, rest) => Ok(front + xs, rest)
  }

  function DecodeN<T>(decode: Bytes -> Parsed<T>, n: nat, s: Bytes): Parsed<seq<T>> {
    if n == 0 then Ok([], s) else
      match decode(s)
      case Err(e) => Err(e)
      case Ok(x, rest) => Prepend([x], DecodeN(decode, n - 1, rest))
  }

  function DecodeCounted<T>(decode: Bytes -> Parsed<T>, s: Bytes): Parsed<seq<T>> {
    match U32().decode(s) case Err(e) => Err(e) case Ok(n, rest) => DecodeN(decode, n, rest)
  }

  predicate AllFit<T>(fits: T -> bool, xs: seq<T>) {
    forall i :: 0 <= i < |xs| ==> fits(xs[i])
  }

  /** A vector: its element count, then its elements. */
  function Counted<T>(c: Codec<T>): Codec<seq<T>> {
    Codec((xs: seq<T>) => EncodeLe(4, |xs|) + EncodeAll(c.encode, xs),
          s => DecodeCounted(c.decode, s),
          (xs: seq<T>) => |xs| < Pow256(4) && AllFit(c.fits, xs))
  }

  lemma {:induction false} AllRoundTrip<T(!new)>(c: Codec<T>, xs: seq<T>, rest: Bytes)
    requires Lawful(c) && AllFit(c.fits, xs)
    ensures DecodeN(c.decode, |xs|, EncodeAll(c.encode, xs) + rest) == Ok(xs, rest)
  {
    if xs == [] {
      assert [] + rest == rest;
    } else {
      var tail := EncodeAll(c.encode, xs[1..]) + rest;
      assert EncodeAll(c.encode, xs) + rest == c.encode(xs[0]) + tail;
      AllRoundTrip(c, xs[1..], rest);
      assert xs == [xs[0]] + xs[1..];
    }
  }

  lemma {:induction false} AllRejectPrefixes<T(!new)>(c: Codec<T>, xs: seq<T>, k: nat)
    requires Lawful(c) && AllFit(c.fits, xs) && k < |EncodeAll(c.encode, xs)|
    ensures DecodeN(c.decode, |xs|, EncodeAll(c.encode, xs)[..k]) == Err(Truncated)
  {
    var first := c.encode(xs[0]);
    if k < |first| {
      assert EncodeAll(c.encode, xs)[..k] == first[..k];
    } else {
      assert EncodeAll(c.encode, xs)[..k] == first + EncodeAll(c.encode, xs[1..])[..k - |first|];
      AllRejectPrefixes(c, xs[1..], k - |first|);
    }
  }

  lemma {:induction false} AllDecodedFit<T(!new)>(c: Codec<T>, n: nat, s: Bytes)
    requires Lawful(c) && DecodeN(c.decode, n, s).Ok?
    ensures var xs := DecodeN(c.decode, n, s).value; |xs| == n && AllFit(c.fits, xs)
  {
    if n > 0 {
      var p := c.decode(s);
      AllDecodedFit(c, n - 1, p.rest);
      assert c.fits(p.value);
    }
  }

  lemma CountedRoundTrip<T(!new)>(c: Codec<T>, xs: seq<T>, rest: Bytes)
    requires Lawful(c) && Counted(c).fits(xs)
    ensures Counted(c).decode(Counted(c).encode(xs) + rest) == Ok(xs, rest)
  {
    UIntLawful(4);
    assert Counted(c).encode(xs) + rest == U32().encode(|xs|) + (EncodeAll(c.encode, xs) + rest);
    AllRoundTrip(c, xs, rest);
  }

  lemma CountedRejectsPrefix<T(!new)>(c: Codec<T>, xs: seq<T>, k: nat)
    requires Lawful(c) && Counted(c).fits(xs) && k < |Counted(c).encode(xs)|
    ensures Counted(c).decode(Counted(c).encode(xs)[..k]) == Err(Truncated)
  {
    UIntLawful(4);
    if k >= 4 {
      assert Counted(c).encode(xs)[..k] == U32().encode(|xs|) + EncodeAll(c.encode, xs)[..k - 4];
      AllRejectPrefixes(c, xs, k - 4);
    }
  }

  lemma CountedDecodesFitting<T(!new)>(c: Codec<T>, s: Bytes)
    requires Lawful(c) && Counted(c).decode(s).Ok?
    ensures Counted(c).fits(Counted(c).decode(s).value)
  {
    UIntLawful(4);
    var p := U32().decode(s);
    AllDecodedFit(c, p.value, p.rest);
  }

  lemma CountedLawful<T(!new)>(c: Codec<T>)
    requires Lawful(c)
    ensures Lawful(Counted(c))
  {
    var d := Counted(c);
    forall xs, rest | d.fits(xs) ensures d.decode(d.encode(xs) + rest) == Ok(xs, rest) { CountedRoundTrip(c, xs, rest); }
    forall xs, k | d.fits(xs) && 0 <= k < |d.encode(xs)| ensures d.decode(d.encode(xs)[..k]) == Err(Truncated) {
      CountedRejectsPrefix(c, xs, k);
    }
    forall s | d.decode(s).Ok? ensures d.fits(d.decode(s).value) { CountedDecodesFitting(c, s); }
  }

  // ------------------------------------------------------------------ maps

  ghost function SortedKeys<V>(m: map<Bytes, V>): (keys: seq<Bytes>)
    ensures Ascending(keys, BytesLess) && NoDuplicates(keys) && Elements(keys) == m.Keys && |keys| == |m|
  {
    BytesLessIsStrictTotalOrder();
    Sorted(m.Keys, BytesLess)
  }

  /** The entries of a map for the given keys, in their order. */
  function EntriesAt<V>(m: map<Bytes, V>, keys: seq<Bytes>): (es: seq<(Bytes, V)>)
    requires forall k :: k in keys ==> k in m
    ensures |es| == |keys| && forall i :: 0 <= i < |es| ==> es[i] == (keys[i], m[keys[i]])
  {
    seq(|keys|, i requires 0 <= i < |keys| => (keys[i], m[keys[i]]))
  }

  ghost function Entries<V>(m: map<Bytes, V>): seq<(Bytes, V)> {
    var keys := SortedKeys(m);
    assert forall k :: k in keys ==> k in Elements(keys);
    EntriesAt(m, keys)
  }

  /** Insert the entries one after the other; a later entry replaces an earlier. */
  function MapOf<V>(es: seq<(Bytes, V)>): map<Bytes, V> {
    if es == [] then map[] else MapOf(es[..|es| - 1])[es[|es| - 1].0 := es[|es| - 1].1]
  }

  predicate MapFits<V>(c: Codec<V>, m: map<Bytes, V>) {
    |m| < Pow256(4) && forall k :: k in m ==> Str().fits(k) && c.fits(m[k])
  }

  /** A map: its entry count, then its entries by ascending key bytes. */
  ghost function SortedMap<V>(c: Codec<V>): Codec<map<Bytes, V>> {
    Via(Counted(Pair(Str(), c)), MapOf, Entries, m => MapFits(c, m))
  }

  lemma EntriesFront<V>(m: map<Bytes, V>, keys: seq<Bytes>)
    requires keys != [] && forall k :: k in keys ==> k in m
    ensures var n := |keys| - 1;
      EntriesAt(m, keys)[..n] == EntriesAt(m, keys[..n]) && EntriesAt(m, keys)[n] == (keys[n], m[keys[n]])
  {
  }

  lemma {:induction false} MapOfEntriesAt<V>(m: map<Bytes, V>, keys: seq<Bytes>)
    requires forall k :: k in keys ==> k in m
    ensures MapOf(EntriesAt(m, keys)).Keys == Elements(keys)
    ensures forall k :: k in keys ==> k in MapOf(EntriesAt(m, keys)) && MapOf(EntriesAt(m, keys))[k] == m[k]
  {
    if keys == [] {
      assert Elements(keys) == {};
    } else {
      var n := |keys| - 1;
      MapOfEntriesAt(m, keys[..n]);
      EntriesFront(m, keys);
      MapOfNext(m, keys[..n], keys[n], MapOf(EntriesAt(m, keys[..n])));
      assert keys == keys[..n] + [keys[n]];
    }
  }

  lemma MapOfNext<V>(m: map<Bytes, V>, front: seq<Bytes>, key: Bytes, before: map<Bytes, V>)
    requires key in m && before.Keys == Elements(front)
    requires forall k :: k in front ==> k in m && k in before && before[k] == m[k]
    ensures before[key := m[key]].Keys == Elements(front + [key])
    ensures forall k :: k in front + [key] ==> k in before[key := m[key]] && before[key := m[key]][k] == m[k]
  {
  }

  lemma MapOfEntries<V>(m: map<Bytes, V>)
    ensures MapOf(Entries(m)) == m && |Entries(m)| == |m|
  {
    var keys := SortedKeys(m);
    assert forall k :: k in keys <==> k in Elements(keys);
    MapOfEntriesAt(m, keys);
  }

  lemma {:induction false} MapOfBounds<V>(es: seq<(Bytes, V)>)
    ensures |MapOf(es)| <= |es|
    ensures forall k :: k in MapOf(es) ==> exists i :: 0 <= i < |es| && es[i] == (k, MapOf(es)[k])
  {
    if es != [] {
      var n := |es| - 1;
      MapOfBounds(es[..n]);
      var before := MapOf(es[..n]);
      assert MapOf(es).Keys == before.Keys + {es[n].0};
      assert |MapOf(es).Keys| <= |before.Keys| + 1;
      forall k | k in MapOf(es) ensures exists i :: 0 <= i < |es| && es[i] == (k, MapOf(es)[k]) {
        if k == es[n].0 { assert es[n] == (k, MapOf(es)[k]); } else {
          var i :| 0 <= i < n && es[..n][i] == (k, before[k]);
          assert es[i] == (k, MapOf(es)[k]);
        }
      }
    }
  }

  lemma EntriesFit<V>(c: Codec<V>, m: map<Bytes, V>)
    requires MapFits(c, m)
    ensures Counted(Pair(Str(), c)).fits(Entries(m)) && MapOf(Entries(m)) == m
  {
    MapOfEntries(m);
    var keys, es, entry := SortedKeys(m), Entries(m), Pair(Str(), c);
    forall i | 0 <= i < |es| ensures entry.fits(es[i]) {
      assert keys[i] in Elements(keys);
      assert es[i] == (keys[i], m[keys[i]]);
    }
    assert AllFit(entry.fits, es);
  }

  lemma DecodedMapFits<V>(c: Codec<V>, es: seq<(Bytes, V)>)
    requires Counted(Pair(Str(), c)).fits(es)
    ensures MapFits(c, MapOf(es))
  {
    MapOfBounds(es);
    forall k | k in MapOf(es) ensures Str().fits(k) && c.fits(MapOf(es)[k]) {
      var i :| 0 <= i < |es| && es[i] == (k, MapOf(es)[k]);
      assert Pair(Str(), c).fits(es[i]);
    }
  }

  /** Reading entries into a map, on top of a lawful entry list. */
  lemma SortedMapLawful<V(!new)>(c: Codec<V>)
    requires Lawful(c)
    ensures Lawful(SortedMap(c))
  {
    var e := Counted(Pair(Str(), c));
    assert Lawful(e) by {
      StrLawful();
      PairLawful(Str(), c);
      CountedLawful(Pair(Str(), c));
    }
    forall m | MapFits(c, m) ensures e.fits(Entries(m)) && MapOf(Entries(m)) == m { EntriesFit(c, m); }
    forall es | e.fits(es) ensures MapFits(c, MapOf(es)) { DecodedMapFits(c, es); }
    ViaLawful(e, MapOf, Entries, m => MapFits(c, m));
  }
}
