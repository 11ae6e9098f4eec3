/** The append-only writer and the cursor reader, each operation proved against
    the codec it implements. */
module BasisStreams {
  import opened Ordering
  import opened BasisCodec

  function F32Array(): Codec<seq<nat>> { Counted(U32()) }

  function F32Matrix(): Codec<seq<seq<nat>>> { Counted(F32Array()) }

  /** Two functions agree.  The fact is used only where `At` asks for it, so that
      a loop can carry an element format without looking inside it. */
  ghost predicate Same<A(!new), B>(f: A -> B, g: A -> B) {
    forall x {:trigger At(x)} :: At(x) ==> f(x) == g(x)
  }

  ghost predicate At<A>(x: A) { true }

  lemma {:induction false} EncodeAllAppends<T>(encode: T -> Bytes, xs: seq<T>, x: T)
    ensures EncodeAll(encode, xs + [x]) == EncodeAll(encode, xs) + encode(x)
  {
    if xs == [] {
      assert [] + [x] == [x] && EncodeAll(encode, [x]) == encode(x) + EncodeAll(encode, [x][1..]);
    } else {
      assert (xs + [x])[1..] == xs[1..] + [x];
      EncodeAllAppends(encode, xs[1..], x);
    }
  }

  lemma EncodeAllNext<T>(encode: T -> Bytes, xs: seq<T>, i: nat)
    requires i < |xs|
    ensures EncodeAll(encode, xs[..i + 1]) == EncodeAll(encode, xs[..i]) + encode(xs[i])
  {
    assert xs[..i + 1] == xs[..i] + [xs[i]];
    EncodeAllAppends(encode, xs[..i], xs[i]);
  }

  lemma SortedMapEncodes<V>(c: Codec<V>, m: map<Bytes, V>)
    ensures SortedMap(c).encode(m) == U32().encode(|m|) + EncodeAll(Pair(Str(), c).encode, EntriesAt(m, SortedKeys(m)))
  {
    MapOfEntries(m);
  }

  lemma AppendTwice(a: Bytes, b: Bytes, c: Bytes)
    ensures (a + b) + c == a + (b + c)
  {
  }

  class BasisWriter {
    var bytes: Bytes

    constructor ()
      ensures bytes == []
    {
      bytes := [];
    }

    method WriteByte(b: Byte)
      modifies this
      ensures bytes == old(bytes) + [b]
    {
      bytes := bytes + [b];
    }

    method WriteMagic(magic: Bytes)
      modifies this
      ensures bytes == old(bytes) + magic
    {
      bytes := bytes + magic;
    }

    method WriteU32(v: nat)
      modifies this
      ensures bytes == old(bytes) + U32().encode(v)
    {
      bytes := bytes + EncodeLe(4, v);
    }

    method WriteU64(v: nat)
      modifies this
      ensures bytes == old(bytes) + U64().encode(v)
    {
      bytes := bytes + EncodeLe(8, v);
    }

    method WriteString(s: Bytes)
      modifies this
      ensures bytes == old(bytes) + Str().encode(s)
    {
      WriteU32(|s|);
      bytes := bytes + s;
    }

    /** Floats are written as their bit patterns. */
    method WriteF32Array(a: seq<nat>)
      modifies this
      ensures bytes == old(bytes) + F32Array().encode(a)
    {
      WriteU32(|a|);
      WriteF32ArrayElements(a);
    }

    method WriteF32ArrayElements(a: seq<nat>)
      modifies this
      ensures bytes == old(bytes) + EncodeAll(U32().encode, a)
    {
      for i := 0 to |a|
        invariant bytes == old(bytes) + EncodeAll(U32().encode, a[..i])
      {
        EncodeAllNext(U32().encode, a, i);
        WriteU32(a[i]);
      }
      assert a[..|a|] == a;
    }

    method WriteF32Matrix(m: seq<seq<nat>>)
      modifies this
      ensures bytes == old(bytes) + F32Matrix().encode(m)
    {
      WriteU32(|m|);
      WriteF32MatrixElements(m);
    }

    method WriteF32MatrixElements(m: seq<seq<nat>>)
      modifies this
      ensures bytes == old(bytes) + EncodeAll(F32Array().encode, m)
    {
      for i := 0 to |m|
        invariant bytes == old(bytes) + EncodeAll(F32Array().encode, m[..i])
      {
        EncodeAllNext(F32Array().encode, m, i);
        AppendTwice(old(bytes), EncodeAll(F32Array().encode, m[..i]), F32Array().encode(m[i]));
        WriteF32Array(m[i]);
      }
      assert m[..|m|] == m;
    }

    /** The keys come out of the hash map in some order and are sorted by bytes;
        the blob does not depend on that order. */
    method WriteVectorMap(m: map<Bytes, seq<nat>>)
      modifies this
      ensures bytes == old(bytes) + SortedMap(F32Array()).encode(m)
    {
      var keys := SortedKeysOf(m);
      SortedMapEncodes(F32Array(), m);
      AppendTwice(bytes, U32().encode(|m|), EncodeAll(Pair(Str(), F32Array()).encode, EntriesAt(m, keys)));
      WriteU32(|keys|);
      WriteVectorMapEntries(m, keys, Pair(Str(), F32Array()).encode);
    }

    method WriteVectorMapEntries(m: map<Bytes, seq<nat>>, keys: seq<Bytes>, ghost encode: ((Bytes, seq<nat>)) -> Bytes)
      requires forall k :: k in keys ==> k in m
      requires Same(encode, Pair(Str(), F32Array()).encode)
      modifies this
      ensures bytes == old(bytes) + EncodeAll(encode, EntriesAt(m, keys))
    {
      ghost var es := EntriesAt(m, keys);
      for i := 0 to |keys|
        invariant bytes == old(bytes) + EncodeAll(encode, es[..i])
      {
        EncodeAllNext(encode, es, i);
        AppendTwice(old(bytes), EncodeAll(encode, es[..i]), encode(es[i]));
        WriteVectorMapEntry(keys[i], m[keys[i]], encode);
      }
      assert es[..|keys|] == es;
    }

    method WriteVectorMapEntry(key: Bytes, value: seq<nat>, ghost encode: ((Bytes, seq<nat>)) -> Bytes)
      requires Same(encode, Pair(Str(), F32Array()).encode)
      modifies this
      ensures bytes == old(bytes) + encode((key, value))
    {
      assert At((key, value));
      WriteString(key);
      WriteF32Array(value);
      AppendTwice(old(bytes), Str().encode(key), F32Array().encode(value));
    }

    method WriteU32Map(m: map<Bytes, nat>)
      modifies this
      ensures bytes == old(bytes) + SortedMap(U32()).encode(m)
    {
      var keys := SortedKeysOf(m);
      SortedMapEncodes(U32(), m);
      AppendTwice(bytes, U32().encode(|m|), EncodeAll(Pair(Str(), U32()).encode, EntriesAt(m, keys)));
      WriteU32(|keys|);
      WriteU32MapEntries(m, keys, Pair(Str(), U32()).encode);
    }

    method WriteU32MapEntries(m: map<Bytes, nat>, keys: seq<Bytes>, ghost encode: ((Bytes, nat)) -> Bytes)
      requires forall k :: k in keys ==> k in m
      requires Same(encode, Pair(Str(), U32()).encode)
      modifies this
      ensures bytes == old(bytes) + EncodeAll(encode, EntriesAt(m, keys))
    {
      ghost var es := EntriesAt(m, keys);
      for i := 0 to |keys|
        invariant bytes == old(bytes) + EncodeAll(encode, es[..i])
      {
        EncodeAllNext(encode, es, i);
        AppendTwice(old(bytes), EncodeAll(encode, es[..i]), encode(es[i]));
        WriteU32MapEntry(keys[i], m[keys[i]], encode);
      }
      assert es[..|keys|] == es;
    }

    method WriteU32MapEntry(key: Bytes, value: nat, ghost encode: ((Bytes, nat)) -> Bytes)
      requires Same(encode, Pair(Str(), U32()).encode)
      modifies this
      ensures bytes == old(bytes) + encode((key, value))
    {
      assert At((key, value));
      WriteString(key);
      WriteU32(value);
      AppendTwice(old(bytes), Str().encode(key), U32().encode(value));
    }

    /** The nested map of the PPMI counts: its outer level, by ascending key. */
    method WriteNestedMap(m: map<Bytes, map<Bytes, nat>>)
      modifies this
      ensures bytes == old(bytes) + SortedMap(SortedMap(U32())).encode(m)
    {
      var keys := SortedKeysOf(m);
      SortedMapEncodes(SortedMap(U32()), m);
      AppendTwice(bytes, U32().encode(|m|), EncodeAll(Pair(Str(), SortedMap(U32())).encode, EntriesAt(m, keys)));
      WriteU32(|keys|);
      WriteNestedMapEntries(m, keys, Pair(Str(), SortedMap(U32())).encode);
    }

    method WriteNestedMapEntries(m: map<Bytes, map<Bytes, nat>>, keys: seq<Bytes>, ghost encode: ((Bytes, map<Bytes, nat>)) -> Bytes)
      requires forall k :: k in keys ==> k in m
      requires Same(encode, Pair(Str(), SortedMap(U32())).encode)
      modifies this
      ensures bytes == old(bytes) + EncodeAll(encode, EntriesAt(m, keys))
    {
      ghost var es := EntriesAt(m, keys);
      for i := 0 to |keys|
        invariant bytes == old(bytes) + EncodeAll(encode, es[..i])
      {
        EncodeAllNext(encode, es, i);
        AppendTwice(old(bytes), EncodeAll(encode, es[..i]), encode(es[i]));
        WriteNestedMapEntry(keys[i], m[keys[i]], encode);
      }
      assert es[..|keys|] == es;
    }

    method WriteNestedMapEntry(key: Bytes, value: map<Bytes, nat>, ghost encode: ((Bytes, map<Bytes, nat>)) -> Bytes)
      requires Same(encode, Pair(Str(), SortedMap(U32())).encode)
      modifies this
      ensures bytes == old(bytes) + encode((key, value))
    {
      assert At((key, value));
      WriteString(key);
      WriteU32Map(value);
      AppendTwice(old(bytes), Str().encode(key), SortedMap(U32()).encode(value));
    }
  }

  /** Collect the keys in whatever order the map yields them, then sort. */
  method SortedKeysOf<V>(m: map<Bytes, V>) returns (keys: seq<Bytes>)
    ensures keys == SortedKeys(m)
    ensures forall k :: k in keys ==> k in m
  {
    keys := [];
    var left := m.Keys;
    while left != {}
      invariant left <= m.Keys && NoDuplicates(keys) && Elements(keys) == m.Keys - left
      decreases left
    {
      var k :| k in left;
      OneMoreAtEnd(keys, k);
      keys := keys + [k];
      left := left - {k};
    }
    BytesLessIsStrictTotalOrder();
    SortingAnyEnumeration(keys, m.Keys, BytesLess);
    keys := SortBy(keys, BytesLess);
    assert keys == SortedKeys(m);
    forall k | k in keys ensures k in m { assert k in Elements(keys); }
  }

  // ---------------------------------------------------------------- reader

  datatype Result<+T> = Success(value: T) | Failure(error: CodecError) {
    predicate IsFailure() { Failure? }
    function PropagateFailure<U>(): Result<U> requires Failure? { Failure(error) }
    function Extract(): T requires Success? { value }
  }

  /** A read agrees with its codec: same value and same unread bytes, or the
      same error. */
  ghost predicate Agrees<T>(p: Parsed<T>, r: Result<T>, unread: Bytes) {
    match p
    case Ok(v, rest) => r == Success(v) && unread == rest
    case Err(e) => r == Failure(e)
  }

  /** A counted read as the reader's loop runs it: onto what was read so far. */
  function DecodeOnto<T>(decode: Bytes -> Parsed<T>, n: nat, s: Bytes, out: seq<T>): Parsed<seq<T>> {
    if n == 0 then Ok(out, s) else
      match decode(s)
      case Err(e) => Err(e)
      case Ok(x, rest) => DecodeOnto(decode, n - 1, rest, out + [x])
  }

  /** The same for entries inserted into a map. */
  function DecodeInto<V>(decode: Bytes -> Parsed<(Bytes, V)>, n: nat, s: Bytes, out: map<Bytes, V>): Parsed<map<Bytes, V>> {
    if n == 0 then Ok(out, s) else
      match decode(s)
      case Err(e) => Err(e)
      case Ok(x, rest) => DecodeInto(decode, n - 1, rest, out[x.0 := x.1])
  }

  lemma DecodeIntoStep<V>(decode: Bytes -> Parsed<(Bytes, V)>, n: nat, s: Bytes, out: map<Bytes, V>)
    requires n > 0
    ensures decode(s).Err? ==> DecodeInto(decode, n, s, out) == Err(decode(s).error)
    ensures decode(s).Ok? ==>
      DecodeInto(decode, n, s, out) == DecodeInto(decode, n - 1, decode(s).rest, out[decode(s).value.0 := decode(s).value.1])
  {
  }

  lemma {:induction false} DecodeOntoAccumulates<T>(decode: Bytes -> Parsed<T>, n: nat, s: Bytes, out: seq<T>)
    ensures DecodeOnto(decode, n, s, out) == Prepend(out, DecodeN(decode, n, s))
  {
    if n == 0 {
      assert out + [] == out;
    } else if decode(s).Ok? {
      var x, rest := decode(s).value, decode(s).rest;
      DecodeOntoAccumulates(decode, n - 1, rest, out + [x]);
      var p := DecodeN(decode, n - 1, rest);
      if p.Ok? { assert (out + [x]) + p.value == out + ([x] + p.value); }
    }
  }

  lemma {:induction false} DecodeIntoAccumulates<V>(decode: Bytes -> Parsed<(Bytes, V)>, n: nat, s: Bytes, es: seq<(Bytes, V)>)
    ensures DecodeInto(decode, n, s, MapOf(es)) == Map(DecodeOnto(decode, n, s, es), MapOf)
  {
    if n > 0 && decode(s).Ok? {
      var x, rest := decode(s).value, decode(s).rest;
      assert (es + [x])[..|es|] == es;
      DecodeIntoAccumulates(decode, n - 1, rest, es + [x]);
    }
  }

  lemma DecodeLoops<T>(decode: Bytes -> Parsed<T>, n: nat, s: Bytes)
    ensures DecodeOnto(decode, n, s, []) == DecodeN(decode, n, s)
  {
    DecodeOntoAccumulates(decode, n, s, []);
    var p := DecodeN(decode, n, s);
    if p.Ok? { assert [] + p.value == p.value; }
  }

  lemma SortedMapDecodes<V>(c: Codec<V>, s: Bytes)
    ensures SortedMap(c).decode(s) ==
      match U32().decode(s)
      case Err(e) => Err(e)
      case Ok(n, rest) => DecodeInto(Pair(Str(), c).decode, n, rest, map[])
  {
    assert SortedMap(c).decode(s) == Map(DecodeCounted(Pair(Str(), c).decode, s), MapOf);
    if U32().decode(s).Ok? {
      var n, rest := U32().decode(s).value, U32().decode(s).rest;
      DecodeLoops(Pair(Str(), c).decode, n, rest);
      DecodeIntoAccumulates(Pair(Str(), c).decode, n, rest, []);
      assert MapOf<V>([]) == map[];
    }
  }

  class BasisReader {
    const bytes: Bytes
    var cursor: nat

    ghost predicate Valid()
      reads this
    {
      cursor <= |bytes|
    }

    ghost function Unread(): Bytes
      requires Valid()
      reads this
    {
      bytes[cursor..]
    }

    constructor (bytes: Bytes)
      ensures Valid() && this.bytes == bytes && Unread() == bytes
    {
      this.bytes := bytes;
      cursor := 0;
    }

    method ExpectMagic(magic: Bytes) returns (r: Result<Bytes>)
      requires Valid()
      modifies this
      ensures Valid() && Agrees(DecodeMagic(magic, old(Unread())), r, Unread())
    {
      if cursor + |magic| > |bytes| { return Failure(Truncated); }
      var got := bytes[cursor..cursor + |magic|];
      assert Unread()[..|magic|] == got;
      cursor := cursor + |magic|;
      if got != magic { return Failure(MagicMismatch); }
      return Success(magic);
    }

    method ExpectVersion() returns (r: Result<Byte>)
      requires Valid()
      modifies this
      ensures Valid() && Agrees(DecodeVersion(old(Unread())), r, Unread())
    {
      if cursor + 1 > |bytes| { return Failure(Truncated); }
      var v := bytes[cursor];
      cursor := cursor + 1;
      if v != FORMAT_VERSION { return Failure(UnsupportedVersion); }
      return Success(v);
    }

    method ReadUInt(k: nat) returns (r: Result<nat>)
      requires Valid()
      modifies this
      ensures Valid() && Agrees(UInt(k).decode(old(Unread())), r, Unread())
    {
      if cursor + k > |bytes| { return Failure(Truncated); }
      var field := bytes[cursor..cursor + k];
      assert Unread()[..k] == field;
      cursor := cursor + k;
      return Success(DecodeLe(field));
    }

    method ReadU32() returns (r: Result<nat>)
      requires Valid()
      modifies this
      ensures Valid() && Agrees(U32().decode(old(Unread())), r, Unread())
    {
      r := ReadUInt(4);
    }

    method ReadU64() returns (r: Result<nat>)
      requires Valid()
      modifies this
      ensures Valid() && Agrees(U64().decode(old(Unread())), r, Unread())
    {
      r := ReadUInt(8);
    }

    method ReadString() returns (r: Result<Bytes>)
      requires Valid()
      modifies this
      ensures Valid() && Agrees(Str().decode(old(Unread())), r, Unread())
    {
      var len :- ReadU32();
      if cursor + len > |bytes| { return Failure(Truncated); }
      var slice := bytes[cursor..cursor + len];
      assert Unread()[..len] == slice;
      cursor := cursor + len;
      if !Utf8(slice) { return Failure(InvalidUtf8); }
      return Success(slice);
    }

    method ReadF32Array() returns (r: Result<seq<nat>>)
      requires Valid()
      modifies this
      ensures Valid() && Agrees(F32Array().decode(old(Unread())), r, Unread())
    {
      var count :- ReadU32();
      DecodeLoops(U32().decode, count, Unread());
      r := ReadF32ArrayElements(count, U32().decode);
    }

    method ReadF32ArrayElements(count: nat, ghost decode: Bytes -> Parsed<nat>) returns (r: Result<seq<nat>>)
      requires Valid() && Same(decode, U32().decode)
      modifies this
      ensures Valid() && Agrees(DecodeOnto(decode, count, old(Unread()), []), r, Unread())
    {
      var out := [];
      for i := 0 to count
        invariant Valid() && DecodeOnto(decode, count, old(Unread()), []) == DecodeOnto(decode, count - i, Unread(), out)
      {
        assert At(Unread());
        var x :- ReadU32();
        out := out + [x];
      }
      return Success(out);
    }

    method ReadF32Matrix() returns (r: Result<seq<seq<nat>>>)
      requires Valid()
      modifies this
      ensures Valid() && Agrees(F32Matrix().decode(old(Unread())), r, Unread())
    {
      var count :- ReadU32();
      DecodeLoops(F32Array().decode, count, Unread());
      r := ReadF32MatrixElements(count, F32Array().decode);
    }

    method ReadF32MatrixElements(count: nat, ghost decode: Bytes -> Parsed<seq<nat>>) returns (r: Result<seq<seq<nat>>>)
      requires Valid() && Same(decode, F32Array().decode)
      modifies this
      ensures Valid() && Agrees(DecodeOnto(decode, count, old(Unread()), []), r, Unread())
    {
      var out := [];
      for i := 0 to count
        invariant Valid() && DecodeOnto(decode, count, old(Unread()), []) == DecodeOnto(decode, count - i, Unread(), out)
      {
        assert At(Unread());
        var x :- ReadF32Array();
        out := out + [x];
      }
      return Success(out);
    }

    method ReadVectorMap() returns (r: Result<map<Bytes, seq<nat>>>)
      requires Valid()
      modifies this
      ensures Valid() && Agrees(SortedMap(F32Array()).decode(old(Unread())), r, Unread())
    {
      SortedMapDecodes(F32Array(), Unread());
      var count :- ReadU32();
      r := ReadVectorMapEntries(count, Pair(Str(), F32Array()).decode);
    }

    method ReadVectorMapEntries(count: nat, ghost decode: Bytes -> Parsed<(Bytes, seq<nat>)>) returns (r: Result<map<Bytes, seq<nat>>>)
      requires Valid() && Same(decode, Pair(Str(), F32Array()).decode)
      modifies this
      ensures Valid() && Agrees(DecodeInto(decode, count, old(Unread()), map[]), r, Unread())
    {
      var out: map<Bytes, seq<nat>> := map[];
      ghost var all := DecodeInto(decode, count, Unread(), out);
      for i := 0 to count
        invariant Valid() && all == DecodeInto(decode, count - i, Unread(), out)
      {
        DecodeIntoStep(decode, count - i, Unread(), out);
        var e := ReadVectorMapEntry(decode);
        if e.Failure? { return Failure(e.error); }
        out := out[e.value.0 := e.value.1];
      }
      return Success(out);
    }

    method ReadVectorMapEntry(ghost decode: Bytes -> Parsed<(Bytes, seq<nat>)>) returns (r: Result<(Bytes, seq<nat>)>)
      requires Valid() && Same(decode, Pair(Str(), F32Array()).decode)
      modifies this
      ensures Valid() && Agrees(decode(old(Unread())), r, Unread())
    {
      assert At(Unread());
      var key :- ReadString();
      var value :- ReadF32Array();
      return Success((key, value));
    }

    method ReadU32Map() returns (r: Result<map<Bytes, nat>>)
      requires Valid()
      modifies this
      ensures Valid() && Agrees(SortedMap(U32()).decode(old(Unread())), r, Unread())
    {
      SortedMapDecodes(U32(), Unread());
      var count :- ReadU32();
      r := ReadU32MapEntries(count, Pair(Str(), U32()).decode);
    }

    method ReadU32MapEntries(count: nat, ghost decode: Bytes -> Parsed<(Bytes, nat)>) returns (r: Result<map<Bytes, nat>>)
      requires Valid() && Same(decode, Pair(Str(), U32()).decode)
      modifies this
      ensures Valid() && Agrees(DecodeInto(decode, count, old(Unread()), map[]), r, Unread())
    {
      var out: map<Bytes, nat> := map[];
      ghost var all := DecodeInto(decode, count, Unread(), out);
      for i := 0 to count
        invariant Valid() && all == DecodeInto(decode, count - i, Unread(), out)
      {
        DecodeIntoStep(decode, count - i, Unread(), out);
        var e := ReadU32MapEntry(decode);
        if e.Failure? { return Failure(e.error); }
        out := out[e.value.0 := e.value.1];
      }
      return Success(out);
    }

    method ReadU32MapEntry(ghost decode: Bytes -> Parsed<(Bytes, nat)>) returns (r: Result<(Bytes, nat)>)
      requires Valid() && Same(decode, Pair(Str(), U32()).decode)
      modifies this
      ensures Valid() && Agrees(decode(old(Unread())), r, Unread())
    {
      assert At(Unread());
      var key :- ReadString();
      var value :- ReadU32();
      return Success((key, value));
    }

    /** The nested map of the PPMI counts. */
    method ReadNestedMap() returns (r: Result<map<Bytes, map<Bytes, nat>>>)
      requires Valid()
      modifies this
      ensures Valid() && Agrees(SortedMap(SortedMap(U32())).decode(old(Unread())), r, Unread())
    {
      SortedMapDecodes(SortedMap(U32()), Unread());
      var count :- ReadU32();
      r := ReadNestedMapEntries(count, Pair(Str(), SortedMap(U32())).decode);
    }

    method ReadNestedMapEntries(count: nat, ghost decode: Bytes -> Parsed<(Bytes, map<Bytes, nat>)>) returns (r: Result<map<Bytes, map<Bytes, nat>>>)
      requires Valid() && Same(decode, Pair(Str(), SortedMap(U32())).decode)
      modifies this
      ensures Valid() && Agrees(DecodeInto(decode, count, old(Unread()), map[]), r, Unread())
    {
      var out: map<Bytes, map<Bytes, nat>> := map[];
      ghost var all := DecodeInto(decode, count, Unread(), out);
      for i := 0 to count
        invariant Valid() && all == DecodeInto(decode, count - i, Unread(), out)
      {
        DecodeIntoStep(decode, count - i, Unread(), out);
        var e := ReadNestedMapEntry(decode);
        if e.Failure? { return Failure(e.error); }
        out := out[e.value.0 := e.value.1];
      }
      return Success(out);
    }

    method ReadNestedMapEntry(ghost decode: Bytes -> Parsed<(Bytes, map<Bytes, nat>)>) returns (r: Result<(Bytes, map<Bytes, nat>)>)
      requires Valid() && Same(decode, Pair(Str(), SortedMap(U32())).decode)
      modifies this
      ensures Valid() && Agrees(decode(old(Unread())), r, Unread())
    {
      assert At(Unread());
      var key :- ReadString();
      var value :- ReadU32Map();
      return Success((key, value));
    }
  }
}
