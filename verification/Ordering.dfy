/** Byte strings, their lexicographic order, and the sort the ports call from
    their standard libraries.  A `String` of the original is its UTF-8 bytes. */
module Ordering {

  type Byte = b: int | 0 <= b < 256
  type Bytes = seq<Byte>

  function Min(a: nat, b: nat): nat {
    if a < b then a else b
  }

  function Max(a: nat, b: nat): nat {
    if a > b then a else b
  }

  /** `a` comes strictly before `b` in byte order (Rust's `Ord` for `str`). */
  predicate BytesLess(a: Bytes, b: Bytes) {
    b != [] && (a == [] || a[0] < b[0] || (a[0] == b[0] && BytesLess(a[1..], b[1..])))
  }

  ghost predicate StrictTotalOrder<T(!new)>(less: (T, T) -> bool) {
    && (forall x :: !less(x, x))
    && (forall x, y :: less(x, y) || x == y || less(y, x))
    && (forall x, y, z :: less(x, y) && less(y, z) ==> less(x, z))
  }

  ghost predicate Ascending<T>(s: seq<T>, less: (T, T) -> bool) {
    forall i, j :: 0 <= i < j < |s| ==> less(s[i], s[j])
  }

  ghost predicate NoDuplicates<T>(s: seq<T>) {
    forall i, j :: 0 <= i < j < |s| ==> s[i] != s[j]
  }

  ghost function Elements<T>(s: seq<T>): set<T> {
    set x | x in s
  }

  lemma {:induction false} BytesLessIrreflexive(a: Bytes)
    ensures !BytesLess(a, a)
  {
    if a != [] { BytesLessIrreflexive(a[1..]); }
  }

  lemma {:induction false} BytesLessConnected(a: Bytes, b: Bytes)
    ensures BytesLess(a, b) || a == b || BytesLess(b, a)
  {
    if a != [] && b != [] && a[0] == b[0] {
      BytesLessConnected(a[1..], b[1..]);
      if a[1..] == b[1..] { assert a == [a[0]] + a[1..] == b; }
    }
  }

  lemma {:induction false} BytesLessTransitive(a: Bytes, b: Bytes, c: Bytes)
    requires BytesLess(a, b) && BytesLess(b, c)
    ensures BytesLess(a, c)
  {
    if a != [] && a[0] == b[0] == c[0] { BytesLessTransitive(a[1..], b[1..], c[1..]); }
  }

  lemma BytesLessIsStrictTotalOrder()
    ensures StrictTotalOrder(BytesLess)
  {
    forall a: Bytes ensures !BytesLess(a, a) { BytesLessIrreflexive(a); }
    forall a: Bytes, b: Bytes ensures BytesLess(a, b) || a == b || BytesLess(b, a) { BytesLessConnected(a, b); }
    forall a: Bytes, b: Bytes, c: Bytes | BytesLess(a, b) && BytesLess(b, c) ensures BytesLess(a, c) {
      BytesLessTransitive(a, b, c);
    }
  }

  /** Comparing two strings cut at the same place: the first parts decide unless
      they are equal. */
  lemma {:induction false} BytesLessAppend(a: Bytes, a': Bytes, b: Bytes, b': Bytes)
    requires |a| == |b|
    ensures BytesLess(a + a', b + b') <==> BytesLess(a, b) || (a == b && BytesLess(a', b'))
  {
    if a == [] {
      assert a + a' == a' && b + b' == b';
    } else {
      assert (a + a')[1..] == a[1..] + a' && (b + b')[1..] == b[1..] + b';
      assert a == b <==> a[0] == b[0] && a[1..] == b[1..] by {
        assert a == [a[0]] + a[1..] && b == [b[0]] + b[1..];
      }
      BytesLessAppend(a[1..], a', b[1..], b');
    }
  }

  // ---------------------------------------------------------------- sorting

  function InsertBy<T>(x: T, s: seq<T>, less: (T, T) -> bool): seq<T> {
    if s == [] || !less(s[0], x) then [x] + s else [s[0]] + InsertBy(x, s[1..], less)
  }

  /** The library sort: stable, ascending under `less`. */
  function SortBy<T>(s: seq<T>, less: (T, T) -> bool): seq<T> {
    if s == [] then [] else InsertBy(s[0], SortBy(s[1..], less), less)
  }

  lemma {:induction false} InsertPermutes<T>(x: T, s: seq<T>, less: (T, T) -> bool)
    ensures multiset(InsertBy(x, s, less)) == multiset([x] + s)
  {
    if s != [] && less(s[0], x) {
      InsertPermutes(x, s[1..], less);
      assert s == [s[0]] + s[1..];
    }
  }

  lemma {:induction false} SortPermutes<T>(s: seq<T>, less: (T, T) -> bool)
    ensures multiset(SortBy(s, less)) == multiset(s)
  {
    if s != [] {
      SortPermutes(s[1..], less);
      InsertPermutes(s[0], SortBy(s[1..], less), less);
      assert s == [s[0]] + s[1..];
    }
  }

  lemma {:induction false} InsertAscending<T(!new)>(x: T, s: seq<T>, less: (T, T) -> bool)
    requires StrictTotalOrder(less) && Ascending(s, less) && x !in s
    ensures Ascending(InsertBy(x, s, less), less)
  {
    if s != [] && less(s[0], x) {
      var r := InsertBy(x, s[1..], less);
      InsertAscending(x, s[1..], less);
      InsertPermutes(x, s[1..], less);
      forall k | 0 <= k < |r| ensures less(s[0], r[k]) {
        assert r[k] in multiset([x] + s[1..]);
      }
    }
  }

  /** Sorting distinct elements: ascending, and the same elements. */
  lemma {:induction false} SortAscends<T(!new)>(s: seq<T>, less: (T, T) -> bool)
    requires StrictTotalOrder(less) && NoDuplicates(s)
    ensures Ascending(SortBy(s, less), less)
    ensures |SortBy(s, less)| == |s| && Elements(SortBy(s, less)) == Elements(s)
  {
    SortPermutes(s, less);
    SamePermutationSameElements(SortBy(s, less), s);
    if s != [] {
      SortAscends(s[1..], less);
      assert s[0] !in s[1..];
      assert s[0] !in Elements(s[1..]);
      assert s[0] !in SortBy(s[1..], less);
      InsertAscending(s[0], SortBy(s[1..], less), less);
    }
  }

  lemma SamePermutationSameElements<T>(a: seq<T>, b: seq<T>)
    requires multiset(a) == multiset(b)
    ensures |a| == |b| && Elements(a) == Elements(b)
  {
    assert |a| == |multiset(a)| && |b| == |multiset(b)|;
    forall x ensures x in a <==> x in b {
      assert x in a <==> x in multiset(a);
    }
  }

  /** An ascending enumeration of a set is unique: whatever order the keys of a
      hash map come out in, sorting them gives one sequence. */
  lemma {:induction false} AscendingUnique<T(!new)>(a: seq<T>, b: seq<T>, less: (T, T) -> bool)
    requires StrictTotalOrder(less) && Ascending(a, less) && Ascending(b, less)
    requires Elements(a) == Elements(b)
    ensures a == b
  {
    if b != [] { assert b[0] in Elements(b); }
    if a != [] {
      assert a[0] in Elements(b);
      assert b != [] && b[0] in Elements(a);
      assert a[0] == b[0];
      forall x ensures x in Elements(a[1..]) <==> x in Elements(b[1..]) {
        assert a == [a[0]] + a[1..] && b == [b[0]] + b[1..];
        assert x in Elements(a) <==> x in Elements(b);
        assert x in a[1..] ==> x != a[0];
        assert x in b[1..] ==> x != b[0];
      }
      AscendingUnique(a[1..], b[1..], less);
      assert a == [a[0]] + a[1..] && b == [b[0]] + b[1..];
    }
  }

  lemma OneMore<T>(x: T, rest: seq<T>)
    requires NoDuplicates(rest) && x !in Elements(rest)
    ensures NoDuplicates([x] + rest) && Elements([x] + rest) == {x} + Elements(rest)
  {
    forall i | 0 <= i < |rest| ensures rest[i] != x { assert rest[i] in Elements(rest); }
  }

  lemma OneMoreAtEnd<T>(s: seq<T>, x: T)
    requires NoDuplicates(s) && x !in Elements(s)
    ensures NoDuplicates(s + [x]) && Elements(s + [x]) == Elements(s) + {x}
  {
    forall i | 0 <= i < |s| ensures s[i] != x { assert s[i] in Elements(s); }
  }

  ghost function Enumerate<T>(s: set<T>): (r: seq<T>)
    ensures Elements(r) == s && NoDuplicates(r) && |r| == |s|
  {
    if s == {} then [] else
      var x :| x in s;
      var rest := Enumerate(s - {x});
      OneMore(x, rest);
      [x] + rest
  }

  /** The ascending enumeration of a finite set. */
  ghost function Sorted<T(!new)>(s: set<T>, less: (T, T) -> bool): (r: seq<T>)
    requires StrictTotalOrder(less)
    ensures Ascending(r, less) && NoDuplicates(r) && Elements(r) == s && |r| == |s|
  {
    SortAscends(Enumerate(s), less);
    SortBy(Enumerate(s), less)
  }

  /** Sorting any enumeration of a set gives that set's ascending enumeration. */
  lemma SortingAnyEnumeration<T(!new)>(keys: seq<T>, s: set<T>, less: (T, T) -> bool)
    requires StrictTotalOrder(less) && NoDuplicates(keys) && Elements(keys) == s
    ensures SortBy(keys, less) == Sorted(s, less)
  {
    SortAscends(keys, less);
    AscendingUnique(SortBy(keys, less), Sorted(s, less), less);
  }

  lemma {:induction false} DistinctCount<T>(s: seq<T>)
    requires NoDuplicates(s)
    ensures |Elements(s)| == |s|
  {
    if s == [] {
      assert Elements(s) == {};
    } else {
      DistinctCount(s[1..]);
      assert s[0] !in Elements(s[1..]);
      assert Elements(s) == Elements(s[1..]) + {s[0]};
    }
  }
}
