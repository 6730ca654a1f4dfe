/**
 * The orderings the system sorts by. Go's `sort.Strings`/`<` on strings and Python's `<` on `str`
 * both compare code point by code point (Go compares UTF-8 bytes, whose order is the code point
 * order), which is `LexLess` over `char`. Tuple keys such as (apiVersion, kind, namespace, name)
 * compare lexicographically field by field, which is `LexLess` over strings.
 *
 * Every sort of the system (`sort.SliceStable`, `sort.Strings`, `sort.Slice`, Python `sorted` and
 * `list.sort`) is modelled by one stable insertion sort, `SortBy`, over such a key.
 */
module Ordering {

  /** `less` is a strict total order on `T`. */
  ghost predicate StrictTotalOrder<T(!new)>(less: (T, T) -> bool) {
    (forall x :: !less(x, x)) &&
    (forall x, y, z :: less(x, y) && less(y, z) ==> less(x, z)) &&
    (forall x, y :: x != y ==> less(x, y) || less(y, x))
  }

  /** Lexicographic strict order on sequences: a proper prefix is smaller. */
  predicate LexLess<T(==)>(a: seq<T>, b: seq<T>, less: (T, T) -> bool)
    decreases |a|
  {
    if |a| == 0 then |b| > 0
    else if |b| == 0 then false
    else less(a[0], b[0]) || (a[0] == b[0] && LexLess(a[1..], b[1..], less))
  }

  lemma {:induction false} LexIrreflexive<T(!new)>(a: seq<T>, less: (T, T) -> bool)
    requires StrictTotalOrder(less)
    ensures !LexLess(a, a, less)
    decreases |a|
  {
    if |a| > 0 {
      LexIrreflexive(a[1..], less);
    }
  }

  lemma {:induction false} LexTransitive<T(!new)>(a: seq<T>, b: seq<T>, c: seq<T>, less: (T, T) -> bool)
    requires StrictTotalOrder(less)
    requires LexLess(a, b, less) && LexLess(b, c, less)
    ensures LexLess(a, c, less)
    decreases |a|
  {
    if |a| > 0 && |b| > 0 && |c| > 0 && a[0] == b[0] && b[0] == c[0] {
      LexTransitive(a[1..], b[1..], c[1..], less);
    }
  }

  lemma {:induction false} LexTotal<T(!new)>(a: seq<T>, b: seq<T>, less: (T, T) -> bool)
    requires StrictTotalOrder(less)
    ensures a == b || LexLess(a, b, less) || LexLess(b, a, less)
    decreases |a|
  {
    if |a| > 0 && |b| > 0 && a[0] == b[0] {
      LexTotal(a[1..], b[1..], less);
      if a[1..] == b[1..] {
        assert a == [a[0]] + a[1..] && b == [b[0]] + b[1..];
      }
    }
  }

  predicate CharLess(x: char, y: char) {
    x < y
  }

  /** String order: code point by code point. */
  predicate StrLess(a: string, b: string) {
    LexLess(a, b, CharLess)
  }

  /** Order of key tuples: field by field, each field a string. */
  predicate KeyLess(a: seq<string>, b: seq<string>) {
    LexLess(a, b, StrLess)
  }

  /** Lexicographic order over a strict total order is one. */
  lemma LexOrder<T(!new)>(less: (T, T) -> bool, lex: (seq<T>, seq<T>) -> bool)
    requires StrictTotalOrder(less)
    requires forall a, b :: lex(a, b) == LexLess(a, b, less)
    ensures StrictTotalOrder(lex)
  {
    forall a: seq<T> ensures !lex(a, a) {
      LexIrreflexive(a, less);
    }
    forall a: seq<T>, b: seq<T>, c: seq<T> | lex(a, b) && lex(b, c) ensures lex(a, c) {
      LexTransitive(a, b, c, less);
    }
    forall a: seq<T>, b: seq<T> | a != b ensures lex(a, b) || lex(b, a) {
      LexTotal(a, b, less);
    }
  }

  lemma StrLessOrder()
    ensures StrictTotalOrder(StrLess)
  {
    assert StrictTotalOrder(CharLess);
    LexOrder(CharLess, StrLess);
  }

  lemma KeyLessOrder()
    ensures StrictTotalOrder(KeyLess)
  {
    StrLessOrder();
    LexOrder(StrLess, KeyLess);
  }

  /** A one-field key compares as its field does. */
  lemma SingleKeyLess(x: string, y: string)
    ensures KeyLess([x], [y]) <==> StrLess(x, y)
  {
    StrLessOrder();
    assert [x][1..] == [] && [y][1..] == [];
    assert !LexLess([x][1..], [y][1..], StrLess);
    assert KeyLess([x], [y]) == (StrLess(x, y) || (x == y && LexLess([x][1..], [y][1..], StrLess)));
  }

  // ---------------------------------------------------------------------------------------------
  // Stable sorting by a key.

  /** No element is followed by one with a smaller key. */
  predicate Sorted<T>(s: seq<T>, key: T -> seq<string>) {
    forall i, j :: 0 <= i < j < |s| ==> !KeyLess(key(s[j]), key(s[i]))
  }

  /** Inserts `x` after the last element whose key is not greater than `x`'s. */
  function Insert<T>(s: seq<T>, x: T, key: T -> seq<string>): seq<T> {
    if |s| == 0 then [x]
    else if KeyLess(key(x), key(s[|s| - 1])) then Insert(s[..|s| - 1], x, key) + [s[|s| - 1]]
    else s + [x]
  }

  /** Stable insertion sort: the reference for every sort of the system. */
  function SortBy<T>(s: seq<T>, key: T -> seq<string>): seq<T> {
    if |s| == 0 then [] else Insert(SortBy(s[..|s| - 1], key), s[|s| - 1], key)
  }

  /** The elements of `s` whose key is `k`, in their order in `s`. */
  function WithKey<T>(s: seq<T>, key: T -> seq<string>, k: seq<string>): seq<T> {
    if |s| == 0 then []
    else WithKey(s[..|s| - 1], key, k) + (if key(s[|s| - 1]) == k then [s[|s| - 1]] else [])
  }

  lemma {:induction false} WithKeyConcat<T>(a: seq<T>, b: seq<T>, key: T -> seq<string>, k: seq<string>)
    ensures WithKey(a + b, key, k) == WithKey(a, key, k) + WithKey(b, key, k)
    decreases |b|
  {
    if |b| == 0 {
      assert a + b == a;
    } else {
      assert (a + b)[..|a + b| - 1] == a + b[..|b| - 1];
      WithKeyConcat(a, b[..|b| - 1], key, k);
    }
  }

  lemma {:induction false} InsertMultiset<T>(s: seq<T>, x: T, key: T -> seq<string>)
    ensures multiset(Insert(s, x, key)) == multiset(s) + multiset{x}
    decreases |s|
  {
    if |s| > 0 {
      assert s == s[..|s| - 1] + [s[|s| - 1]];
      if KeyLess(key(x), key(s[|s| - 1])) {
        InsertMultiset(s[..|s| - 1], x, key);
      }
    }
  }

  lemma {:induction false} InsertSorted<T>(s: seq<T>, x: T, key: T -> seq<string>)
    requires Sorted(s, key)
    ensures Sorted(Insert(s, x, key), key)
    decreases |s|
  {
    KeyLessOrder();
    if |s| > 0 {
      var init, last := s[..|s| - 1], s[|s| - 1];
      if KeyLess(key(x), key(last)) {
        InsertSorted(init, x, key);
        InsertMultiset(init, x, key);
        var r := Insert(init, x, key);
        forall i | 0 <= i < |r| ensures !KeyLess(key(last), key(r[i])) {
          assert r[i] in multiset(r);
          assert r[i] == x || r[i] in multiset(init);
        }
      } else {
        forall i | 0 <= i < |s| ensures !KeyLess(key(x), key(s[i])) {
          if i < |s| - 1 {
            assert !KeyLess(key(last), key(s[i]));
          }
        }
      }
    }
  }

  lemma {:induction false} InsertWithKey<T>(s: seq<T>, x: T, key: T -> seq<string>, k: seq<string>)
    ensures WithKey(Insert(s, x, key), key, k) == WithKey(s, key, k) + (if key(x) == k then [x] else [])
    decreases |s|
  {
    KeyLessOrder();
    if |s| == 0 {
      assert WithKey([x], key, k) == WithKey([], key, k) + (if key(x) == k then [x] else []);
    } else {
      var init, last := s[..|s| - 1], s[|s| - 1];
      if KeyLess(key(x), key(last)) {
        InsertWithKey(init, x, key, k);
        WithKeyConcat(Insert(init, x, key), [last], key, k);
        assert WithKey([last], key, k) == WithKey([], key, k) + (if key(last) == k then [last] else []);
        assert [last][..0] == [];
        assert key(x) == k ==> key(last) != k;
      } else {
        assert (s + [x])[..|s|] == s;
      }
    }
  }

  /** The sorted sequence holds the same elements, as many times each. */
  lemma {:induction false} SortByPermutation<T>(s: seq<T>, key: T -> seq<string>)
    ensures multiset(SortBy(s, key)) == multiset(s)
    ensures |SortBy(s, key)| == |s|
    decreases |s|
  {
    if |s| > 0 {
      SortByPermutation(s[..|s| - 1], key);
      InsertMultiset(SortBy(s[..|s| - 1], key), s[|s| - 1], key);
      assert s == s[..|s| - 1] + [s[|s| - 1]];
    }
    assert |multiset(SortBy(s, key))| == |SortBy(s, key)|;
  }

  /** The sorted sequence is ordered by key. */
  lemma {:induction false} SortBySorted<T>(s: seq<T>, key: T -> seq<string>)
    ensures Sorted(SortBy(s, key), key)
    decreases |s|
  {
    if |s| > 0 {
      SortBySorted(s[..|s| - 1], key);
      InsertSorted(SortBy(s[..|s| - 1], key), s[|s| - 1], key);
    }
  }

  /** Stability: elements with equal keys keep their relative order. */
  lemma {:induction false} SortByStable<T>(s: seq<T>, key: T -> seq<string>, k: seq<string>)
    ensures WithKey(SortBy(s, key), key, k) == WithKey(s, key, k)
    decreases |s|
  {
    if |s| > 0 {
      SortByStable(s[..|s| - 1], key, k);
      InsertWithKey(SortBy(s[..|s| - 1], key), s[|s| - 1], key, k);
    }
  }

  /** Sorting an already sorted sequence changes nothing. */
  lemma {:induction false} SortBySortedIdentity<T>(s: seq<T>, key: T -> seq<string>)
    requires Sorted(s, key)
    ensures SortBy(s, key) == s
    decreases |s|
  {
    if |s| > 0 {
      var init := s[..|s| - 1];
      assert Sorted(init, key);
      SortBySortedIdentity(init, key);
      assert s == init + [s[|s| - 1]];
    }
  }

  /** An element picked out by key `k` is an element of `s` with that key. */
  lemma {:induction false} WithKeyMember<T>(s: seq<T>, key: T -> seq<string>, k: seq<string>, x: T)
    requires x in WithKey(s, key, k)
    ensures x in s && key(x) == k
    decreases |s|
  {
    if x in WithKey(s[..|s| - 1], key, k) {
      WithKeyMember(s[..|s| - 1], key, k, x);
    }
  }

  /**
   * A sorted sequence is determined by what it holds under each key: two sorted sequences that
   * list the same elements, in the same order, under every key are equal.
   */
  lemma {:induction false} SortedByKeysUnique<T>(a: seq<T>, b: seq<T>, key: T -> seq<string>)
    requires Sorted(a, key) && Sorted(b, key)
    requires forall k :: WithKey(a, key, k) == WithKey(b, key, k)
    ensures a == b
    decreases |a| + |b|
  {
    if |a| == 0 || |b| == 0 {
      if |a| > 0 {
        LastWithKey(a, key);
      } else if |b| > 0 {
        LastWithKey(b, key);
      }
    } else {
      var a', b' := a[..|a| - 1], b[..|b| - 1];
      LastKeysAgree(a, b, key);
      assert a == a' + [a[|a| - 1]] && b == b' + [b[|b| - 1]];
      DropLastAgrees(a', a[|a| - 1], b', b[|b| - 1], key);
      SortedDropLast(a, key);
      SortedDropLast(b, key);
      SortedByKeysUnique(a', b', key);
    }
  }

  /** Dropping the last element keeps a sequence sorted. */
  lemma SortedDropLast<T>(s: seq<T>, key: T -> seq<string>)
    requires Sorted(s, key) && |s| > 0
    ensures Sorted(s[..|s| - 1], key)
  {
  }

  /** Two sorted sequences with the same elements under every key end with elements of one key. */
  lemma LastKeysAgree<T>(a: seq<T>, b: seq<T>, key: T -> seq<string>)
    requires Sorted(a, key) && Sorted(b, key) && |a| > 0 && |b| > 0
    requires forall k :: WithKey(a, key, k) == WithKey(b, key, k)
    ensures key(a[|a| - 1]) == key(b[|b| - 1])
  {
    KeyLessOrder();
    var x, y := a[|a| - 1], b[|b| - 1];
    LastWithKey(a, key);
    LastWithKey(b, key);
    assert x in WithKey(a, key, key(x));
    WithKeyMember(b, key, key(x), x);
    assert y in WithKey(b, key, key(y));
    WithKeyMember(a, key, key(y), y);
    assert !KeyLess(key(y), key(x)) by {
      var i :| 0 <= i < |b| && b[i] == x;
      assert i == |b| - 1 || !KeyLess(key(b[|b| - 1]), key(b[i]));
    }
    assert !KeyLess(key(x), key(y)) by {
      var i :| 0 <= i < |a| && a[i] == y;
      assert i == |a| - 1 || !KeyLess(key(a[|a| - 1]), key(a[i]));
    }
  }

  /**
   * When two such sequences end with elements of one key, those last elements are equal and the
   * sequences without them still agree under every key.
   */
  lemma DropLastAgrees<T>(a': seq<T>, x: T, b': seq<T>, y: T, key: T -> seq<string>)
    requires forall k :: WithKey(a' + [x], key, k) == WithKey(b' + [y], key, k)
    requires key(x) == key(y)
    ensures x == y
    ensures forall k :: WithKey(a', key, k) == WithKey(b', key, k)
  {
    var a, b := a' + [x], b' + [y];
    assert a[..|a| - 1] == a' && b[..|b| - 1] == b';
    assert WithKey(a, key, key(x)) == WithKey(a', key, key(x)) + [x];
    assert WithKey(b, key, key(x)) == WithKey(b', key, key(x)) + [y];
    forall k ensures WithKey(a', key, k) == WithKey(b', key, k) {
      if k == key(x) {
        assert WithKey(a', key, k) + [x] == WithKey(b', key, k) + [y];
        assert WithKey(a', key, k) == (WithKey(a', key, k) + [x])[..|WithKey(a', key, k)|];
      } else {
        assert WithKey(a, key, k) == WithKey(a', key, k);
        assert WithKey(b, key, k) == WithKey(b', key, k);
      }
    }
    assert x == y by {
      var wa, wb := WithKey(a', key, key(x)), WithKey(b', key, key(x));
      assert wa + [x] == wb + [y];
      assert |wa| == |wb|;
      assert (wa + [x])[|wa|] == x && (wb + [y])[|wb|] == y;
    }
  }

  /** The last element is listed under its own key. */
  lemma LastWithKey<T>(s: seq<T>, key: T -> seq<string>)
    requires |s| > 0
    ensures |WithKey(s, key, key(s[|s| - 1]))| > 0
  {
  }

  /**
   * The sorted order depends only on the elements under each key in their order: inputs that
   * differ in how elements of different keys are interleaved sort to the same sequence.
   */
  lemma SortByKeysDetermined<T>(a: seq<T>, b: seq<T>, key: T -> seq<string>)
    requires forall k :: WithKey(a, key, k) == WithKey(b, key, k)
    ensures SortBy(a, key) == SortBy(b, key)
  {
    SortBySorted(a, key);
    SortBySorted(b, key);
    forall k ensures WithKey(SortBy(a, key), key, k) == WithKey(SortBy(b, key), key, k) {
      SortByStable(a, key, k);
      SortByStable(b, key, k);
    }
    SortedByKeysUnique(SortBy(a, key), SortBy(b, key), key);
  }

  /** Sorting is idempotent. */
  lemma SortByIdempotent<T>(s: seq<T>, key: T -> seq<string>)
    ensures SortBy(SortBy(s, key), key) == SortBy(s, key)
  {
    SortBySorted(s, key);
    SortBySortedIdentity(SortBy(s, key), key);
  }

  // ---------------------------------------------------------------------------------------------
  // Sorting plain strings (`sort.Strings`).

  function StrKey(x: string): seq<string> {
    [x]
  }

  /** `sort.Strings`. */
  function SortStrings(s: seq<string>): (r: seq<string>)
    ensures multiset(r) == multiset(s)
    ensures forall i, j :: 0 <= i < j < |r| ==> !StrLess(r[j], r[i])
  {
    SortByPermutation(s, StrKey);
    SortBySorted(s, StrKey);
    var r := SortBy(s, StrKey);
    assert forall i, j :: 0 <= i < j < |r| ==> !StrLess(r[j], r[i]) by {
      forall i, j | 0 <= i < j < |r| ensures !StrLess(r[j], r[i]) {
        SingleKeyLess(r[j], r[i]);
      }
    }
    r
  }

  /** Strictly increasing: sorted and without repeats. */
  predicate StrictlySorted(s: seq<string>) {
    forall i, j :: 0 <= i < j < |s| ==> StrLess(s[i], s[j])
  }

  /** A sorted sequence without repeats is strictly increasing. */
  lemma SortedDistinct(s: seq<string>)
    requires forall i, j :: 0 <= i < j < |s| ==> !StrLess(s[j], s[i])
    requires forall i, j :: 0 <= i < j < |s| ==> s[i] != s[j]
    ensures StrictlySorted(s)
  {
    StrLessOrder();
  }

  /** The first element of a strictly increasing sequence is its least. */
  lemma StrictlySortedHead(s: seq<string>, x: string)
    requires StrictlySorted(s) && x in s
    ensures s[0] == x || StrLess(s[0], x)
  {
    var i :| 0 <= i < |s| && s[i] == x;
    assert i == 0 || StrLess(s[0], s[i]);
  }

  /**
   * A set of strings has exactly one strictly increasing listing, so the order in which a
   * map was walked to build it never shows in the sorted result.
   */
  lemma {:induction false} StrictlySortedUnique(a: seq<string>, b: seq<string>)
    requires StrictlySorted(a) && StrictlySorted(b)
    requires forall x :: x in a <==> x in b
    ensures a == b
    decreases |a|
  {
    StrLessOrder();
    SameElementsEmpty(a, b);
    if |a| > 0 {
      StrictlySortedHead(b, a[0]);
      StrictlySortedHead(a, b[0]);
      assert a[0] == b[0];
      forall x ensures x in a[1..] <==> x in b[1..] {
        assert x in a <==> x in a[1..] || x == a[0];
        assert x in b <==> x in b[1..] || x == b[0];
        assert x in a[1..] ==> StrLess(a[0], x);
        assert x in b[1..] ==> StrLess(b[0], x);
      }
      StrictlySortedUnique(a[1..], b[1..]);
      assert a == [a[0]] + a[1..] && b == [b[0]] + b[1..];
    }
  }

  lemma SameElementsEmpty(a: seq<string>, b: seq<string>)
    requires forall x :: x in a <==> x in b
    ensures |a| == 0 <==> |b| == 0
  {
    if |a| > 0 {
      assert a[0] in b;
    }
    if |b| > 0 {
      assert b[0] in a;
    }
  }

  predicate Distinct(s: seq<string>) {
    forall i, j :: 0 <= i < j < |s| ==> s[i] != s[j]
  }

  /** A sequence without repeats holds each element once. */
  lemma {:induction false} DistinctCount(s: seq<string>, x: string)
    requires Distinct(s)
    ensures multiset(s)[x] <= 1
    decreases |s|
  {
    if |s| > 0 {
      var init := s[..|s| - 1];
      assert s == init + [s[|s| - 1]];
      DistinctCount(init, x);
      if x == s[|s| - 1] {
        assert x !in init;
      }
    }
  }

  /** An element found at two positions is counted at least twice. */
  lemma RepeatCount(s: seq<string>, i: int, j: int)
    requires 0 <= i < j < |s| && s[i] == s[j]
    ensures multiset(s)[s[i]] >= 2
  {
    assert s == s[..j] + [s[j]] + s[j + 1..];
    assert s[i] in s[..j];
  }

  /** Sorting a sequence without repeats gives its strictly increasing listing. */
  lemma SortStringsDistinct(s: seq<string>)
    requires Distinct(s)
    ensures StrictlySorted(SortStrings(s))
    ensures forall x :: x in SortStrings(s) <==> x in s
  {
    var r := SortStrings(s);
    forall x ensures x in r <==> x in s {
      assert x in r <==> x in multiset(r);
      assert x in s <==> x in multiset(s);
    }
    forall i, j | 0 <= i < j < |r| ensures r[i] != r[j] {
      if r[i] == r[j] {
        RepeatCount(r, i, j);
        DistinctCount(s, r[i]);
        assert false;
      }
    }
    SortedDistinct(r);
  }
}
