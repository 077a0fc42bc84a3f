/**
 * The ordering used by `list.sort(key=...)`: keys are either text
 * (compared as Python compares `str`, code point by code point) or
 * instants (compared as integers), and the sort is stable. The sort is
 * modelled as a stable insertion sort; SortIsUnique shows that any
 * stable sort, Python's included, yields the same sequence.
 */
module Sorting {

  datatype Key = Text(s: string) | Instant(t: int)

  /** Python's `<=` on strings: lexicographic by code point, a prefix first. */
  predicate LexLe(a: string, b: string) {
    a == [] || (b != [] && (a[0] < b[0] || (a[0] == b[0] && LexLe(a[1..], b[1..]))))
  }

  predicate KeyLe(a: Key, b: Key) {
    match (a, b)
    case (Text(x), Text(y)) => LexLe(x, y)
    case (Instant(x), Instant(y)) => x <= y
    case (Text(_), Instant(_)) => true
    case (Instant(_), Text(_)) => false
  }

  lemma {:induction false} LexReflexive(a: string)
    ensures LexLe(a, a)
  {
    if a != [] {
      LexReflexive(a[1..]);
    }
  }

  lemma {:induction false} LexTotal(a: string, b: string)
    ensures LexLe(a, b) || LexLe(b, a)
  {
    if a != [] && b != [] && a[0] == b[0] {
      LexTotal(a[1..], b[1..]);
    }
  }

  lemma {:induction false} LexAntisymmetric(a: string, b: string)
    requires LexLe(a, b) && LexLe(b, a)
    ensures a == b
  {
    if a != [] && b != [] {
      LexAntisymmetric(a[1..], b[1..]);
      assert a == [a[0]] + a[1..] && b == [b[0]] + b[1..];
    }
  }

  lemma {:induction false} LexTransitive(a: string, b: string, c: string)
    requires LexLe(a, b) && LexLe(b, c)
    ensures LexLe(a, c)
  {
    if a != [] && b != [] && c != [] && a[0] == b[0] == c[0] {
      LexTransitive(a[1..], b[1..], c[1..]);
    }
  }

  lemma KeyReflexive(a: Key)
    ensures KeyLe(a, a)
  {
    if a.Text? { LexReflexive(a.s); }
  }

  lemma KeyTotal(a: Key, b: Key)
    ensures KeyLe(a, b) || KeyLe(b, a)
  {
    if a.Text? && b.Text? { LexTotal(a.s, b.s); }
  }

  lemma KeyAntisymmetric(a: Key, b: Key)
    requires KeyLe(a, b) && KeyLe(b, a)
    ensures a == b
  {
    if a.Text? && b.Text? { LexAntisymmetric(a.s, b.s); }
  }

  lemma KeyTransitive(a: Key, b: Key, c: Key)
    requires KeyLe(a, b) && KeyLe(b, c)
    ensures KeyLe(a, c)
  {
    if a.Text? && b.Text? && c.Text? { LexTransitive(a.s, b.s, c.s); }
  }

  ghost predicate Sorted<T>(s: seq<T>, key: T -> Key) {
    forall i, j :: 0 <= i < j < |s| ==> KeyLe(key(s[i]), key(s[j]))
  }

  /** The elements of `s` whose key is `k`, in their order in `s`. */
  function WithKey<T>(s: seq<T>, key: T -> Key, k: Key): seq<T> {
    if s == [] then []
    else if key(s[0]) == k then [s[0]] + WithKey(s[1..], key, k)
    else WithKey(s[1..], key, k)
  }

  /** Inserts `x` ahead of the first element whose key is not below its own. */
  function Insert<T>(x: T, s: seq<T>, key: T -> Key): seq<T> {
    if s == [] || KeyLe(key(x), key(s[0])) then [x] + s
    else [s[0]] + Insert(x, s[1..], key)
  }

  /** Stable sort of `s` by `key`. */
  function SortBy<T>(s: seq<T>, key: T -> Key): seq<T> {
    if s == [] then [] else Insert(s[0], SortBy(s[1..], key), key)
  }

  lemma {:induction false} InsertPermutes<T>(x: T, s: seq<T>, key: T -> Key)
    ensures multiset(Insert(x, s, key)) == multiset(s) + multiset{x}
  {
    if s != [] && !KeyLe(key(x), key(s[0])) {
      InsertPermutes(x, s[1..], key);
      assert s == [s[0]] + s[1..];
    }
  }

  lemma {:induction false} InsertSorted<T>(x: T, s: seq<T>, key: T -> Key)
    requires Sorted(s, key)
    ensures Sorted(Insert(x, s, key), key)
  {
    if s == [] {
    } else if KeyLe(key(x), key(s[0])) {
      var r := [x] + s;
      forall i, j | 0 <= i < j < |r| ensures KeyLe(key(r[i]), key(r[j])) {
        if i == 0 && j > 1 {
          KeyTransitive(key(x), key(s[0]), key(s[j - 1]));
        }
      }
    } else {
      KeyTotal(key(x), key(s[0]));
      var tail := Insert(x, s[1..], key);
      InsertSorted(x, s[1..], key);
      InsertPermutes(x, s[1..], key);
      forall j | 0 <= j < |tail| ensures KeyLe(key(s[0]), key(tail[j])) {
        assert tail[j] in multiset(tail);
        if tail[j] != x {
          assert tail[j] in multiset(s[1..]);
          var k :| 0 <= k < |s[1..]| && s[1..][k] == tail[j];
          assert s[k + 1] == tail[j];
        }
      }
    }
  }

  /** The sort returns the same elements, as many times each. */
  lemma {:induction false} SortPermutes<T>(s: seq<T>, key: T -> Key)
    ensures multiset(SortBy(s, key)) == multiset(s)
  {
    if s != [] {
      SortPermutes(s[1..], key);
      InsertPermutes(s[0], SortBy(s[1..], key), key);
      assert s == [s[0]] + s[1..];
    }
  }

  /** The sort returns a sequence ordered by key. */
  lemma {:induction false} SortSorts<T>(s: seq<T>, key: T -> Key)
    ensures Sorted(SortBy(s, key), key)
  {
    if s != [] {
      SortSorts(s[1..], key);
      InsertSorted(s[0], SortBy(s[1..], key), key);
    }
  }

  lemma {:induction false} InsertStable<T>(x: T, s: seq<T>, key: T -> Key, k: Key)
    ensures WithKey(Insert(x, s, key), key, k)
         == (if key(x) == k then [x] else []) + WithKey(s, key, k)
  {
    if s == [] || KeyLe(key(x), key(s[0])) {
      assert ([x] + s)[1..] == s;
    } else {
      KeyReflexive(key(x));
      InsertStable(x, s[1..], key, k);
      assert ([s[0]] + Insert(x, s[1..], key))[1..] == Insert(x, s[1..], key);
    }
  }

  /** Equal keys keep their relative order. */
  lemma {:induction false} SortStable<T>(s: seq<T>, key: T -> Key, k: Key)
    ensures WithKey(SortBy(s, key), key, k) == WithKey(s, key, k)
  {
    if s != [] {
      SortStable(s[1..], key, k);
      InsertStable(s[0], SortBy(s[1..], key), key, k);
    }
  }

  lemma {:induction false} WithKeyMember<T>(s: seq<T>, key: T -> Key, k: Key, x: T)
    requires x in WithKey(s, key, k)
    ensures x in s && key(x) == k
  {
    if s != [] && !(key(s[0]) == k && x == s[0]) {
      WithKeyMember(s[1..], key, k, x);
    }
  }

  lemma WithKeyHead<T>(s: seq<T>, key: T -> Key)
    ensures s != [] ==> WithKey(s, key, key(s[0])) != [] && WithKey(s, key, key(s[0]))[0] == s[0]
  {
  }

  /**
   * A sorted sequence is determined by its groups of equal keys: two
   * sorted sequences that agree group by group are the same. So every
   * stable sort of the same input gives the result of SortBy.
   */
  lemma {:induction false} SortIsUnique<T>(r1: seq<T>, r2: seq<T>, key: T -> Key)
    requires Sorted(r1, key) && Sorted(r2, key)
    requires forall k :: WithKey(r1, key, k) == WithKey(r2, key, k)
    ensures r1 == r2
    decreases |r1|
  {
    if r1 == [] || r2 == [] {
      WithKeyHead(r1, key);
      WithKeyHead(r2, key);
    } else {
      var k1, k2 := key(r1[0]), key(r2[0]);
      WithKeyHead(r1, key);
      WithKeyHead(r2, key);
      // The head of r1 has a key that occurs in r2, so it is not below r2's head, and vice versa.
      assert r1[0] in WithKey(r2, key, k1);
      WithKeyMember(r2, key, k1, r1[0]);
      var i :| 0 <= i < |r2| && r2[i] == r1[0];
      assert KeyLe(k2, k1) by { if i > 0 { } else { KeyReflexive(k1); } }
      assert r2[0] in WithKey(r1, key, k2);
      WithKeyMember(r1, key, k2, r2[0]);
      var j :| 0 <= j < |r1| && r1[j] == r2[0];
      assert KeyLe(k1, k2) by { if j > 0 { } else { KeyReflexive(k2); } }
      KeyAntisymmetric(k1, k2);
      assert r1[0] == r2[0];
      forall k ensures WithKey(r1[1..], key, k) == WithKey(r2[1..], key, k) {
        var w1, w2 := WithKey(r1, key, k), WithKey(r2, key, k);
        assert w1 == w2;
        if k1 == k {
          assert w1 == [r1[0]] + WithKey(r1[1..], key, k);
          assert w2 == [r2[0]] + WithKey(r2[1..], key, k);
          assert w1[1..] == WithKey(r1[1..], key, k);
        } else {
          assert w1 == WithKey(r1[1..], key, k);
          assert w2 == WithKey(r2[1..], key, k);
        }
      }
      SortIsUnique(r1[1..], r2[1..], key);
      assert r1 == [r1[0]] + r1[1..] && r2 == [r2[0]] + r2[1..];
    }
  }
}
