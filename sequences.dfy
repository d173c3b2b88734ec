/**
 * Sequence helpers shared by the statistics screens: grouping records by a key in
 * first-appearance order (a JavaScript object filled by a loop keeps its string keys
 * in insertion order), and the stable descending sort `Array.prototype.sort` performs
 * with a comparator `(a, b) => key(b) - key(a)`.
 */
module Sequences {

  /** No value occurs twice. */
  predicate Distinct<T(==)>(s: seq<T>) {
    forall i, j :: 0 <= i < j < |s| ==> s[i] != s[j]
  }

  /** Some element of `s` has key `k`. */
  predicate HasKey<T, K(==)>(s: seq<T>, key: T -> K, k: K) {
    exists i :: 0 <= i < |s| && key(s[i]) == k
  }

  /** The keys of `s`, each once, in the order they first appear. */
  function FirstKeys<T, K(==,!new)>(s: seq<T>, key: T -> K): (ks: seq<K>)
    ensures Distinct(ks)
    ensures forall k :: k in ks <==> HasKey(s, key, k)
  {
    if s == [] then []
    else
      var init := s[..|s| - 1];
      var ks := FirstKeys(init, key);
      var k := key(s[|s| - 1]);
      assert forall j :: HasKey(init, key, j) ==> HasKey(s, key, j) by {
        forall j | HasKey(init, key, j) ensures HasKey(s, key, j) {
          var i :| 0 <= i < |init| && key(init[i]) == j;
          assert key(s[i]) == j;
        }
      }
      assert forall j :: HasKey(s, key, j) ==> HasKey(init, key, j) || j == k by {
        forall j | HasKey(s, key, j) ensures HasKey(init, key, j) || j == k {
          var i :| 0 <= i < |s| && key(s[i]) == j;
          if i < |init| { assert key(init[i]) == j; }
        }
      }
      assert key(s[|s| - 1]) == k;
      if k in ks then ks else ks + [k]
  }

  /** The elements of `s` with key `k`, in their order in `s`. */
  function Having<T, K(==)>(s: seq<T>, key: T -> K, k: K): (r: seq<T>)
    ensures |r| <= |s|
  {
    if s == [] then []
    else Having(s[..|s| - 1], key, k) + (if key(s[|s| - 1]) == k then [s[|s| - 1]] else [])
  }

  /** A group holds exactly the elements that have its key. */
  lemma {:induction false} HavingMembers<T, K>(s: seq<T>, key: T -> K, k: K)
    ensures forall x :: x in Having(s, key, k) ==> x in s && key(x) == k
    ensures forall i :: 0 <= i < |s| && key(s[i]) == k ==> s[i] in Having(s, key, k)
    decreases |s|
  {
    if s != [] {
      var init := s[..|s| - 1];
      HavingMembers(init, key, k);
      assert forall i :: 0 <= i < |init| ==> s[i] == init[i];
    }
  }

  /** Filtering distributes over concatenation. */
  lemma {:induction false} HavingAppend<T, K>(a: seq<T>, b: seq<T>, key: T -> K, k: K)
    ensures Having(a + b, key, k) == Having(a, key, k) + Having(b, key, k)
    decreases |b|
  {
    if b == [] {
      assert a + b == a;
    } else {
      var b' := b[..|b| - 1];
      assert (a + b)[..|a + b| - 1] == a + b';
      HavingAppend(a, b', key, k);
    }
  }

  /** No element has key `k` exactly when the group of `k` is empty. */
  lemma HavingEmpty<T, K>(s: seq<T>, key: T -> K, k: K)
    ensures Having(s, key, k) == [] <==> !HasKey(s, key, k)
  {
    HavingMembers(s, key, k);
    if HasKey(s, key, k) {
      var i :| 0 <= i < |s| && key(s[i]) == k;
      assert s[i] in Having(s, key, k);
    }
    if Having(s, key, k) != [] {
      var x := Having(s, key, k)[0];
      assert x in Having(s, key, k);
      assert x in s;
      var i :| 0 <= i < |s| && s[i] == x;
      assert HasKey(s, key, k);
    }
  }

  /** The group of one element is itself or nothing. */
  lemma HavingSingle<T, K>(y: T, key: T -> K, k: K)
    ensures Having([y], key, k) == if key(y) == k then [y] else []
  {
    assert [y][..0] == [];
  }

  /** The sizes of the groups of the keys `ks`, added up. */
  function GroupSizes<T, K(==)>(s: seq<T>, key: T -> K, ks: seq<K>): nat {
    if ks == [] then 0 else |Having(s, key, ks[0])| + GroupSizes(s, key, ks[1..])
  }

  /** Appending one element adds one to exactly the group of its key. */
  lemma {:induction false} GroupSizesSnoc<T, K>(s: seq<T>, x: T, key: T -> K, ks: seq<K>)
    requires Distinct(ks)
    ensures GroupSizes(s + [x], key, ks) == GroupSizes(s, key, ks) + (if key(x) in ks then 1 else 0)
  {
    if ks != [] {
      assert (s + [x])[..|s + [x]| - 1] == s;
      assert key(x) in ks[1..] ==> key(x) != ks[0];
      GroupSizesSnoc(s, x, key, ks[1..]);
    }
  }

  /** Grouping neither loses nor duplicates an element: the group sizes add up to the length. */
  lemma {:induction false} GroupSizesTotal<T, K(!new)>(s: seq<T>, key: T -> K)
    ensures GroupSizes(s, key, FirstKeys(s, key)) == |s|
    decreases |s|
  {
    if s != [] {
      var init := s[..|s| - 1];
      var x := s[|s| - 1];
      assert s == init + [x];
      var ks := FirstKeys(init, key);
      GroupSizesTotal(init, key);
      GroupSizesSnoc(init, x, key, ks);
      if key(x) !in ks {
        GroupSizesSnoc(init, x, key, ks + [key(x)]);
        GroupSizesAppendKey(init + [x], key, ks, key(x));
        GroupSizesAppendKey(init, key, ks, key(x));
        HavingEmpty(init, key, key(x));
        assert Having(s, key, key(x)) == [x];
      }
    }
  }

  /** Adding a key to the end of the list adds the size of its group. */
  lemma {:induction false} GroupSizesAppendKey<T, K>(s: seq<T>, key: T -> K, ks: seq<K>, k: K)
    ensures GroupSizes(s, key, ks + [k]) == GroupSizes(s, key, ks) + |Having(s, key, k)|
  {
    if ks != [] {
      assert (ks + [k])[1..] == ks[1..] + [k];
      GroupSizesAppendKey(s, key, ks[1..], k);
    }
  }

  // ---- stable sort, descending by an integer key ----

  /** Keys never increase from left to right. */
  predicate SortedDesc<T>(s: seq<T>, key: T -> int) {
    forall i, j :: 0 <= i < j < |s| ==> key(s[i]) >= key(s[j])
  }

  /** Puts `x` in front of the first element whose key is not larger than its own. */
  function Insert<T>(x: T, s: seq<T>, key: T -> int): (r: seq<T>)
    ensures multiset(r) == multiset(s) + multiset{x}
  {
    if s == [] || key(s[0]) <= key(x) then [x] + s
    else
      assert s == [s[0]] + s[1..];
      [s[0]] + Insert(x, s[1..], key)
  }

  /** Insertion sort: sorts the tail, then inserts the head in front of its equals. */
  function SortDesc<T>(s: seq<T>, key: T -> int): (r: seq<T>)
    ensures multiset(r) == multiset(s)
  {
    if s == [] then []
    else
      assert s == [s[0]] + s[1..];
      Insert(s[0], SortDesc(s[1..], key), key)
  }

  lemma {:induction false} InsertSorted<T>(x: T, s: seq<T>, key: T -> int)
    requires SortedDesc(s, key)
    ensures SortedDesc(Insert(x, s, key), key)
  {
    if s != [] && key(s[0]) > key(x) {
      var rest := Insert(x, s[1..], key);
      InsertSorted(x, s[1..], key);
      var r := [s[0]] + rest;
      forall i, j | 0 <= i < j < |r| ensures key(r[i]) >= key(r[j]) {
        if i == 0 {
          assert r[j] in multiset(rest);
          assert r[j] == x || r[j] in multiset(s[1..]);
          if r[j] != x {
            var m :| 0 <= m < |s[1..]| && s[1..][m] == r[j];
            assert s[1 + m] == r[j];
          }
        }
      }
    }
  }

  /** Filtering by one key value commutes with insertion: equal keys keep their order. */
  lemma {:induction false} InsertStable<T>(x: T, s: seq<T>, key: T -> int, v: int)
    ensures Having(Insert(x, s, key), key, v) == Having([x], key, v) + Having(s, key, v)
  {
    if s == [] || key(s[0]) <= key(x) {
      HavingAppend([x], s, key, v);
    } else {
      var t0, tail := s[0], s[1..];
      var ins := Insert(x, tail, key);
      var hx, ht, rest := Having([x], key, v), Having([t0], key, v), Having(tail, key, v);
      assert s == [t0] + tail;
      assert Insert(x, s, key) == [t0] + ins;
      calc {
        Having(Insert(x, s, key), key, v);
      == { HavingAppend([t0], ins, key, v); }
        ht + Having(ins, key, v);
      == { InsertStable(x, tail, key, v); }
        ht + (hx + rest);
      == { HavingSingle(t0, key, v); HavingSingle(x, key, v); SwapEmpty(ht, hx, rest); }
        hx + (ht + rest);
      == { HavingAppend([t0], tail, key, v); }
        hx + Having(s, key, v);
      }
    }
  }

  /** When one of two sequences is empty they can be swapped in front of a third. */
  lemma SwapEmpty<T>(a: seq<T>, b: seq<T>, c: seq<T>)
    requires a == [] || b == []
    ensures a + (b + c) == b + (a + c)
  {
    if a == [] {
      assert a + (b + c) == b + c;
      assert a + c == c;
    } else {
      assert b + c == c;
      assert b + (a + c) == a + c;
    }
  }

  /**
   * The sort is stable and complete: the result is sorted, is a permutation of the input,
   * and for every key value the elements with that key appear in their input order.
   */
  lemma {:induction false} SortDescCorrect<T>(s: seq<T>, key: T -> int)
    ensures SortedDesc(SortDesc(s, key), key)
    ensures multiset(SortDesc(s, key)) == multiset(s)
    ensures forall v :: Having(SortDesc(s, key), key, v) == Having(s, key, v)
  {
    if s != [] {
      SortDescCorrect(s[1..], key);
      InsertSorted(s[0], SortDesc(s[1..], key), key);
      forall v ensures Having(SortDesc(s, key), key, v) == Having(s, key, v) {
        InsertStable(s[0], SortDesc(s[1..], key), key, v);
        assert s == [s[0]] + s[1..];
        HavingAppend([s[0]], s[1..], key, v);
      }
    }
  }
}
