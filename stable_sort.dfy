/** Python's `list.sort(key=...)` over keys that are pairs of integers
    compared lexicographically, as tuples compare in Python. The sort is
    stable: elements with equal keys keep their input order. `Sort` is one
    stable algorithm (insertion); `SortIsUnique` shows that any sorted,
    stable rearrangement is the same sequence, so the model does not depend
    on the algorithm the interpreter uses. */
module StableSort {

  type Key = (int, int)

  /** Tuple comparison `a <= b`. */
  predicate KeyLe(a: Key, b: Key) {
    a.0 < b.0 || (a.0 == b.0 && a.1 <= b.1)
  }

  ghost predicate Sorted<T>(s: seq<T>, key: T -> Key) {
    forall i, j :: 0 <= i < j < |s| ==> KeyLe(key(s[i]), key(s[j]))
  }

  /** The elements of `s` whose key is `k`, in order. */
  function WithKey<T>(s: seq<T>, key: T -> Key, k: Key): (r: seq<T>)
    ensures |r| <= |s|
    ensures forall x :: x in r ==> x in s && key(x) == k
  {
    if s == [] then []
    else (if key(s[0]) == k then [s[0]] else []) + WithKey(s[1..], key, k)
  }

  /** Inserts `x` after every element whose key is at most `key(x)`. */
  function Insert<T>(s: seq<T>, x: T, key: T -> Key): seq<T>
  {
    if s == [] then [x]
    else if !KeyLe(key(s[0]), key(x)) then [x] + s
    else [s[0]] + Insert(s[1..], x, key)
  }

  /** Stable sort: each element in turn is inserted behind its equals. */
  function Sort<T>(s: seq<T>, key: T -> Key): seq<T>
  {
    if s == [] then [] else Insert(Sort(s[..|s| - 1], key), s[|s| - 1], key)
  }

  // ---------------------------------------------------------------------
  // Insert

  lemma {:induction false} InsertPermutes<T>(s: seq<T>, x: T, key: T -> Key)
    ensures multiset(Insert(s, x, key)) == multiset(s) + multiset{x}
    ensures |Insert(s, x, key)| == |s| + 1
  {
    if s != [] && KeyLe(key(s[0]), key(x)) {
      InsertPermutes(s[1..], x, key);
      assert s == [s[0]] + s[1..];
    }
  }

  lemma {:induction false} InsertSorted<T>(s: seq<T>, x: T, key: T -> Key)
    requires Sorted(s, key)
    ensures Sorted(Insert(s, x, key), key)
  {
    if s != [] && KeyLe(key(s[0]), key(x)) {
      InsertSorted(s[1..], x, key);
      InsertPermutes(s[1..], x, key);
      var t := Insert(s[1..], x, key);
      forall y | y in t ensures KeyLe(key(s[0]), key(y)) {
        assert y in multiset(t);
        if y != x {
          assert y in multiset(s[1..]);
        }
      }
    }
  }

  lemma {:induction false} WithKeyNone<T>(s: seq<T>, key: T -> Key, k: Key)
    requires forall i :: 0 <= i < |s| ==> key(s[i]) != k
    ensures WithKey(s, key, k) == []
  {
    if s != [] {
      WithKeyNone(s[1..], key, k);
    }
  }

  lemma {:induction false} WithKeyAppend<T>(a: seq<T>, b: seq<T>, key: T -> Key, k: Key)
    ensures WithKey(a + b, key, k) == WithKey(a, key, k) + WithKey(b, key, k)
  {
    if a != [] {
      WithKeyAppend(a[1..], b, key, k);
      assert (a + b)[0] == a[0];
      assert (a + b)[1..] == a[1..] + b;
      var h := if key(a[0]) == k then [a[0]] else [];
      assert WithKey(a + b, key, k) == h + WithKey(a[1..] + b, key, k);
      assert WithKey(a, key, k) == h + WithKey(a[1..], key, k);
      var x, y := WithKey(a[1..], key, k), WithKey(b, key, k);
      assert h + (x + y) == (h + x) + y;
    } else {
      assert a + b == b;
    }
  }

  /** Inserting `x` adds it after the elements of `s` that share its key. */
  lemma {:induction false} WithKeyInsert<T>(s: seq<T>, x: T, key: T -> Key, k: Key)
    requires Sorted(s, key)
    ensures WithKey(Insert(s, x, key), key, k)
         == WithKey(s, key, k) + (if key(x) == k then [x] else [])
  {
    if s == [] {
    } else if !KeyLe(key(s[0]), key(x)) {
      if key(x) == k {
        WithKeyNone(s, key, k);
      }
      assert ([x] + s)[1..] == s;
    } else {
      WithKeyInsert(s[1..], x, key, k);
      assert ([s[0]] + Insert(s[1..], x, key))[1..] == Insert(s[1..], x, key);
    }
  }

  // ---------------------------------------------------------------------
  // Sort

  /** The sorted list is a permutation of its input. */
  lemma {:induction false} SortPermutes<T>(s: seq<T>, key: T -> Key)
    ensures multiset(Sort(s, key)) == multiset(s)
    ensures |Sort(s, key)| == |s|
  {
    if s != [] {
      var n := |s|;
      SortPermutes(s[..n - 1], key);
      InsertPermutes(Sort(s[..n - 1], key), s[n - 1], key);
      assert s == s[..n - 1] + [s[n - 1]];
    }
  }

  /** The sorted list is ordered by key. */
  lemma {:induction false} SortSorted<T>(s: seq<T>, key: T -> Key)
    ensures Sorted(Sort(s, key), key)
  {
    if s != [] {
      SortSorted(s[..|s| - 1], key);
      InsertSorted(Sort(s[..|s| - 1], key), s[|s| - 1], key);
    }
  }

  /** Stability: for every key, the elements with that key appear in the
      sorted list in the same order as in the input. */
  lemma {:induction false} SortStable<T>(s: seq<T>, key: T -> Key, k: Key)
    ensures WithKey(Sort(s, key), key, k) == WithKey(s, key, k)
  {
    if s != [] {
      var n := |s|;
      var init, x := s[..n - 1], s[n - 1];
      assert s == init + [x];
      var t := Sort(init, key);
      assert Sort(s, key) == Insert(t, x, key);
      SortStable(init, key, k);
      SortSorted(init, key);
      WithKeyInsert(t, x, key, k);
      WithKeyAppend(init, [x], key, k);
      assert WithKey([x], key, k) == (if key(x) == k then [x] else []) by {
        assert [x][1..] == [];
      }
    }
  }

  // ---------------------------------------------------------------------
  // Uniqueness and idempotence

  lemma {:induction false} WithKeyHead<T>(s: seq<T>, key: T -> Key)
    requires s != []
    ensures WithKey(s, key, key(s[0])) != [] && WithKey(s, key, key(s[0]))[0] == s[0]
  {
  }

  lemma {:induction false} WithKeyTail<T>(s: seq<T>, key: T -> Key, k: Key)
    requires s != []
    ensures WithKey(s[1..], key, k)
         == if key(s[0]) == k then WithKey(s, key, k)[1..] else WithKey(s, key, k)
  {
  }

  /** Two non-empty sorted sequences that agree key by key start with the
      same element: both start with the least key, and with its first
      element. */
  lemma SortedHeads<T>(t1: seq<T>, t2: seq<T>, key: T -> Key)
    requires t1 != [] && t2 != []
    requires Sorted(t1, key) && Sorted(t2, key)
    requires forall k :: WithKey(t1, key, k) == WithKey(t2, key, k)
    ensures t1[0] == t2[0]
  {
    var k1, k2 := key(t1[0]), key(t2[0]);
    WithKeyHead(t1, key);
    WithKeyHead(t2, key);
    // k1 occurs in t2, so k2 <= k1; symmetrically k1 <= k2.
    var y := WithKey(t2, key, k1)[0];
    assert y in WithKey(t2, key, k1);
    var j :| 0 <= j < |t2| && t2[j] == y;
    assert KeyLe(k2, k1) by { if j > 0 { assert KeyLe(key(t2[0]), key(t2[j])); } }
    var z := WithKey(t1, key, k2)[0];
    assert z in WithKey(t1, key, k2);
    var i :| 0 <= i < |t1| && t1[i] == z;
    assert KeyLe(k1, k2) by { if i > 0 { assert KeyLe(key(t1[0]), key(t1[i])); } }
    assert k1 == k2;
  }

  /** Two sorted sequences that agree, key by key, on their elements in
      order are equal. */
  lemma {:induction false} SortedUnique<T>(t1: seq<T>, t2: seq<T>, key: T -> Key)
    requires Sorted(t1, key) && Sorted(t2, key)
    requires forall k :: WithKey(t1, key, k) == WithKey(t2, key, k)
    ensures t1 == t2
    decreases |t1|
  {
    if t1 == [] {
      if t2 != [] {
        WithKeyHead(t2, key);
        assert false;
      }
    } else if t2 == [] {
      WithKeyHead(t1, key);
      assert false;
    } else {
      SortedHeads(t1, t2, key);
      forall k ensures WithKey(t1[1..], key, k) == WithKey(t2[1..], key, k) {
        WithKeyTail(t1, key, k);
        WithKeyTail(t2, key, k);
      }
      SortedUnique(t1[1..], t2[1..], key);
      assert t1 == [t1[0]] + t1[1..];
      assert t2 == [t2[0]] + t2[1..];
    }
  }

  /** Whatever algorithm produces it, a sorted and stable rearrangement of
      `s` is `Sort(s, key)`. */
  lemma SortIsUnique<T>(s: seq<T>, t: seq<T>, key: T -> Key)
    requires Sorted(t, key)
    requires forall k :: WithKey(t, key, k) == WithKey(s, key, k)
    ensures t == Sort(s, key)
  {
    SortSorted(s, key);
    forall k ensures WithKey(t, key, k) == WithKey(Sort(s, key), key, k) {
      SortStable(s, key, k);
    }
    SortedUnique(t, Sort(s, key), key);
  }

  /** Sorting a sorted list changes nothing; in particular sorting twice is
      the same as sorting once. */
  lemma SortIdempotent<T>(s: seq<T>, key: T -> Key)
    ensures Sort(Sort(s, key), key) == Sort(s, key)
  {
    SortSorted(s, key);
    SortIsUnique(Sort(s, key), Sort(s, key), key);
  }
}
