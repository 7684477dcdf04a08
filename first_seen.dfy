/** Keeping the first element of each key, as a loop over a list does when
    it records the keys it has already seen in a set and skips an element
    whose key is in it. Elements whose key is `None` are skipped outright.
    The menu builder uses this twice: video records keyed by height, audio
    records keyed by their codec/extension/bitrate string. */
module FirstSeen {
  import opened Common

  /** The keys of the elements of `s` (elements without a key add none). */
  function Keys<T, K(==)>(s: seq<T>, key: T -> Option<K>): set<K> {
    if s == [] then {}
    else
      var k := key(s[|s| - 1]);
      Keys(s[..|s| - 1], key) + (if k.Some? then {k.value} else {})
  }

  /** The elements of `s` kept by the loop: those with a key not seen before. */
  function Picks<T, K(==)>(s: seq<T>, key: T -> Option<K>): seq<T> {
    if s == [] then []
    else
      var prev := Picks(s[..|s| - 1], key);
      var k := key(s[|s| - 1]);
      if k.Some? && k.value !in Keys(prev, key) then prev + [s[|s| - 1]] else prev
  }

  /** One more element: how `Picks` and its key set grow. */
  lemma PicksStep<T, K>(s: seq<T>, i: nat, key: T -> Option<K>)
    requires i < |s|
    ensures var prev := Picks(s[..i], key);
      var k := key(s[i]);
      && Picks(s[..i + 1], key) == (if k.Some? && k.value !in Keys(prev, key) then prev + [s[i]] else prev)
      && Keys(prev + [s[i]], key) == Keys(prev, key) + (if k.Some? then {k.value} else {})
  {
    assert s[..i + 1][..i] == s[..i];
    assert (Picks(s[..i], key) + [s[i]])[..|Picks(s[..i], key)|] == Picks(s[..i], key);
  }

  lemma {:induction false} KeysIff<T, K>(s: seq<T>, key: T -> Option<K>)
    ensures forall k :: k in Keys(s, key) <==> exists i :: 0 <= i < |s| && key(s[i]) == Some(k)
  {
    if s != [] {
      var n := |s|;
      KeysIff(s[..n - 1], key);
      forall k ensures k in Keys(s, key) <==> exists i :: 0 <= i < n && key(s[i]) == Some(k) {
        if exists i :: 0 <= i < n && key(s[i]) == Some(k) {
          var i :| 0 <= i < n && key(s[i]) == Some(k);
          if i < n - 1 {
            assert s[..n - 1][i] == s[i];
          }
        }
        if k in Keys(s[..n - 1], key) {
          var i :| 0 <= i < n - 1 && key(s[..n - 1][i]) == Some(k);
          assert s[i] == s[..n - 1][i];
        }
      }
    }
  }

  /** Every kept element has a key and comes from `s`. */
  lemma {:induction false} PicksMembers<T, K>(s: seq<T>, key: T -> Option<K>)
    ensures |Picks(s, key)| <= |s|
    ensures forall i :: 0 <= i < |Picks(s, key)| ==> key(Picks(s, key)[i]).Some? && Picks(s, key)[i] in s
  {
    if s != [] {
      var n := |s|;
      PicksMembers(s[..n - 1], key);
      var prev := Picks(s[..n - 1], key);
      forall i | 0 <= i < |prev| ensures prev[i] in s {
        assert prev[i] in s[..n - 1];
      }
    }
  }

  /** No two kept elements share a key. */
  lemma {:induction false} PicksDistinct<T, K>(s: seq<T>, key: T -> Option<K>)
    ensures forall i, j :: 0 <= i < j < |Picks(s, key)| ==> key(Picks(s, key)[i]) != key(Picks(s, key)[j])
  {
    if s != [] {
      var n := |s|;
      PicksDistinct(s[..n - 1], key);
      var prev := Picks(s[..n - 1], key);
      var p := Picks(s, key);
      forall i, j | 0 <= i < j < |p| ensures key(p[i]) != key(p[j]) {
        if j == |prev| {
          var k := key(s[n - 1]);
          assert p == prev + [s[n - 1]] && k.Some? && k.value !in Keys(prev, key);
          assert p[i] == prev[i] && p[j] == s[n - 1];
          if key(prev[i]) == k {
            KeysMember(prev, i, key);
          }
        } else {
          assert p[i] == prev[i] && p[j] == prev[j];
        }
      }
    }
  }

  /** Every key of `s` is the key of a kept element, and no other key is. */
  lemma {:induction false} PicksKeys<T, K>(s: seq<T>, key: T -> Option<K>)
    ensures Keys(Picks(s, key), key) == Keys(s, key)
  {
    if s != [] {
      var n := |s|;
      PicksKeys(s[..n - 1], key);
      var prev := Picks(s[..n - 1], key);
      assert (prev + [s[n - 1]])[..|prev|] == prev;
    }
  }

  /** A key that is present contributes to `Keys`. */
  lemma {:induction false} KeysMember<T, K>(s: seq<T>, m: nat, key: T -> Option<K>)
    requires m < |s| && key(s[m]).Some?
    ensures key(s[m]).value in Keys(s, key)
    decreases |s|
  {
    if m < |s| - 1 {
      KeysMember(s[..|s| - 1], m, key);
    }
  }

  /** Each kept element is the first of its key: it occurs in `s` no later
      than any element with the same key. */
  lemma {:induction false} PicksFirst<T, K>(s: seq<T>, key: T -> Option<K>)
    ensures forall i, m ::
      0 <= i < |Picks(s, key)| && 0 <= m < |s| && key(s[m]) == key(Picks(s, key)[i]) ==>
        Picks(s, key)[i] in s[..m + 1]
  {
    if s != [] {
      var n := |s|;
      var w := s[..n - 1];
      PicksFirst(w, key);
      PicksMembers(w, key);
      PicksKeys(w, key);
      var prev := Picks(w, key);
      var p := Picks(s, key);
      forall i, m | 0 <= i < |p| && 0 <= m < n && key(s[m]) == key(p[i])
        ensures p[i] in s[..m + 1]
      {
        if i < |prev| {
          assert p[i] == prev[i];
          if m < n - 1 {
            assert w[m] == s[m];
            assert w[..m + 1] == s[..m + 1];
          } else {
            assert s[..m + 1] == s;
            assert prev[i] in w;
          }
        } else {
          assert p[i] == s[n - 1];
          if m < n - 1 {
            assert w[m] == s[m];
            KeysMember(w, m, key);
            assert false;
          }
          assert s[..m + 1] == s;
        }
      }
    }
  }

  /** The kept elements appear in the order they have in `s`: pick `k` is
      the element at position `idx[k]`, and the positions increase. */
  lemma {:induction false} PicksInOrder<T, K>(s: seq<T>, key: T -> Option<K>) returns (idx: seq<nat>)
    ensures |idx| == |Picks(s, key)|
    ensures forall k :: 0 <= k < |idx| ==> idx[k] < |s| && Picks(s, key)[k] == s[idx[k]]
    ensures forall k, l :: 0 <= k < l < |idx| ==> idx[k] < idx[l]
  {
    if s == [] {
      idx := [];
    } else {
      var n := |s|;
      var w := s[..n - 1];
      var prev := PicksInOrder(w, key);
      forall k | 0 <= k < |prev| ensures w[prev[k]] == s[prev[k]] {
      }
      var kk := key(s[n - 1]);
      if kk.Some? && kk.value !in Keys(Picks(w, key), key) {
        idx := prev + [n - 1];
      } else {
        idx := prev;
      }
    }
  }

  /** A key in `Keys(s, key)` is the key of some element of `s`: its position. */
  lemma {:induction false} KeyWitness<T, K>(s: seq<T>, key: T -> Option<K>, k: K) returns (i: nat)
    requires k in Keys(s, key)
    ensures i < |s| && key(s[i]) == Some(k)
  {
    var n := |s|;
    if key(s[n - 1]) == Some(k) {
      i := n - 1;
    } else {
      i := KeyWitness(s[..n - 1], key, k);
      assert s[..n - 1][i] == s[i];
    }
  }

  /** Every element with a key shares it with some kept element: the
      position of that element among the kept ones. */
  lemma PickOf<T, K>(s: seq<T>, m: nat, key: T -> Option<K>) returns (p: nat)
    requires m < |s| && key(s[m]).Some?
    ensures p < |Picks(s, key)| && key(Picks(s, key)[p]) == key(s[m])
  {
    KeysMember(s, m, key);
    PicksKeys(s, key);
    p := KeyWitness(Picks(s, key), key, key(s[m]).value);
  }
}
