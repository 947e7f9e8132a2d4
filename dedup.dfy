/**
 * First-occurrence deduplication (generate_digest.py, `main`): walk the items
 * in order, keep an item when its fingerprint has not been seen, and remember
 * the fingerprint. Stated for any item type `T` and any fingerprint function
 * `fp`; `fp` returns None where computing the fingerprint raises, which ends
 * the run.
 */
module Dedup {
  import opened PyJson

  /** The set of keys of the elements of `s`. */
  function KeysOf<T, K(==)>(s: seq<T>, key: T -> K): set<K> {
    set i | 0 <= i < |s| :: key(s[i])
  }

  /** The specification: the elements of `s` whose key no earlier element has, in order. */
  function KeepFirst<T, K(==)>(s: seq<T>, key: T -> K): seq<T>
    decreases |s|
  {
    if s == [] then []
    else
      var init, last := s[..|s| - 1], s[|s| - 1];
      if key(last) in KeysOf(init, key) then KeepFirst(init, key)
      else KeepFirst(init, key) + [last]
  }

  /** `s[i]` is the first element of `s` with its key. */
  ghost predicate IsFirst<T, K>(s: seq<T>, key: T -> K, i: int)
    requires 0 <= i < |s|
  {
    forall j :: 0 <= j < i ==> key(s[j]) != key(s[i])
  }

  /** `a` is `b` with some elements left out, the rest in their order. */
  ghost predicate IsSubsequence<T>(a: seq<T>, b: seq<T>)
    decreases |b|
  {
    if a == [] then true
    else if b == [] then false
    else
      || (a[|a| - 1] == b[|b| - 1] && IsSubsequence(a[..|a| - 1], b[..|b| - 1]))
      || IsSubsequence(a, b[..|b| - 1])
  }

  /** No two elements share a key. */
  ghost predicate DistinctKeys<T, K>(s: seq<T>, key: T -> K) {
    forall i, j :: 0 <= i < j < |s| ==> key(s[i]) != key(s[j])
  }

  /** The digests of the elements of `s` whose fingerprint exists: Python's `seen`. */
  function Seen<T, K(==)>(s: seq<T>, fp: T -> Option<K>): set<K> {
    set i | 0 <= i < |s| && fp(s[i]).Some? :: fp(s[i]).value
  }

  /** Every element of `s` has a fingerprint. */
  ghost predicate AllFingerprinted<T, K>(s: seq<T>, fp: T -> Option<K>) {
    forall i :: 0 <= i < |s| ==> fp(s[i]).Some?
  }

  lemma KeysOfSnoc<T, K>(s: seq<T>, x: T, key: T -> K)
    ensures KeysOf(s + [x], key) == KeysOf(s, key) + {key(x)}
  {
    var t := s + [x];
    forall k | k in KeysOf(t, key) ensures k in KeysOf(s, key) + {key(x)} {
      var i :| 0 <= i < |t| && key(t[i]) == k;
      if i < |s| { assert t[i] == s[i]; }
    }
    forall k | k in KeysOf(s, key) + {key(x)} ensures k in KeysOf(t, key) {
      if k == key(x) { assert t[|s|] == x; }
      else { var i :| 0 <= i < |s| && key(s[i]) == k; assert t[i] == s[i]; }
    }
  }

  /** Appending an element with a fingerprint adds that fingerprint to `seen`. */
  lemma SeenSnoc<T, K>(s: seq<T>, x: T, fp: T -> Option<K>)
    requires fp(x).Some?
    ensures Seen(s + [x], fp) == Seen(s, fp) + {fp(x).value}
  {
    var u := s + [x];
    forall d | d in Seen(u, fp) ensures d in Seen(s, fp) + {fp(x).value} {
      var j :| 0 <= j < |u| && fp(u[j]).Some? && fp(u[j]).value == d;
      if j < |s| { assert u[j] == s[j]; }
    }
    forall d | d in Seen(s, fp) + {fp(x).value} ensures d in Seen(u, fp) {
      if d == fp(x).value { assert u[|s|] == x; }
      else { var j :| 0 <= j < |s| && fp(s[j]).Some? && fp(s[j]).value == d; assert u[j] == s[j]; }
    }
  }

  /** `seen` and the keys of `uniq` say the same thing when every key is present. */
  lemma SeenKeys<T, K>(s: seq<T>, fp: T -> Option<K>, d: K)
    requires AllFingerprinted(s, fp)
    ensures d in Seen(s, fp) <==> Some(d) in KeysOf(s, fp)
  {
    if Some(d) in KeysOf(s, fp) {
      var i :| 0 <= i < |s| && fp(s[i]) == Some(d);
      assert fp(s[i]).value == d;
    }
  }

  /** The kept elements carry every key of the input, and no other. */
  lemma {:induction false} KeepFirstKeys<T, K>(s: seq<T>, key: T -> K)
    ensures KeysOf(KeepFirst(s, key), key) == KeysOf(s, key)
    decreases |s|
  {
    if s != [] {
      var init, last := s[..|s| - 1], s[|s| - 1];
      assert s == init + [last];
      KeepFirstKeys(init, key);
      KeysOfSnoc(init, last, key);
      if key(last) !in KeysOf(init, key) {
        KeysOfSnoc(KeepFirst(init, key), last, key);
      }
    }
  }

  /** No two kept elements share a key. */
  lemma {:induction false} KeepFirstDistinct<T, K>(s: seq<T>, key: T -> K)
    ensures DistinctKeys(KeepFirst(s, key), key)
    decreases |s|
  {
    if s != [] {
      var init, last := s[..|s| - 1], s[|s| - 1];
      KeepFirstDistinct(init, key);
      if key(last) !in KeysOf(init, key) {
        var p := KeepFirst(init, key);
        KeepFirstKeys(init, key);
        forall i | 0 <= i < |p| ensures key(p[i]) != key(last) {
          assert key(p[i]) in KeysOf(p, key);
        }
      }
    }
  }

  /** The kept elements are a subsequence of the input: order is preserved. */
  lemma {:induction false} KeepFirstSubsequence<T, K>(s: seq<T>, key: T -> K)
    ensures IsSubsequence(KeepFirst(s, key), s)
    decreases |s|
  {
    if s != [] {
      var init, last := s[..|s| - 1], s[|s| - 1];
      var p := KeepFirst(init, key);
      KeepFirstSubsequence(init, key);
      if key(last) in KeysOf(init, key) {
        if p != [] {
          assert IsSubsequence(p, s[..|s| - 1]);
        }
      } else {
        var r := p + [last];
        assert r[..|r| - 1] == p;
      }
    }
  }

  /** An element is kept exactly when it is the first of its key, and it is kept where it stood. */
  lemma {:induction false} KeepFirstFirstOccurrence<T, K>(s: seq<T>, key: T -> K)
    ensures forall i :: 0 <= i < |s| && IsFirst(s, key, i) ==> s[i] in KeepFirst(s, key)
    ensures forall k :: 0 <= k < |KeepFirst(s, key)| ==>
              exists i :: 0 <= i < |s| && KeepFirst(s, key)[k] == s[i] && IsFirst(s, key, i)
    decreases |s|
  {
    if s != [] {
      var init, last := s[..|s| - 1], s[|s| - 1];
      var p := KeepFirst(init, key);
      var r := KeepFirst(s, key);
      KeepFirstFirstOccurrence(init, key);
      forall i | 0 <= i < |s| && IsFirst(s, key, i) ensures s[i] in r {
        if i < |s| - 1 {
          assert init[i] == s[i];
          assert IsFirst(init, key, i) by {
            forall j | 0 <= j < i ensures key(init[j]) != key(init[i]) { assert init[j] == s[j]; }
          }
        } else {
          assert key(last) !in KeysOf(init, key) by {
            if key(last) in KeysOf(init, key) {
              assert false;
            }
          }
        }
      }
      forall k | 0 <= k < |r| ensures exists i :: 0 <= i < |s| && r[k] == s[i] && IsFirst(s, key, i) {
        if k < |p| {
          var i :| 0 <= i < |init| && p[k] == init[i] && IsFirst(init, key, i);
          assert r[k] == p[k] && s[i] == init[i];
          assert IsFirst(s, key, i) by {
            forall j | 0 <= j < i ensures key(s[j]) != key(s[i]) { assert init[j] == s[j]; }
          }
        } else {
          assert key(last) !in KeysOf(init, key) && r[k] == last;
          assert IsFirst(s, key, |s| - 1) by {
            forall j | 0 <= j < |s| - 1 ensures key(s[j]) != key(last) {
              assert s[j] == init[j];
              assert key(init[j]) in KeysOf(init, key);
            }
          }
        }
      }
    } else {
      assert KeepFirst(s, key) == [];
    }
  }

  /** As many elements are kept as there are distinct keys. */
  lemma {:induction false} KeepFirstLength<T, K>(s: seq<T>, key: T -> K)
    ensures |KeepFirst(s, key)| == |KeysOf(s, key)|
    decreases |s|
  {
    if s != [] {
      var init, last := s[..|s| - 1], s[|s| - 1];
      assert s == init + [last];
      KeepFirstLength(init, key);
      KeysOfSnoc(init, last, key);
      if key(last) in KeysOf(init, key) {
        assert KeysOf(s, key) == KeysOf(init, key);
      } else {
        assert |KeysOf(init, key) + {key(last)}| == |KeysOf(init, key)| + 1;
        assert KeepFirst(s, key) == KeepFirst(init, key) + [last];
      }
    }
  }

  /** Deduplicating a deduplicated list changes nothing. */
  lemma KeepFirstIdempotent<T, K>(s: seq<T>, key: T -> K)
    ensures KeepFirst(KeepFirst(s, key), key) == KeepFirst(s, key)
  {
    DistinctKeepsAll(KeepFirst(s, key), key);
    KeepFirstDistinct(s, key);
  }

  /** A list without repeated keys is kept whole. */
  lemma {:induction false} DistinctKeepsAll<T, K>(s: seq<T>, key: T -> K)
    ensures DistinctKeys(s, key) ==> KeepFirst(s, key) == s
    decreases |s|
  {
    if s != [] && DistinctKeys(s, key) {
      var init, last := s[..|s| - 1], s[|s| - 1];
      assert DistinctKeys(init, key);
      DistinctKeepsAll(init, key);
      if key(last) in KeysOf(init, key) {
        assert false;
      }
    }
  }

  /** `[A, B, A']` with A and A' sharing a key gives `[A, B]`. */
  lemma SharedKeyExample<T, K>(a: T, b: T, a': T, key: T -> K)
    requires key(a) == key(a') && key(b) != key(a)
    ensures KeepFirst([a, b, a'], key) == [a, b]
  {
    var s := [a, b, a'];
    assert s[..2] == [a, b] && s[..2][..1] == [a] && [a][..0] == [];
    KeysOfSnoc([], a, key);
    assert [] + [a] == [a];
    assert KeepFirst([a], key) == [a];
    assert KeepFirst([a, b], key) == [a, b];
    assert key(a') in KeysOf([a, b], key) by { assert [a, b][0] == a; }
  }

  /**
   * The dedup loop of `main`: `seen` holds the digests of `uniq` throughout;
   * the result is None exactly when some item has no fingerprint, and
   * otherwise the first-occurrence list KeepFirst.
   */
  method Deduplicate<T, K(==)>(items: seq<T>, fp: T -> Option<K>) returns (r: Option<seq<T>>)
    ensures r.None? <==> exists i :: 0 <= i < |items| && fp(items[i]).None?
    ensures r.Some? ==> r.value == KeepFirst(items, fp)
  {
    var seen: set<K> := {};
    var uniq: seq<T> := [];
    var i := 0;
    while i < |items|
      invariant 0 <= i <= |items|
      invariant AllFingerprinted(items[..i], fp)
      invariant uniq == KeepFirst(items[..i], fp)
      invariant AllFingerprinted(uniq, fp)
      invariant seen == Seen(uniq, fp)
      invariant KeysOf(uniq, fp) == KeysOf(items[..i], fp)
    {
      var d := fp(items[i]);
      if d.None? {
        return None;
      }
      assert items[..i + 1] == items[..i] + [items[i]];
      assert items[..i + 1][..i] == items[..i];
      SeenKeys(uniq, fp, d.value);
      KeysOfSnoc(items[..i], items[i], fp);
      if d.value !in seen {
        KeysOfSnoc(uniq, items[i], fp);
        SeenSnoc(uniq, items[i], fp);
        seen := seen + {d.value};
        uniq := uniq + [items[i]];
      }
      i := i + 1;
    }
    assert items[..i] == items;
    r := Some(uniq);
  }
}
