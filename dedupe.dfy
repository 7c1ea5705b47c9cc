/** Keeping the first element of each key, as the `seen`-set filters in the
    list fetch and the member list do. An element whose key is missing is
    dropped. */
module Dedupe {
  import opened Common

  /** The keys present among `xs`. */
  function KeySet<T, K(==,!new)>(xs: seq<T>, key: T -> Option<K>): (ks: set<K>)
    ensures forall k :: k in ks <==> exists i :: 0 <= i < |xs| && key(xs[i]) == Some(k)
  {
    if xs == [] then {}
    else
      var front := xs[..|xs| - 1];
      var ks := KeySet(front, key) + (match key(xs[|xs| - 1]) case Some(k) => {k} case None => {});
      assert forall i :: 0 <= i < |front| ==> front[i] == xs[i];
      ks
  }

  /** The first element of each key, in the order they occur. */
  function DedupeBy<T, K(==,!new)>(xs: seq<T>, key: T -> Option<K>): seq<T>
  {
    if xs == [] then []
    else
      var kept := DedupeBy(xs[..|xs| - 1], key);
      var k := key(xs[|xs| - 1]);
      if k.None? || k.value in KeySet(kept, key) then kept else kept + [xs[|xs| - 1]]
  }

  /** The first element of `xs` with key `k` (a reference definition that
      scans from the front). */
  function FirstWithKey<T, K(==,!new)>(xs: seq<T>, key: T -> Option<K>, k: K): Option<T>
  {
    if xs == [] then None
    else if key(xs[0]) == Some(k) then Some(xs[0])
    else FirstWithKey(xs[1..], key, k)
  }

  lemma {:induction false} FirstWithKeyAppend<T, K(!new)>(a: seq<T>, b: seq<T>, key: T -> Option<K>, k: K)
    ensures FirstWithKey(a + b, key, k) == if FirstWithKey(a, key, k).Some? then FirstWithKey(a, key, k) else FirstWithKey(b, key, k)
  {
    if a != [] {
      assert (a + b)[1..] == a[1..] + b;
      FirstWithKeyAppend(a[1..], b, key, k);
    } else {
      assert a + b == b;
    }
  }

  /** `r` is `xs` with some elements left out. */
  predicate IsSubsequence<T(==)>(r: seq<T>, xs: seq<T>)
  {
    if r == [] then true
    else if xs == [] then false
    else (r[|r| - 1] == xs[|xs| - 1] && IsSubsequence(r[..|r| - 1], xs[..|xs| - 1]))
         || IsSubsequence(r, xs[..|xs| - 1])
  }

  /** What the dedupe keeps: elements that all have keys, and no key
      twice. */
  lemma {:induction false} DedupeByUniqueKeys<T, K(!new)>(xs: seq<T>, key: T -> Option<K>)
    ensures forall i :: 0 <= i < |DedupeBy(xs, key)| ==> key(DedupeBy(xs, key)[i]).Some?
    ensures forall i, j :: 0 <= i < j < |DedupeBy(xs, key)| ==> key(DedupeBy(xs, key)[i]) != key(DedupeBy(xs, key)[j])
  {
    if xs != [] {
      var front := xs[..|xs| - 1];
      var last := xs[|xs| - 1];
      DedupeByUniqueKeys(front, key);
      var kept := DedupeBy(front, key);
      var k := key(last);
      if k.Some? && k.value !in KeySet(kept, key) {
        var r := kept + [last];
        assert DedupeBy(xs, key) == r;
        forall i, j | 0 <= i < j < |r| ensures key(r[i]) != key(r[j]) {
          if j == |kept| {
            assert r[i] == kept[i];
            assert key(kept[i]).value in KeySet(kept, key);
          } else {
            assert r[i] == kept[i] && r[j] == kept[j];
          }
        }
      }
    }
  }

  /** Every key of the input is kept once. */
  lemma {:induction false} DedupeByKeySet<T, K(!new)>(xs: seq<T>, key: T -> Option<K>)
    ensures KeySet(DedupeBy(xs, key), key) == KeySet(xs, key)
  {
    if xs != [] {
      var front := xs[..|xs| - 1];
      var last := xs[|xs| - 1];
      DedupeByKeySet(front, key);
      var kept := DedupeBy(front, key);
      var k := key(last);
      assert KeySet(xs, key) == KeySet(front, key) + (if k.Some? then {k.value} else {});
      if k.Some? && k.value !in KeySet(kept, key) {
        var r := kept + [last];
        assert r[..|r| - 1] == kept;
        assert KeySet(r, key) == KeySet(kept, key) + {k.value};
      }
    }
  }

  /** For each key, the dedupe keeps the first element that has it. */
  lemma {:induction false} DedupeByKeepsFirst<T, K(!new)>(xs: seq<T>, key: T -> Option<K>)
    ensures forall i :: 0 <= i < |DedupeBy(xs, key)| && key(DedupeBy(xs, key)[i]).Some? ==>
              FirstWithKey(xs, key, key(DedupeBy(xs, key)[i]).value) == Some(DedupeBy(xs, key)[i])
  {
    if xs != [] {
      var front := xs[..|xs| - 1];
      var last := xs[|xs| - 1];
      DedupeByKeepsFirst(front, key);
      DedupeByKeySet(front, key);
      var kept := DedupeBy(front, key);
      assert xs == front + [last];
      forall i | 0 <= i < |kept| && key(kept[i]).Some?
        ensures FirstWithKey(xs, key, key(kept[i]).value) == Some(kept[i])
      {
        FirstWithKeyAppend(front, [last], key, key(kept[i]).value);
      }
      var k := key(last);
      if k.Some? && k.value !in KeySet(kept, key) {
        FirstWithKeyNone(front, key, k.value);
        FirstWithKeyAppend(front, [last], key, k.value);
        assert FirstWithKey([last], key, k.value) == Some(last);
      }
    }
  }

  /** Without any element of key `k`, there is no first one. */
  lemma {:induction false} FirstWithKeyNone<T, K(!new)>(xs: seq<T>, key: T -> Option<K>, k: K)
    requires k !in KeySet(xs, key)
    ensures FirstWithKey(xs, key, k).None?
  {
    if xs != [] {
      assert k !in KeySet(xs[1..], key);
      FirstWithKeyNone(xs[1..], key, k);
    }
  }

  /** Every element of a subsequence occurs in the whole sequence. */
  lemma {:induction false} SubsequenceMember<T>(r: seq<T>, xs: seq<T>, x: T)
    requires IsSubsequence(r, xs) && x in r
    ensures x in xs
  {
    if r[|r| - 1] == xs[|xs| - 1] && IsSubsequence(r[..|r| - 1], xs[..|xs| - 1]) {
      if x != r[|r| - 1] {
        assert x in r[..|r| - 1];
        SubsequenceMember(r[..|r| - 1], xs[..|xs| - 1], x);
      }
    } else {
      SubsequenceMember(r, xs[..|xs| - 1], x);
    }
  }

  lemma {:induction false} SubsequenceExtend<T>(r: seq<T>, xs: seq<T>, x: T)
    requires IsSubsequence(r, xs)
    ensures IsSubsequence(r, xs + [x])
    ensures IsSubsequence(r + [x], xs + [x])
  {
    assert (xs + [x])[..|xs|] == xs;
    assert (r + [x])[..|r|] == r;
  }

  /** The dedupe keeps elements in their input order. */
  lemma {:induction false} DedupeByIsSubsequence<T, K(!new)>(xs: seq<T>, key: T -> Option<K>)
    ensures IsSubsequence(DedupeBy(xs, key), xs)
  {
    if xs != [] {
      var front := xs[..|xs| - 1];
      DedupeByIsSubsequence(front, key);
      assert xs == front + [xs[|xs| - 1]];
      SubsequenceExtend(DedupeBy(front, key), front, xs[|xs| - 1]);
    }
  }

  /** An element with a key at the front is kept, at the front. */
  lemma {:induction false} DedupeByKeepsHead<T, K(!new)>(x: T, ys: seq<T>, key: T -> Option<K>)
    requires key(x).Some?
    ensures |DedupeBy([x] + ys, key)| >= 1 && DedupeBy([x] + ys, key)[0] == x
    decreases |ys|
  {
    if ys == [] {
      assert DedupeBy([x], key) == DedupeBy([], key) + [x];
    } else {
      var xs := [x] + ys;
      assert xs[..|xs| - 1] == [x] + ys[..|ys| - 1];
      DedupeByKeepsHead(x, ys[..|ys| - 1], key);
    }
  }

  /** The filter with its mutable `seen` set. */
  method DedupeLoop<T, K(==,!new)>(xs: seq<T>, key: T -> Option<K>) returns (r: seq<T>)
    ensures r == DedupeBy(xs, key)
  {
    var seen: set<K> := {};
    r := [];
    for i := 0 to |xs|
      invariant r == DedupeBy(xs[..i], key)
      invariant seen == KeySet(r, key)
    {
      assert xs[..i + 1][..i] == xs[..i];
      var k := key(xs[i]);
      if k.Some? && k.value !in seen {
        seen := seen + {k.value};
        r := r + [xs[i]];
        assert r[..|r| - 1] == DedupeBy(xs[..i], key);
      }
    }
    assert xs[..|xs|] == xs;
  }
}
