/** Sequence operations the notification subsystem is built from:
    `Array.prototype.filter`, `Array.prototype.findIndex`, and "set by key"
    (replace the first element with the same key, otherwise append), which is
    what both an index assignment after `findIndex` and `Map.set` do to an
    insertion-ordered collection. */
module Seqs {

  /** `s.filter(p)`: the elements of `s` satisfying `p`, in their order. */
  function Filter<T>(p: T -> bool, s: seq<T>): (r: seq<T>)
    ensures |r| <= |s|
    ensures forall x <- r :: x in s && p(x)
    ensures forall x <- s :: p(x) ==> x in r
    decreases |s|
  {
    if s == [] then [] else (if p(s[0]) then [s[0]] else []) + Filter(p, s[1..])
  }

  /** Filtering distributes over concatenation: together with the one-element
      case this pins down that `Filter` keeps the stored order. */
  lemma {:induction false} FilterConcat<T>(p: T -> bool, a: seq<T>, b: seq<T>)
    ensures Filter(p, a + b) == Filter(p, a) + Filter(p, b)
    decreases |a|
  {
    if a == [] {
      assert a + b == b;
    } else {
      assert (a + b)[0] == a[0];
      assert (a + b)[1..] == a[1..] + b;
      FilterConcat(p, a[1..], b);
    }
  }

  /** Filtering by `q` and then by `p` is filtering by their conjunction. */
  lemma {:induction false} FilterFuse<T>(p: T -> bool, q: T -> bool, r: T -> bool, s: seq<T>)
    requires forall x :: r(x) == (p(x) && q(x))
    ensures Filter(p, Filter(q, s)) == Filter(r, s)
    decreases |s|
  {
    if s != [] {
      FilterFuse(p, q, r, s[1..]);
      FilterConcat(p, if q(s[0]) then [s[0]] else [], Filter(q, s[1..]));
    }
  }

  /** Filtering by `q` first makes no difference to a filter by `p` when,
      on `s`, everything `p` keeps `q` keeps too. */
  lemma {:induction false} FilterSkipsFilter<T>(p: T -> bool, q: T -> bool, s: seq<T>)
    requires forall x <- s :: p(x) ==> q(x)
    ensures Filter(p, Filter(q, s)) == Filter(p, s)
    decreases |s|
  {
    if s != [] {
      forall x <- s[1..] | p(x) ensures q(x) {
        assert x in s;
      }
      FilterSkipsFilter(p, q, s[1..]);
      var head := if q(s[0]) then [s[0]] else [];
      FilterConcat(p, head, Filter(q, s[1..]));
      if q(s[0]) {
        assert [s[0]][1..] == [];
      } else {
        assert s[0] in s;
      }
    }
  }

  /** A filter that rejects nothing returns its input unchanged. */
  lemma {:induction false} FilterKeepsAll<T>(p: T -> bool, s: seq<T>)
    requires forall x :: x in s ==> p(x)
    ensures Filter(p, s) == s
    decreases |s|
  {
    if s != [] {
      assert s[0] in s;
      forall x | x in s[1..] ensures p(x) {
        assert x in s;
      }
      FilterKeepsAll(p, s[1..]);
      assert s == [s[0]] + s[1..];
    }
  }

  /** A filter that rejects something returns a strictly shorter sequence. */
  lemma {:induction false} FilterDrops<T>(p: T -> bool, s: seq<T>)
    requires exists x :: x in s && !p(x)
    ensures |Filter(p, s)| < |s|
    decreases |s|
  {
    var x :| x in s && !p(x);
    if x != s[0] {
      assert x in s[1..];
      FilterDrops(p, s[1..]);
    }
  }

  /** The length of a filtered sequence is unchanged exactly when nothing is rejected. */
  lemma FilterSameLength<T>(p: T -> bool, s: seq<T>)
    ensures |Filter(p, s)| == |s| <==> forall x :: x in s ==> p(x)
  {
    if forall x :: x in s ==> p(x) {
      FilterKeepsAll(p, s);
    } else {
      FilterDrops(p, s);
    }
  }

  /** `s.findIndex(p)`: the first index whose element satisfies `p`, or -1. */
  function IndexWhere<T>(p: T -> bool, s: seq<T>): (i: int)
    ensures -1 <= i < |s|
    ensures 0 <= i ==> p(s[i]) && forall k :: 0 <= k < i ==> !p(s[k])
    ensures i == -1 ==> forall k :: 0 <= k < |s| ==> !p(s[k])
    decreases |s|
  {
    if s == [] then -1
    else if p(s[0]) then 0
    else
      var j := IndexWhere(p, s[1..]);
      assert forall k :: 1 <= k < |s| ==> s[k] == s[1..][k - 1];
      if j == -1 then -1 else j + 1
  }

  /** Index of the first element whose key is `k`, or -1. */
  function KeyIndex<T, K(==)>(key: T -> K, s: seq<T>, k: K): int
  {
    IndexWhere((t: T) => key(t) == k, s)
  }

  /** Set `x` by its key: overwrite the first element with the same key in
      place, or append `x` when no element has that key. */
  function UpsertBy<T, K(==)>(key: T -> K, s: seq<T>, x: T): (r: seq<T>)
    ensures x in r
    ensures forall y :: y in r ==> y == x || y in s
    ensures |r| == if KeyIndex(key, s, key(x)) == -1 then |s| + 1 else |s|
    ensures KeyIndex(key, s, key(x)) == -1 ==> r == s + [x]
    ensures KeyIndex(key, s, key(x)) >= 0 ==> r == s[KeyIndex(key, s, key(x)) := x]
  {
    var i := KeyIndex(key, s, key(x));
    if i == -1 then s + [x] else assert s[i := x][i] == x; s[i := x]
  }

  /** No two elements share a key. */
  predicate KeysUnique<T, K(==)>(key: T -> K, s: seq<T>) {
    forall i, j :: 0 <= i < j < |s| ==> key(s[i]) != key(s[j])
  }

  /** The keys present in `s`. */
  ghost function KeySet<T, K>(key: T -> K, s: seq<T>): set<K> {
    set t | t in s :: key(t)
  }

  /** Setting by key keeps the keys unique. */
  lemma UpsertKeepsKeysUnique<T, K>(key: T -> K, s: seq<T>, x: T)
    requires KeysUnique(key, s)
    ensures KeysUnique(key, UpsertBy(key, s, x))
  {
    var i := KeyIndex(key, s, key(x));
    var r := UpsertBy(key, s, x);
    if i == -1 {
      assert forall k :: 0 <= k < |s| ==> key(s[k]) != key(x);
      assert forall k :: 0 <= k < |s| ==> r[k] == s[k];
    } else {
      assert forall k :: 0 <= k < |s| ==> key(r[k]) == key(s[k]);
    }
  }

  /** Setting by key adds exactly the key of `x` to the key set. */
  lemma UpsertKeySet<T, K>(key: T -> K, s: seq<T>, x: T)
    ensures KeySet(key, UpsertBy(key, s, x)) == KeySet(key, s) + {key(x)}
  {
    var i := KeyIndex(key, s, key(x));
    var r := UpsertBy(key, s, x);
    if i == -1 {
      assert r == s + [x];
      forall k | k in KeySet(key, s) ensures k in KeySet(key, r) {
        var t :| t in s && key(t) == k;
        assert t in r;
      }
    } else {
      forall k | k in KeySet(key, s) ensures k in KeySet(key, r) {
        var t :| t in s && key(t) == k;
        var j :| 0 <= j < |s| && s[j] == t;
        if j == i {
          assert key(x) == k && x in r;
        } else {
          assert r[j] == t;
        }
      }
      forall k | k in KeySet(key, r) ensures k in KeySet(key, s) + {key(x)} {
        var t :| t in r && key(t) == k;
      }
    }
  }

  /** Setting two elements with the same key one after the other leaves what
      setting only the second one leaves. */
  lemma UpsertTwice<T, K>(key: T -> K, s: seq<T>, x: T, y: T)
    requires key(x) == key(y)
    ensures UpsertBy(key, UpsertBy(key, s, x), y) == UpsertBy(key, s, y)
  {
    var i := KeyIndex(key, s, key(x));
    var s1 := UpsertBy(key, s, x);
    if i == -1 {
      assert KeyIndex(key, s1, key(y)) == |s|;
    } else {
      var j := KeyIndex(key, s1, key(y));
      assert s1[i] == x;
      assert forall k :: 0 <= k < |s| && k != i ==> s1[k] == s[k];
      assert j == i;
    }
  }

  /** A prefix of a sequence with unique keys has unique keys, none of them
      the key of the element right after it. */
  lemma KeysUniquePrefix<T, K>(key: T -> K, s: seq<T>, n: nat)
    requires KeysUnique(key, s) && n < |s|
    ensures KeysUnique(key, s[..n])
    ensures forall x <- s[..n] :: key(x) != key(s[n])
  {
    assert forall i :: 0 <= i < n ==> s[..n][i] == s[i];
  }

  /** Filtering keeps the keys unique. */
  lemma {:induction false} FilterKeepsKeysUnique<T, K>(key: T -> K, p: T -> bool, s: seq<T>)
    requires KeysUnique(key, s)
    ensures KeysUnique(key, Filter(p, s))
    decreases |s|
  {
    if s != [] {
      var tail := Filter(p, s[1..]);
      assert KeysUnique(key, s[1..]) by {
        forall i, j | 0 <= i < j < |s[1..]| ensures key(s[1..][i]) != key(s[1..][j]) {
          assert s[1..][i] == s[i + 1] && s[1..][j] == s[j + 1];
        }
      }
      FilterKeepsKeysUnique(key, p, s[1..]);
      if p(s[0]) {
        var r := [s[0]] + tail;
        forall i, j | 0 <= i < j < |r| ensures key(r[i]) != key(r[j]) {
          if i == 0 {
            assert r[j] == tail[j - 1] && tail[j - 1] in s[1..];
            var m :| 0 <= m < |s[1..]| && s[1..][m] == r[j];
            assert s[m + 1] == r[j];
          } else {
            assert r[i] == tail[i - 1] && r[j] == tail[j - 1];
          }
        }
      }
    }
  }
}
