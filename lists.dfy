/** The array operations the store and the screens build their lists with:
    `filter`, the "remove if present, else append" toggle and removal by position. */
module Lists {
  import opened Wrappers

  /** `s.filter(p)`: the elements satisfying `p`, in their original order. */
  function Filter<T>(s: seq<T>, p: T -> bool): (r: seq<T>)
    ensures |r| <= |s|
    ensures forall i :: 0 <= i < |r| ==> r[i] in s && p(r[i])
    ensures forall i :: 0 <= i < |s| && p(s[i]) ==> s[i] in r
  {
    if s == [] then [] else (if p(s[0]) then [s[0]] else []) + Filter(s[1..], p)
  }

  /** Filtering a concatenation filters each part: the kept elements keep their order. */
  lemma {:induction false} FilterConcat<T>(a: seq<T>, b: seq<T>, p: T -> bool)
    ensures Filter(a + b, p) == Filter(a, p) + Filter(b, p)
  {
    if a == [] {
      assert a + b == b;
    } else {
      assert (a + b)[1..] == a[1..] + b;
      FilterConcat(a[1..], b, p);
    }
  }

  /** A filter that keeps everything is the identity. */
  lemma {:induction false} FilterKeepsAll<T>(s: seq<T>, p: T -> bool)
    requires forall i :: 0 <= i < |s| ==> p(s[i])
    ensures Filter(s, p) == s
  {
    if s != [] {
      FilterKeepsAll(s[1..], p);
    }
  }

  /** Every pairwise relation that holds between earlier and later elements still
      holds after filtering (a filter only drops elements, never reorders them). */
  lemma {:induction false} FilterKeepsOrderedPairs<T>(s: seq<T>, p: T -> bool, rel: (T, T) -> bool)
    requires forall i, j :: 0 <= i < j < |s| ==> rel(s[i], s[j])
    ensures forall i, j :: 0 <= i < j < |Filter(s, p)| ==> rel(Filter(s, p)[i], Filter(s, p)[j])
  {
    if s != [] {
      var tail := s[1..];
      assert forall i, j :: 0 <= i < j < |tail| ==> rel(tail[i], tail[j]) by {
        forall i, j | 0 <= i < j < |tail| ensures rel(tail[i], tail[j]) {
          assert tail[i] == s[i + 1] && tail[j] == s[j + 1];
        }
      }
      FilterKeepsOrderedPairs(tail, p, rel);
      var r := Filter(s, p);
      var rt := Filter(tail, p);
      if p(s[0]) {
        assert r == [s[0]] + rt;
        forall j | 0 <= j < |rt| ensures rel(s[0], rt[j]) {
          HeadBeforeKept(s, p, rel, j);
        }
        ConsOrderedPairs(s[0], rt, rel);
      } else {
        assert r == rt;
      }
    }
  }

  /** An element related to everything after it, in front of a list whose elements are
      related pairwise in order, gives a list whose elements are related pairwise. */
  lemma ConsOrderedPairs<T>(x: T, s: seq<T>, rel: (T, T) -> bool)
    requires forall j :: 0 <= j < |s| ==> rel(x, s[j])
    requires forall i, j :: 0 <= i < j < |s| ==> rel(s[i], s[j])
    ensures forall i, j :: 0 <= i < j < |[x] + s| ==> rel(([x] + s)[i], ([x] + s)[j])
  {
    var r := [x] + s;
    forall i, j | 0 <= i < j < |r| ensures rel(r[i], r[j]) {
      assert r[j] == s[j - 1];
      if i > 0 {
        assert r[i] == s[i - 1];
      }
    }
  }

  /** The head of a list is related to everything kept from its tail when it is
      related to everything in its tail. */
  lemma HeadBeforeKept<T>(s: seq<T>, p: T -> bool, rel: (T, T) -> bool, j: int)
    requires forall i, j :: 0 <= i < j < |s| ==> rel(s[i], s[j])
    requires |s| > 0 && 0 <= j < |Filter(s[1..], p)|
    ensures rel(s[0], Filter(s[1..], p)[j])
  {
    var tail := s[1..];
    assert Filter(tail, p)[j] in tail;
    var k :| 0 <= k < |tail| && tail[k] == Filter(tail, p)[j];
    assert s[k + 1] == tail[k];
  }

  /** Filtering by a conjunction is filtering by each conjunct in turn. */
  lemma {:induction false} FilterFilter<T>(s: seq<T>, p: T -> bool, q: T -> bool, pq: T -> bool)
    requires forall i :: 0 <= i < |s| ==> (pq(s[i]) <==> p(s[i]) && q(s[i]))
    ensures Filter(s, pq) == Filter(Filter(s, p), q)
  {
    if s != [] {
      FilterFilter(s[1..], p, q, pq);
      var h := [s[0]];
      assert h[1..] == [];
      var kept: seq<T> := if p(s[0]) then h else [];
      FilterConcat(kept, Filter(s[1..], p), q);
    }
  }

  /** The number of elements satisfying `p`. */
  function Count<T>(s: seq<T>, p: T -> bool): nat {
    |Filter(s, p)|
  }

  /** When `q1` and `q2` split the list into two parts, the elements satisfying `p`
      are counted by adding up the two parts. */
  lemma {:induction false} FilterSplitCount<T>(s: seq<T>, q1: T -> bool, q2: T -> bool, p: T -> bool)
    requires forall i :: 0 <= i < |s| ==> (q1(s[i]) <==> !q2(s[i]))
    ensures Count(Filter(s, q1), p) + Count(Filter(s, q2), p) == Count(s, p)
  {
    if s != [] {
      FilterSplitCount(s[1..], q1, q2, p);
      var h := [s[0]];
      assert h[1..] == [];
      var a1: seq<T> := if q1(s[0]) then h else [];
      var a2: seq<T> := if q2(s[0]) then h else [];
      FilterConcat(a1, Filter(s[1..], q1), p);
      FilterConcat(a2, Filter(s[1..], q2), p);
      assert Filter(a1, p) + Filter(a2, p) == Filter(h, p);
    }
  }

  /** Some element of `s` has key `k` (`s.some(x => key(x) === k)`). */
  predicate HasKey<T, K(==)>(s: seq<T>, key: T -> K, k: K) {
    exists i :: 0 <= i < |s| && key(s[i]) == k
  }

  /** Position `i` holds the first element of `s` with key `k`. */
  predicate FirstWithKey<T, K(==)>(s: seq<T>, key: T -> K, k: K, i: int) {
    0 <= i < |s| && key(s[i]) == k && forall j :: 0 <= j < i ==> key(s[j]) != k
  }

  /** `s.find(x => key(x) === k)`: the first element with key `k`, if any. */
  function Find<T, K(==)>(s: seq<T>, key: T -> K, k: K): (r: Option<T>)
    ensures r.None? <==> !HasKey(s, key, k)
    ensures r.Some? ==> exists i :: FirstWithKey(s, key, k, i) && s[i] == r.value
  {
    if s == [] then None
    else if key(s[0]) == k then Some(s[0])
    else
      var r := Find(s[1..], key, k);
      assert HasKey(s, key, k) ==> HasKey(s[1..], key, k) by {
        if HasKey(s, key, k) {
          var i :| 0 <= i < |s| && key(s[i]) == k;
          assert s[1..][i - 1] == s[i];
        }
      }
      assert r.Some? ==> exists i :: FirstWithKey(s, key, k, i) && s[i] == r.value by {
        if r.Some? {
          var i :| FirstWithKey(s[1..], key, k, i) && s[1..][i] == r.value;
          assert s[i + 1] == r.value;
          forall j | 0 <= j < i + 1 ensures key(s[j]) != k {
            if j > 0 { assert s[j] == s[1..][j - 1]; }
          }
          assert FirstWithKey(s, key, k, i + 1);
        }
      }
      r
  }

  /** With distinct keys, `find` returns the one element that has the key. */
  lemma FindDistinct<T, K>(s: seq<T>, key: T -> K, i: int)
    requires DistinctKeys(s, key)
    requires 0 <= i < |s|
    ensures Find(s, key, key(s[i])) == Some(s[i])
  {
    var r := Find(s, key, key(s[i]));
    assert HasKey(s, key, key(s[i]));
    var i' :| FirstWithKey(s, key, key(s[i]), i') && s[i'] == r.value;
  }

  /** Two lists with the same key at every position have their first element with key
      `k` at the same position. */
  lemma {:induction false} FindSameKeys<T, K>(s: seq<T>, t: seq<T>, key: T -> K, k: K)
    requires |s| == |t|
    requires forall i :: 0 <= i < |s| ==> key(s[i]) == key(t[i])
    ensures Find(s, key, k).None? <==> Find(t, key, k).None?
    ensures Find(s, key, k).Some? ==>
      exists i :: FirstWithKey(s, key, k, i) && Find(s, key, k) == Some(s[i]) && Find(t, key, k) == Some(t[i])
  {
    if s != [] && key(s[0]) != k {
      FindSameKeys(s[1..], t[1..], key, k);
      if Find(s, key, k).Some? {
        var i :| FirstWithKey(s[1..], key, k, i) && Find(s[1..], key, k) == Some(s[1..][i]) &&
          Find(t[1..], key, k) == Some(t[1..][i]);
        forall j | 0 <= j < i + 1 ensures key(s[j]) != k {
          if j > 0 { assert s[j] == s[1..][j - 1]; }
        }
        assert FirstWithKey(s, key, k, i + 1);
      }
    } else if s != [] {
      assert FirstWithKey(s, key, k, 0);
    }
  }

  /** No two elements of `s` share a key. */
  predicate DistinctKeys<T, K(==)>(s: seq<T>, key: T -> K) {
    forall i, j :: 0 <= i < j < |s| ==> key(s[i]) != key(s[j])
  }

  /** The filter predicate `x => key(x) !== k`. */
  function KeyIsNot<T, K(==)>(key: T -> K, k: K): T -> bool {
    x => key(x) != k
  }

  lemma DistinctKeysTail<T, K>(s: seq<T>, key: T -> K)
    requires DistinctKeys(s, key) && s != []
    ensures DistinctKeys(s[1..], key)
  {
    var tail := s[1..];
    forall a, b | 0 <= a < b < |tail| ensures key(tail[a]) != key(tail[b]) {
      assert tail[a] == s[a + 1] && tail[b] == s[b + 1];
    }
  }

  lemma DistinctKeysHead<T, K>(s: seq<T>, key: T -> K)
    requires DistinctKeys(s, key) && s != []
    ensures forall j :: 0 <= j < |s[1..]| ==> KeyIsNot(key, key(s[0]))(s[1..][j])
  {
    forall j | 0 <= j < |s[1..]| ensures KeyIsNot(key, key(s[0]))(s[1..][j]) {
      assert s[1..][j] == s[j + 1];
    }
  }

  /** With distinct keys, filtering out the key of position `i` drops exactly that
      position. */
  lemma {:induction false} FilterOutUnique<T, K>(s: seq<T>, key: T -> K, i: int)
    requires DistinctKeys(s, key) && 0 <= i < |s|
    ensures Filter(s, KeyIsNot(key, key(s[i]))) == s[..i] + s[i + 1..]
  {
    DistinctKeysTail(s, key);
    if i == 0 {
      DistinctKeysHead(s, key);
      FilterKeepsAll(s[1..], KeyIsNot(key, key(s[0])));
    } else {
      FilterOutUnique(s[1..], key, i - 1);
      assert s[1..][i - 1] == s[i];
      FilterOutLater(s, key, i);
    }
  }

  /** The step of `FilterOutUnique` for a later position: the head is kept. */
  lemma FilterOutLater<T, K>(s: seq<T>, key: T -> K, i: int)
    requires 0 < i < |s| && key(s[0]) != key(s[i])
    requires Filter(s[1..], KeyIsNot(key, key(s[1..][i - 1]))) == s[1..][..i - 1] + s[1..][i..]
    ensures Filter(s, KeyIsNot(key, key(s[i]))) == s[..i] + s[i + 1..]
  {
    var keep := KeyIsNot(key, key(s[i]));
    assert s[1..][i - 1] == s[i];
    assert keep(s[0]) by {
      assert keep(s[0]) == (key(s[0]) != key(s[i]));
    }
    assert Filter(s, keep) == [s[0]] + Filter(s[1..], keep);
    ConsSplice(s, i);
  }

  /** Putting the head back in front of the tail without one of its elements. */
  lemma ConsSplice<T>(s: seq<T>, i: int)
    requires 0 < i < |s|
    ensures [s[0]] + (s[1..][..i - 1] + s[1..][i..]) == s[..i] + s[i + 1..]
  {
    var tail := s[1..];
    assert [s[0]] + tail[..i - 1] == s[..i];
    assert tail[i..] == s[i + 1..];
  }

  /** The toggle used for habits, frequencies and blocker emojis: when some element has
      key `k`, every such element is removed; otherwise `item` is appended. */
  function ToggleKeyed<T, K(==)>(s: seq<T>, key: T -> K, k: K, item: T): seq<T> {
    if HasKey(s, key, k) then Filter(s, KeyIsNot(key, k)) else s + [item]
  }

  /** After a toggle the key is present exactly when it was absent before, and every
      other key is present exactly as before. */
  lemma ToggleKeyedMembership<T, K>(s: seq<T>, key: T -> K, k: K, item: T, k': K)
    requires key(item) == k
    ensures HasKey(ToggleKeyed(s, key, k, item), key, k) <==> !HasKey(s, key, k)
    ensures k' != k ==> (HasKey(ToggleKeyed(s, key, k, item), key, k') <==> HasKey(s, key, k'))
  {
    var r := ToggleKeyed(s, key, k, item);
    if !HasKey(s, key, k) {
      assert item in r;
      if k' != k && HasKey(r, key, k') {
        var x :| x in r && key(x) == k';
        assert x in s;
      }
      if HasKey(s, key, k') {
        var x :| x in s && key(x) == k';
        assert x in r;
      }
    } else if k' != k && HasKey(s, key, k') {
      var x :| x in s && key(x) == k';
      assert x in r;
    }
  }

  /** Toggling an absent key twice gives back the original list. */
  lemma ToggleKeyedTwiceRestores<T, K>(s: seq<T>, key: T -> K, k: K, item: T)
    requires key(item) == k
    requires !HasKey(s, key, k)
    ensures ToggleKeyed(ToggleKeyed(s, key, k, item), key, k, item) == s
  {
    var once := s + [item];
    assert item in once;
    assert ToggleKeyed(s, key, k, item) == once;
    var keep := KeyIsNot(key, k);
    FilterConcat(s, [item], keep);
    FilterKeepsAll(s, keep);
    assert Filter([item], keep) == [];
  }

  /** A list without repeated keys stays without repeated keys under a toggle. */
  lemma ToggleKeyedKeepsDistinct<T, K>(s: seq<T>, key: T -> K, k: K, item: T)
    requires key(item) == k
    requires DistinctKeys(s, key)
    ensures DistinctKeys(ToggleKeyed(s, key, k, item), key)
  {
    if HasKey(s, key, k) {
      FilterKeepsOrderedPairs(s, KeyIsNot(key, k), (x, y) => key(x) != key(y));
    } else {
      var r := s + [item];
      forall i, j | 0 <= i < j < |r| ensures key(r[i]) != key(r[j]) {
        if j == |s| {
          assert r[i] in s;
        }
      }
    }
  }

  function Identity<T>(v: T): T {
    v
  }

  /** `s.includes(v)` is a key lookup with the element as its own key. */
  lemma InAsHasKey<T>(s: seq<T>, v: T)
    ensures v in s <==> HasKey(s, Identity, v)
  {
    if v in s {
      var i :| 0 <= i < |s| && s[i] == v;
      assert Identity(s[i]) == v;
    }
  }

  /** `s.includes(v) ? s.filter(x => x !== v) : [...s, v]`, the toggle of the
      frequency picker and of the blocker emojis. */
  function ToggleIncluded<T(==)>(s: seq<T>, v: T): seq<T> {
    ToggleKeyed(s, Identity, v, v)
  }

  /** After a toggle `v` is present exactly when it was absent before, every other
      value is present exactly as before, and toggling an absent value twice gives back
      the same list. */
  lemma ToggleIncludedFlips<T>(s: seq<T>, v: T, other: T)
    ensures v in ToggleIncluded(s, v) <==> v !in s
    ensures other != v ==> (other in ToggleIncluded(s, v) <==> other in s)
    ensures v !in s ==> ToggleIncluded(ToggleIncluded(s, v), v) == s
  {
    ToggleKeyedMembership(s, Identity, v, v, other);
    InAsHasKey(s, v);
    InAsHasKey(s, other);
    InAsHasKey(ToggleIncluded(s, v), v);
    InAsHasKey(ToggleIncluded(s, v), other);
    if v !in s {
      ToggleKeyedTwiceRestores(s, Identity, v, v);
    }
  }

  /** `s.filter((_, i) => i !== index)`, where `pos` is the position of `s[0]` in the
      list being filtered. */
  function DropIndexFrom<T>(s: seq<T>, index: int, pos: int): seq<T> {
    if s == [] then [] else (if pos == index then [] else [s[0]]) + DropIndexFrom(s[1..], index, pos + 1)
  }

  /** `s.filter((_, i) => i !== index)`. */
  function DropIndex<T>(s: seq<T>, index: int): seq<T> {
    DropIndexFrom(s, index, 0)
  }

  lemma {:induction false} DropIndexFromSpec<T>(s: seq<T>, index: int, pos: int)
    ensures DropIndexFrom(s, index, pos) ==
      if pos <= index < pos + |s| then s[..index - pos] + s[index - pos + 1..] else s
  {
    if s != [] {
      var t, k := s[1..], index - pos;
      DropIndexFromSpec(t, index, pos + 1);
      assert DropIndexFrom(s, index, pos) == (if k == 0 then [] else [s[0]]) + DropIndexFrom(t, index, pos + 1);
      if k == 0 {
        assert s[..0] + s[1..] == t;
      } else if 0 < k < |s| {
        assert DropIndexFrom(t, index, pos + 1) == t[..k - 1] + t[k..];
        assert t[..k - 1] == s[1..k] && t[k..] == s[k + 1..];
        assert [s[0]] + s[1..k] == s[..k];
        assert [s[0]] + (s[1..k] + s[k + 1..]) == s[..k] + s[k + 1..];
      } else {
        assert DropIndexFrom(t, index, pos + 1) == t;
        assert [s[0]] + t == s;
      }
    }
  }

  /** Removing position `index` drops exactly that element and keeps the others in
      order; an index outside the list removes nothing. */
  lemma DropIndexSpec<T>(s: seq<T>, index: int)
    ensures DropIndex(s, index) == if 0 <= index < |s| then s[..index] + s[index + 1..] else s
  {
    DropIndexFromSpec(s, index, 0);
  }

  /** A list whose elements are pairwise different holds each value at most once. */
  lemma {:induction false} DistinctAtMostOnce<T>(s: seq<T>, x: T)
    requires forall i, j :: 0 <= i < j < |s| ==> s[i] != s[j]
    ensures multiset(s)[x] <= 1
  {
    if s != [] {
      var t := s[1..];
      assert forall i, j :: 0 <= i < j < |t| ==> t[i] == s[i + 1] && t[j] == s[j + 1];
      DistinctAtMostOnce(t, x);
      assert s == [s[0]] + t;
      if s[0] == x {
        assert forall i :: 0 <= i < |t| ==> t[i] != x by {
          forall i | 0 <= i < |t| ensures t[i] != x {
            assert s[0] != s[i + 1];
          }
        }
        assert x !in t;
      }
    }
  }

  /** A value at two positions of a list occurs at least twice in it. */
  lemma RepeatedTwice<T>(s: seq<T>, i: int, j: int)
    requires 0 <= i < j < |s| && s[i] == s[j]
    ensures multiset(s)[s[i]] >= 2
  {
    var x := s[i];
    assert s == s[..j] + s[j..];
    assert x in s[..j] by { assert s[..j][i] == x; }
    assert x in s[j..] by { assert s[j..][0] == x; }
  }
}
