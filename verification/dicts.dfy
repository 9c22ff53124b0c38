/**
 * Python dicts with string keys: a sequence of (key, value) pairs in insertion
 * order whose keys are pairwise distinct. Covers `d[k] = v`, `{**d, **e}`,
 * `d.get(k, default)` and `sorted(d.items())`.
 */
module Dicts {
  import opened Results
  import opened Text

  predicate KeysUnique<V>(ps: seq<(string, V)>) {
    forall i, j | 0 <= i < j < |ps| :: ps[i].0 != ps[j].0
  }

  /** A Python dict: pairs in insertion order, each key at most once. */
  type Dict<V> = ps: seq<(string, V)> | KeysUnique(ps) witness []

  function KeySet<V>(ps: seq<(string, V)>): set<string> {
    set i | 0 <= i < |ps| :: ps[i].0
  }

  lemma KeySetCons<V>(ps: seq<(string, V)>)
    requires |ps| > 0
    ensures KeySet(ps) == {ps[0].0} + KeySet(ps[1..])
  {
    forall k | k in KeySet(ps) ensures k in {ps[0].0} + KeySet(ps[1..]) {
      var i :| 0 <= i < |ps| && ps[i].0 == k;
      if i > 0 { assert ps[1..][i - 1].0 == k; }
    }
    forall k | k in KeySet(ps[1..]) ensures k in KeySet(ps) {
      var i :| 0 <= i < |ps[1..]| && ps[1..][i].0 == k;
      assert ps[i + 1].0 == k;
    }
  }

  lemma KeySetPair<V>(a: string, b: string, u: V, v: V)
    ensures KeySet([(a, u), (b, v)]) == {a, b}
  {
    var ps := [(a, u), (b, v)];
    assert ps[0].0 == a && ps[1].0 == b;
    forall k | k in KeySet(ps) ensures k == a || k == b {
      var i :| 0 <= i < |ps| && ps[i].0 == k;
    }
  }

  /** The first key of a dict does not occur again. */
  lemma HeadFresh<V>(d: Dict<V>)
    requires |d| > 0
    ensures d[0].0 !in KeySet(d[1..])
  {
    forall i | 0 <= i < |d| - 1 ensures d[1..][i].0 != d[0].0 {
      assert d[1..][i] == d[i + 1];
    }
  }

  /** The key-to-value view of a dict, forgetting the insertion order. */
  function ToMap<V>(ps: seq<(string, V)>): (m: map<string, V>)
    ensures m.Keys == KeySet(ps)
    decreases |ps|
  {
    if |ps| == 0 then map[]
    else
      KeySetCons(ps);
      ToMap(ps[1..])[ps[0].0 := ps[0].1]
  }

  /** `d.get(k)`. */
  function Lookup<V>(d: Dict<V>, k: string): (r: Option<V>)
    ensures r.Some? <==> k in KeySet(d)
    ensures r.Some? ==> (k, r.value) in d
  {
    if k in ToMap(d) then
      InToMap(d, k, ToMap(d)[k]);
      Some(ToMap(d)[k])
    else Nothing
  }

  lemma {:induction false} InToMap<V>(d: Dict<V>, k: string, v: V)
    ensures (k, v) in d <==> k in ToMap(d) && ToMap(d)[k] == v
    decreases |d|
  {
    if |d| > 0 {
      var tail: Dict<V> := d[1..];
      InToMap(tail, k, v);
      HeadFresh(d);
      assert forall y :: y in d <==> y == d[0] || y in tail;
    }
  }

  /** A pair present in the dict is what `d.get` finds. */
  lemma LookupPair<V>(d: Dict<V>, k: string, v: V)
    requires (k, v) in d
    ensures Lookup(d, k) == Some(v)
  {
    InToMap(d, k, v);
  }

  /** Where key `k` sits in `d`. */
  function IndexOf<V>(d: seq<(string, V)>, k: string): (i: nat)
    requires k in KeySet(d)
    ensures i < |d| && d[i].0 == k
    decreases |d|
  {
    KeySetCons(d);
    if d[0].0 == k then 0 else 1 + IndexOf(d[1..], k)
  }

  /** `d[k] = v`: an existing key keeps its position, a new key goes last. */
  function Put<V>(d: Dict<V>, k: string, v: V): (r: Dict<V>)
    ensures ToMap(r) == ToMap(d)[k := v]
    ensures KeySet(r) == KeySet(d) + {k}
    ensures |r| == if k in KeySet(d) then |d| else |d| + 1
    ensures k !in KeySet(d) ==> r == d + [(k, v)]
  {
    if k in KeySet(d) then
      var i := IndexOf(d, k);
      ToMapReplace(d, i, v);
      d[i := (k, v)]
    else
      ToMapAppend(d, k, v);
      d + [(k, v)]
  }

  lemma {:induction false} ToMapAppend<V>(d: Dict<V>, k: string, v: V)
    requires k !in KeySet(d)
    ensures KeysUnique(d + [(k, v)])
    ensures ToMap(d + [(k, v)]) == ToMap(d)[k := v]
    ensures KeySet(d + [(k, v)]) == KeySet(d) + {k}
    decreases |d|
  {
    var r := d + [(k, v)];
    if |d| == 0 {
      assert r == [(k, v)];
      KeySetCons(r);
    } else {
      KeySetCons(d);
      var tail: Dict<V> := d[1..];
      ToMapAppend(tail, k, v);
      assert r[1..] == tail + [(k, v)];
      KeySetCons(r);
      MapUpdateSwap(ToMap(tail), k, v, d[0].0, d[0].1);
    }
  }

  lemma {:induction false} ToMapReplace<V>(d: Dict<V>, i: nat, v: V)
    requires i < |d|
    ensures KeysUnique(d[i := (d[i].0, v)])
    ensures ToMap(d[i := (d[i].0, v)]) == ToMap(d)[d[i].0 := v]
    ensures KeySet(d[i := (d[i].0, v)]) == KeySet(d)
    decreases |d|
  {
    var r := d[i := (d[i].0, v)];
    assert forall j | 0 <= j < |d| :: r[j].0 == d[j].0;
    KeySetCons(d);
    KeySetCons(r);
    var tail: Dict<V> := d[1..];
    if i == 0 {
      assert r[1..] == tail;
    } else {
      ToMapReplace(tail, i - 1, v);
      assert r[1..] == tail[i - 1 := (tail[i - 1].0, v)];
      HeadFresh(d);
      assert d[i].0 != d[0].0;
      MapUpdateSwap(ToMap(tail), d[i].0, v, d[0].0, d[0].1);
    }
  }

  /** Prepends a pair whose key is new. */
  function Cons<V>(x: (string, V), s: Dict<V>): (r: Dict<V>)
    requires x.0 !in KeySet(s)
    ensures r == [x] + s
    ensures ToMap(r) == ToMap(s)[x.0 := x.1]
    ensures KeySet(r) == {x.0} + KeySet(s)
  {
    var r := [x] + s;
    assert r[1..] == s;
    KeySetCons(r);
    assert forall i | 0 < i < |r| :: r[i] == s[i - 1];
    r
  }

  /** `{**d, **e}`: every pair of `e` is put into `d`, so `e` wins on a shared key. */
  function Merge<V>(d: Dict<V>, e: Dict<V>): (r: Dict<V>)
    ensures ToMap(r) == ToMap(d) + ToMap(e)
    decreases |e|
  {
    if |e| == 0 then d
    else
      var tail: Dict<V> := e[1..];
      HeadFresh(e);
      MapUpdateUnion(ToMap(d), ToMap(tail), e[0].0, e[0].1);
      Merge(Put(d, e[0].0, e[0].1), tail)
  }

  lemma MapUpdateSwap<V>(m: map<string, V>, k: string, v: V, j: string, w: V)
    requires k != j
    ensures m[k := v][j := w] == m[j := w][k := v]
  {
  }

  lemma MapUpdateUnion<V>(m: map<string, V>, n: map<string, V>, k: string, v: V)
    requires k !in n
    ensures m[k := v] + n == m + n[k := v]
  {
  }

  // ---------------------------------------------------------------------------
  // sorted(d.items())
  // ---------------------------------------------------------------------------

  /** Strictly increasing keys, in Python's string order. */
  predicate SortedByKey<V>(ps: seq<(string, V)>) {
    forall i, j | 0 <= i < j < |ps| :: Less(ps[i].0, ps[j].0)
  }

  lemma SortedKeysUnique<V>(ps: seq<(string, V)>)
    requires SortedByKey(ps)
    ensures KeysUnique(ps)
  {
    forall i, j | 0 <= i < j < |ps| ensures ps[i].0 != ps[j].0 {
      LessIrreflexive(ps[i].0);
    }
  }

  /** Inserts a pair with a new key into a key-sorted sequence, keeping it sorted. */
  function Insert<V(!new)>(x: (string, V), s: Dict<V>): (r: Dict<V>)
    requires SortedByKey(s)
    requires x.0 !in KeySet(s)
    ensures SortedByKey(r)
    ensures |r| == |s| + 1
    ensures forall y :: y in r <==> y == x || y in s
    ensures KeySet(r) == KeySet(s) + {x.0}
    decreases |s|, 1
  {
    if |s| == 0 then Cons(x, s)
    else if Less(x.0, s[0].0) then InsertFront(x, s)
    else InsertBehind(x, s)
  }

  /** The new key is below the first: it goes in front. */
  function InsertFront<V>(x: (string, V), s: Dict<V>): (r: Dict<V>)
    requires SortedByKey(s)
    requires x.0 !in KeySet(s)
    requires |s| > 0 && Less(x.0, s[0].0)
    ensures SortedByKey(r)
    ensures r == [x] + s
    ensures KeySet(r) == KeySet(s) + {x.0}
  {
    forall j | 0 <= j < |s| ensures Less(x.0, s[j].0) {
      if j > 0 { LessTransitive(x.0, s[0].0, s[j].0); }
    }
    SortedPrepend(x, s);
    Cons(x, s)
  }

  /** The new key is above the first: the first stays, and the key goes into the rest. */
  function InsertBehind<V(!new)>(x: (string, V), s: Dict<V>): (r: Dict<V>)
    requires SortedByKey(s)
    requires x.0 !in KeySet(s)
    requires |s| > 0 && !Less(x.0, s[0].0)
    ensures SortedByKey(r)
    ensures |r| == |s| + 1
    ensures forall y :: y in r <==> y == x || y in s
    ensures KeySet(r) == KeySet(s) + {x.0}
    decreases |s|, 0
  {
    KeySetCons(s);
    HeadFresh(s);
    LessTotal(x.0, s[0].0);
    var tail: Dict<V> := s[1..];
    var rest := Insert(x, tail);
    var r := Cons(s[0], rest);
    InsertAfterHead(s, x, rest, r);
    HeadBelowRest(s, x, rest);
    SortedPrepend(s[0], rest);
    r
  }

  /** A pair whose key is below every key of a sorted sequence can go in front. */
  lemma SortedPrepend<V>(a: (string, V), rest: seq<(string, V)>)
    requires SortedByKey(rest)
    requires forall j | 0 <= j < |rest| :: Less(a.0, rest[j].0)
    ensures SortedByKey([a] + rest)
  {
    var r := [a] + rest;
    assert r[1..] == rest;
    SortedCons(r);
  }

  /** Putting the old head before the insertion into the tail inserts into the whole. */
  lemma InsertAfterHead<V>(s: seq<(string, V)>, x: (string, V), rest: seq<(string, V)>, r: seq<(string, V)>)
    requires |s| > 0 && r == [s[0]] + rest
    requires forall y :: y in rest <==> y == x || y in s[1..]
    ensures forall y :: y in r <==> y == x || y in s
  {
    assert s == [s[0]] + s[1..];
  }

  lemma HeadBelowRest<V>(s: seq<(string, V)>, x: (string, V), rest: seq<(string, V)>)
    requires |s| > 0 && SortedByKey(s)
    requires Less(s[0].0, x.0)
    requires forall y :: y in rest ==> y == x || y in s[1..]
    ensures forall j | 0 <= j < |rest| :: Less(s[0].0, rest[j].0)
  {
    forall j | 0 <= j < |rest| ensures Less(s[0].0, rest[j].0) {
      if rest[j] != x {
        assert rest[j] in s[1..];
        var m :| 0 <= m < |s| - 1 && s[1..][m] == rest[j];
        assert rest[j] == s[m + 1];
      }
    }
  }

  /** A sequence is key-sorted when its head precedes everything after it and its tail is key-sorted. */
  lemma SortedCons<V>(r: seq<(string, V)>)
    requires |r| > 0
    requires forall j | 0 < j < |r| :: Less(r[0].0, r[j].0)
    requires SortedByKey(r[1..])
    ensures SortedByKey(r)
  {
    forall i, j | 0 < i < j < |r| ensures Less(r[i].0, r[j].0) {
      assert r[i] == r[1..][i - 1] && r[j] == r[1..][j - 1];
    }
  }

  /** Keys that increase from each pair to the next are sorted throughout. */
  lemma {:induction false} SortedChain<V>(ps: seq<(string, V)>)
    requires forall i | 0 <= i < |ps| - 1 :: Less(ps[i].0, ps[i + 1].0)
    ensures SortedByKey(ps)
    decreases |ps|
  {
    if |ps| > 1 {
      var tail := ps[1..];
      assert forall i | 0 <= i < |tail| :: tail[i] == ps[i + 1];
      SortedChain(tail);
      forall j | 0 < j < |ps| ensures Less(ps[0].0, ps[j].0) {
        if j > 1 {
          assert ps[1] == tail[0] && ps[j] == tail[j - 1];
          LessTransitive(ps[0].0, ps[1].0, ps[j].0);
        }
      }
      SortedCons(ps);
    }
  }

  /** `sorted(d.items())`: the same pairs, ordered by key. */
  function SortByKey<V(!new)>(d: Dict<V>): (r: Dict<V>)
    ensures SortedByKey(r)
    ensures |r| == |d|
    ensures forall y :: y in r <==> y in d
    ensures KeySet(r) == KeySet(d)
    decreases |d|
  {
    if |d| == 0 then []
    else
      var tail: Dict<V> := d[1..];
      var rest := SortByKey(tail);
      KeySetCons(d);
      HeadFresh(d);
      assert forall y :: y in d <==> y == d[0] || y in tail;
      Insert(d[0], rest)
  }

  /** A key-sorted sequence never repeats its head. */
  lemma SortedHeadOnce<V>(a: seq<(string, V)>, k: nat)
    requires SortedByKey(a)
    requires 0 < k < |a|
    ensures a[k] != a[0]
  {
    LessIrreflexive(a[0].0);
  }

  lemma HeadIsMember<T>(b: seq<T>)
    ensures |b| > 0 ==> b[0] in b
  {
  }

  /** Two key-sorted sequences holding the same pairs are the same sequence. */
  lemma {:induction false} SortedUnique<V(!new)>(a: seq<(string, V)>, b: seq<(string, V)>)
    requires SortedByKey(a) && SortedByKey(b)
    requires forall y :: y in a <==> y in b
    ensures a == b
    decreases |a|
  {
    if |a| == 0 {
      HeadIsMember(b);
    } else {
      SortedHeadsAgree(a, b);
      SortedTailsAgree(a, b);
      SortedUnique(a[1..], b[1..]);
      assert a == [a[0]] + a[1..] && b == [b[0]] + b[1..];
    }
  }

  /** Two key-sorted sequences with the same members start with the same pair. */
  lemma SortedHeadsAgree<V>(a: seq<(string, V)>, b: seq<(string, V)>)
    requires SortedByKey(a) && SortedByKey(b)
    requires forall y :: y in a <==> y in b
    requires |a| > 0
    ensures |b| > 0 && a[0] == b[0]
  {
    assert a[0] in b;
    var j :| 0 <= j < |b| && b[j] == a[0];
    assert b[0] in a;
    var i :| 0 <= i < |a| && a[i] == b[0];
    if i > 0 && j > 0 {
      LessAsymmetric(a[0].0, a[i].0);
    } else if j > 0 {
      LessIrreflexive(a[0].0);
    }
  }

  /** ... and so the rests have the same members too. */
  lemma SortedTailsAgree<V>(a: seq<(string, V)>, b: seq<(string, V)>)
    requires SortedByKey(a) && SortedByKey(b)
    requires forall y :: y in a <==> y in b
    requires |a| > 0 && |b| > 0 && a[0] == b[0]
    ensures forall y :: y in a[1..] <==> y in b[1..]
  {
    forall y ensures y in a[1..] <==> y in b[1..] {
      if y in a[1..] {
        var k :| 0 <= k < |a[1..]| && a[1..][k] == y;
        SortedHeadOnce(a, k + 1);
        assert y in b;
        var m :| 0 <= m < |b| && b[m] == y;
        assert b[1..][m - 1] == y;
      }
      if y in b[1..] {
        var k :| 0 <= k < |b[1..]| && b[1..][k] == y;
        SortedHeadOnce(b, k + 1);
        assert y in a;
        var m :| 0 <= m < |a| && a[m] == y;
        assert a[1..][m - 1] == y;
      }
    }
  }

  /**
   * The order in which pairs were inserted into a dict does not reach
   * `sorted(d.items())`: dicts with the same key-to-value view sort identically.
   */
  lemma SortByKeyOrderIndependent<V(!new)>(d: Dict<V>, e: Dict<V>)
    requires ToMap(d) == ToMap(e)
    ensures SortByKey(d) == SortByKey(e)
  {
    forall y ensures y in SortByKey(d) <==> y in SortByKey(e) {
      InToMap(d, y.0, y.1);
      InToMap(e, y.0, y.1);
    }
    SortedUnique(SortByKey(d), SortByKey(e));
  }

  /** Dicts holding the same pairs have the same key-to-value view. */
  lemma SameItemsSameMap<V>(d: Dict<V>, e: Dict<V>)
    requires forall y :: y in d <==> y in e
    ensures ToMap(d) == ToMap(e)
  {
    forall k | k in KeySet(d) ensures k in KeySet(e) {
      var i :| 0 <= i < |d| && d[i].0 == k;
      assert d[i] in e;
    }
    forall k | k in KeySet(e) ensures k in KeySet(d) {
      var i :| 0 <= i < |e| && e[i].0 == k;
      assert e[i] in d;
    }
    forall k | k in ToMap(d) ensures ToMap(d)[k] == ToMap(e)[k] {
      InToMap(d, k, ToMap(d)[k]);
      InToMap(e, k, ToMap(d)[k]);
    }
  }
}
