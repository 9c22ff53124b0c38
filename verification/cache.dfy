/**
 * `CacheManager`: a `cachetools.TTLCache` plus hit and miss counters.
 *
 * The store keeps every entry with its expiry time `set time + ttl`; an
 * entry is live while `now < expires`. Two orders are kept over the stored
 * keys, as `TTLCache` keeps them: `links`, the order in which keys were
 * last set (which is also the order of their expiry times), and `lru`, the
 * order of last use, whose head is evicted when a new key finds the cache
 * full. Expired entries linger until a `set` purges them; no operation can
 * observe them. The clock is the field `now`, advanced by `Tick`.
 */
module Cache {
  import opened Results
  import opened Json

  datatype Entry = Entry(value: Json, expires: int)

  datatype Cache = Cache(
    store: map<string, Entry>,
    links: seq<string>,
    lru: seq<string>,
    maxsize: nat,
    ttl: int,
    now: int,
    hits: nat,
    misses: nat)

  // ---------------------------------------------------------------------------
  // Sequences of distinct keys
  // ---------------------------------------------------------------------------

  predicate NoDup(s: seq<string>) {
    forall i, j | 0 <= i < j < |s| :: s[i] != s[j]
  }

  /** The elements of `s` that are in `keep`, in their order in `s`. */
  function Filter(s: seq<string>, keep: set<string>): (r: seq<string>)
    ensures forall y :: y in r <==> y in s && y in keep
    ensures NoDup(s) ==> NoDup(r)
    ensures |r| <= |s|
    decreases |s|
  {
    if |s| == 0 then []
    else
      var rest := Filter(s[1..], keep);
      if s[0] in keep then [s[0]] + rest else rest
  }

  /** `s` without `x`, and with `x` appended: `x` moved to (or added at) the end. */
  function MoveToEnd(s: seq<string>, x: string): (r: seq<string>)
    ensures forall y :: y in r <==> y in s || y == x
    ensures NoDup(s) ==> NoDup(r)
    ensures |r| > 0 && r[|r| - 1] == x
  {
    var others := Filter(s, (set y | y in s && y != x :: y));
    assert x !in others;
    others + [x]
  }

  lemma {:induction false} CardOfNoDup(s: seq<string>, keys: set<string>)
    requires NoDup(s)
    requires forall k :: k in s <==> k in keys
    ensures |keys| == |s|
    decreases |s|
  {
    if |s| > 0 {
      var rest := keys - {s[0]};
      forall k ensures k in s[1..] <==> k in rest {
        if k in s[1..] {
          var i :| 0 <= i < |s| - 1 && s[1..][i] == k;
          assert s[i + 1] == k;
        }
        if k in rest {
          var i :| 0 <= i < |s| && s[i] == k;
          assert i != 0;
          assert s[1..][i - 1] == k;
        }
      }
      CardOfNoDup(s[1..], rest);
    }
  }

  // ---------------------------------------------------------------------------
  // Invariant
  // ---------------------------------------------------------------------------

  predicate Live(c: Cache, k: string) {
    k in c.store && c.now < c.store[k].expires
  }

  function LiveSet(c: Cache): set<string> {
    set k | k in c.store && c.now < c.store[k].expires :: k
  }

  /** Expiry times never decrease along `links`. */
  predicate LinksByExpiry(c: Cache)
    requires forall k :: k in c.links ==> k in c.store
  {
    forall i, j | 0 <= i < j < |c.links| :: c.store[c.links[i]].expires <= c.store[c.links[j]].expires
  }

  ghost predicate Valid(c: Cache) {
    && NoDup(c.links) && NoDup(c.lru)
    && (forall k :: k in c.links <==> k in c.store)
    && (forall k :: k in c.lru <==> k in c.store)
    && |c.links| <= c.maxsize
    && LinksByExpiry(c)
    && (forall k | k in c.store :: c.store[k].expires <= c.now + c.ttl)
  }

  /** The capacity bound, in terms of the store itself. */
  lemma StoreWithinCapacity(c: Cache)
    requires Valid(c)
    ensures |c.store| == |c.links| <= c.maxsize
  {
    CardOfNoDup(c.links, c.store.Keys);
  }

  /** `CacheManager(maxsize, ttl)`: empty, with both counters at zero. */
  function New(maxsize: nat, ttl: int, now: int): (c: Cache)
    ensures Valid(c)
    ensures c.hits == 0 && c.misses == 0 && forall k :: !Live(c, k)
  {
    Cache(map[], [], [], maxsize, ttl, now, 0, 0)
  }

  /** The clock moves forward. */
  function Tick(c: Cache, dt: nat): (r: Cache)
    requires Valid(c)
    ensures Valid(r)
    ensures r.store == c.store && r.hits == c.hits && r.misses == c.misses
  {
    c.(now := c.now + dt)
  }

  // ---------------------------------------------------------------------------
  // Expiry
  // ---------------------------------------------------------------------------

  /** The cache cut down to the keys in `keep`, both orders filtered alike. */
  function Restrict(c: Cache, keep: set<string>): (r: Cache)
    requires Valid(c)
    ensures Valid(r)
    ensures forall k :: k in r.store <==> k in c.store && k in keep
    ensures forall k | k in r.store :: k in c.store && r.store[k] == c.store[k]
    ensures r.hits == c.hits && r.misses == c.misses && r.now == c.now
            && r.maxsize == c.maxsize && r.ttl == c.ttl
  {
    var r := c.(store := map k | k in c.store && k in keep :: c.store[k],
                links := Filter(c.links, keep),
                lru := Filter(c.lru, keep));
    RestrictValid(c, keep);
    r
  }

  lemma RestrictValid(c: Cache, keep: set<string>)
    requires Valid(c)
    ensures var r := c.(store := map k | k in c.store && k in keep :: c.store[k],
                        links := Filter(c.links, keep),
                        lru := Filter(c.lru, keep));
            Valid(r)
  {
    var r := c.(store := map k | k in c.store && k in keep :: c.store[k],
                links := Filter(c.links, keep),
                lru := Filter(c.lru, keep));
    assert NoDup(r.links) && NoDup(r.lru);
    assert forall k :: k in r.links <==> k in r.store;
    assert forall k :: k in r.lru <==> k in r.store;
    assert |r.links| <= r.maxsize;
    FilterSubseqSorted(c, keep);
    assert LinksByExpiry(r);
  }

  /** Removes every expired entry. */
  function Purge(c: Cache): (r: Cache)
    requires Valid(c)
    ensures Valid(r)
    ensures forall k :: k in r.store <==> Live(c, k)
    ensures forall k | k in r.store :: k in c.store && r.store[k] == c.store[k]
    ensures forall k :: Live(r, k) <==> Live(c, k)
    ensures r.hits == c.hits && r.misses == c.misses && r.now == c.now
            && r.maxsize == c.maxsize && r.ttl == c.ttl
  {
    Restrict(c, LiveSet(c))
  }

  lemma FilterSubseqSorted(c: Cache, live: set<string>)
    requires Valid(c)
    ensures forall i, j | 0 <= i < j < |Filter(c.links, live)| ::
              c.store[Filter(c.links, live)[i]].expires <= c.store[Filter(c.links, live)[j]].expires
  {
    var f := Filter(c.links, live);
    forall i, j | 0 <= i < j < |f| ensures c.store[f[i]].expires <= c.store[f[j]].expires {
      FilterOrder(c.links, live, i, j);
    }
  }

  /** `x` occurs at an earlier position of `s` than `y`. */
  predicate Before(s: seq<string>, x: string, y: string) {
    exists a, b :: 0 <= a < b < |s| && s[a] == x && s[b] == y
  }

  /** `FilterOrder` for every pair of kept elements at once. */
  lemma FilterKeepsOrder(s: seq<string>, keep: set<string>)
    ensures forall i, j | 0 <= i < j < |Filter(s, keep)| :: Before(s, Filter(s, keep)[i], Filter(s, keep)[j])
  {
    forall i, j | 0 <= i < j < |Filter(s, keep)| ensures Before(s, Filter(s, keep)[i], Filter(s, keep)[j]) {
      FilterOrder(s, keep, i, j);
    }
  }

  /** Filtering keeps the relative order: a later kept element came from a later position. */
  lemma {:induction false} FilterOrder(s: seq<string>, keep: set<string>, i: nat, j: nat)
    requires i < j < |Filter(s, keep)|
    ensures exists a, b :: 0 <= a < b < |s| && s[a] == Filter(s, keep)[i] && s[b] == Filter(s, keep)[j]
    decreases |s|
  {
    var rest := Filter(s[1..], keep);
    if s[0] in keep {
      if i == 0 {
        assert Filter(s, keep)[j] == rest[j - 1];
        assert rest[j - 1] in s[1..];
        var b :| 0 <= b < |s| - 1 && s[1..][b] == rest[j - 1];
        assert s[0] == Filter(s, keep)[0] && s[b + 1] == Filter(s, keep)[j];
      } else {
        FilterOrder(s[1..], keep, i - 1, j - 1);
        var a, b :| 0 <= a < b < |s| - 1 && s[1..][a] == rest[i - 1] && s[1..][b] == rest[j - 1];
        assert s[a + 1] == Filter(s, keep)[i] && s[b + 1] == Filter(s, keep)[j];
      }
    } else {
      FilterOrder(s[1..], keep, i, j);
      var a, b :| 0 <= a < b < |s| - 1 && s[1..][a] == rest[i] && s[1..][b] == rest[j];
      assert s[a + 1] == Filter(s, keep)[i] && s[b + 1] == Filter(s, keep)[j];
    }
  }

  /** How many keys at the front of `links` have expired: what `TTLCache.expire` walks over. */
  function ExpiredPrefix(c: Cache, from: nat): (n: nat)
    requires forall k :: k in c.links ==> k in c.store
    requires from <= |c.links|
    ensures from <= n <= |c.links|
    ensures forall i | from <= i < n :: !(c.now < c.store[c.links[i]].expires)
    ensures n < |c.links| ==> c.now < c.store[c.links[n]].expires
    decreases |c.links| - from
  {
    if from < |c.links| && !(c.now < c.store[c.links[from]].expires) then ExpiredPrefix(c, from + 1)
    else from
  }

  /**
   * `expire` stops at the first live key, yet removes every expired entry:
   * since expiry times grow along `links`, the expired keys are exactly
   * the prefix it walks over.
   */
  lemma ExpireWalksAllExpired(c: Cache)
    requires Valid(c)
    ensures var n := ExpiredPrefix(c, 0);
            (forall k :: k in c.links[..n] <==> k in c.store && !Live(c, k))
            && c.links[n..] == Filter(c.links, LiveSet(c))
  {
    var n := ExpiredPrefix(c, 0);
    LiveAfterPrefix(c);
    ExpiredInPrefix(c);
    forall i | 0 <= i < n ensures c.links[i] !in LiveSet(c) {
    }
    FilterDropsPrefix(c.links, LiveSet(c), n);
  }

  /** Past the expired prefix every key is live: expiry times only grow along `links`. */
  lemma LiveAfterPrefix(c: Cache)
    requires Valid(c)
    ensures forall i | ExpiredPrefix(c, 0) <= i < |c.links| :: c.links[i] in LiveSet(c)
  {
    var n := ExpiredPrefix(c, 0);
    forall i | n <= i < |c.links| ensures c.links[i] in LiveSet(c) {
      assert c.store[c.links[n]].expires <= c.store[c.links[i]].expires;
    }
  }

  /** The expired prefix holds every expired key. */
  lemma ExpiredInPrefix(c: Cache)
    requires Valid(c)
    ensures forall k :: k in c.links[..ExpiredPrefix(c, 0)] <==> k in c.store && !Live(c, k)
  {
    var n := ExpiredPrefix(c, 0);
    LiveAfterPrefix(c);
    forall k ensures k in c.links[..n] <==> k in c.store && !Live(c, k) {
      if k in c.store && !Live(c, k) {
        var i :| 0 <= i < |c.links| && c.links[i] == k;
        assert i < n;
        assert c.links[..n][i] == k;
      }
    }
  }

  lemma {:induction false} FilterDropsPrefix(s: seq<string>, keep: set<string>, n: nat)
    requires n <= |s|
    requires forall i | 0 <= i < n :: s[i] !in keep
    requires forall i | n <= i < |s| :: s[i] in keep
    ensures Filter(s, keep) == s[n..]
    decreases |s|
  {
    if |s| > 0 {
      if n > 0 {
        FilterDropsPrefix(s[1..], keep, n - 1);
        assert s[1..][n - 1..] == s[n..];
      } else {
        FilterDropsPrefix(s[1..], keep, 0);
        assert [s[0]] + s[1..] == s;
      }
    }
  }

  // ---------------------------------------------------------------------------
  // Operations
  // ---------------------------------------------------------------------------

  /**
   * `get(key)`: a live, non-None value is a hit; anything else (absent,
   * expired, or a stored None) is a miss and reads as None. A live key
   * becomes the most recently used.
   */
  function Get(c: Cache, k: string): (r: (Cache, Json))
    requires Valid(c)
    ensures Valid(r.0)
    ensures r.0.store == c.store && r.0.links == c.links && r.0.now == c.now
    ensures r.0.maxsize == c.maxsize && r.0.ttl == c.ttl
    ensures r.0.hits + r.0.misses == c.hits + c.misses + 1
    ensures r.0.hits == c.hits + 1 <==> r.1 != JNull
    ensures r.0.misses == c.misses + 1 <==> r.1 == JNull
    ensures r.1 == (if Live(c, k) then c.store[k].value else JNull)
  {
    if Live(c, k) then
      var touched := c.(lru := MoveToEnd(c.lru, k));
      var v := c.store[k].value;
      if v != JNull then (touched.(hits := c.hits + 1), v)
      else (touched.(misses := c.misses + 1), JNull)
    else (c.(misses := c.misses + 1), JNull)
  }

  /** Removes one key from the store and both orders. */
  function Drop(c: Cache, k: string): (r: Cache)
    requires Valid(c)
    ensures Valid(r)
    ensures r.store == c.store - {k}
    ensures k in c.store ==> |r.store| == |c.store| - 1
    ensures r.hits == c.hits && r.misses == c.misses && r.now == c.now
            && r.maxsize == c.maxsize && r.ttl == c.ttl
  {
    var r := Restrict(c, c.store.Keys - {k});
    assert r.store == c.store - {k};
    assert k in c.store ==> r.store.Keys == c.store.Keys - {k};
    r
  }

  /**
   * `set(key, value, ttl)`: expired entries are purged first; a cache of
   * size 0 rejects every value (TTLCache raises "value too large", reported
   * as False); a new key finding the cache full evicts the least recently
   * used key. The value expires `ttl` after now, where `ttl` is the
   * constructor's: the argument is ignored.
   */
  function Set(c: Cache, k: string, v: Json, ttlArg: Option<int>): (r: (Cache, bool))
    requires Valid(c)
    ensures Valid(r.0)
    ensures r.1 <==> c.maxsize > 0
    ensures r.1 ==> k in r.0.store && r.0.store[k] == Entry(v, c.now + c.ttl)
    ensures r.0.hits == c.hits && r.0.misses == c.misses && r.0.now == c.now
  {
    var p := Purge(c);
    if p.maxsize == 0 then (p, false)
    else (Put(MakeRoom(p, k), k, v), true)
  }

  /** A new key in a full cache evicts the least recently used key; otherwise nothing changes. */
  function MakeRoom(p: Cache, k: string): (q: Cache)
    requires Valid(p) && p.maxsize > 0
    ensures Valid(q)
    ensures k in q.store || |q.links| < q.maxsize
    ensures |p.lru| > 0 && k !in p.store && |p.store| == p.maxsize ==> q.store == p.store - {p.lru[0]}
    ensures !(k !in p.store && |p.store| == p.maxsize) ==> q.store == p.store
    ensures forall x | x in q.store :: x in p.store && q.store[x] == p.store[x]
    ensures q.hits == p.hits && q.misses == p.misses && q.now == p.now
            && q.maxsize == p.maxsize && q.ttl == p.ttl
  {
    StoreWithinCapacity(p);
    if k !in p.store && |p.store| == p.maxsize then
      var q := Drop(p, p.lru[0]);
      StoreWithinCapacity(q);
      q
    else p
  }

  /** Stores a fresh entry for `k` at the end of both orders, given room for it. */
  function Put(q: Cache, k: string, v: Json): (r: Cache)
    requires Valid(q)
    requires k in q.store || |q.links| < q.maxsize
    ensures Valid(r)
    ensures r.store == q.store[k := Entry(v, q.now + q.ttl)]
    ensures r.hits == q.hits && r.misses == q.misses && r.now == q.now
  {
    PutValid(q, k, v);
    q.(store := q.store[k := Entry(v, q.now + q.ttl)], links := MoveToEnd(q.links, k), lru := MoveToEnd(q.lru, k))
  }

  lemma PutValid(q: Cache, k: string, v: Json)
    requires Valid(q)
    requires k in q.store || |q.links| < q.maxsize
    ensures Valid(q.(store := q.store[k := Entry(v, q.now + q.ttl)], links := MoveToEnd(q.links, k),
                     lru := MoveToEnd(q.lru, k)))
  {
    var links := MoveToEnd(q.links, k);
    var r := q.(store := q.store[k := Entry(v, q.now + q.ttl)], links := links, lru := MoveToEnd(q.lru, k));
    assert NoDup(r.links) && NoDup(r.lru);
    assert forall y :: y in r.links <==> y in r.store;
    assert forall y :: y in r.lru <==> y in r.store;
    PutWithinCapacity(q, k, v);
    PutKeepsExpiryOrder(q, k, v);
    assert LinksByExpiry(r);
    assert forall y | y in r.store :: r.store[y].expires <= r.now + r.ttl;
    assert Valid(r);
  }

  /** Re-setting a stored key, or setting a new one with room to spare, stays within `maxsize`. */
  lemma PutWithinCapacity(q: Cache, k: string, v: Json)
    requires Valid(q)
    requires k in q.store || |q.links| < q.maxsize
    ensures |MoveToEnd(q.links, k)| <= q.maxsize
  {
    var links := MoveToEnd(q.links, k);
    var keys := q.store[k := Entry(v, q.now + q.ttl)].Keys;
    CardOfNoDup(q.links, q.store.Keys);
    CardOfNoDup(links, keys);
    if k in q.store {
      assert keys == q.store.Keys;
    } else {
      assert keys == q.store.Keys + {k};
    }
  }

  lemma PutKeepsExpiryOrder(q: Cache, k: string, v: Json)
    requires Valid(q)
    ensures var links := MoveToEnd(q.links, k);
            var store := q.store[k := Entry(v, q.now + q.ttl)];
            forall i, j | 0 <= i < j < |links| :: store[links[i]].expires <= store[links[j]].expires
  {
    var links := MoveToEnd(q.links, k);
    var store := q.store[k := Entry(v, q.now + q.ttl)];
    var others := Filter(q.links, (set y | y in q.links && y != k :: y));
    assert links == others + [k];
    forall i, j | 0 <= i < j < |links| ensures store[links[i]].expires <= store[links[j]].expires {
      if j < |others| {
        FilterOrder(q.links, (set y | y in q.links && y != k :: y), i, j);
        var a, b :| 0 <= a < b < |q.links| && q.links[a] == others[i] && q.links[b] == others[j];
      }
    }
  }

  /**
   * `delete(key)`: True exactly when the key was live, and then it is gone;
   * otherwise nothing changes.
   */
  function Delete(c: Cache, k: string): (r: (Cache, bool))
    requires Valid(c)
    ensures Valid(r.0)
    ensures r.1 <==> Live(c, k)
    ensures r.1 ==> r.0.store == c.store - {k}
    ensures !r.1 ==> r.0 == c
    ensures r.0.hits == c.hits && r.0.misses == c.misses
  {
    if Live(c, k) then (Drop(c, k), true) else (c, false)
  }

  /** `clear()`: the store is emptied; the counters are kept. */
  function Clear(c: Cache): (r: (Cache, bool))
    requires Valid(c)
    ensures Valid(r.0) && r.1
    ensures r.0.store == map[] && r.0.hits == c.hits && r.0.misses == c.misses
  {
    (c.(store := map[], links := [], lru := []), true)
  }

  /**
   * `keys()`: the live keys in the order of `links`, which is the order they
   * were last set, so expiry times never decrease along the result.
   */
  function Keys(c: Cache): (r: seq<string>)
    requires Valid(c)
    ensures forall k :: k in r <==> Live(c, k)
    ensures NoDup(r)
    ensures forall i, j | 0 <= i < j < |r| :: Before(c.links, r[i], r[j])
    ensures forall i, j | 0 <= i < j < |r| ::
              r[i] in c.store && r[j] in c.store && c.store[r[i]].expires <= c.store[r[j]].expires
  {
    FilterKeepsOrder(c.links, LiveSet(c));
    FilterSubseqSorted(c, LiveSet(c));
    Filter(c.links, LiveSet(c))
  }

  datatype Stats = Stats(size: nat, maxsize: nat, hits: nat, misses: nat, hitRate: real)

  /** The share of lookups that hit, or 0 before any lookup. */
  function HitRate(hits: nat, misses: nat): (rate: real)
    ensures hits + misses == 0 ==> rate == 0.0
    ensures hits + misses > 0 ==> rate * ((hits + misses) as real) == hits as real
    ensures 0.0 <= rate <= 1.0
  {
    if hits + misses > 0 then (hits as real) / ((hits + misses) as real) else 0.0
  }

  /** `get_stats()`: `len` counts the live entries. */
  function GetStats(c: Cache): (s: Stats)
    requires Valid(c)
    ensures s.size == |LiveSet(c)|
    ensures s == Stats(s.size, c.maxsize, c.hits, c.misses, HitRate(c.hits, c.misses))
  {
    var p := Purge(c);
    assert p.store.Keys == LiveSet(c);
    Stats(|p.store|, c.maxsize, c.hits, c.misses, HitRate(c.hits, c.misses))
  }

  /** The key set last, if it is live, comes last in `keys()`. */
  lemma PutKeyListedLast(q: Cache, k: string, v: Json)
    requires Valid(q)
    requires k in q.store || |q.links| < q.maxsize
    requires q.ttl > 0
    ensures var ks := Keys(Put(q, k, v)); |ks| > 0 && ks[|ks| - 1] == k
  {
    var r := Put(q, k, v);
    assert Live(r, k);
    LastStaysLast(r.links, Keys(r), k);
  }

  /** A sub-list in the order of `s` that holds the last element of `s` ends with it. */
  lemma LastStaysLast(s: seq<string>, r: seq<string>, k: string)
    requires NoDup(s) && |s| > 0 && s[|s| - 1] == k && k in r
    requires forall i, j | 0 <= i < j < |r| :: Before(s, r[i], r[j])
    ensures r[|r| - 1] == k
  {
    var m := |r| - 1;
    var i :| 0 <= i < |r| && r[i] == k;
    assert i == m;
  }

  /** `keys()` lists as many keys as `get_stats()` counts. */
  lemma KeysAgreeWithStats(c: Cache)
    requires Valid(c)
    ensures |Keys(c)| == GetStats(c).size
  {
    CardOfNoDup(Keys(c), LiveSet(c));
  }

  /** The entry count never exceeds the capacity, expired entries included. */
  lemma SizeWithinCapacity(c: Cache)
    requires Valid(c)
    ensures GetStats(c).size <= |c.store| <= c.maxsize
  {
    var p := Purge(c);
    StoreWithinCapacity(c);
    StoreWithinCapacity(p);
    assert |p.links| <= |c.links|;
  }

  // ---------------------------------------------------------------------------
  // Sequences of operations
  // ---------------------------------------------------------------------------

  datatype Op =
    | GetOp(key: string)
    | SetOp(key: string, value: Json, ttl: Option<int>)
    | DeleteOp(key: string)
    | ClearOp
    | TickOp(dt: nat)

  function Apply(c: Cache, op: Op): (r: Cache)
    requires Valid(c)
    ensures Valid(r)
    ensures r.hits >= c.hits && r.misses >= c.misses
    ensures r.maxsize == c.maxsize && r.ttl == c.ttl && r.now >= c.now
  {
    match op
    case GetOp(k) => Get(c, k).0
    case SetOp(k, v, t) => Set(c, k, v, t).0
    case DeleteOp(k) => Delete(c, k).0
    case ClearOp => Clear(c).0
    case TickOp(dt) => Tick(c, dt)
  }

  function Run(c: Cache, ops: seq<Op>): (r: Cache)
    requires Valid(c)
    decreases |ops|
  {
    if |ops| == 0 then c else Run(Apply(c, ops[0]), ops[1..])
  }

  /**
   * Over any sequence of operations the invariant holds (so the entry count
   * stays within `maxsize`) and neither counter ever decreases.
   */
  lemma {:induction false} RunKeepsInvariant(c: Cache, ops: seq<Op>)
    requires Valid(c)
    ensures Valid(Run(c, ops))
    ensures |Run(c, ops).store| <= c.maxsize
    ensures Run(c, ops).hits >= c.hits && Run(c, ops).misses >= c.misses
    decreases |ops|
  {
    if |ops| > 0 {
      RunKeepsInvariant(Apply(c, ops[0]), ops[1..]);
    } else {
      StoreWithinCapacity(c);
    }
  }

  // ---------------------------------------------------------------------------
  // Scenarios
  // ---------------------------------------------------------------------------

  /** A value set now is served until `ttl` has elapsed, and missed from then on. */
  lemma ExpiresAfterTtl(c: Cache, k: string, v: Json)
    requires Valid(c) && c.maxsize > 0 && c.ttl > 0 && v != JNull
    ensures var s := Set(c, k, v, Nothing).0;
            Get(s, k).1 == v
            && Get(Tick(s, c.ttl - 1), k).1 == v
            && Get(Tick(s, c.ttl), k).1 == JNull
  {
  }

  /** The ttl passed to `set` makes no difference. */
  lemma SetIgnoresTtl(c: Cache, k: string, v: Json, t1: Option<int>, t2: Option<int>)
    requires Valid(c)
    ensures Set(c, k, v, t1) == Set(c, k, v, t2)
  {
  }

  /** A stored None is a miss although the key is live. */
  lemma StoredNoneIsMiss(c: Cache, k: string)
    requires Valid(c) && c.maxsize > 0 && c.ttl > 0
    ensures var s := Set(c, k, JNull, Nothing).0;
            Live(s, k) && Get(s, k).0.misses == s.misses + 1
  {
  }

  /** Three hits and two misses give a hit rate of 0.6. */
  lemma HitRateExample(c: Cache)
    requires Valid(c) && c.hits == 3 && c.misses == 2
    ensures GetStats(c).hitRate == 0.6
  {
    var rate := HitRate(3, 2);
    assert rate * 5.0 == 3.0;
    assert GetStats(c).hitRate == rate;
  }

  /** A full cache evicts its least recently used key for a new one, and only that key. */
  lemma FullCacheEvictsLeastRecentlyUsed(c: Cache, k: string, v: Json)
    requires Valid(c) && c.maxsize > 0
    requires forall x | x in c.store :: Live(c, x)
    requires |c.links| == c.maxsize && k !in c.store
    ensures |c.lru| > 0
    ensures Set(c, k, v, Nothing).0.store == (c.store - {c.lru[0]})[k := Entry(v, c.now + c.ttl)]
  {
    var p := Purge(c);
    PurgeNothingExpired(c);
    StoreWithinCapacity(c);
    var q := MakeRoom(p, k);
    SetUnfolds(c, k, v, Nothing);
    assert q.store == c.store - {c.lru[0]};
  }

  /** `set` changes no other key's entry, and brings back no expired one. */
  lemma SetKeepsOthers(c: Cache, k: string, v: Json, t: Option<int>)
    requires Valid(c)
    ensures forall x | x != k && x in Set(c, k, v, t).0.store :: Live(c, x) && Set(c, k, v, t).0.store[x] == c.store[x]
  {
    var p := Purge(c);
    if c.maxsize > 0 {
      SetUnfolds(c, k, v, t);
      SubmapUpdate(p.store, MakeRoom(p, k).store, k, Entry(v, c.now + c.ttl));
    }
  }

  /** Unless a new key finds the cache full, `set` evicts no live entry. */
  lemma SetKeepsLive(c: Cache, k: string, v: Json, t: Option<int>)
    requires Valid(c)
    requires Live(c, k) || |LiveSet(c)| < c.maxsize
    ensures forall x | Live(c, x) :: x in Set(c, k, v, t).0.store
  {
    var p := Purge(c);
    assert p.store.Keys == LiveSet(c);
    SetUnfolds(c, k, v, t);
    assert MakeRoom(p, k).store == p.store;
  }

  /** `set` removes at most one live entry. */
  lemma SetLosesAtMostOne(c: Cache, k: string, v: Json, t: Option<int>)
    requires Valid(c)
    ensures |LiveSet(c)| - 1 <= |Set(c, k, v, t).0.store|
  {
    var p := Purge(c);
    assert p.store.Keys == LiveSet(c);
    if c.maxsize > 0 {
      SetUnfolds(c, k, v, t);
      var q := MakeRoom(p, k);
      var e := Entry(v, c.now + c.ttl);
      StoreWithinCapacity(p);
      if k !in p.store && |p.store| == p.maxsize {
        assert p.lru[0] in p.store;
        assert q.store.Keys == p.store.Keys - {p.lru[0]};
        assert |q.store| == |p.store| - 1;
      } else {
        assert q.store == p.store;
      }
      UpdateSize(q.store, k, e);
    }
  }

  lemma UpdateSize(m: map<string, Entry>, k: string, e: Entry)
    ensures |m| <= |m[k := e]|
  {
    if k !in m {
      assert m[k := e].Keys == m.Keys + {k};
    } else {
      assert m[k := e].Keys == m.Keys;
    }
  }

  /** Updating one key of a sub-map leaves every other key as the larger map has it. */
  lemma SubmapUpdate(big: map<string, Entry>, small: map<string, Entry>, k: string, e: Entry)
    requires forall x | x in small :: x in big && small[x] == big[x]
    ensures forall x | x != k && x in small[k := e] :: x in big && small[k := e][x] == big[x]
  {
  }

  lemma SetUnfolds(c: Cache, k: string, v: Json, t: Option<int>)
    requires Valid(c) && c.maxsize > 0
    ensures Set(c, k, v, t).0.store == MakeRoom(Purge(c), k).store[k := Entry(v, c.now + c.ttl)]
  {
  }

  /** With nothing expired, purging changes nothing. */
  lemma PurgeNothingExpired(c: Cache)
    requires Valid(c)
    requires forall x | x in c.store :: Live(c, x)
    ensures Purge(c).store == c.store && Purge(c).lru == c.lru
  {
    FilterAll(c.lru, LiveSet(c));
  }

  lemma {:induction false} FilterAll(s: seq<string>, keep: set<string>)
    requires forall y | y in s :: y in keep
    ensures Filter(s, keep) == s
    decreases |s|
  {
    if |s| > 0 {
      FilterAll(s[1..], keep);
      assert [s[0]] + s[1..] == s;
    }
  }
}
