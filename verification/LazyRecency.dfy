/** Which items the cache of a lazy list holds: those used last, told from the uses alone. */
module LazyRecency {
  import opened Sequences
  import opened SortedSets
  import opened LazySequences

  /** How many uses there were up to and including the last one of `k`; 0 if there was none. */
  function LastUse(uses: seq<nat>, k: nat): (n: nat)
    ensures n <= |uses| && (n > 0 ==> uses[n - 1] == k) && forall i :: n <= i < |uses| ==> uses[i] != k
    decreases |uses|
  {
    if uses == [] then 0
    else if uses[|uses| - 1] == k then |uses|
    else LastUse(uses[..|uses| - 1], k)
  }

  lemma LastUseMore(uses: seq<nat>, k: nat, x: nat)
    ensures LastUse(uses + [k], x) == if x == k then |uses| + 1 else LastUse(uses, x)
  {
    assert (uses + [k])[..|uses|] == uses;
  }

  /** In order of last use. */
  ghost predicate InUseOrder(order: seq<nat>, uses: seq<nat>) {
    && (forall i :: 0 <= i < |order| ==> LastUse(uses, order[i]) > 0)
    && forall i, j :: 0 <= i < j < |order| ==> LastUse(uses, order[i]) < LastUse(uses, order[j])
  }

  /** An index that was used and is not cached was used before all that are, and the cache is full. */
  ghost predicate PushedOut<T>(c: Cache<T>, uses: seq<nat>, x: nat) {
    x !in c.vals && LastUse(uses, x) > 0 ==>
      |c.order| == c.cap && forall i :: 0 <= i < |c.order| ==> LastUse(uses, x) < LastUse(uses, c.order[i])
  }

  /** The cache holds the items used last, as many as it has room for. */
  ghost predicate HoldsLatest<T>(c: Cache<T>, uses: seq<nat>) {
    && ValidCache(c) && InUseOrder(c.order, uses)
    && forall x {:trigger PushedOut(c, uses, x)} :: PushedOut(c, uses, x)
  }

  /** The indexes used after the last use of `k`. */
  function Since(uses: seq<nat>, k: nat): set<nat> { set x | x in uses && LastUse(uses, x) > LastUse(uses, k) }

  /** An index is cached if and only if it was used and fewer others were since than the cache has room for. */
  lemma CachedIff<T>(c: Cache<T>, uses: seq<nat>, k: nat)
    requires HoldsLatest(c, uses)
    ensures k in c.vals <==> k in uses && |Since(uses, k)| < c.cap
  {
    assert Listed(c, k) && PushedOut(c, uses, k);
    if k in c.vals {
      CachedFew(c, uses, k);
    } else if k in uses {
      forall x | x in Elements(c.order)
        ensures x in Since(uses, k)
      {
        var i :| 0 <= i < |c.order| && c.order[i] == x;
      }
      DistinctSize(c.order);
      SubsetSize(Elements(c.order), Since(uses, k));
    }
  }

  /** Only what stands behind a cached index was used after it. */
  lemma CachedFew<T>(c: Cache<T>, uses: seq<nat>, k: nat)
    requires HoldsLatest(c, uses) && k in c.order
    ensures |Since(uses, k)| < c.cap
  {
    var p :| 0 <= p < |c.order| && c.order[p] == k;
    var younger := c.order[p + 1..];
    assert forall i :: 0 <= i < |younger| ==> younger[i] == c.order[p + 1 + i];
    assert Listed(c, k);
    forall x | x in Since(uses, k)
      ensures x in Elements(younger)
    {
      assert Listed(c, x) && PushedOut(c, uses, x);
      var i :| 0 <= i < |c.order| && c.order[i] == x;
      assert i > p && younger[i - p - 1] == x;
    }
    DistinctSize(younger);
    SubsetSize(Since(uses, k), Elements(younger));
  }

  lemma {:induction false} WithoutInOrder(s: seq<nat>, k: nat, uses: seq<nat>)
    requires Distinct(s) && InUseOrder(s, uses)
    ensures InUseOrder(Without(s, k), uses)
    decreases |s|
  {
    if s != [] {
      var t := s[1..];
      assert InUseOrder(t, uses);
      if s[0] != k {
        WithoutInOrder(t, k, uses);
        WithoutRight(t, k);
        OlderInFront(s[0], t, Without(t, k), uses);
      }
    }
  }

  /** An index in front of younger ones stays in order in front of some of them. */
  lemma OlderInFront(x: nat, t: seq<nat>, r: seq<nat>, uses: seq<nat>)
    requires InUseOrder([x] + t, uses) && InUseOrder(r, uses) && forall y :: y in r ==> y in t
    ensures InUseOrder([x] + r, uses)
  {
    assert ([x] + t)[0] == x;
    forall i | 0 <= i < |r|
      ensures LastUse(uses, x) < LastUse(uses, r[i])
    {
      assert r[i] in r;
      var j :| 0 <= j < |t| && t[j] == r[i];
      assert ([x] + t)[j + 1] == t[j];
    }
  }

  lemma UseLast(order: seq<nat>, uses: seq<nat>, k: nat)
    requires InUseOrder(order, uses) && k !in order
    ensures InUseOrder(order + [k], uses + [k])
  {
    var more := order + [k];
    forall i | 0 <= i < |more|
      ensures LastUse(uses + [k], more[i]) == if i < |order| then LastUse(uses, order[i]) else |uses| + 1
    {
      LastUseMore(uses, k, more[i]);
      if i < |order| { assert order[i] in order; }
    }
  }

  /** Using a cached item makes it the youngest. */
  lemma TouchLatest<T>(c: Cache<T>, uses: seq<nat>, k: nat)
    requires HoldsLatest(c, uses) && k in c.vals
    ensures HoldsLatest(Touch(c, k), uses + [k])
  {
    TouchValid(c, k);
    assert Listed(c, k);
    WithoutRight(c.order, k);
    WithoutInOrder(c.order, k, uses);
    UseLast(Without(c.order, k), uses, k);
    Younger(c, Touch(c, k), uses, k);
  }

  /** Nothing but age changes. */
  ghost predicate SameItems<T>(c: Cache<T>, d: Cache<T>) {
    && d.cap == c.cap && |d.order| == |c.order|
    && (forall x :: x in d.order ==> x in c.order) && forall x :: x in d.vals <==> x in c.vals
  }

  /** What was pushed out stays so while the cached items only get younger. */
  lemma Younger<T>(c: Cache<T>, d: Cache<T>, uses: seq<nat>, k: nat)
    requires HoldsLatest(c, uses) && k in c.vals && SameItems(c, d)
    ensures forall x {:trigger PushedOut(d, uses + [k], x)} :: PushedOut(d, uses + [k], x)
  {
    forall x
      ensures PushedOut(d, uses + [k], x)
    {
      assert PushedOut(c, uses, x);
      LastUseMore(uses, k, x);
      forall i | 0 <= i < |d.order| && x !in d.vals && LastUse(uses + [k], x) > 0
        ensures LastUse(uses + [k], x) < LastUse(uses + [k], d.order[i])
      {
        LastUseMore(uses, k, d.order[i]);
        assert d.order[i] in d.order;
        var j :| 0 <= j < |c.order| && c.order[j] == d.order[i];
      }
    }
  }

  /** Storing an item pushes out the one used least recently, and only when the cache is full. */
  lemma PutLatest<T>(c: Cache<T>, uses: seq<nat>, k: nat, v: T)
    requires HoldsLatest(c, uses)
    ensures HoldsLatest(Put(c, k, v), uses + [k])
  {
    PutValid(c, k, v);
    assert Listed(c, k);
    if k in c.vals {
      TouchLatest(c, uses, k);
      WithoutRight(c.order, k);
      Younger(c, Put(c, k, v), uses, k);
    } else if c.order != [] && |c.order| >= c.cap {
      PutFull(c, uses, k, v);
    } else {
      UseLast(c.order, uses, k);
      forall x
        ensures PushedOut(Put(c, k, v), uses + [k], x)
      {
        assert PushedOut(c, uses, x);
        LastUseMore(uses, k, x);
      }
    }
  }

  lemma PutFull<T>(c: Cache<T>, uses: seq<nat>, k: nat, v: T)
    requires HoldsLatest(c, uses) && k !in c.vals && k !in c.order && |c.order| == c.cap
    ensures var d := Put(c, k, v);
            InUseOrder(d.order, uses + [k]) && forall x {:trigger PushedOut(d, uses + [k], x)} ::
              PushedOut(d, uses + [k], x)
  {
    var d, left := Put(c, k, v), c.order[1..];
    assert InUseOrder(left, uses);
    UseLast(left, uses, k);
    forall x
      ensures PushedOut(d, uses + [k], x)
    {
      assert PushedOut(c, uses, x) && Listed(c, x);
      LastUseMore(uses, k, x);
      forall i | 0 <= i < |d.order| && x !in d.vals
        ensures LastUse(uses + [k], x) > 0 ==> LastUse(uses + [k], x) < LastUse(uses + [k], d.order[i])
      {
        LastUseMore(uses, k, d.order[i]);
        if i < |left| { assert d.order[i] == c.order[i + 1]; }
      }
    }
  }

  // ---- what reads do -----------------------------------------------------------------------------

  /** The indexes a, a + step, ... below u. */
  function Indexes(a: nat, u: nat, step: nat): (r: seq<nat>)
    requires step > 0
    decreases u - a
  {
    if a < u then [a] + Indexes(a + step, u, step) else []
  }

  /** The indexes a, a + step, ..., n of them. */
  function Upwards(a: nat, step: nat, n: nat): (r: seq<nat>)
    ensures |r| == n
    decreases n
  {
    if n == 0 then [] else [a] + Upwards(a + step, step, n - 1)
  }

  lemma {:induction false} TouchAllLatest<T>(c: Cache<T>, a: nat, b: nat, u: nat, step: nat, uses: seq<nat>)
    requires HoldsLatest(c, uses) && step > 0 && u <= FirstUncached(c, a, b, step)
    ensures HoldsLatest(TouchAll(c, a, u, step), uses + Indexes(a, u, step))
    decreases u - a
  {
    if a < u {
      var d := Touch(c, a);
      TouchLatest(c, uses, a);
      assert FirstUncached(c, a, b, step) == FirstUncached(d, a + step, b, step) by {
        SameUncached(c, d, a + step, b, step);
      }
      TouchAllLatest(d, a + step, b, u, step, uses + [a]);
      Assoc(uses, [a], Indexes(a + step, u, step));
    } else {
      Empty(uses);
    }
  }

  lemma {:induction false} PutAllLatest<T>(c: Cache<T>, a: nat, step: nat, vs: seq<T>, uses: seq<nat>)
    requires HoldsLatest(c, uses)
    ensures HoldsLatest(PutAll(c, a, step, vs), uses + Upwards(a, step, |vs|))
    decreases |vs|
  {
    if vs != [] {
      PutLatest(c, uses, a, vs[0]);
      PutAllLatest(Put(c, a, vs[0]), a + step, step, vs[1..], uses + [a]);
      Assoc(uses, [a], Upwards(a + step, step, |vs| - 1));
    } else {
      Empty(uses);
    }
  }

  /** An item read uses its index, whether it was cached or not; past the end nothing is used. */
  lemma GotLatest<T>(data: seq<T>, s: State<T>, k: nat, uses: seq<nat>)
    requires Inv(data, s) && HoldsLatest(s.cache, uses)
    ensures HoldsLatest(Got(data, s, k).0.cache, if k < |data| then uses + [k] else uses)
  {
    GotRight(data, s, k);
    if k in s.cache.vals {
      TouchLatest(s.cache, uses, k);
    } else if k < |data| {
      PutLatest(s.cache, uses, k, data[k]);
    }
  }

  /** What a slice read uses: the cached indexes up to the first that is not, then what is filed. */
  function SliceUses<T>(data: seq<T>, s: State<T>, a: nat, b: nat, step: nat): seq<nat>
    requires step > 0
  {
    var u := FirstUncached(s.cache, a, b, step);
    if u < s.stop && u < b then Upwards(a, step, |Picked(data, a, b, step)|)
    else Indexes(a, u, step) + Upwards(a, step, |Picked(data, u, b, step)|)
  }

  lemma SlicedLatest<T>(data: seq<T>, s: State<T>, a: nat, b: nat, step: nat, uses: seq<nat>)
    requires Inv(data, s) && HoldsLatest(s.cache, uses) && step > 0
    ensures HoldsLatest(Sliced(data, s, a, b, step).0.cache, uses + SliceUses(data, s, a, b, step))
  {
    var u := FirstUncached(s.cache, a, b, step);
    if u < s.stop && u < b {
      PutAllLatest(s.cache, a, step, Picked(data, a, b, step), uses);
    } else {
      TouchAllLatest(s.cache, a, b, u, step, uses);
      var c, touched := TouchAll(s.cache, a, u, step), uses + Indexes(a, u, step);
      if u < b {
        PickedFrom(data, u, b, s.stop, step);
        PutAllLatest(c, a, step, Picked(data, u, b, step), touched);
        Assoc(uses, Indexes(a, u, step), Upwards(a, step, |Picked(data, u, b, step)|));
      } else {
        Assoc(uses, Indexes(a, u, step), []);
        Empty(touched);
      }
    }
  }

  /** The state after item reads. */
  function AfterReads<T>(data: seq<T>, s: State<T>, ks: seq<nat>): State<T>
    requires s.pos <= |data|
    decreases |ks|
  {
    if ks == [] then s else AfterReads(data, Got(data, s, ks[0]).0, ks[1..])
  }

  lemma {:induction false} ReadsLatest<T>(data: seq<T>, s: State<T>, ks: seq<nat>, uses: seq<nat>)
    requires Inv(data, s) && HoldsLatest(s.cache, uses) && forall i :: 0 <= i < |ks| ==> ks[i] < |data|
    ensures HoldsLatest(AfterReads(data, s, ks).cache, uses + ks)
    ensures AfterReads(data, s, ks).cache.cap == s.cache.cap
    decreases |ks|
  {
    if ks != [] {
      GotLatest(data, s, ks[0], uses);
      GotRight(data, s, ks[0]);
      ReadsLatest(data, Got(data, s, ks[0]).0, ks[1..], uses + [ks[0]]);
      assert uses + [ks[0]] + ks[1..] == uses + ks;
    } else {
      assert uses + [] == uses;
    }
  }

  /** After any item reads of a fresh list, an item is cached if and only if it was read and fewer others were
      read since than the cache has room for. */
  lemma ReadsCache<T>(data: seq<T>, s: State<T>, ks: seq<nat>, k: nat)
    requires Inv(data, s) && s.cache.order == [] && forall i :: 0 <= i < |ks| ==> ks[i] < |data|
    ensures var t := AfterReads(data, s, ks);
            t.cache.cap == s.cache.cap && (k in t.cache.vals <==> k in ks && |Since(ks, k)| < s.cache.cap)
  {
    assert HoldsLatest(s.cache, []);
    ReadsLatest(data, s, ks, []);
    assert [] + ks == ks;
    CachedIff(AfterReads(data, s, ks).cache, ks, k);
  }
}
