/** Lists computed on demand: a bounded cache, an iterator that can be restarted, and read-ahead. */
module LazySequences {
  import opened Sequences
  import opened SortedSets
  import opened Wrappers

  // ---- the least-recently-used cache -------------------------------------------------------------

  /** Cached items by index; `order` has the least recently used index first. */
  datatype Cache<T> = Cache(cap: nat, order: seq<nat>, vals: map<nat, T>)

  predicate Distinct(s: seq<nat>) { forall i, j :: 0 <= i < j < |s| ==> s[i] != s[j] }

  ghost predicate Listed<T>(c: Cache<T>, x: nat) { x in c.order <==> x in c.vals }

  ghost predicate ValidCache<T>(c: Cache<T>) {
    c.cap > 0 && |c.order| <= c.cap && Distinct(c.order) && forall x {:trigger Listed(c, x)} :: Listed(c, x)
  }

  function Without(s: seq<nat>, k: nat): seq<nat> {
    if s == [] then [] else if s[0] == k then s[1..] else [s[0]] + Without(s[1..], k)
  }

  function Touch<T>(c: Cache<T>, k: nat): Cache<T> { c.(order := Without(c.order, k) + [k]) }

  /** Stores an item, pushing the least recently used one out of a full cache. */
  function Put<T>(c: Cache<T>, k: nat, v: T): Cache<T> {
    if k in c.vals then Touch(c, k).(vals := c.vals[k := v])
    else if c.order != [] && |c.order| >= c.cap then Cache(c.cap, c.order[1..] + [k], (c.vals - {c.order[0]})[k := v])
    else Cache(c.cap, c.order + [k], c.vals[k := v])
  }

  /** Values stored under a, a + step, a + 2 * step, ... */
  function PutAll<T>(c: Cache<T>, a: nat, step: nat, vs: seq<T>): Cache<T>
    decreases |vs|
  {
    if vs == [] then c else PutAll(Put(c, a, vs[0]), a + step, step, vs[1..])
  }

  lemma {:induction false} WithoutRight(s: seq<nat>, k: nat)
    requires Distinct(s)
    ensures Distinct(Without(s, k)) && |Without(s, k)| == if k in s then |s| - 1 else |s|
    ensures forall x :: x in Without(s, k) <==> x in s && x != k
    decreases |s|
  {
    if s != [] {
      WithoutRight(s[1..], k);
      assert s == [s[0]] + s[1..];
      assert s[0] !in s[1..];
      var r := Without(s, k);
      if s[0] != k {
        assert r[0] == s[0] && r[1..] == Without(s[1..], k);
        assert s[0] !in Without(s[1..], k);
        forall i, j | 0 <= i < j < |r|
          ensures r[i] != r[j]
        {
          assert r[j] == Without(s[1..], k)[j - 1];
          if i > 0 { assert r[i] == Without(s[1..], k)[i - 1]; }
        }
      }
    }
  }

  lemma TouchValid<T>(c: Cache<T>, k: nat)
    requires ValidCache(c) && k in c.vals
    ensures ValidCache(Touch(c, k))
  {
    WithoutRight(c.order, k);
    assert Listed(c, k);
    forall x
      ensures Listed(Touch(c, k), x)
    {
      assert Listed(c, x);
    }
  }

  lemma PutValid<T>(c: Cache<T>, k: nat, v: T)
    requires ValidCache(c)
    ensures ValidCache(Put(c, k, v)) && Put(c, k, v).cap == c.cap
  {
    var d := Put(c, k, v);
    assert Listed(c, k);
    if k in c.vals {
      TouchValid(c, k);
      forall x
        ensures Listed(d, x)
      {
        assert Listed(Touch(c, k), x);
      }
    } else if |c.order| >= c.cap {
      assert c.order[0] !in c.order[1..];
      forall x
        ensures Listed(d, x)
      {
        assert Listed(c, x);
        assert x in c.order <==> x == c.order[0] || x in c.order[1..];
      }
    } else {
      forall x
        ensures Listed(d, x)
      {
        assert Listed(c, x);
      }
    }
  }

  lemma {:induction false} PutAllValid<T>(c: Cache<T>, a: nat, step: nat, vs: seq<T>)
    requires ValidCache(c)
    ensures ValidCache(PutAll(c, a, step, vs)) && PutAll(c, a, step, vs).cap == c.cap
    decreases |vs|
  {
    if vs != [] {
      PutValid(c, a, vs[0]);
      PutAllValid(Put(c, a, vs[0]), a + step, step, vs[1..]);
    }
  }

  /** `x` is followed by `n` others, all of them, and `x`, below `a`. */
  predicate Aged(order: seq<nat>, x: nat, n: nat, a: nat) {
    n < |order| && order[|order| - 1 - n] == x && forall j :: |order| - 1 - n <= j < |order| ==> order[j] < a
  }

  lemma {:induction false} WithoutAged(s: seq<nat>, x: nat, n: nat, a: nat)
    requires Aged(s, x, n, a) && Distinct(s)
    ensures Aged(Without(s, a), x, n, a)
    decreases |s|
  {
    var m := |s| - 1 - n;
    if m == 0 {
      assert forall j :: 0 <= j < |s| ==> s[j] != a;
      WithoutAbsent(s, a);
    } else {
      var t := s[1..];
      assert forall j :: m - 1 <= j < |t| ==> t[j] == s[j + 1];
      if s[0] != a {
        WithoutAged(t, x, n, a);
        AgedFront(s[0], Without(t, a), x, n, a);
      }
    }
  }

  lemma AgedFront(y: nat, s: seq<nat>, x: nat, n: nat, a: nat)
    requires Aged(s, x, n, a)
    ensures Aged([y] + s, x, n, a)
  {
    assert forall j :: 0 < j <= |s| ==> ([y] + s)[j] == s[j - 1];
  }

  lemma {:induction false} WithoutAbsent(s: seq<nat>, k: nat)
    requires k !in s
    ensures Without(s, k) == s
    decreases |s|
  {
    if s != [] { WithoutAbsent(s[1..], k); }
  }

  lemma AgedMore(s: seq<nat>, x: nat, n: nat, a: nat, next: nat)
    requires Aged(s, x, n, a) && a < next
    ensures Aged(s + [a], x, n + 1, next)
  {
  }

  /** Storing a later index puts one more behind `x`; a full cache that starts with `x` loses it. */
  lemma PutAged<T>(c: Cache<T>, x: nat, n: nat, a: nat, v: T, next: nat)
    requires ValidCache(c) && Aged(c.order, x, n, a) && a < next
    ensures n + 1 < c.cap ==> Aged(Put(c, a, v).order, x, n + 1, next)
    ensures n + 1 == c.cap ==> x !in Put(c, a, v).vals
  {
    assert Listed(c, a);
    if n + 1 < c.cap {
      if a in c.vals {
        WithoutAged(c.order, x, n, a);
        AgedMore(Without(c.order, a), x, n, a, next);
      } else if |c.order| >= c.cap {
        assert forall j :: 0 <= j < |c.order| - 1 ==> c.order[1..][j] == c.order[j + 1];
        AgedMore(c.order[1..], x, n, a, next);
      } else {
        AgedMore(c.order, x, n, a, next);
      }
    } else if n + 1 == c.cap {
      assert c.order[0] == x && forall j :: 0 <= j < |c.order| ==> c.order[j] != a;
    }
  }

  lemma PutFacts<T>(c: Cache<T>, k: nat, v: T, x: nat)
    ensures k in Put(c, k, v).vals && Put(c, k, v).vals[k] == v
    ensures x != k && x in Put(c, k, v).vals ==> x in c.vals && Put(c, k, v).vals[x] == c.vals[x]
  {
  }

  lemma PutLast<T>(c: Cache<T>, k: nat, v: T, next: nat)
    requires k < next
    ensures Aged(Put(c, k, v).order, k, 0, next)
  {
  }

  lemma AgedCached<T>(c: Cache<T>, x: nat, n: nat, a: nat)
    requires ValidCache(c) && Aged(c.order, x, n, a)
    ensures x in c.vals && n < c.cap
  {
    assert Listed(c, x);
    assert c.order[|c.order| - 1 - n] in c.order;
  }

  lemma {:induction false} StaysOut<T>(c: Cache<T>, a: nat, step: nat, vs: seq<T>, x: nat)
    requires ValidCache(c) && x !in c.vals && x < a && step > 0
    ensures x !in PutAll(c, a, step, vs).vals
    decreases |vs|
  {
    if vs != [] {
      PutValid(c, a, vs[0]);
      StaysOut(Put(c, a, vs[0]), a + step, step, vs[1..], x);
    }
  }

  /** An item survives further stores as long as the cache holds it and all that came after it. */
  lemma {:induction false} Survives<T>(c: Cache<T>, x: nat, n: nat, a: nat, step: nat, vs: seq<T>)
    requires ValidCache(c) && Aged(c.order, x, n, a) && x < a && step > 0
    ensures var r := PutAll(c, a, step, vs);
            x in c.vals && (x in r.vals <==> n + 1 + |vs| <= c.cap) && (x in r.vals ==> r.vals[x] == c.vals[x])
    decreases |vs|
  {
    AgedCached(c, x, n, a);
    if vs != [] {
      var d, next := Put(c, a, vs[0]), a + step;
      PutValid(c, a, vs[0]);
      PutAged(c, x, n, a, vs[0], next);
      PutFacts(c, a, vs[0], x);
      if n + 1 < c.cap {
        Survives(d, x, n + 1, next, step, vs[1..]);
      } else {
        StaysOut(d, next, step, vs[1..], x);
      }
    }
  }

  /** What is stored under `x`, with the number of items stored from there on. */
  function Stored<T>(a: nat, step: nat, vs: seq<T>, x: nat): Option<(T, nat)>
    decreases |vs|
  {
    if vs == [] then None
    else if x == a then Some((vs[0], |vs|))
    else Stored(a + step, step, vs[1..], x)
  }

  lemma {:induction false} StoredBeyond<T>(a: nat, step: nat, vs: seq<T>, x: nat)
    requires x < a
    ensures Stored(a, step, vs, x) == None
    decreases |vs|
  {
    if vs != [] { StoredBeyond(a + step, step, vs[1..], x); }
  }

  /** After storing, a stored index is cached unless as many items followed as the cache holds. */
  lemma {:induction false} PutAllAt<T>(c: Cache<T>, a: nat, step: nat, vs: seq<T>, x: nat)
    requires ValidCache(c) && step > 0
    ensures var r, w := PutAll(c, a, step, vs), Stored(a, step, vs, x);
            if w.None? then x in r.vals ==> x in c.vals && r.vals[x] == c.vals[x]
            else (x in r.vals <==> w.value.1 <= c.cap) && (x in r.vals ==> r.vals[x] == w.value.0)
    decreases |vs|
  {
    if vs != [] {
      var d := Put(c, a, vs[0]);
      PutValid(c, a, vs[0]);
      PutFacts(c, a, vs[0], x);
      if x == a {
        PutLast(c, a, vs[0], a + step);
        Survives(d, a, 0, a + step, step, vs[1..]);
      } else {
        PutAllAt(d, a + step, step, vs[1..], x);
      }
    }
  }

  // ---- the sequence as values --------------------------------------------------------------------

  /** The cache, the place of the iterator, the index it is believed to be at, and the items pulled so far. */
  datatype State<T> = State(cache: Cache<T>, pos: nat, stop: nat, pulls: nat)

  function Min(a: nat, b: nat): nat { if a < b then a else b }

  /** The slice [a:b:step] of a plain list. */
  function Picked<T>(data: seq<T>, a: nat, b: nat, step: nat): seq<T>
    requires step > 0
    decreases b - a
  {
    if a < b && a < |data| then [data[a]] + Picked(data, a + step, b, step) else []
  }

  /** The items of a slice are those at a, a + step, ..., as long as they lie below `b` and the end of the list. */
  lemma {:induction false} PickedAt<T>(data: seq<T>, a: nat, b: nat, step: nat, i: nat)
    requires step > 0
    ensures i < |Picked(data, a, b, step)| <==> a + i * step < Min(b, |data|)
    ensures i < |Picked(data, a, b, step)| ==> Picked(data, a, b, step)[i] == data[a + i * step]
    decreases i
  {
    if i > 0 {
      assert i * step == step + (i - 1) * step;
      if a < b && a < |data| {
        PickedAt(data, a + step, b, step, i - 1);
        assert Picked(data, a, b, step)[1..] == Picked(data, a + step, b, step);
      }
    }
  }

  /** Reading one item; None stands for StopIteration. */
  function Got<T>(data: seq<T>, s: State<T>, k: nat): (State<T>, Option<T>)
    requires s.pos <= |data|
  {
    if k in s.cache.vals then (s.(cache := Touch(s.cache, k)), Some(s.cache.vals[k]))
    else
      var t := if k < s.stop then s.(pos := 0, stop := 0) else s;
      var at := t.pos + (k - t.stop);
      if at < |data| then (State(Put(s.cache, k, data[at]), at + 1, k + 1, t.pulls + (at + 1 - t.pos)), Some(data[at]))
      else (State(s.cache, 0, 0, t.pulls + (|data| - t.pos)), None)
  }

  /** The first index of the slice that is not cached, or one past its end. */
  function FirstUncached<T>(c: Cache<T>, a: nat, b: nat, step: nat): nat
    requires step > 0
    decreases b - a
  {
    if a < b && a in c.vals then FirstUncached(c, a + step, b, step) else a
  }

  function TouchAll<T>(c: Cache<T>, a: nat, u: nat, step: nat): Cache<T>
    requires step > 0
    decreases u - a
  {
    if a < u then TouchAll(Touch(c, a), a + step, u, step) else c
  }

  function CachedValues<T>(c: Cache<T>, a: nat, u: nat, step: nat): seq<T>
    requires step > 0
    decreases u - a
  {
    if a < u && a in c.vals then [c.vals[a]] + CachedValues(c, a + step, u, step) else []
  }

  /** Reading the slice [a:b:step]: what it returns, and the state it leaves. */
  function Sliced<T>(data: seq<T>, s: State<T>, a: nat, b: nat, step: nat): (State<T>, seq<T>)
    requires step > 0 && s.pos <= |data|
  {
    var u := FirstUncached(s.cache, a, b, step);
    if u < s.stop && u < b then
      var vs := Picked(data, a, b, step);
      (State(PutAll(s.cache, a, step, vs), Min(b, |data|), b, s.pulls + Min(b, |data|)), vs)
    else
      var c := TouchAll(s.cache, a, u, step);
      var cached := CachedValues(s.cache, a, u, step);
      if u < b then
        var vs := Picked(data, s.pos + (u - s.stop), s.pos + (b - s.stop), step);
        var pos := Min(s.pos + (b - s.stop), |data|);
        (State(PutAll(c, a, step, vs), pos, b, s.pulls + (pos - s.pos)), cached + vs)
      else
        (State(c, s.pos, b, s.pulls), cached)
  }

  // ---- what the state means ----------------------------------------------------------------------

  ghost predicate True<T>(data: seq<T>, c: Cache<T>, x: nat) { x in c.vals ==> x < |data| && c.vals[x] == data[x] }

  ghost predicate AllTrue<T>(data: seq<T>, c: Cache<T>) { forall x {:trigger True(data, c, x)} :: True(data, c, x) }

  /** Every cached item is the item of the list, and the iterator is where `stop` says, or at the end. */
  ghost predicate Inv<T>(data: seq<T>, s: State<T>) {
    ValidCache(s.cache) && AllTrue(data, s.cache) && s.pos == Min(s.stop, |data|)
  }

  /** A read answers like the plain list and keeps the state true. */
  lemma GotRight<T>(data: seq<T>, s: State<T>, k: nat)
    requires Inv(data, s)
    ensures Got(data, s, k).1 == if k < |data| then Some(data[k]) else None
    ensures Inv(data, Got(data, s, k).0)
  {
    assert True(data, s.cache, k) && Listed(s.cache, k);
    var t := Got(data, s, k).0;
    if k in s.cache.vals {
      TouchValid(s.cache, k);
      forall x
        ensures True(data, t.cache, x)
      {
        assert True(data, s.cache, x);
      }
    } else if k < |data| {
      PutValid(s.cache, k, data[k]);
      forall x
        ensures True(data, t.cache, x)
      {
        assert True(data, s.cache, x);
        PutFacts(s.cache, k, data[k], x);
      }
    }
  }

  /** What is cached of a slice and what is picked after it make up the slice. */
  lemma {:induction false} CachedPart<T>(data: seq<T>, c: Cache<T>, a: nat, b: nat, step: nat)
    requires step > 0 && AllTrue(data, c)
    ensures var u := FirstUncached(c, a, b, step);
            u >= a && CachedValues(c, a, u, step) + Picked(data, u, b, step) == Picked(data, a, b, step)
    decreases b - a
  {
    var u := FirstUncached(c, a, b, step);
    if a < b && a in c.vals {
      CachedPart(data, c, a + step, b, step);
      assert True(data, c, a);
      Assoc([data[a]], CachedValues(c, a + step, u, step), Picked(data, u, b, step));
    }
  }

  lemma {:induction false} TouchAllValid<T>(c: Cache<T>, a: nat, b: nat, u: nat, step: nat)
    requires step > 0 && ValidCache(c) && u <= FirstUncached(c, a, b, step)
    ensures var d := TouchAll(c, a, u, step); ValidCache(d) && d.vals == c.vals && d.cap == c.cap
    decreases u - a
  {
    if a < u {
      TouchValid(c, a);
      SameUncached(c, Touch(c, a), a + step, b, step);
      TouchAllValid(Touch(c, a), a + step, b, u, step);
    }
  }

  lemma {:induction false} SameUncached<T>(c: Cache<T>, d: Cache<T>, a: nat, b: nat, step: nat)
    requires step > 0 && c.vals == d.vals
    ensures FirstUncached(c, a, b, step) == FirstUncached(d, a, b, step)
    decreases b - a
  {
    if a < b && a in c.vals { SameUncached(c, d, a + step, b, step); }
  }

  /** Counting from the iterator instead of from `stop` makes no difference. */
  lemma PickedFrom<T>(data: seq<T>, u: nat, b: nat, stop: nat, step: nat)
    requires step > 0 && stop <= u < b
    ensures var pos := Min(stop, |data|);
            Picked(data, pos + (u - stop), pos + (b - stop), step) == Picked(data, u, b, step)
  {
  }

  /** A slice read answers like the slice of the plain list, whatever is cached. */
  lemma SlicedRight<T>(data: seq<T>, s: State<T>, a: nat, b: nat, step: nat)
    requires Inv(data, s) && step > 0
    ensures Sliced(data, s, a, b, step).1 == Picked(data, a, b, step)
  {
    var u := FirstUncached(s.cache, a, b, step);
    CachedPart(data, s.cache, a, b, step);
    if s.stop <= u < b {
      PickedFrom(data, u, b, s.stop, step);
    } else if u >= b {
      Empty(CachedValues(s.cache, a, u, step));
    }
  }

  /** The items a store of `vs` from `a` on leaves in a cache of `cap` are those of the list. */
  predicate FiledRight<T(==)>(data: seq<T>, a: nat, step: nat, vs: seq<T>, cap: nat)
    decreases |vs|
  {
    vs == [] || ((|vs| <= cap ==> a < |data| && data[a] == vs[0]) && FiledRight(data, a + step, step, vs[1..], cap))
  }

  ghost predicate StoredTrue<T>(data: seq<T>, a: nat, step: nat, vs: seq<T>, cap: nat, x: nat) {
    var w := Stored(a, step, vs, x);
    w.Some? && w.value.1 <= cap ==> x < |data| && w.value.0 == data[x]
  }

  ghost predicate AllStoredTrue<T>(data: seq<T>, a: nat, step: nat, vs: seq<T>, cap: nat) {
    forall x {:trigger StoredTrue(data, a, step, vs, cap, x)} :: StoredTrue(data, a, step, vs, cap, x)
  }

  lemma {:induction false} FiledAt<T>(data: seq<T>, a: nat, step: nat, vs: seq<T>, cap: nat)
    requires step > 0
    ensures FiledRight(data, a, step, vs, cap) <==> AllStoredTrue(data, a, step, vs, cap)
    decreases |vs|
  {
    if vs != [] {
      var rest, next := vs[1..], a + step;
      FiledAt(data, next, step, rest, cap);
      StoredBeyond(next, step, rest, a);
      assert StoredTrue(data, a, step, vs, cap, a) <==> (|vs| <= cap ==> a < |data| && data[a] == vs[0]);
      assert StoredTrue(data, next, step, rest, cap, a);
      if FiledRight(data, a, step, vs, cap) {
        forall x
          ensures StoredTrue(data, a, step, vs, cap, x)
        {
          assert StoredTrue(data, next, step, rest, cap, x);
        }
      } else if AllStoredTrue(data, a, step, vs, cap) {
        forall x
          ensures StoredTrue(data, next, step, rest, cap, x)
        {
          assert StoredTrue(data, a, step, vs, cap, x);
        }
      }
    }
  }

  /** Storing keeps the cache true exactly when what stays of the stored items is right. */
  lemma PutAllTrueIff<T>(data: seq<T>, c: Cache<T>, a: nat, step: nat, vs: seq<T>)
    requires ValidCache(c) && AllTrue(data, c) && step > 0
    ensures AllTrue(data, PutAll(c, a, step, vs)) <==> FiledRight(data, a, step, vs, c.cap)
  {
    var r := PutAll(c, a, step, vs);
    FiledAt(data, a, step, vs, c.cap);
    forall x
      ensures True(data, r, x) <==> StoredTrue(data, a, step, vs, c.cap, x)
    {
      PutAllAt(c, a, step, vs, x);
      assert True(data, c, x);
    }
    if AllTrue(data, r) {
      forall x
        ensures StoredTrue(data, a, step, vs, c.cap, x)
      {
        assert True(data, r, x);
      }
    } else {
      var x :| !True(data, r, x);
      assert !StoredTrue(data, a, step, vs, c.cap, x);
    }
  }

  lemma {:induction false} PickedFiled<T>(data: seq<T>, a: nat, b: nat, step: nat, cap: nat)
    requires step > 0
    ensures FiledRight(data, a, step, Picked(data, a, b, step), cap)
    decreases b - a
  {
    if a < b && a < |data| {
      PickedFiled(data, a + step, b, step, cap);
      assert Picked(data, a, b, step)[1..] == Picked(data, a + step, b, step);
    }
  }

  /**
   * When a slice read leaves the state true: after a restart always; when it reads on, if the items it
   * files from the start of the slice are the items there; when all is cached, if `stop` moves nowhere
   * the iterator is not.
   */
  predicate SafeSlice<T(==)>(data: seq<T>, s: State<T>, a: nat, b: nat, step: nat)
    requires step > 0
  {
    var u := FirstUncached(s.cache, a, b, step);
    if u >= b then Min(s.stop, |data|) == Min(b, |data|)
    else u < s.stop || FiledRight(data, a, step, Picked(data, u, b, step), s.cache.cap)
  }

  /** A slice read keeps the state true if and only if it is safe. */
  lemma SlicedIff<T>(data: seq<T>, s: State<T>, a: nat, b: nat, step: nat)
    requires Inv(data, s) && step > 0
    ensures Inv(data, Sliced(data, s, a, b, step).0) <==> SafeSlice(data, s, a, b, step)
  {
    var u, t := FirstUncached(s.cache, a, b, step), Sliced(data, s, a, b, step).0;
    if u < s.stop && u < b {
      var vs := Picked(data, a, b, step);
      PutAllValid(s.cache, a, step, vs);
      PutAllTrueIff(data, s.cache, a, step, vs);
      PickedFiled(data, a, b, step, s.cache.cap);
    } else {
      var c := TouchAll(s.cache, a, u, step);
      TouchAllValid(s.cache, a, b, u, step);
      assert AllTrue(data, c) by {
        forall x
          ensures True(data, c, x)
        {
          assert True(data, s.cache, x);
        }
      }
      if u < b {
        var vs := Picked(data, u, b, step);
        PickedFrom(data, u, b, s.stop, step);
        PutAllValid(c, a, step, vs);
        PutAllTrueIff(data, c, a, step, vs);
      }
    }
  }

  /** A slice whose first index is not cached is always safe. */
  lemma FirstUncachedIsSafe<T>(data: seq<T>, s: State<T>, a: nat, b: nat, step: nat)
    requires step > 0 && a < b && a !in s.cache.vals
    ensures SafeSlice(data, s, a, b, step)
  {
    PickedFiled(data, a, b, step, s.cache.cap);
  }

  // ---- lists without repeated items --------------------------------------------------------------

  ghost predicate Unique<T>(data: seq<T>) { forall i, j :: 0 <= i < j < |data| ==> data[i] != data[j] }

  /** The same said of indexes alone, for a list of n items: the slice starts over; or reads on from its
      start, or beyond the end of the list; or is all cached, and `stop` moves nowhere the iterator is not. */
  predicate SafeByIndex<T>(c: Cache<T>, stop: nat, n: nat, a: nat, b: nat, step: nat)
    requires step > 0
  {
    var u := FirstUncached(c, a, b, step);
    if u >= b then Min(stop, n) == Min(b, n) else u < stop || u == a || u >= n
  }

  lemma {:induction false} AtLeast<T>(c: Cache<T>, a: nat, b: nat, step: nat)
    requires step > 0
    ensures FirstUncached(c, a, b, step) >= a
    decreases b - a
  {
    if a < b && a in c.vals { AtLeast(c, a + step, b, step); }
  }

  /** Items filed under other indexes than their own are filed wrong, and the last one stays cached. */
  lemma {:induction false} FiledElsewhere<T>(data: seq<T>, a: nat, u: nat, b: nat, step: nat, cap: nat)
    requires Unique(data) && step > 0 && cap > 0 && a != u < b && u < |data|
    ensures !FiledRight(data, a, step, Picked(data, u, b, step), cap)
    decreases b - u
  {
    var vs := Picked(data, u, b, step);
    PickedHead(data, u, b, step);
    if u + step < b && u + step < |data| {
      FiledElsewhere(data, a + step, u + step, b, step, cap);
    } else {
      assert |vs| == 1;
    }
  }

  lemma PickedHead<T>(data: seq<T>, u: nat, b: nat, step: nat)
    requires step > 0 && u < b && u < |data|
    ensures var vs := Picked(data, u, b, step);
            vs != [] && vs[0] == data[u] && vs[1..] == Picked(data, u + step, b, step)
  {
  }

  /** What makes a slice of a list without repeated items safe, as a caller can tell beforehand. */
  lemma SafeIffByIndex<T>(data: seq<T>, s: State<T>, a: nat, b: nat, step: nat)
    requires Unique(data) && ValidCache(s.cache) && step > 0
    ensures SafeSlice(data, s, a, b, step) <==> SafeByIndex(s.cache, s.stop, |data|, a, b, step)
  {
    var u := FirstUncached(s.cache, a, b, step);
    AtLeast(s.cache, a, b, step);
    if s.stop <= u < b {
      if u == a {
        PickedFiled(data, a, b, step, s.cache.cap);
      } else if u < |data| {
        FiledElsewhere(data, a, u, b, step, s.cache.cap);
      }
    }
  }

  // ---- runs of reads -----------------------------------------------------------------------------

  type Stride = k: nat | k > 0 witness 1

  datatype Request = Item(k: nat) | Slice(a: nat, b: nat, step: Stride)

  datatype Answer<T> = OneItem(item: Option<T>) | Items(items: seq<T>)

  /** What a plain list answers; None for an index past its end. */
  function Plain<T>(data: seq<T>, q: Request): Answer<T> {
    match q
    case Item(k) => OneItem(if k < |data| then Some(data[k]) else None)
    case Slice(a, b, step) => Items(Picked(data, a, b, step))
  }

  function Read<T>(data: seq<T>, s: State<T>, q: Request): (r: (State<T>, Answer<T>))
    requires s.pos <= |data|
    ensures r.0.pos <= |data|
  {
    match q
    case Item(k) => var r := Got(data, s, k); (r.0, OneItem(r.1))
    case Slice(a, b, step) => var r := Sliced(data, s, a, b, step); (r.0, Items(r.1))
  }

  /** Every slice of the run is safe where it is read. */
  ghost predicate SafeRun<T>(data: seq<T>, s: State<T>, run: seq<Request>)
    requires s.pos <= |data|
    decreases |run|
  {
    run == []
    || ((run[0].Slice? ==> SafeSlice(data, s, run[0].a, run[0].b, run[0].step))
        && SafeRun(data, Read(data, s, run[0]).0, run[1..]))
  }

  function Answers<T>(data: seq<T>, s: State<T>, run: seq<Request>): seq<Answer<T>>
    requires s.pos <= |data|
    decreases |run|
  {
    if run == [] then []
    else var r := Read(data, s, run[0]); [r.1] + Answers(data, r.0, run[1..])
  }

  /** Any interleaving of item reads with safe slice reads answers like the plain list throughout. */
  lemma {:induction false} RunRight<T>(data: seq<T>, s: State<T>, run: seq<Request>)
    requires Inv(data, s) && SafeRun(data, s, run)
    ensures |Answers(data, s, run)| == |run|
    ensures forall i :: 0 <= i < |run| ==> Answers(data, s, run)[i] == Plain(data, run[i])
    decreases |run|
  {
    if run != [] {
      var q, t := run[0], Read(data, s, run[0]).0;
      if q.Item? {
        GotRight(data, s, q.k);
      } else {
        SlicedRight(data, s, q.a, q.b, q.step);
        SlicedIff(data, s, q.a, q.b, q.step);
      }
      RunRight(data, t, run[1..]);
      forall i | 0 <= i < |run|
        ensures Answers(data, s, run)[i] == Plain(data, run[i])
      {
        if i > 0 {
          assert Answers(data, s, run)[i] == Answers(data, t, run[1..])[i - 1] && run[1..][i - 1] == run[i];
        }
      }
    }
  }

  // ---- the object --------------------------------------------------------------------------------

  const PREFETCH_SIZE: nat := 20

  /** Reading an item of a ListPrefetch: when the read moved `stop`, the next twenty are read as well. */
  function GotAhead<T>(data: seq<T>, s: State<T>, k: nat): (r: (State<T>, Option<T>))
    requires s.pos <= |data|
    ensures r.0.pos <= |data|
  {
    var r := Got(data, s, k);
    if r.1.None? || r.0.stop == s.stop then r
    else (Sliced(data, r.0, k + 1, k + PREFETCH_SIZE + 1, 1).0, r.1)
  }

  /** Reading a slice of a ListPrefetch. */
  function SlicedAhead<T>(data: seq<T>, s: State<T>, a: nat, b: nat, step: nat): (r: (State<T>, seq<T>))
    requires s.pos <= |data| && step > 0
    ensures r.0.pos <= |data|
  {
    var r := Sliced(data, s, a, b, step);
    if r.0.stop == s.stop || b == 0 then r
    else (Sliced(data, r.0, b + 1, b + PREFETCH_SIZE + 1, 1).0, r.1)
  }

  /** Whether an item read of a ListPrefetch reads ahead. */
  predicate LooksAhead<T(==)>(data: seq<T>, s: State<T>, k: nat)
    requires s.pos <= |data|
  {
    Got(data, s, k).1.Some? && Got(data, s, k).0.stop != s.stop
  }

  /** The slice read ahead of item k is safe where it is read. */
  predicate SafeAhead<T(==)>(data: seq<T>, s: State<T>, k: nat)
    requires s.pos <= |data|
  {
    LooksAhead(data, s, k) ==> SafeSlice(data, Got(data, s, k).0, k + 1, k + PREFETCH_SIZE + 1, 1)
  }

  /** An item read of a ListPrefetch answers like the plain list in every true state, and keeps the state
      true if and only if what it reads ahead is safe. */
  lemma GotAheadIff<T>(data: seq<T>, s: State<T>, k: nat)
    requires Inv(data, s)
    ensures GotAhead(data, s, k).1 == if k < |data| then Some(data[k]) else None
    ensures Inv(data, GotAhead(data, s, k).0) <==> SafeAhead(data, s, k)
  {
    GotRight(data, s, k);
    SlicedIff(data, Got(data, s, k).0, k + 1, k + PREFETCH_SIZE + 1, 1);
  }

  lemma {:induction false} CachedBelow<T>(data: seq<T>, c: Cache<T>, a: nat, b: nat)
    requires AllTrue(data, c) && a < b && FirstUncached(c, a, b, 1) >= b
    ensures b <= |data|
    decreases b - a
  {
    assert True(data, c, a);
    if a + 1 < b { CachedBelow(data, c, a + 1, b); }
  }

  /** Reading ahead what is all cached moves `stop` away from the iterator and never keeps the state true. */
  lemma CachedAheadBreaks<T>(data: seq<T>, s: State<T>, k: nat)
    requires Inv(data, s) && LooksAhead(data, s, k)
    requires FirstUncached(Got(data, s, k).0.cache, k + 1, k + PREFETCH_SIZE + 1, 1) >= k + PREFETCH_SIZE + 1
    ensures !Inv(data, GotAhead(data, s, k).0)
  {
    GotRight(data, s, k);
    GotAheadIff(data, s, k);
    CachedBelow(data, Got(data, s, k).0.cache, k + 1, k + PREFETCH_SIZE + 1);
  }

  /** Whether a slice read of a ListPrefetch reads ahead. */
  predicate SliceLooksAhead<T(==)>(data: seq<T>, s: State<T>, a: nat, b: nat, step: nat)
    requires s.pos <= |data| && step > 0
  {
    Sliced(data, s, a, b, step).0.stop != s.stop && b != 0
  }

  /** Both the slice and what is read ahead of it are safe. */
  predicate SafeSliceAhead<T(==)>(data: seq<T>, s: State<T>, a: nat, b: nat, step: nat)
    requires s.pos <= |data| && step > 0
  {
    && SafeSlice(data, s, a, b, step)
    && (SliceLooksAhead(data, s, a, b, step) ==>
          SafeSlice(data, Sliced(data, s, a, b, step).0, b + 1, b + PREFETCH_SIZE + 1, 1))
  }

  /** A slice read of a ListPrefetch answers like the plain list in every true state. It keeps the state
      true when both slices are safe, and after a safe slice, or without reading ahead, only then. */
  lemma SlicedAheadIff<T>(data: seq<T>, s: State<T>, a: nat, b: nat, step: nat)
    requires Inv(data, s) && step > 0
    ensures SlicedAhead(data, s, a, b, step).1 == Picked(data, a, b, step)
    ensures SafeSliceAhead(data, s, a, b, step) ==> Inv(data, SlicedAhead(data, s, a, b, step).0)
    ensures SafeSlice(data, s, a, b, step) || !SliceLooksAhead(data, s, a, b, step) ==>
              (Inv(data, SlicedAhead(data, s, a, b, step).0) <==> SafeSliceAhead(data, s, a, b, step))
  {
    SlicedRight(data, s, a, b, step);
    SlicedIff(data, s, a, b, step);
    if SafeSlice(data, s, a, b, step) {
      SlicedIff(data, Sliced(data, s, a, b, step).0, b + 1, b + PREFETCH_SIZE + 1, 1);
    }
  }

  // ---- what reading ahead repairs ----------------------------------------------------------------

  /** x is in the order, and everything after it lies between lo and hi. */
  ghost predicate Young(order: seq<nat>, x: nat, lo: nat, hi: nat) {
    exists i :: 0 <= i < |order| && order[i] == x && forall j :: i < j < |order| ==> lo <= order[j] < hi
  }

  lemma LastIsYoung(order: seq<nat>, x: nat, lo: nat, hi: nat)
    requires order != [] && order[|order| - 1] == x
    ensures Young(order, x, lo, hi)
  {
  }

  lemma {:induction false} WithoutMembers(s: seq<nat>, k: nat, x: nat)
    requires x in Without(s, k)
    ensures x in s
    decreases |s|
  {
    if s[0] != k && x != s[0] {
      var i :| 0 <= i < |Without(s, k)| && Without(s, k)[i] == x;
      assert Without(s[1..], k)[i - 1] == x;
      WithoutMembers(s[1..], k, x);
    }
  }

  lemma YoungTail(s: seq<nat>, x: nat, lo: nat, hi: nat)
    requires s != [] && Young(s, x, lo, hi) && s[0] != x
    ensures Young(s[1..], x, lo, hi)
  {
    var i :| 0 <= i < |s| && s[i] == x && forall j :: i < j < |s| ==> lo <= s[j] < hi;
    assert s[1..][i - 1] == x;
  }

  lemma YoungFront(y: nat, s: seq<nat>, x: nat, lo: nat, hi: nat)
    requires Young(s, x, lo, hi)
    ensures Young([y] + s, x, lo, hi)
  {
    var i :| 0 <= i < |s| && s[i] == x && forall j :: i < j < |s| ==> lo <= s[j] < hi;
    assert ([y] + s)[i + 1] == x;
  }

  lemma {:induction false} WithoutYoung(s: seq<nat>, k: nat, x: nat, lo: nat, hi: nat)
    requires Young(s, x, lo, hi) && Distinct(s) && k != x
    ensures Young(Without(s, k), x, lo, hi)
    decreases |s|
  {
    var rest := Without(s[1..], k);
    if s[0] == x {
      assert Without(s, k) == [x] + rest;
      forall j | 0 <= j < |rest|
        ensures lo <= rest[j] < hi
      {
        WithoutMembers(s[1..], k, rest[j]);
        assert s[0] != rest[j];
      }
      assert ([x] + rest)[0] == x;
    } else {
      YoungTail(s, x, lo, hi);
      if s[0] != k {
        WithoutYoung(s[1..], k, x, lo, hi);
        YoungFront(s[0], rest, x, lo, hi);
      }
    }
  }

  lemma YoungMore(s: seq<nat>, k: nat, x: nat, lo: nat, hi: nat)
    requires Young(s, x, lo, hi) && lo <= k < hi
    ensures Young(s + [k], x, lo, hi)
  {
    var i :| 0 <= i < |s| && s[i] == x && forall j :: i < j < |s| ==> lo <= s[j] < hi;
    assert (s + [k])[i] == x;
  }

  function Elements(s: seq<nat>): set<nat> {
    set x | x in s
  }

  lemma {:induction false} DistinctSize(s: seq<nat>)
    requires Distinct(s)
    ensures |Elements(s)| == |s|
    decreases |s|
  {
    if s != [] {
      DistinctSize(s[1..]);
      assert s[0] !in s[1..];
      assert Elements(s) == Elements(s[1..]) + {s[0]};
    }
  }

  /** Distinct indexes between lo and hi that leave one out. */
  lemma {:induction false} FewBetween(s: seq<nat>, k: nat, lo: nat, hi: nat)
    requires Distinct(s) && lo <= k < hi && k !in s && forall j :: 0 <= j < |s| ==> lo <= s[j] < hi
    ensures |s| < hi - lo
  {
    var all := Upto(hi) - Upto(lo);
    assert |all| == hi - lo by {
      assert Upto(lo) <= Upto(hi);
      assert |Upto(hi)| == |Upto(hi) - Upto(lo)| + |Upto(lo)|;
    }
    DistinctSize(s);
    SubsetSize(Elements(s), all - {k});
  }

  /** An item that is not between lo and hi survives a store between them in a cache with more room. */
  lemma PutYoung<T>(c: Cache<T>, k: nat, v: T, x: nat, lo: nat, hi: nat)
    requires ValidCache(c) && Young(c.order, x, lo, hi) && lo <= k < hi && !(lo <= x < hi) && c.cap > hi - lo
    ensures Young(Put(c, k, v).order, x, lo, hi) && x in c.vals && x in Put(c, k, v).vals
    ensures Put(c, k, v).vals[x] == c.vals[x]
  {
    assert Listed(c, k) && Listed(c, x);
    if k in c.vals {
      WithoutYoung(c.order, k, x, lo, hi);
      YoungMore(Without(c.order, k), k, x, lo, hi);
    } else if |c.order| >= c.cap {
      if c.order[0] == x {
        FewBetween(c.order[1..], k, lo, hi);
        assert false;
      }
      YoungTail(c.order, x, lo, hi);
      YoungMore(c.order[1..], k, x, lo, hi);
    } else {
      YoungMore(c.order, k, x, lo, hi);
    }
  }

  lemma {:induction false} PutAllYoung<T>(c: Cache<T>, a: nat, vs: seq<T>, x: nat, lo: nat, hi: nat)
    requires ValidCache(c) && Young(c.order, x, lo, hi) && !(lo <= x < hi) && c.cap > hi - lo
    requires lo <= a && a + |vs| <= hi
    ensures var r := PutAll(c, a, 1, vs); x in c.vals && x in r.vals && r.vals[x] == c.vals[x]
    decreases |vs|
  {
    assert Listed(c, x);
    if vs != [] {
      PutYoung(c, a, vs[0], x, lo, hi);
      PutValid(c, a, vs[0]);
      PutAllYoung(Put(c, a, vs[0]), a + 1, vs[1..], x, lo, hi);
    }
  }

  lemma {:induction false} TouchAllYoung<T>(c: Cache<T>, a: nat, b: nat, u: nat, x: nat, lo: nat, hi: nat)
    requires ValidCache(c) && u <= FirstUncached(c, a, b, 1) && Young(c.order, x, lo, hi) && !(lo <= x < hi)
    requires lo <= a && u <= hi
    ensures Young(TouchAll(c, a, u, 1).order, x, lo, hi)
    decreases u - a
  {
    if a < u {
      WithoutYoung(c.order, a, x, lo, hi);
      YoungMore(Without(c.order, a), a, x, lo, hi);
      TouchValid(c, a);
      SameUncached(c, Touch(c, a), a + 1, b, 1);
      TouchAllYoung(Touch(c, a), a + 1, b, u, x, lo, hi);
    }
  }

  lemma FilesFirst<T>(data: seq<T>, c: Cache<T>, a: nat, u: nat, b: nat, step: nat)
    requires step > 0 && u < b && u < |data|
    ensures PutAll(c, a, step, Picked(data, u, b, step)) ==
            PutAll(Put(c, a, data[u]), a + step, step, Picked(data, u + step, b, step))
  {
    assert Picked(data, u, b, step)[1..] == Picked(data, u + step, b, step);
  }

  /** The last item of a slice filed under lower indexes is wrong and the youngest of all. */
  lemma {:induction false} LastFiledWrong<T>(data: seq<T>, c: Cache<T>, a: nat, u: nat, b: nat, step: nat)
    returns (x: nat)
    requires Unique(data) && ValidCache(c) && step > 0 && a < u < b && u < |data|
    ensures var d := PutAll(c, a, step, Picked(data, u, b, step));
            x < b && !True(data, d, x) && d.order != [] && d.order[|d.order| - 1] == x
    decreases b - u
  {
    var d := Put(c, a, data[u]);
    FilesFirst(data, c, a, u, b, step);
    PutValid(c, a, data[u]);
    if u + step < b && u + step < |data| {
      x := LastFiledWrong(data, d, a + step, u + step, b, step);
    } else {
      x := a;
      PutFacts(c, a, data[u], a);
    }
  }

  lemma {:induction false} PickedLength<T>(data: seq<T>, a: nat, b: nat)
    requires a <= b
    ensures |Picked(data, a, b, 1)| == if a <= |data| then Min(b, |data|) - a else 0
    decreases b - a
  {
    if a < b && a < |data| { PickedLength(data, a + 1, b); }
  }

  /** The cache after reading on. */
  lemma CacheReadOn<T>(data: seq<T>, t: State<T>, a: nat, b: nat)
    requires t.pos <= |data| && t.stop < a
    ensures var u := FirstUncached(t.cache, a, b, 1);
            && a <= u
            && Sliced(data, t, a, b, 1).0.cache ==
               if u < b then
                 PutAll(TouchAll(t.cache, a, u, 1), a, 1, Picked(data, t.pos + (u - t.stop), t.pos + (b - t.stop), 1))
               else TouchAll(t.cache, a, u, 1)
  {
    AtLeast(t.cache, a, b, 1);
  }

  lemma {:induction false} AtMost<T>(c: Cache<T>, a: nat, b: nat)
    requires a <= b
    ensures FirstUncached(c, a, b, 1) <= b
    decreases b - a
  {
    if a < b && a in c.vals { AtMost(c, a + 1, b); }
  }

  /** What is cached of the items read ahead is touched first. */
  lemma TouchedYoung<T>(c: Cache<T>, x: nat, lo: nat, hi: nat)
    requires ValidCache(c) && lo <= hi && Young(c.order, x, lo, hi) && !(lo <= x < hi)
    ensures var d := TouchAll(c, lo, FirstUncached(c, lo, hi, 1), 1);
            ValidCache(d) && d.vals == c.vals && d.cap == c.cap && Young(d.order, x, lo, hi)
  {
    var u := FirstUncached(c, lo, hi, 1);
    AtMost(c, lo, hi);
    TouchAllValid(c, lo, hi, u, 1);
    TouchAllYoung(c, lo, hi, u, x, lo, hi);
  }

  /** A wrong item that is the youngest stays when twenty items after the slice are read ahead. */
  lemma WrongStays<T>(data: seq<T>, t: State<T>, b: nat, x: nat)
    requires ValidCache(t.cache) && t.pos <= |data| && t.stop == b && t.cache.cap > PREFETCH_SIZE
    requires x < b && !True(data, t.cache, x) && Young(t.cache.order, x, b + 1, b + PREFETCH_SIZE + 1)
    ensures !True(data, Sliced(data, t, b + 1, b + PREFETCH_SIZE + 1, 1).0.cache, x)
  {
    var lo, hi := b + 1, b + PREFETCH_SIZE + 1;
    var u := FirstUncached(t.cache, lo, hi, 1);
    var c := TouchAll(t.cache, lo, u, 1);
    CacheReadOn(data, t, lo, hi);
    TouchedYoung(t.cache, x, lo, hi);
    if u < hi {
      var vs := Picked(data, t.pos + (u - b), t.pos + (hi - b), 1);
      PickedLength(data, t.pos + (u - b), t.pos + (hi - b));
      PutAllYoung(c, lo, vs, x, lo, hi);
    }
  }

  /** When the twenty items after a slice bring the iterator back to where `stop` says: all of them are
      cached and it happens to be there, or it runs off the end and what is filed is right or nothing. */
  predicate Repaired<T>(c: Cache<T>, pos: nat, n: nat, b: nat) {
    var hi := b + PREFETCH_SIZE + 1;
    var u := FirstUncached(c, b + 1, hi, 1);
    if u >= hi then pos == Min(hi, n)
    else Min(pos + PREFETCH_SIZE + 1, n) == Min(hi, n) && (pos + (u - b) == b + 1 || pos + (u - b) >= n)
  }

  /** From a true cache, whatever `stop` says. */
  lemma RepairedIff<T>(data: seq<T>, t: State<T>, b: nat)
    requires Unique(data) && ValidCache(t.cache) && AllTrue(data, t.cache) && t.pos <= |data| && t.stop == b
    ensures Inv(data, Sliced(data, t, b + 1, b + PREFETCH_SIZE + 1, 1).0) <==> Repaired(t.cache, t.pos, |data|, b)
  {
    var lo, hi := b + 1, b + PREFETCH_SIZE + 1;
    var u := FirstUncached(t.cache, lo, hi, 1);
    var c := TouchAll(t.cache, lo, u, 1);
    AtLeast(t.cache, lo, hi, 1);
    TouchAllValid(t.cache, lo, hi, u, 1);
    forall x
      ensures True(data, c, x)
    {
      assert True(data, t.cache, x);
    }
    if u < hi {
      var v, e := t.pos + (u - b), t.pos + (hi - b);
      PutAllValid(c, lo, 1, Picked(data, v, e, 1));
      PutAllTrueIff(data, c, lo, 1, Picked(data, v, e, 1));
      if v == lo {
        PickedFiled(data, lo, e, 1, c.cap);
      } else if v < |data| {
        FiledElsewhere(data, lo, v, e, 1, c.cap);
      }
    }
  }

  /** In a list without repeated items whose cache holds more than twenty: a slice that was all cached
      ends in a true state exactly when what is read ahead repairs it, and any other slice read only when
      both slices are safe. */
  lemma SlicedAheadExactly<T>(data: seq<T>, s: State<T>, a: nat, b: nat, step: nat)
    requires Inv(data, s) && step > 0 && Unique(data) && s.cache.cap > PREFETCH_SIZE
    ensures Inv(data, SlicedAhead(data, s, a, b, step).0) <==>
            if SliceLooksAhead(data, s, a, b, step) && FirstUncached(s.cache, a, b, step) >= b
            then Repaired(Sliced(data, s, a, b, step).0.cache, s.pos, |data|, b)
            else SafeSliceAhead(data, s, a, b, step)
  {
    var u, t := FirstUncached(s.cache, a, b, step), Sliced(data, s, a, b, step).0;
    SlicedAheadIff(data, s, a, b, step);
    if SliceLooksAhead(data, s, a, b, step) {
      if u >= b {
        CachedStaysTrue(data, s, a, b, step);
        RepairedIff(data, t, b);
      } else if !SafeSlice(data, s, a, b, step) {
        UnsafeStays(data, s, a, b, step);
      }
    }
  }

  lemma CachedStaysTrue<T>(data: seq<T>, s: State<T>, a: nat, b: nat, step: nat)
    requires Inv(data, s) && step > 0 && FirstUncached(s.cache, a, b, step) >= b
    ensures var t := Sliced(data, s, a, b, step).0;
            ValidCache(t.cache) && AllTrue(data, t.cache) && t.pos == s.pos && t.stop == b
  {
    var u, t := FirstUncached(s.cache, a, b, step), Sliced(data, s, a, b, step).0;
    TouchAllValid(s.cache, a, b, u, step);
    forall x
      ensures True(data, t.cache, x)
    {
      assert True(data, s.cache, x);
    }
  }

  lemma UnsafeStays<T>(data: seq<T>, s: State<T>, a: nat, b: nat, step: nat)
    requires Inv(data, s) && step > 0 && Unique(data) && s.cache.cap > PREFETCH_SIZE
    requires FirstUncached(s.cache, a, b, step) < b && !SafeSlice(data, s, a, b, step)
    ensures !Inv(data, Sliced(data, Sliced(data, s, a, b, step).0, b + 1, b + PREFETCH_SIZE + 1, 1).0)
  {
    var u, t := FirstUncached(s.cache, a, b, step), Sliced(data, s, a, b, step).0;
    var c := TouchAll(s.cache, a, u, step);
    SafeIffByIndex(data, s, a, b, step);
    AtLeast(s.cache, a, b, step);
    TouchAllValid(s.cache, a, b, u, step);
    PickedFrom(data, u, b, s.stop, step);
    PutAllValid(c, a, step, Picked(data, u, b, step));
    var x := LastFiledWrong(data, c, a, u, b, step);
    LastIsYoung(t.cache.order, x, b + 1, b + PREFETCH_SIZE + 1);
    WrongStays(data, t, b, x);
  }

  function ReadAhead<T>(data: seq<T>, s: State<T>, q: Request): (r: (State<T>, Answer<T>))
    requires s.pos <= |data|
    ensures r.0.pos <= |data|
  {
    match q
    case Item(k) => var r := GotAhead(data, s, k); (r.0, OneItem(r.1))
    case Slice(a, b, step) => var r := SlicedAhead(data, s, a, b, step); (r.0, Items(r.1))
  }

  ghost predicate SafeRead<T>(data: seq<T>, s: State<T>, q: Request)
    requires s.pos <= |data|
  {
    match q
    case Item(k) => SafeAhead(data, s, k)
    case Slice(a, b, step) => SafeSliceAhead(data, s, a, b, step)
  }

  ghost predicate SafeRunAhead<T>(data: seq<T>, s: State<T>, run: seq<Request>)
    requires s.pos <= |data|
    decreases |run|
  {
    run == [] || (SafeRead(data, s, run[0]) && SafeRunAhead(data, ReadAhead(data, s, run[0]).0, run[1..]))
  }

  function AnswersAhead<T>(data: seq<T>, s: State<T>, run: seq<Request>): seq<Answer<T>>
    requires s.pos <= |data|
    decreases |run|
  {
    if run == [] then []
    else var r := ReadAhead(data, s, run[0]); [r.1] + AnswersAhead(data, r.0, run[1..])
  }

  /** Any interleaving of safe reads of a ListPrefetch answers like the plain list throughout. */
  lemma {:induction false} RunAheadRight<T>(data: seq<T>, s: State<T>, run: seq<Request>)
    requires Inv(data, s) && SafeRunAhead(data, s, run)
    ensures |AnswersAhead(data, s, run)| == |run|
    ensures forall i :: 0 <= i < |run| ==> AnswersAhead(data, s, run)[i] == Plain(data, run[i])
    decreases |run|
  {
    if run != [] {
      var q, t := run[0], ReadAhead(data, s, run[0]).0;
      if q.Item? { GotAheadIff(data, s, q.k); } else { SlicedAheadIff(data, s, q.a, q.b, q.step); }
      RunAheadRight(data, t, run[1..]);
      forall i | 0 <= i < |run|
        ensures AnswersAhead(data, s, run)[i] == Plain(data, run[i])
      {
        if i > 0 {
          assert AnswersAhead(data, s, run)[i] == AnswersAhead(data, t, run[1..])[i - 1] && run[1..][i - 1] == run[i];
        }
      }
    }
  }

  /** `data` is what each call of `f` yields; the iterator is known by how far it has been read. */
  class Sliceable<T(==)> {
    const data: seq<T>
    var cache: Cache<T>
    var pos: nat
    var stop: nat
    var pulls: nat

    constructor (data: seq<T>, size: nat)
      requires size > 0
      ensures this.data == data && Image() == State(Cache(size, [], map[]), 0, 0, 0) && Inv(data, Image())
    {
      this.data := data;
      cache, pos, stop, pulls := Cache(size, [], map[]), 0, 0, 0;
      new;
      assert forall x :: True(data, cache, x);
    }

    function Image(): State<T>
      reads this
    {
      State(cache, pos, stop, pulls)
    }

    /** itertools.islice on the iterator, read to its end. */
    method Islice(first: nat, last: nat, step: nat) returns (r: seq<T>)
      requires pos <= |data| && step > 0 && first <= last
      modifies `pos, `pulls
      ensures r == Picked(data, old(pos) + first, old(pos) + last, step)
      ensures pos == Min(old(pos) + last, |data|) && pulls == old(pulls) + (pos - old(pos))
    {
      r := Picked(data, pos + first, pos + last, step);
      var reached := Min(pos + last, |data|);
      pulls := pulls + (reached - pos);
      pos := reached;
    }

    method GetItem(k: nat) returns (r: Option<T>)
      requires pos <= |data|
      modifies this
      ensures (Image(), r) == Got(data, old(Image()), k)
      ensures k in old(cache.vals) ==> r == Some(old(cache.vals)[k]) && pos == old(pos) && stop == old(stop)
      ensures k !in old(cache.vals) && r.Some? ==> stop == k + 1 && k in cache.vals && cache.vals[k] == r.value
      ensures r.None? ==> pos == 0 && stop == 0 && cache == old(cache)
    {
      if k in cache.vals {
        r := Some(cache.vals[k]);
        cache := Touch(cache, k);
        return;
      } else if k < stop {
        stop := 0;
        pos := 0;
      }
      var delta := k - stop;
      var next := Islice(delta, delta + 1, 1);
      if next == [] {
        pos, stop := 0, 0;
        return None;
      }
      cache := Put(cache, k, next[0]);
      stop := k + 1;
      r := Some(next[0]);
    }

    /** Files values under a, a + step, ... */
    method File(a: nat, step: nat, vs: seq<T>)
      modifies `cache
      ensures cache == PutAll(old(cache), a, step, vs)
    {
      var i: nat, rest := a, vs;
      while rest != []
        invariant PutAll(cache, i, step, rest) == PutAll(old(cache), a, step, vs)
        decreases |rest|
      {
        cache := Put(cache, i, rest[0]);
        i, rest := i + step, rest[1..];
      }
    }

    method GetSlice(a: nat, b: nat, step: nat) returns (r: seq<T>)
      requires pos <= |data| && step > 0
      modifies this
      ensures (Image(), r) == Sliced(data, old(Image()), a, b, step) && stop == b
    {
      var u: nat := a;
      while u < b && u in cache.vals
        invariant FirstUncached(cache, u, b, step) == FirstUncached(cache, a, b, step)
        decreases b - u
      {
        u := u + step;
      }
      if u < stop && u < b {
        AtLeast(cache, a, b, step);
        pos := 0;
        r := Islice(a, b, step);
        File(a, step, r);
        stop := b;
      } else {
        var vals := cache.vals;
        r := [];
        var i: nat := a;
        while i < u
          invariant cache.vals == vals && FirstUncached(old(cache), i, b, step) == u
          invariant TouchAll(cache, i, u, step) == TouchAll(old(cache), a, u, step)
          invariant r + CachedValues(old(cache), i, u, step) == CachedValues(old(cache), a, u, step)
          modifies `cache
          decreases u - i
        {
          Assoc(r, [vals[i]], CachedValues(old(cache), i + step, u, step));
          r := r + [cache.vals[i]];
          cache := Touch(cache, i);
          i := i + step;
        }
        Empty(r);
        if u < b {
          var more := Islice(u - stop, b - stop, step);
          File(a, step, more);
          r := r + more;
        }
        stop := b;
      }
    }

    /** ListPrefetch.__getitem__ of an index. */
    method GetItemAhead(k: nat) returns (r: Option<T>)
      requires pos <= |data|
      modifies this
      ensures (Image(), r) == GotAhead(data, old(Image()), k)
    {
      var previous := stop;
      r := GetItem(k);
      if r.None? { return; }
      if stop != previous { var _ := GetSlice(k + 1, k + PREFETCH_SIZE + 1, 1); }
    }

    /** ListPrefetch.__getitem__ of a slice. */
    method GetSliceAhead(a: nat, b: nat, step: nat) returns (r: seq<T>)
      requires pos <= |data| && step > 0
      modifies this
      ensures (Image(), r) == SlicedAhead(data, old(Image()), a, b, step)
    {
      var previous := stop;
      r := GetSlice(a, b, step);
      if stop != previous && b != 0 { var _ := GetSlice(b + 1, b + PREFETCH_SIZE + 1, 1); }
    }

    /**
     * Iterating a fresh ListPrefetch whose cache holds at least one batch: the items in order, each
     * pulled once; the read past the end pulls all of them again unless the batches end just there.
     */
    method Iterate() returns (out: seq<T>)
      requires Inv(data, Image()) && cache.cap > PREFETCH_SIZE && cache.vals == map[] && stop == 0 && pulls == 0
      modifies this
      ensures out == data && Inv(data, Image())
      ensures pulls == if Batches(|data|) then |data| else 2 * |data|
    {
      out := [];
      ghost var e: nat := 0;
      while true
        invariant |out| <= |data| && out == data[..|out|]
        invariant Reading(data, Image(), |out|, e)
        decreases |data| - |out|
      {
        ghost var next := Advance(data, Image(), |out|, e);
        var item := GetItemAhead(|out|);
        if item.None? { return; }
        out := out + [item.value];
        e := next;
      }
    }
  }

  // ---- iterating with read-ahead -----------------------------------------------------------------

  ghost predicate Holds<T>(c: Cache<T>, x: nat) { x in c.vals }

  /** About to read index `i`, with the batch up to `e` read: what is left of it is cached, nothing beyond is. */
  ghost predicate Ready<T>(data: seq<T>, s: State<T>, i: nat, e: nat) {
    && Inv(data, s) && s.cache.cap > PREFETCH_SIZE && s.stop == e && i <= e && s.pulls == Min(e, |data|)
    && (forall x: nat {:trigger Holds(s.cache, x)} ::
          (i <= x < Min(e, |data|) ==> Holds(s.cache, x)) && (Holds(s.cache, x) ==> x < e))
  }

  lemma ReadyAnswers<T>(data: seq<T>, s: State<T>, i: nat, e: nat)
    requires Ready(data, s, i, e) && i <= |data|
    ensures GotAhead(data, s, i).1 == if i < |data| then Some(data[i]) else None
    ensures i == |data| ==> Inv(data, GotAhead(data, s, i).0)
    ensures i == |data| ==> GotAhead(data, s, i).0.pulls == |data| + if i < e then |data| else 0
  {
    GotRight(data, s, i);
    assert True(data, s.cache, i);
  }

  lemma ReadyHits<T>(data: seq<T>, s: State<T>, i: nat, e: nat)
    requires Ready(data, s, i, e) && i < e && i < |data|
    ensures Ready(data, GotAhead(data, s, i).0, i + 1, e)
  {
    GotRight(data, s, i);
    assert Holds(s.cache, i);
    var t := Got(data, s, i).0;
    forall x: nat
      ensures (i + 1 <= x < Min(e, |data|) ==> Holds(t.cache, x)) && (Holds(t.cache, x) ==> x < e)
    {
      assert Holds(s.cache, x) <==> Holds(t.cache, x);
    }
  }

  lemma {:induction false} StoredInRange<T>(a: nat, vs: seq<T>, x: nat)
    ensures Stored(a, 1, vs, x).Some? <==> a <= x < a + |vs|
    ensures Stored(a, 1, vs, x).Some? ==> Stored(a, 1, vs, x).value.1 <= |vs|
    decreases |vs|
  {
    if vs != [] { StoredInRange(a + 1, vs[1..], x); }
  }

  lemma ReadyLoads<T>(data: seq<T>, s: State<T>, e: nat)
    requires Ready(data, s, e, e) && e < |data|
    ensures Ready(data, GotAhead(data, s, e).0, e + 1, e + PREFETCH_SIZE + 1)
  {
    var t, z := Got(data, s, e).0, e + PREFETCH_SIZE + 1;
    GotRight(data, s, e);
    assert Holds(s.cache, e) ==> e < e;
    assert Holds(s.cache, e + 1) ==> e + 1 < e;
    PutFacts(s.cache, e, data[e], e + 1);
    LoadBatch(data, s, t, e);
  }

  /** The batch read after a missed item fits into the cache beside it. */
  lemma LoadBatch<T>(data: seq<T>, s: State<T>, t: State<T>, e: nat)
    requires Inv(data, t) && e < |data| && t.cache.cap > PREFETCH_SIZE
    requires t == State(Put(s.cache, e, data[e]), e + 1, e + 1, e + 1) && e + 1 !in t.cache.vals
    requires forall x: nat {:trigger Holds(s.cache, x)} :: Holds(s.cache, x) ==> x < e
    ensures Ready(data, Sliced(data, t, e + 1, e + PREFETCH_SIZE + 1, 1).0, e + 1, e + PREFETCH_SIZE + 1)
  {
    var z := e + PREFETCH_SIZE + 1;
    FirstUncachedIsSafe(data, t, e + 1, z, 1);
    SlicedIff(data, t, e + 1, z, 1);
    var vs := Picked(data, e + 1, z, 1);
    PickedLength(data, e + 1, z);
    PutFacts(s.cache, e, data[e], e);
    PutLast(s.cache, e, data[e], e + 1);
    Survives(t.cache, e, 0, e + 1, 1, vs);
    PutAllValid(t.cache, e + 1, 1, vs);
    var r := PutAll(t.cache, e + 1, 1, vs);
    forall x: nat
      ensures (e + 1 <= x < Min(z, |data|) ==> Holds(r, x)) && (Holds(r, x) ==> x < z)
    {
      PutAllAt(t.cache, e + 1, 1, vs, x);
      StoredInRange(e + 1, vs, x);
      PutFacts(s.cache, e, data[e], x);
      assert Holds(s.cache, x) ==> x < e;
    }
    assert Sliced(data, t, e + 1, z, 1).0 == State(r, Min(z, |data|), z, Min(z, |data|));
  }

  /** A whole number of batches: an item and the twenty read after it. */
  predicate Batches(n: nat) { n % (PREFETCH_SIZE + 1) == 0 }

  lemma BatchesEnd(n: nat, e: nat)
    requires Batches(e) && n <= e < n + PREFETCH_SIZE + 1
    ensures Batches(n) <==> n == e
  {
  }

  ghost predicate Reading<T>(data: seq<T>, s: State<T>, i: nat, e: nat) {
    Ready(data, s, i, e) && Batches(e) && e < i + PREFETCH_SIZE + 1
  }

  lemma ReadingEnds<T>(data: seq<T>, s: State<T>, e: nat)
    requires Reading(data, s, |data|, e)
    ensures var r := GotAhead(data, s, |data|);
            r.1 == None && Inv(data, r.0) && r.0.pulls == if Batches(|data|) then |data| else 2 * |data|
  {
    ReadyAnswers(data, s, |data|, e);
    BatchesEnd(|data|, e);
  }

  lemma NextBatch(e: nat)
    requires Batches(e)
    ensures Batches(e + PREFETCH_SIZE + 1)
  {
  }

  lemma ReadingGoesOn<T>(data: seq<T>, s: State<T>, i: nat, e: nat) returns (next: nat)
    requires Reading(data, s, i, e) && i < |data|
    ensures var r := GotAhead(data, s, i); r.1 == Some(data[i]) && Reading(data, r.0, i + 1, next)
  {
    ReadyAnswers(data, s, i, e);
    next := e;
    if i == e {
      ReadyLoads(data, s, e);
      NextBatch(e);
      next := e + PREFETCH_SIZE + 1;
    } else {
      ReadyHits(data, s, i, e);
    }
  }

  /** One step of the iteration: an item and a state to go on from, or the end. */
  lemma Advance<T>(data: seq<T>, s: State<T>, i: nat, e: nat) returns (next: nat)
    requires Reading(data, s, i, e) && i <= |data|
    ensures var r := GotAhead(data, s, i);
            if i < |data| then r.1 == Some(data[i]) && Reading(data, r.0, i + 1, next)
            else r.1 == None && Inv(data, r.0) && r.0.pulls == if Batches(|data|) then |data| else 2 * |data|
  {
    next := e;
    if i == |data| { ReadingEnds(data, s, e); } else { next := ReadingGoesOn(data, s, i, e); }
  }

  // ---- what an unsafe slice does -----------------------------------------------------------------

  /** [:1], then [:2], then [0] of a fresh list: the second slice files the second item under 0. */
  method WrongFirst<T(==)>(s: Sliceable<T>) returns (first: Option<T>)
    requires Inv(s.data, s.Image()) && s.cache.vals == map[] && s.stop == 0 && |s.data| >= 2
    modifies s
    ensures first == Some(s.data[1])
  {
    var data := s.data;
    assert Picked(data, 1, 1, 1) == [] && Picked(data, 2, 2, 1) == [];
    assert Picked(data, 0, 1, 1) == [data[0]];
    PutAllOne(s.cache, 0, 1, data[0]);
    var one := s.GetSlice(0, 1, 1);
    PutFacts(old(s.cache), 0, data[0], 1);
    assert s.cache == Put(old(s.cache), 0, data[0]);
    assert FirstUncached(s.cache, 0, 2, 1) == 1;
    assert Picked(data, 1, 2, 1) == [data[1]];
    ghost var touched := TouchAll(s.cache, 0, 1, 1);
    PutAllOne(touched, 0, 1, data[1]);
    var two := s.GetSlice(0, 2, 1);
    assert s.cache == Put(touched, 0, data[1]);
    PutFacts(touched, 0, data[1], 0);
    first := s.GetItem(0);
  }

  lemma PutAllOne<T>(c: Cache<T>, a: nat, step: nat, v: T)
    ensures PutAll(c, a, step, [v]) == Put(c, a, v)
  {
    assert [v][1..] == [];
  }

  // ---- what reading ahead does to random access --------------------------------------------------

  /** A cache of `n` indices below n has room for one more of them. */
  lemma HasRoom(order: seq<nat>, n: nat, k: nat)
    requires Distinct(order) && k < n && k !in order && forall x :: x in order ==> x < n
    ensures |order| < n
  {
    DistinctSize(order);
    SubsetSize(Elements(order), Upto(n) - {k});
  }

  /** A cache with room for all indices below `n`, holding some of those. */
  ghost predicate Roomy<T>(c: Cache<T>, n: nat) {
    ValidCache(c) && n <= c.cap && forall x: nat {:trigger Holds(c, x)} :: Holds(c, x) ==> x < n
  }

  lemma PutRoomy<T>(c: Cache<T>, n: nat, k: nat, v: T)
    requires Roomy(c, n) && k < n
    ensures Roomy(Put(c, k, v), n) && Put(c, k, v).cap == c.cap
    ensures forall x: nat {:trigger Holds(Put(c, k, v), x)} :: Holds(Put(c, k, v), x) <==> Holds(c, x) || x == k
  {
    PutValid(c, k, v);
    assert Listed(c, k);
    if k !in c.vals {
      forall x | x in c.order
        ensures x < n
      {
        assert Listed(c, x) && Holds(c, x);
      }
      HasRoom(c.order, n, k);
    }
    forall x: nat
      ensures Holds(Put(c, k, v), x) <==> Holds(c, x) || x == k
    {
    }
  }

  lemma {:induction false} PutAllRoomy<T>(c: Cache<T>, n: nat, a: nat, vs: seq<T>)
    requires Roomy(c, n) && a + |vs| <= n
    ensures var d := PutAll(c, a, 1, vs);
            && Roomy(d, n) && d.cap == c.cap
            && forall x: nat {:trigger Holds(d, x)} :: Holds(d, x) <==> Holds(c, x) || a <= x < a + |vs|
    decreases |vs|
  {
    if vs != [] {
      var e := Put(c, a, vs[0]);
      PutRoomy(c, n, a, vs[0]);
      PutAllRoomy(e, n, a + 1, vs[1..]);
      forall x: nat
        ensures Holds(PutAll(c, a, 1, vs), x) <==> Holds(c, x) || a <= x < a + |vs|
      {
        assert Holds(e, x) <==> Holds(c, x) || x == a;
      }
    }
  }

  /** The cached indices are those from lo to hi. */
  ghost predicate Spans<T>(c: Cache<T>, lo: nat, hi: nat) {
    forall x: nat {:trigger Holds(c, x)} :: Holds(c, x) <==> lo <= x < hi
  }

  lemma {:induction false} AllCached<T>(c: Cache<T>, a: nat, b: nat)
    requires a <= b && forall x: nat {:trigger Holds(c, x)} :: a <= x < b ==> Holds(c, x)
    ensures FirstUncached(c, a, b, 1) == b
    decreases b - a
  {
    if a < b {
      assert Holds(c, a);
      AllCached(c, a + 1, b);
    }
  }

  /** Item k is read from a restarted or well-placed iterator. */
  lemma Missed<T>(data: seq<T>, s: State<T>, n: nat, k: nat)
    requires Roomy(s.cache, n) && s.pos <= |data| && !Holds(s.cache, k) && k < n && k < |data|
    requires k < s.stop || s.pos == s.stop
    ensures var r := Got(data, s, k);
            && r.1 == Some(data[k]) && r.0.pos == r.0.stop == k + 1 && Roomy(r.0.cache, n)
            && r.0.cache == Put(s.cache, k, data[k]) && r.0.cache.cap == s.cache.cap
            && forall x: nat {:trigger Holds(r.0.cache, x)} :: Holds(r.0.cache, x) <==> Holds(s.cache, x) || x == k
  {
    PutRoomy(s.cache, n, k, data[k]);
  }

  /** Reading an item with nothing cached after it caches the twenty that follow. */
  lemma LoadsAhead<T>(data: seq<T>, s: State<T>, n: nat, k: nat)
    requires Roomy(s.cache, n) && s.pos <= |data| && !Holds(s.cache, k) && !Holds(s.cache, k + 1)
    requires k + PREFETCH_SIZE + 1 <= n && k + PREFETCH_SIZE + 1 <= |data| && s.stop != k + 1
    requires k < s.stop || s.pos == s.stop
    ensures var t, z := GotAhead(data, s, k).0, k + PREFETCH_SIZE + 1;
            && t.pos == t.stop == z && Roomy(t.cache, n) && t.cache.cap == s.cache.cap
            && forall x: nat {:trigger Holds(t.cache, x)} :: Holds(t.cache, x) <==> Holds(s.cache, x) || k <= x < z
  {
    var r, z := Got(data, s, k).0, k + PREFETCH_SIZE + 1;
    Missed(data, s, n, k);
    assert !Holds(r.cache, k + 1);
    PickedLength(data, k + 1, z);
    PutAllRoomy(r.cache, n, k + 1, Picked(data, k + 1, z, 1));
    var t := GotAhead(data, s, k).0;
    forall x: nat
      ensures Holds(t.cache, x) <==> Holds(s.cache, x) || k <= x < z
    {
      assert Holds(r.cache, x) <==> Holds(s.cache, x) || x == k;
    }
  }

  /** Reading an item with the twenty after it cached leaves the iterator behind `stop`. */
  lemma LeftBehind<T>(data: seq<T>, s: State<T>, n: nat, k: nat)
    requires Roomy(s.cache, n) && s.pos <= |data| && !Holds(s.cache, k) && k < n && k < |data| && k < s.stop
    requires forall x: nat {:trigger Holds(s.cache, x)} :: k < x <= k + PREFETCH_SIZE ==> Holds(s.cache, x)
    requires s.stop != k + 1
    ensures var t, z := GotAhead(data, s, k).0, k + PREFETCH_SIZE + 1;
            && t.pos == k + 1 && t.stop == z
            && forall x: nat {:trigger Holds(t.cache, x)} :: Holds(t.cache, x) <==> Holds(s.cache, x) || x == k
  {
    var r, z := Got(data, s, k).0, k + PREFETCH_SIZE + 1;
    Missed(data, s, n, k);
    forall x: nat | k < x < z
      ensures Holds(r.cache, x)
    {
      assert Holds(s.cache, x);
    }
    AllCached(r.cache, k + 1, z);
    TouchAllValid(r.cache, k + 1, z, z, 1);
    var t := GotAhead(data, s, k).0;
    forall x: nat
      ensures Holds(t.cache, x) <==> Holds(s.cache, x) || x == k
    {
      assert Holds(t.cache, x) <==> Holds(r.cache, x);
    }
  }

  /** Items 5, 3 and 2 of a fresh prefetching list, then item 26: the answer is item 6. */
  method WrongAhead<T(==)>(s: Sliceable<T>) returns (item: Option<T>)
    requires Inv(s.data, s.Image()) && s.cache.vals == map[] && s.stop == 0 && s.cache.cap >= 27 && |s.data| >= 27
    modifies s
    ensures item == Some(s.data[6])
  {
    ghost var data := s.data;
    LoadsAhead(data, s.Image(), 27, 5);
    var _ := s.GetItemAhead(5);
    assert Spans(s.cache, 5, 26);
    LoadsAhead(data, s.Image(), 27, 3);
    var _ := s.GetItemAhead(3);
    assert Spans(s.cache, 3, 26);
    LeftBehind(data, s.Image(), 27, 2);
    var _ := s.GetItemAhead(2);
    assert Spans(s.cache, 2, 26) && !Holds(s.cache, 26);
    item := s.GetItemAhead(26);
  }
}
