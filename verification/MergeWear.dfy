/** Two lists on which the lazy merge stops with most of a list unread, or raises. */
module MergeWear {
  import opened Wrappers
  import opened SortedSets
  import opened Scores
  import opened MergePool
  import opened MergeCounts
  import opened MergeView
  import opened MergeRun

  predicate Over(x: real, y: real, top: real) { x > y + top }

  /** Each score exceeds the next ones by more than `top`, and the last one exceeds it too. */
  ghost predicate Steep(a: seq<Hit>, top: real) {
    && (forall j, k {:trigger Over(a[j].score, a[k].score, top)} ::
          0 <= j < k < |a| ==> Over(a[j].score, a[k].score, top))
    && (forall j :: 0 <= j < |a| ==> a[j].score > top)
  }

  /** List a outweighs list b throughout. List b starts with the last 40 documents of a, goes on with the
      others, and may end with documents of its own. */
  ghost predicate Wearing(a: seq<Hit>, b: seq<Hit>) {
    && Descending(a) && Descending(b) && RAISE_DEPTH <= |a| <= |b| && Steep(a, Top(b))
    && (forall s :: 0 <= s < CACHE_SIZE ==> b[s].doc == a[|a| - CACHE_SIZE + s].doc)
    && (forall s :: CACHE_SIZE <= s < |a| ==> Among(a, |a| - CACHE_SIZE, b[s].doc))
  }

  ghost predicate Flat(b: seq<Hit>) {
    forall s :: 0 <= s < |b| ==> b[s].score == Top(b)
  }

  ghost predicate Strict(b: seq<Hit>) {
    forall i, j {:trigger Over(b[i].score, b[j].score, 0.0)} ::
      0 <= i < j < |b| ==> Over(b[i].score, b[j].score, 0.0)
  }

  /** The cap of a list is no higher than the last score read from it. */
  ghost predicate LowCap(h: seq<Hit>, n: nat, cap: real) {
    0 < n <= |h| ==> cap <= h[n - 1].score
  }

  /** Where list b's cap stands: at the common score, or no higher than the last score read. */
  ghost predicate CapOfB(flat: bool, b: seq<Hit>, p: Pool)
    requires |p.pos| == |p.unread| == 2
  {
    if flat then p.unread[1] == Top(b) else LowCap(b, p.pos[1], p.unread[1])
  }

  /** The scores of b are all the same, or no two of them are. */
  ghost predicate Kind(flat: bool, b: seq<Hit>) {
    if flat then Flat(b) else Strict(b)
  }

  /** The first k documents of the first list were yielded, and n elements of the second were read. */
  ghost predicate Reached(flat: bool, hits: seq<seq<Hit>>, k: nat, n: nat, p: Pool) {
    && |hits| == |p.pos| == |p.unread| == |p.caches| == 2 && k <= |hits[0]| && n <= |hits[0]| <= |hits[1]|
    && p.used == DocsRead(hits[0], k) && 1 in p.iters && p.pos[1] == n && CapOfB(flat, hits[1], p)
    && k <= p.pos[0] <= |hits[0]| && (0 in p.iters ==> LowCap(hits[0], p.pos[0], p.unread[0]))
  }

  ghost predicate WearingPair(hits: seq<seq<Hit>>) {
    |hits| == 2 && Wearing(hits[0], hits[1])
  }

  /** How much of b has been read when turn k starts. */
  function DepthBefore(a: seq<Hit>, k: nat): nat
    requires k <= |a|
  {
    if k == 0 then 0 else Depth(|a| - k + 1)
  }

  /** Before turn k's refill. */
  ghost predicate Before(flat: bool, hits: seq<seq<Hit>>, k: nat, p: Pool) {
    |hits| == 2 && k <= |hits[0]| && Reached(flat, hits, k, DepthBefore(hits[0], k), p)
  }

  /** After it. */
  ghost predicate Settled(flat: bool, hits: seq<seq<Hit>>, k: nat, p: Pool) {
    && |hits| == 2 && k <= |hits[0]| && Reached(flat, hits, k, Depth(|hits[0]| - k), p)
    && (0 in p.iters ==> p.pos[0] >= k + CACHE_SIZE / 2)
  }

  // ---- what the caches hold --------------------------------------------------------------------

  lemma DocsReadMore(a: seq<Hit>, k: nat, n: nat)
    requires k <= n <= |a|
    ensures DocsRead(a, k) <= DocsRead(a, n)
  {
    forall d | d in DocsRead(a, k)
      ensures d in DocsRead(a, n)
    {
      assert Among(a, k, d);
      assert Among(a, n, d);
    }
  }

  lemma DifferenceSize<T>(x: set<T>, y: set<T>)
    requires y <= x
    ensures |x - y| == |x| - |y|
  {
  }

  lemma IndexUnused(a: seq<Hit>, k: nat, j: nat)
    requires Descending(a) && k <= j < |a|
    ensures !Among(a, k, a[j].doc)
  {
  }

  lemma DifferenceOfReads(a: seq<Hit>, k: nat, m: nat, c: Cache)
    requires Descending(a) && k <= m <= |a| && c.Keys == DocsRead(a, m) - DocsRead(a, k)
    ensures |c| == m - k
  {
    DocsReadMore(a, k, m);
    DocsReadSize(a, k);
    DocsReadSize(a, m);
    DifferenceSize(DocsRead(a, m), DocsRead(a, k));
    assert |c.Keys| == |c|;
  }

  lemma RangeOfDocs(a: seq<Hit>, l: nat, m: nat, d: Doc)
    requires Descending(a) && l <= m <= |a|
    ensures d in DocsRead(a, m) - DocsRead(a, l) <==> exists j :: l <= j < m && a[j].doc == d
  {
    if d in DocsRead(a, m) - DocsRead(a, l) {
      assert Among(a, m, d) && !Among(a, l, d);
      var j :| 0 <= j < m && a[j].doc == d;
      assert j < l ==> Among(a, l, d);
    }
    if exists j :: l <= j < m && a[j].doc == d {
      var j :| l <= j < m && a[j].doc == d;
      IndexUnused(a, l, j);
      assert Among(a, m, d);
    }
  }

  lemma KeysOfReads(a: seq<Hit>, k: nat, m: nat, c: Cache)
    requires k <= m <= |a| && CacheOf(a, m, DocsRead(a, k), c)
    ensures c.Keys == DocsRead(a, m) - DocsRead(a, k)
  {
    forall d | true
      ensures d in c.Keys <==> d in DocsRead(a, m) && d !in DocsRead(a, k)
    {
    }
  }

  /** What a cache of a holds when the first k documents were yielded and m were read. */
  lemma CacheOfReads(a: seq<Hit>, k: nat, m: nat, c: Cache)
    requires Descending(a) && k <= m <= |a| && CacheOf(a, m, DocsRead(a, k), c)
    ensures |c| == m - k
    ensures forall d :: d in c <==> exists j :: k <= j < m && a[j].doc == d
  {
    KeysOfReads(a, k, m, c);
    DifferenceOfReads(a, k, m, c);
    forall d | true
      ensures d in c.Keys <==> exists j :: k <= j < m && a[j].doc == d
    {
      RangeOfDocs(a, k, m, d);
    }
  }

  /** Of list a, what was read but not yielded. */
  lemma CacheOfA(flat: bool, hits: seq<seq<Hit>>, k: nat, n: nat, p: Pool)
    requires WearingPair(hits) && Inv(hits, p) && Reached(flat, hits, k, n, p)
    ensures |p.caches[0]| == p.pos[0] - k
    ensures forall d :: d in p.caches[0] ==> exists j :: k <= j < p.pos[0] && hits[0][j].doc == d
    ensures forall j :: k <= j < p.pos[0] ==>
              hits[0][j].doc in p.caches[0] && p.caches[0][hits[0][j].doc] == hits[0][j].score
  {
    assert CacheOf(hits[0], p.pos[0], p.used, p.caches[0]);
    CacheOfReads(hits[0], k, p.pos[0], p.caches[0]);
    forall j | k <= j < p.pos[0]
      ensures hits[0][j].doc in p.caches[0] && p.caches[0][hits[0][j].doc] == hits[0][j].score
    {
      ScoreAt(hits[0], j);
    }
  }

  /** The first of a's documents that b's cache can still hold. */
  function FirstShared(a: seq<Hit>, k: nat): nat
    requires |a| >= CACHE_SIZE
  {
    if k < |a| - CACHE_SIZE then |a| - CACHE_SIZE else k
  }

  lemma LateOnesUsed(a: seq<Hit>, b: seq<Hit>, k: nat, s: nat)
    requires Wearing(a, b) && CACHE_SIZE <= s < |a| && |a| - CACHE_SIZE <= k
    ensures Among(a, k, b[s].doc)
  {
    assert Among(a, |a| - CACHE_SIZE, b[s].doc);
  }

  lemma FromBShared(a: seq<Hit>, b: seq<Hit>, k: nat, n: nat, d: Doc)
    requires Wearing(a, b) && k <= |a| && n <= |a| && (n > CACHE_SIZE ==> k >= |a| - CACHE_SIZE)
    requires Among(b, n, d) && !Among(a, k, d)
    ensures exists j :: FirstShared(a, k) <= j < |a| && a[j].doc == d
  {
    var s :| 0 <= s < n && s < |b| && b[s].doc == d;
    var j := |a| - CACHE_SIZE + s;
    if s < CACHE_SIZE {
      assert a[j].doc == d;
    } else {
      LateOnesUsed(a, b, k, s);
      assert false;
    }
  }

  lemma SharedFromB(a: seq<Hit>, b: seq<Hit>, k: nat, n: nat, j: nat)
    requires Wearing(a, b) && CACHE_SIZE <= n && FirstShared(a, k) <= j < |a|
    ensures Among(b, n, a[j].doc) && !Among(a, k, a[j].doc)
  {
    var s := j - (|a| - CACHE_SIZE);
    assert b[s].doc == a[j].doc;
    IndexUnused(a, k, j);
  }

  lemma CachedFromB(a: seq<Hit>, b: seq<Hit>, k: nat, n: nat, d: Doc)
    requires Wearing(a, b) && k <= |a| && CACHE_SIZE <= n <= |a| && (n > CACHE_SIZE ==> k >= |a| - CACHE_SIZE)
    ensures Among(b, n, d) && !Among(a, k, d) <==> exists j :: FirstShared(a, k) <= j < |a| && a[j].doc == d
  {
    if Among(b, n, d) && !Among(a, k, d) { FromBShared(a, b, k, n, d); }
    if exists j :: FirstShared(a, k) <= j < |a| && a[j].doc == d {
      var j :| FirstShared(a, k) <= j < |a| && a[j].doc == d;
      SharedFromB(a, b, k, n, j);
    }
  }

  /** Of list b, the last 40 documents of a that were not yielded, as soon as 40 elements were read. */
  lemma CacheOfB(flat: bool, hits: seq<seq<Hit>>, k: nat, n: nat, p: Pool)
    requires WearingPair(hits) && Inv(hits, p) && Reached(flat, hits, k, n, p)
    requires n >= CACHE_SIZE && (n > CACHE_SIZE ==> k >= |hits[0]| - CACHE_SIZE)
    ensures |p.caches[1]| == |hits[0]| - FirstShared(hits[0], k)
    ensures forall d :: d in p.caches[1] <==>
              exists j :: FirstShared(hits[0], k) <= j < |hits[0]| && hits[0][j].doc == d
  {
    var c, l := p.caches[1], FirstShared(hits[0], k);
    assert CacheOf(hits[1], p.pos[1], p.used, c);
    forall d | true
      ensures d in c <==> exists j :: l <= j < |hits[0]| && hits[0][j].doc == d
      ensures d in c.Keys <==> d in DocsRead(hits[0], |hits[0]|) - DocsRead(hits[0], l)
    {
      assert d in p.used <==> Among(hits[0], k, d);
      CachedFromB(hits[0], hits[1], k, n, d);
      RangeOfDocs(hits[0], l, |hits[0]|, d);
    }
    assert c.Keys == DocsRead(hits[0], |hits[0]|) - DocsRead(hits[0], l);
    DifferenceOfReads(hits[0], l, |hits[0]|, c);
  }

  /** A score cached from b is that of its element, and no more than the best of b. */
  lemma ScoreFromB(flat: bool, hits: seq<seq<Hit>>, k: nat, n: nat, p: Pool, d: Doc)
    requires WearingPair(hits) && Inv(hits, p) && Reached(flat, hits, k, n, p) && d in p.caches[1]
    ensures exists s :: 0 <= s < n && hits[1][s].doc == d && p.caches[1][d] == hits[1][s].score
    ensures 0.0 < p.caches[1][d] <= Top(hits[1])
  {
    assert CacheOf(hits[1], p.pos[1], p.used, p.caches[1]);
    var s :| 0 <= s < n && s < |hits[1]| && hits[1][s].doc == d;
    ScoreAt(hits[1], s);
    CachedBeatsUnread(hits, p, 1, d);
  }

  // ---- refilling -------------------------------------------------------------------------------

  /** Reading on without running out leaves the cap no higher than the last score read. */
  lemma {:induction false} ReadManyCap(p: Pool, i: nat, h: seq<Hit>, size: nat)
    requires i < |p.pos| == |p.unread| == |p.caches| && p.pos[i] + size <= |h| && Descending(h)
    requires p.pos[i] > 0 ==> p.unread[i] <= h[p.pos[i] - 1].score
    ensures var q := ReadMany(p, i, h, size);
            |q.unread| == |p.unread| && (p.pos[i] + size > 0 ==> q.unread[i] <= h[p.pos[i] + size - 1].score)
    decreases size
  {
    if size > 0 {
      ReadManyCap(Read(p, i, h[p.pos[i]]), i, h, size - 1);
    }
  }

  /** With equal scores the cap stays at that score. */
  lemma {:induction false} ReadManyFlat(p: Pool, i: nat, h: seq<Hit>, size: nat)
    requires i < |p.pos| == |p.unread| == |p.caches| && p.pos[i] + size <= |h|
    requires Flat(h) && p.unread[i] == Top(h)
    ensures var q := ReadMany(p, i, h, size); |q.unread| == |p.unread| && q.unread[i] == Top(h)
    decreases size
  {
    if size > 0 {
      ReadManyFlat(Read(p, i, h[p.pos[i]]), i, h, size - 1);
    }
  }

  /** Of two lists, i was read on by `size` elements and j was left alone. */
  ghost predicate ReadOnBy(p: Pool, q: Pool, i: nat, j: nat, h: seq<Hit>, size: nat)
    requires i < 2 && j < 2
  {
    && |p.pos| == |p.unread| == |p.caches| == |q.pos| == |q.unread| == |q.caches| == 2 && q.used == p.used
    && q.pos[j] == p.pos[j] && q.unread[j] == p.unread[j] && (j in q.iters <==> j in p.iters)
    && p.pos[i] <= q.pos[i] <= |h|
    && (p.pos[i] + size <= |h| ==> q.pos[i] == p.pos[i] + size && (i in q.iters <==> i in p.iters))
    && (p.pos[i] + size > |h| ==> i !in q.iters)
  }

  ghost predicate CapsRead(p: Pool, q: Pool, i: nat, h: seq<Hit>)
    requires i < |p.pos| == |p.unread| && i < |q.pos| == |q.unread|
  {
    && (i in q.iters && LowCap(h, p.pos[i], p.unread[i]) ==> LowCap(h, q.pos[i], q.unread[i]))
    && (i in q.iters && Flat(h) && p.unread[i] == Top(h) ==> q.unread[i] == Top(h))
  }

  lemma ReadsOn(p: Pool, i: nat, j: nat, h: seq<Hit>, size: nat)
    requires |p.pos| == |p.unread| == |p.caches| == 2 && i < 2 && j < 2 && i != j && p.pos[i] <= |h|
    ensures ReadOnBy(p, ReadMany(p, i, h, size), i, j, h, size)
  {
    ReadManyMoves(p, i, h, size);
    ReadManyFrame(p, i, h, size);
  }

  lemma ReadsCaps(p: Pool, i: nat, h: seq<Hit>, size: nat)
    requires |p.pos| == |p.unread| == |p.caches| == 2 && i < 2 && p.pos[i] <= |h| && Descending(h)
    ensures var q := ReadMany(p, i, h, size); |q.pos| == |q.unread| == 2 && CapsRead(p, q, i, h)
  {
    var q := ReadMany(p, i, h, size);
    ReadManyMoves(p, i, h, size);
    ReadManyFrame(p, i, h, size);
    if i in q.iters {
      if LowCap(h, p.pos[i], p.unread[i]) { ReadManyCap(p, i, h, size); }
      if Flat(h) && p.unread[i] == Top(h) { ReadManyFlat(p, i, h, size); }
    }
  }

  /** What refilling one of two lists does. */
  lemma FillOneReads(hits: seq<seq<Hit>>, p: Pool, i: nat, j: nat)
    requires |hits| == |p.pos| == |p.unread| == |p.caches| == 2 && i < 2 && j < 2 && i != j
    requires p.pos[i] <= |hits[i]| && Descending(hits[i])
    ensures var q := FillOne(hits, p, i);
            if Short(p, i) then
              ReadOnBy(p, q, i, j, hits[i], CACHE_SIZE - |p.caches[i]|) && CapsRead(p, q, i, hits[i])
            else q == p
  {
    if Short(p, i) {
      var size := CACHE_SIZE - |p.caches[i]|;
      ReadsOn(p, i, j, hits[i], size);
      ReadsCaps(p, i, hits[i], size);
    }
  }

  lemma SizeOfA(flat: bool, hits: seq<seq<Hit>>, k: nat, n: nat, p: Pool)
    requires WearingPair(hits) && Inv(hits, p) && Reached(flat, hits, k, n, p)
    ensures |p.caches[0]| == p.pos[0] - k
  {
    CacheOfA(flat, hits, k, n, p);
  }

  lemma FillAShort(flat: bool, hits: seq<seq<Hit>>, k: nat, n: nat, p: Pool, q: Pool)
    requires Reached(flat, hits, k, n, p) && 0 in p.iters && p.pos[0] - k <= CACHE_SIZE
    requires ReadOnBy(p, q, 0, 1, hits[0], CACHE_SIZE - (p.pos[0] - k)) && CapsRead(p, q, 0, hits[0])
    ensures Reached(flat, hits, k, n, q) && (0 in q.iters ==> q.pos[0] >= k + CACHE_SIZE / 2)
  {
  }

  /** List a is refilled to 40 cached documents or to its end. */
  lemma FillA(flat: bool, hits: seq<seq<Hit>>, k: nat, n: nat, p: Pool, q: Pool)
    requires WearingPair(hits) && Inv(hits, p) && Reached(flat, hits, k, n, p) && q == FillOne(hits, p, 0)
    ensures Reached(flat, hits, k, n, q) && (0 in q.iters ==> q.pos[0] >= k + CACHE_SIZE / 2)
  {
    SizeOfA(flat, hits, k, n, p);
    FillOneReads(hits, p, 0, 1);
    if Short(p, 0) { FillAShort(flat, hits, k, n, p, q); }
  }

  lemma FillBShort(flat: bool, hits: seq<seq<Hit>>, k: nat, n: nat, p: Pool, q: Pool, size: nat)
    requires Reached(flat, hits, k, n, p) && n + size <= |hits[0]| && (flat ==> Flat(hits[1]))
    requires ReadOnBy(p, q, 1, 0, hits[1], size) && CapsRead(p, q, 1, hits[1])
    ensures Reached(flat, hits, k, n + size, q) && (0 in q.iters <==> 0 in p.iters) && q.pos[0] == p.pos[0]
  {
  }

  /** List b is read on by as much as its cache is short of 40, and is not at its end. */
  lemma FillB(flat: bool, hits: seq<seq<Hit>>, k: nat, n: nat, p: Pool, q: Pool)
    requires WearingPair(hits) && Reached(flat, hits, k, n, p) && (flat ==> Flat(hits[1]))
    requires |p.caches[1]| <= CACHE_SIZE && n + (CACHE_SIZE - |p.caches[1]|) <= |hits[0]|
    requires q == FillOne(hits, p, 1)
    ensures Reached(flat, hits, k, if |p.caches[1]| < CACHE_SIZE / 2 then n + (CACHE_SIZE - |p.caches[1]|) else n, q)
    ensures (0 in q.iters <==> 0 in p.iters) && q.pos[0] == p.pos[0]
  {
    FillOneReads(hits, p, 1, 0);
    if Short(p, 1) { FillBShort(flat, hits, k, n, p, q, CACHE_SIZE - |p.caches[1]|); }
  }

  /** How many documents b has cached before turn k's refill, and how far that refill reads. */
  lemma ShortageOfB(flat: bool, hits: seq<seq<Hit>>, k: nat, p: Pool)
    requires WearingPair(hits) && Inv(hits, p) && Before(flat, hits, k, p)
    requires k < |hits[0]| || |hits[0]| >= STOP_DEPTH
    ensures var c, n := |p.caches[1]|, DepthBefore(hits[0], k);
            && c <= CACHE_SIZE && n + (CACHE_SIZE - c) <= |hits[0]|
            && (if c < CACHE_SIZE / 2 then n + (CACHE_SIZE - c) else n) == Depth(|hits[0]| - k)
  {
    var n := DepthBefore(hits[0], k);
    DepthAtEnd();
    if k == 0 {
      assert CacheOf(hits[1], p.pos[1], p.used, p.caches[1]);
      CacheWithinRead(hits[1], 0, p.used, p.caches[1]);
    } else {
      DepthFalls(1, |hits[0]| - k + 1);
      CacheOfB(flat, hits, k, n, p);
      if k < |hits[0]| { DepthFalls(1, |hits[0]| - k); }
    }
  }

  /** What the refill of turn k makes of the two lists. */
  lemma Refilled(flat: bool, hits: seq<seq<Hit>>, k: nat, p: Pool)
    requires WearingPair(hits) && Inv(hits, p) && Before(flat, hits, k, p) && Kind(flat, hits[1])
    requires k < |hits[0]| || |hits[0]| >= STOP_DEPTH
    ensures Settled(flat, hits, k, Fill(hits, p, 2))
  {
    var n := DepthBefore(hits[0], k);
    var q := FillOne(hits, p, 0);
    assert Fill(hits, p, 0) == p;
    assert Fill(hits, p, 1) == q;
    assert Fill(hits, p, 2) == FillOne(hits, q, 1);
    FillA(flat, hits, k, n, p, q);
    FillOneKeeps(hits, p, 0);
    ShortageOfB(flat, hits, k, q);
    FillB(flat, hits, k, n, q, FillOne(hits, q, 1));
  }

  // ---- the order of the pending documents ------------------------------------------------------

  lemma SumOfTwo(u: seq<real>)
    requires |u| == 2
    ensures Sum(u) == u[0] + u[1]
  {
    var v := u[..1];
    assert v[..0] == [] && Sum(v) == Sum(v[..0]) + v[0];
  }

  lemma TopPositive(b: seq<Hit>)
    requires Descending(b) && b != []
    ensures Top(b) > 0.0
  {
  }

  /** A document cached from a is known to within the best of b. */
  lemma BoundsOfA(flat: bool, hits: seq<seq<Hit>>, k: nat, n: nat, p: Pool, j: nat)
    requires WearingPair(hits) && Inv(hits, p) && Reached(flat, hits, k, n, p) && k <= j < p.pos[0]
    ensures var d, s := hits[0][j].doc, hits[0][j].score;
            d in p.mins && s <= p.mins[d] && Sum(Capped(p.caches, p.unread, d)) <= s + Top(hits[1])
    ensures p.mins[hits[0][j].doc] <= hits[0][j].score + Top(hits[1])
  {
    var d := hits[0][j].doc;
    CacheOfA(flat, hits, k, n, p);
    assert MinOk(p.caches, p.mins, d) && Held(p.caches, d);
    SumOfTwo(Known(p.caches, d));
    SumOfTwo(Capped(p.caches, p.unread, d));
    TopPositive(hits[1]);
    if d in p.caches[1] { ScoreFromB(flat, hits, k, n, p, d); }
  }

  /** A document cached from b alone is known for no more than the best of b. */
  lemma BoundOfB(flat: bool, hits: seq<seq<Hit>>, k: nat, n: nat, p: Pool, d: Doc)
    requires WearingPair(hits) && Inv(hits, p) && Reached(flat, hits, k, n, p) && d in p.mins && d !in p.caches[0]
    ensures d in p.caches[1] && p.mins[d] <= Top(hits[1])
  {
    assert MinOk(p.caches, p.mins, d);
    var i :| 0 <= i < |p.caches| && d in p.caches[i];
    SumOfTwo(Known(p.caches, d));
    ScoreFromB(flat, hits, k, n, p, d);
  }

  /** The pending documents read from a, in the order of a. */
  ghost function FrontOfA(a: seq<Hit>, mins: map<Doc, real>, k: nat, n: nat): (f: seq<Entry>)
    requires k <= n <= |a| && forall j :: k <= j < n ==> a[j].doc in mins
    ensures |f| == n - k
    ensures forall j :: 0 <= j < n - k ==> f[j] == Entry(-mins[a[k + j].doc], a[k + j].doc)
  {
    seq(n - k, j requires 0 <= j < n - k => Entry(-mins[a[k + j].doc], a[k + j].doc))
  }

  /** The bounds of a's documents from k to n leave no doubt about their order. */
  ghost predicate WellApart(a: seq<Hit>, mins: map<Doc, real>, k: nat, n: nat, top: real) {
    && k <= n <= |a| && Steep(a, top)
    && forall j {:trigger a[j].doc} :: k <= j < n ==>
         a[j].doc in mins && a[j].score <= mins[a[j].doc] <= a[j].score + top
  }

  lemma FrontSorted(a: seq<Hit>, mins: map<Doc, real>, k: nat, n: nat, top: real)
    requires WellApart(a, mins, k, n, top)
    ensures Sorted(FrontOfA(a, mins, k, n))
  {
    var f := FrontOfA(a, mins, k, n);
    forall i, j | 0 <= i < j < |f|
      ensures Below(f[i], f[j])
    {
      var x, y := k + i, k + j;
      assert Over(a[x].score, a[y].score, top);
      assert f[i].neg == -mins[a[x].doc] && f[j].neg == -mins[a[y].doc];
    }
  }

  lemma FrontBelow(a: seq<Hit>, mins: map<Doc, real>, k: nat, n: nat, top: real, e: Entry)
    requires WellApart(a, mins, k, n, top) && -e.neg <= top
    ensures After(FrontOfA(a, mins, k, n), e)
  {
    var f := FrontOfA(a, mins, k, n);
    forall x | x in f
      ensures Below(x, e)
    {
      var i :| 0 <= i < |f| && f[i] == x;
      var j := k + i;
      assert a[j].score > top && x.neg == -mins[a[j].doc];
    }
  }

  lemma AllApart(flat: bool, hits: seq<seq<Hit>>, k: nat, n: nat, p: Pool)
    requires WearingPair(hits) && Inv(hits, p) && Reached(flat, hits, k, n, p)
    ensures WellApart(hits[0], p.mins, k, p.pos[0], Top(hits[1]))
  {
    forall j | k <= j < p.pos[0]
      ensures hits[0][j].doc in p.mins
      ensures hits[0][j].score <= p.mins[hits[0][j].doc] <= hits[0][j].score + Top(hits[1])
    {
      BoundsOfA(flat, hits, k, n, p, j);
    }
  }

  /** A pending document is in front or was cached from b alone. */
  lemma FrontOrBehind(flat: bool, hits: seq<seq<Hit>>, k: nat, n: nat, p: Pool, e: Entry)
    requires WearingPair(hits) && Inv(hits, p) && Reached(flat, hits, k, n, p) && e in p.sorted
    requires WellApart(hits[0], p.mins, k, p.pos[0], Top(hits[1]))
    ensures var f := FrontOfA(hits[0], p.mins, k, p.pos[0]);
            e in f || (After(f, e) && e.doc in p.caches[1] && e.doc !in p.caches[0])
  {
    var a, f := hits[0], FrontOfA(hits[0], p.mins, k, p.pos[0]);
    EntriesRight(p.mins, p.sorted);
    if e.doc in p.caches[0] {
      CacheOfA(flat, hits, k, n, p);
      var j :| k <= j < p.pos[0] && a[j].doc == e.doc;
      assert f[j - k] == e;
    } else {
      BoundOfB(flat, hits, k, n, p, e.doc);
      FrontBelow(a, p.mins, k, p.pos[0], Top(hits[1]), e);
    }
  }

  /** The pending documents start with what is cached of a, in the order of a. */
  lemma FrontFirst(flat: bool, hits: seq<seq<Hit>>, k: nat, n: nat, p: Pool)
    requires WearingPair(hits) && Inv(hits, p) && Reached(flat, hits, k, n, p)
    ensures WellApart(hits[0], p.mins, k, p.pos[0], Top(hits[1]))
    ensures var f := FrontOfA(hits[0], p.mins, k, p.pos[0]); |f| <= |p.sorted| && InOrder(p.sorted)[..|f|] == f
  {
    AllApart(flat, hits, k, n, p);
    var f := FrontOfA(hits[0], p.mins, k, p.pos[0]);
    FrontSorted(hits[0], p.mins, k, p.pos[0], Top(hits[1]));
    EntriesRight(p.mins, p.sorted);
    forall e | e in f
      ensures e in p.sorted
    {
    }
    forall e | e in p.sorted
      ensures e in f || After(f, e)
    {
      FrontOrBehind(flat, hits, k, n, p, e);
    }
    FrontOrder(p.sorted, f);
  }

  lemma PastFront(s: set<Entry>, f: seq<Entry>)
    requires |f| < |s| && InOrder(s)[..|f|] == f
    ensures InOrder(s)[|f|] in s && InOrder(s)[|f|] !in f
  {
    var order := InOrder(s);
    assert order[|f|] in order;
    forall i | 0 <= i < |f|
      ensures f[i] != order[|f|]
    {
      assert order[..|f|][i] == order[i] && Below(order[i], order[|f|]);
    }
  }

  lemma SharedIsInA(flat: bool, hits: seq<seq<Hit>>, k: nat, n: nat, p: Pool, d: Doc)
    requires WearingPair(hits) && Inv(hits, p) && Reached(flat, hits, k, n, p) && p.pos[0] == |hits[0]|
    requires n >= CACHE_SIZE && (n > CACHE_SIZE ==> k >= |hits[0]| - CACHE_SIZE) && d in p.caches[1]
    ensures d in p.caches[0]
  {
    CacheOfB(flat, hits, k, n, p);
    CacheOfA(flat, hits, k, n, p);
  }

  /** With a read to its end nothing else is pending. */
  lemma FrontIsAll(flat: bool, hits: seq<seq<Hit>>, k: nat, n: nat, p: Pool)
    requires WearingPair(hits) && Inv(hits, p) && Reached(flat, hits, k, n, p) && p.pos[0] == |hits[0]|
    requires n >= CACHE_SIZE && (n > CACHE_SIZE ==> k >= |hits[0]| - CACHE_SIZE)
    ensures |p.sorted| == |hits[0]| - k
  {
    FrontFirst(flat, hits, k, n, p);
    var f := FrontOfA(hits[0], p.mins, k, p.pos[0]);
    if |p.sorted| > |f| {
      var e := InOrder(p.sorted)[|f|];
      PastFront(p.sorted, f);
      FrontOrBehind(flat, hits, k, n, p, e);
      SharedIsInA(flat, hits, k, n, p, e.doc);
    }
  }

  lemma DepthOfB(a: seq<Hit>, k: nat)
    requires k <= |a| && |a| >= CACHE_SIZE
    ensures Depth(|a| - k) >= CACHE_SIZE && (Depth(|a| - k) > CACHE_SIZE ==> k >= |a| - CACHE_SIZE)
  {
  }

  /** Slot j of a window shows a's document k + j. */
  ghost predicate ShowsA(a: seq<Hit>, k: nat, top: real, j: nat, d: Doc, low: real, high: real) {
    k + j < |a| && d == a[k + j].doc && a[k + j].score <= low && high <= a[k + j].score + top
  }

  /** A window is no larger than what is cached of a. */
  lemma WindowFits(flat: bool, hits: seq<seq<Hit>>, k: nat, p: Pool)
    requires WearingPair(hits) && Inv(hits, p) && Settled(flat, hits, k, p)
    ensures |p.sorted| <= p.pos[0] - k || ORDER_SIZE <= p.pos[0] - k
  {
    DepthOfB(hits[0], k);
    if 0 !in p.iters { FrontIsAll(flat, hits, k, Depth(|hits[0]| - k), p); }
  }

  /** Entry j of the pending documents is a's document k + j. */
  lemma FrontAt(flat: bool, hits: seq<seq<Hit>>, k: nat, n: nat, p: Pool, j: nat)
    requires WearingPair(hits) && Inv(hits, p) && Reached(flat, hits, k, n, p) && k + j < p.pos[0]
    ensures j < |p.sorted| && hits[0][k + j].doc in p.mins
    ensures InOrder(p.sorted)[j] == Entry(-p.mins[hits[0][k + j].doc], hits[0][k + j].doc)
  {
    FrontFirst(flat, hits, k, n, p);
    var f := FrontOfA(hits[0], p.mins, k, p.pos[0]);
    assert InOrder(p.sorted)[..|f|][j] == f[j];
  }

  lemma ShowsByBounds(a: seq<Hit>, k: nat, top: real, p: Pool, j: nat, d: Doc, low: real, high: real)
    requires k + j < |a| && a[k + j].doc in p.mins && Slot(p, Entry(-p.mins[a[k + j].doc], a[k + j].doc), d, low, high)
    requires a[k + j].score <= p.mins[a[k + j].doc]
    requires Sum(Capped(p.caches, p.unread, a[k + j].doc)) <= a[k + j].score + top
    ensures ShowsA(a, k, top, j, d, low, high)
  {
  }

  lemma SlotOfA(flat: bool, hits: seq<seq<Hit>>, k: nat, p: Pool, j: nat, d: Doc, low: real, high: real)
    requires WearingPair(hits) && Inv(hits, p) && Settled(flat, hits, k, p) && k + j < p.pos[0]
    requires j < |p.sorted| && Slot(p, InOrder(p.sorted)[j], d, low, high)
    ensures ShowsA(hits[0], k, Top(hits[1]), j, d, low, high)
  {
    var n := Depth(|hits[0]| - k);
    FrontAt(flat, hits, k, n, p, j);
    BoundsOfA(flat, hits, k, n, p, k + j);
    ShowsByBounds(hits[0], k, Top(hits[1]), p, j, d, low, high);
  }

  /** A window of a settled state shows a's documents in their order. */
  lemma WindowOfA(flat: bool, hits: seq<seq<Hit>>, k: nat, p: Pool, docs: seq<Doc>, lows: seq<real>, highs: seq<real>)
    requires WearingPair(hits) && Inv(hits, p) && Settled(flat, hits, k, p) && IsWindow(p, docs, lows, highs)
    ensures |docs| == |lows| == |highs|
    ensures forall j: nat {:trigger ShowsA(hits[0], k, Top(hits[1]), j, docs[j], lows[j], highs[j])} ::
              j < |docs| ==> ShowsA(hits[0], k, Top(hits[1]), j, docs[j], lows[j], highs[j])
  {
    WindowFits(flat, hits, k, p);
    forall j: nat | j < |docs|
      ensures ShowsA(hits[0], k, Top(hits[1]), j, docs[j], lows[j], highs[j])
    {
      assert Slot(p, InOrder(p.sorted)[j], docs[j], lows[j], highs[j]);
      SlotOfA(flat, hits, k, p, j, docs[j], lows[j], highs[j]);
    }
  }

  lemma ShownInOrder(a: seq<Hit>, k: nat, top: real, docs: seq<Doc>, lows: seq<real>, highs: seq<real>, i: nat, j: nat)
    requires Steep(a, top) && i < j < |docs| == |lows| == |highs|
    requires ShowsA(a, k, top, i, docs[i], lows[i], highs[i]) && ShowsA(a, k, top, j, docs[j], lows[j], highs[j])
    ensures highs[j] < lows[i]
  {
    assert Over(a[k + i].score, a[k + j].score, top);
  }

  /** What list a has left scores less, by more than the best of b, than its documents up to k + 12. */
  lemma CapsBelow(flat: bool, hits: seq<seq<Hit>>, k: nat, p: Pool)
    requires WearingPair(hits) && Inv(hits, p) && Settled(flat, hits, k, p) && k + 12 < |hits[0]|
    ensures Sum(p.unread) < hits[0][k + 12].score
  {
    var a := hits[0];
    SumOfTwo(p.unread);
    assert p.unread[1] <= Top(hits[1]);
    if 0 in p.iters {
      assert Over(a[k + 12].score, a[p.pos[0] - 1].score, Top(hits[1]));
    } else {
      assert p.unread[0] == 0.0 && a[k + 12].score > Top(hits[1]);
    }
  }

  /** So no window is ever rejected. */
  lemma AlwaysAccepts(flat: bool, hits: seq<seq<Hit>>, k: nat, p: Pool)
    requires WearingPair(hits) && Inv(hits, p) && Settled(flat, hits, k, p)
    ensures Accepts(p)
  {
    forall docs, lows, highs | IsWindow(p, docs, lows, highs)
      ensures WindowOk(lows, highs, Sum(p.unread))
    {
      WindowOfA(flat, hits, k, p, docs, lows, highs);
      forall i: nat, j: nat | i < j < |docs|
        ensures highs[j] <= lows[i]
      {
        ShownInOrder(hits[0], k, Top(hits[1]), docs, lows, highs, i, j);
      }
      if |docs| == ORDER_SIZE {
        assert ShowsA(hits[0], k, Top(hits[1]), 12, docs[12], lows[12], highs[12]);
        CapsBelow(flat, hits, k, p);
      }
    }
  }

  /** The best pending document is a's next one. */
  lemma NextIsA(flat: bool, hits: seq<seq<Hit>>, k: nat, p: Pool)
    requires WearingPair(hits) && Inv(hits, p) && Settled(flat, hits, k, p) && k < |hits[0]|
    ensures p.sorted != {} && InOrder(p.sorted)[0].doc == hits[0][k].doc
  {
    FrontAt(flat, hits, k, Depth(|hits[0]| - k), p, 0);
  }

  // ---- yielding --------------------------------------------------------------------------------

  /** When the next document of a is cached from b too, it is the element of b with the same rank from
      the end of a. */
  lemma NextFromB(flat: bool, hits: seq<seq<Hit>>, k: nat, p: Pool)
    requires WearingPair(hits) && Inv(hits, p) && Settled(flat, hits, k, p) && k < |hits[0]|
    requires hits[0][k].doc in p.caches[1]
    ensures var s := k - (|hits[0]| - CACHE_SIZE);
            0 <= s < CACHE_SIZE && s < p.pos[1] && p.caches[1][hits[0][k].doc] == hits[1][s].score
  {
    var a, b, n := hits[0], hits[1], Depth(|hits[0]| - k);
    DepthOfB(a, k);
    CacheOfB(flat, hits, k, n, p);
    assert CacheOf(hits[1], p.pos[1], p.used, p.caches[1]);
    var j :| FirstShared(a, k) <= j < |a| && a[j].doc == a[k].doc;
    assert j == k;
    ScoreAt(b, k - (|a| - CACHE_SIZE));
  }

  /** With distinct scores it never sits on the cap of b. */
  lemma OffCapB(hits: seq<seq<Hit>>, k: nat, p: Pool)
    requires WearingPair(hits) && Inv(hits, p) && Settled(false, hits, k, p) && k < |hits[0]| && Strict(hits[1])
    requires hits[0][k].doc in p.caches[1]
    ensures p.caches[1][hits[0][k].doc] > p.unread[1]
  {
    var b, s, n := hits[1], k - (|hits[0]| - CACHE_SIZE), p.pos[1];
    NextFromB(false, hits, k, p);
    DepthAtEnd();
    DepthOfB(hits[0], k);
    assert s < n - 1;
    assert Over(b[s].score, b[n - 1].score, 0.0);
  }

  /** Nor on the cap of a while a is open. */
  lemma OffCapA(flat: bool, hits: seq<seq<Hit>>, k: nat, p: Pool)
    requires WearingPair(hits) && Inv(hits, p) && Settled(flat, hits, k, p) && 0 in p.iters
    ensures k < |hits[0]| && hits[0][k].doc in p.caches[0] && p.caches[0][hits[0][k].doc] > p.unread[0]
  {
    var a, n := hits[0], p.pos[0];
    CacheOfA(flat, hits, k, Depth(|a| - k), p);
    TopPositive(hits[1]);
    assert Over(a[k].score, a[n - 1].score, Top(hits[1]));
  }

  /** What b has cached all has the same score when b is flat. */
  lemma FlatCap(hits: seq<seq<Hit>>, k: nat, p: Pool, d: Doc, cap: real)
    requires WearingPair(hits) && Inv(hits, p) && Settled(true, hits, k, p) && Flat(hits[1])
    requires CapAfter(p.caches[1], d, p.unread[1], cap)
    ensures cap == Top(hits[1])
  {
    if d in p.caches[1] && p.caches[1][d] == p.unread[1] {
      var best :| best in p.caches[1] - {d} && p.caches[1][best] == cap;
      ScoreFromB(true, hits, k, Depth(|hits[0]| - k), p, best);
    }
  }

  lemma CapsKept(flat: bool, hits: seq<seq<Hit>>, k: nat, p: Pool, unread: seq<real>)
    requires WearingPair(hits) && Inv(hits, p) && Settled(flat, hits, k, p) && k < |hits[0]| && Kind(flat, hits[1])
    requires CapsAfter(p, hits[0][k].doc, unread)
    ensures 0 in p.iters ==> unread[0] == p.unread[0]
    ensures if flat then unread[1] == Top(hits[1]) else unread[1] == p.unread[1]
  {
    var d := hits[0][k].doc;
    assert CapAfter(p.caches[0], d, p.unread[0], unread[0]);
    assert CapAfter(p.caches[1], d, p.unread[1], unread[1]);
    if 0 in p.iters { OffCapA(flat, hits, k, p); }
    if flat {
      FlatCap(hits, k, p, d, unread[1]);
    } else if d in p.caches[1] {
      OffCapB(hits, k, p);
    }
  }

  lemma NextReached(flat: bool, hits: seq<seq<Hit>>, k: nat, n: nat, p: Pool, q: Pool)
    requires Reached(flat, hits, k, n, p) && k < |hits[0]| && k < p.pos[0]
    requires |q.pos| == |q.unread| == |q.caches| == 2 && q.pos == p.pos && q.iters == p.iters
    requires q.used == p.used + {hits[0][k].doc}
    requires 0 in p.iters ==> q.unread[0] == p.unread[0]
    requires if flat then q.unread[1] == Top(hits[1]) else q.unread[1] == p.unread[1]
    ensures Reached(flat, hits, k + 1, n, q)
  {
    assert DocsRead(hits[0], k + 1) == DocsRead(hits[0], k) + {hits[0][k].doc};
  }

  /** After the next document of a was yielded. */
  lemma NextBefore(flat: bool, hits: seq<seq<Hit>>, k: nat, p: Pool, q: Pool)
    requires WearingPair(hits) && Inv(hits, p) && Settled(flat, hits, k, p) && k < |hits[0]| && Kind(flat, hits[1])
    requires hits[0][k].doc in p.mins && q == Yielded(p, hits[0][k].doc, q.unread)
    requires CapsAfter(p, hits[0][k].doc, q.unread)
    ensures Before(flat, hits, k + 1, q)
  {
    CapsKept(flat, hits, k, p, q.unread);
    NextReached(flat, hits, k, Depth(|hits[0]| - k), p, q);
  }

  // ---- the runs --------------------------------------------------------------------------------

  /** Only the last document of a, with b flat, is ever all that a list has cached and on its cap. */
  lemma OnlyLastOnCap(flat: bool, hits: seq<seq<Hit>>, k: nat, p: Pool, i: nat)
    requires WearingPair(hits) && Ready(hits, p) && Settled(flat, hits, k, p) && k < |hits[0]| && Kind(flat, hits[1])
    requires OnlyOnCap(p, i, hits[0][k].doc)
    ensures flat && k == |hits[0]| - 1
  {
    var n := Depth(|hits[0]| - k);
    CrashNeedsWear(hits, p, i, hits[0][k].doc);
    assert |p.caches[i].Keys| == |p.caches[i]|;
    if i == 0 {
      OffCapA(flat, hits, k, p);
    } else {
      DepthOfB(hits[0], k);
      CacheOfB(flat, hits, k, n, p);
      if !flat { OffCapB(hits, k, p); }
    }
  }

  /** With b flat, the last document of a is. */
  lemma LastOnCap(hits: seq<seq<Hit>>, p: Pool)
    requires WearingPair(hits) && Inv(hits, p) && Settled(true, hits, |hits[0]| - 1, p) && Flat(hits[1])
    ensures !NoneOnCap(p, hits[0][|hits[0]| - 1].doc)
  {
    var k := |hits[0]| - 1;
    var d := hits[0][k].doc;
    DepthOfB(hits[0], k);
    CacheOfB(true, hits, k, Depth(1), p);
    ScoreFromB(true, hits, k, Depth(1), p, d);
    forall x | true
      ensures x in p.caches[1].Keys <==> x == d
    {
      if x in p.caches[1] { var j :| FirstShared(hits[0], k) <= j < |hits[0]| && hits[0][j].doc == x; }
    }
    assert p.caches[1].Keys == {d};
    assert OnlyOnCap(p, 1, d);
  }

  /** Once all of a was yielded nothing is pending. */
  lemma NothingPending(flat: bool, hits: seq<seq<Hit>>, p: Pool)
    requires WearingPair(hits) && Inv(hits, p) && Settled(flat, hits, |hits[0]|, p)
    ensures p.sorted == {}
  {
    DepthOfB(hits[0], |hits[0]|);
    FrontIsAll(flat, hits, |hits[0]|, Depth(0), p);
  }

  /** Whether turn k of the two lists is one of those described here. */
  predicate WithinA(flat: bool, a: seq<Hit>, k: nat) {
    k < |a| || (!flat && k == |a| && |a| >= STOP_DEPTH)
  }

  lemma TurnSettles(truth: Doc -> real, flat: bool, hits: seq<seq<Hit>>, t: Turn, k: nat)
    requires WearingPair(hits) && Kind(flat, hits[1]) && TurnOk(truth, hits, t)
    requires Before(flat, hits, k, t.p) && WithinA(flat, hits[0], k)
    ensures Settled(flat, hits, k, t.m)
  {
    Refilled(flat, hits, k, t.p);
    FillKeeps(hits, t.p, 2);
    AlwaysAccepts(flat, hits, k, Fill(hits, t.p, 2));
  }

  /** The first document of the window is a's next one. */
  lemma TurnShowsA(truth: Doc -> real, flat: bool, hits: seq<seq<Hit>>, t: Turn, k: nat)
    requires WearingPair(hits) && TurnOk(truth, hits, t) && Settled(flat, hits, k, t.m) && k < |hits[0]|
    ensures t.x.docids != [] && t.x.docids[0] == hits[0][k].doc
  {
    NextIsA(flat, hits, k, t.m);
    if t.x.docids == [] { NothingLeft(truth, hits, t); }
  }

  lemma FreshBefore(flat: bool, hits: seq<seq<Hit>>, p: Pool)
    requires WearingPair(hits) && (forall i :: 0 <= i < |hits| ==> hits[i] != []) && p == Fresh(hits)
    ensures Before(flat, hits, 0, p)
  {
  }

  /** A turn that has something to show shows it. */
  lemma TurnWithinA(truth: Doc -> real, flat: bool, hits: seq<seq<Hit>>, t: Turn, k: nat)
    requires WearingPair(hits) && TurnOk(truth, hits, t) && Settled(flat, hits, k, t.m) && t.x.docids != []
    ensures Inv(hits, t.m) && k < |hits[0]| && t.x.docids[0] == hits[0][k].doc
  {
    if k == |hits[0]| { NothingPending(flat, hits, t.m); }
    TurnShowsA(truth, flat, hits, t, k);
  }

  /** With b flat, the last document of a is never yielded. */
  lemma NotTheLast(hits: seq<seq<Hit>>, k: nat, p: Pool)
    requires WearingPair(hits) && Flat(hits[1]) && Inv(hits, p) && Settled(true, hits, k, p) && k < |hits[0]|
    requires NoneOnCap(p, hits[0][k].doc)
    ensures k + 1 < |hits[0]|
  {
    if k + 1 == |hits[0]| { LastOnCap(hits, p); }
  }

  lemma WithinAt(truth: Doc -> real, flat: bool, hits: seq<seq<Hit>>, turns: seq<Turn>, out: seq<Scored>, k: nat)
    requires WearingPair(hits) && Steps(truth, hits, turns, out) && k + 1 < |turns|
    requires Settled(flat, hits, k, turns[k].m)
    ensures Inv(hits, turns[k].m) && k < |hits[0]| && out[k].0 == hits[0][k].doc
  {
    TurnAt(truth, hits, turns, out, k);
    LinkAt(truth, hits, turns, out, k);
    TurnWithinA(truth, flat, hits, turns[k], k);
  }

  lemma BeforeAt(truth: Doc -> real, flat: bool, hits: seq<seq<Hit>>, turns: seq<Turn>, out: seq<Scored>, k: nat)
    requires WearingPair(hits) && Kind(flat, hits[1]) && Steps(truth, hits, turns, out) && k + 1 < |turns|
    requires Settled(flat, hits, k, turns[k].m)
    ensures k < |hits[0]| && out[k].0 == hits[0][k].doc && (flat ==> k + 1 < |hits[0]|)
    ensures Before(flat, hits, k + 1, turns[k + 1].p)
  {
    WithinAt(truth, flat, hits, turns, out, k);
    LinkAt(truth, hits, turns, out, k);
    if flat { NotTheLast(hits, k, turns[k].m); }
    NextBefore(flat, hits, k, turns[k].m, turns[k + 1].p);
  }

  lemma SettlesAt(truth: Doc -> real, flat: bool, hits: seq<seq<Hit>>, turns: seq<Turn>, out: seq<Scored>, k: nat)
    requires WearingPair(hits) && Kind(flat, hits[1]) && Steps(truth, hits, turns, out) && k < |turns|
    requires Before(flat, hits, k, turns[k].p) && WithinA(flat, hits[0], k)
    ensures Settled(flat, hits, k, turns[k].m)
  {
    TurnAt(truth, hits, turns, out, k);
    TurnSettles(truth, flat, hits, turns[k], k);
  }

  /** The first k results are a's first documents. */
  ghost predicate YieldsA(a: seq<Hit>, out: seq<Scored>, k: nat) {
    k <= |out| && k <= |a| && forall j :: 0 <= j < k ==> out[j].0 == a[j].doc
  }

  lemma YieldsMore(a: seq<Hit>, out: seq<Scored>, k: nat)
    requires YieldsA(a, out, k) && k < |out| && k < |a| && out[k].0 == a[k].doc
    ensures YieldsA(a, out, k + 1)
  {
  }

  lemma WearStart(truth: Doc -> real, flat: bool, hits: seq<seq<Hit>>, turns: seq<Turn>, out: seq<Scored>)
    requires WearingPair(hits) && Kind(flat, hits[1]) && Steps(truth, hits, turns, out) && turns != []
    ensures Settled(flat, hits, 0, turns[0].m)
  {
    FirstTurn(truth, hits, turns, out);
    FreshBefore(flat, hits, turns[0].p);
    SettlesAt(truth, flat, hits, turns, out, 0);
  }

  lemma WearStep(truth: Doc -> real, flat: bool, hits: seq<seq<Hit>>, turns: seq<Turn>, out: seq<Scored>, k: nat)
    requires WearingPair(hits) && Kind(flat, hits[1]) && (flat || |hits[0]| >= STOP_DEPTH)
    requires Steps(truth, hits, turns, out) && k + 1 < |turns| && Settled(flat, hits, k, turns[k].m)
    ensures k < |hits[0]| && k < |out| && out[k].0 == hits[0][k].doc
    ensures WithinA(flat, hits[0], k + 1) && Settled(flat, hits, k + 1, turns[k + 1].m)
  {
    BeforeAt(truth, flat, hits, turns, out, k);
    SettlesAt(truth, flat, hits, turns, out, k + 1);
  }

  /** Turn by turn the documents of a come out. */
  lemma {:induction false} WearAt(truth: Doc -> real, flat: bool, hits: seq<seq<Hit>>, turns: seq<Turn>,
                                  out: seq<Scored>, k: nat)
    requires WearingPair(hits) && Kind(flat, hits[1]) && (flat || |hits[0]| >= STOP_DEPTH)
    requires Steps(truth, hits, turns, out) && k < |turns|
    ensures WithinA(flat, hits[0], k) && Settled(flat, hits, k, turns[k].m) && YieldsA(hits[0], out, k)
  {
    if k == 0 {
      WearStart(truth, flat, hits, turns, out);
    } else {
      WearAt(truth, flat, hits, turns, out, k - 1);
      WearStep(truth, flat, hits, turns, out, k - 1);
      YieldsMore(hits[0], out, k - 1);
    }
  }

  /** The last turn: all of a has come out and nothing is pending, or b is flat and the last document of a
      raises. */
  lemma WearEnds(truth: Doc -> real, flat: bool, hits: seq<seq<Hit>>, t: Turn, k: nat, end: Ending)
    requires WearingPair(hits) && Kind(flat, hits[1]) && TurnOk(truth, hits, t) && EndsWith(t, end)
    requires WithinA(flat, hits[0], k) && Settled(flat, hits, k, t.m)
    ensures if flat then end == EmptyCache && k == |hits[0]| - 1 else end == Exhausted && k == |hits[0]|
  {
    if k == |hits[0]| {
      NothingPending(flat, hits, t.m);
    } else {
      TurnShowsA(truth, flat, hits, t, k);
      var i: nat :| i < |t.m.caches| && OnlyOnCap(t.m, i, hits[0][k].doc);
      OnlyLastOnCap(flat, hits, k, t.m, i);
    }
  }

  lemma WearEndsAt(truth: Doc -> real, flat: bool, hits: seq<seq<Hit>>, turns: seq<Turn>, out: seq<Scored>, end: Ending)
    requires WearingPair(hits) && Kind(flat, hits[1]) && Ran(truth, hits, turns, out, end)
    requires WithinA(flat, hits[0], |out|) && Settled(flat, hits, |out|, turns[|out|].m)
    ensures if flat then end == EmptyCache && |out| == |hits[0]| - 1 else end == Exhausted && |out| == |hits[0]|
  {
    TurnAt(truth, hits, turns, out, |out|);
    WearEnds(truth, flat, hits, turns[|out|], |out|, end);
  }

  /** Merging two such lists. With distinct scores in b and 650 documents or more in a, the merge stops when
      a's documents have come out, and none of b's own do. With equal scores in b, it raises when the last
      document of a is due. */
  lemma WearRun(truth: Doc -> real, flat: bool, hits: seq<seq<Hit>>, turns: seq<Turn>, out: seq<Scored>, end: Ending)
    requires WearingPair(hits) && Kind(flat, hits[1]) && (flat || |hits[0]| >= STOP_DEPTH)
    requires Ran(truth, hits, turns, out, end)
    ensures if flat then end == EmptyCache && |out| == |hits[0]| - 1 else end == Exhausted && |out| == |hits[0]|
    ensures YieldsA(hits[0], out, |out|)
  {
    WearAt(truth, flat, hits, turns, out, |out|);
    WearEndsAt(truth, flat, hits, turns, out, end);
  }
}
