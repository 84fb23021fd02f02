/** Counting arguments of the lazy merge: how much is cached, pending and still to be read. */
module MergeCounts {
  import opened SortedSets
  import opened Scores
  import opened MergePool

  /** sum(map(len, caches)) */
  function TotalSize(caches: seq<Cache>): nat {
    if caches == [] then 0 else TotalSize(caches[..|caches| - 1]) + |caches[|caches| - 1]|
  }

  lemma {:induction false} TotalSizeUpdate(caches: seq<Cache>, i: nat, c: Cache)
    requires i < |caches|
    ensures TotalSize(caches[i := c]) == TotalSize(caches) - |caches[i]| + |c|
  {
    var n := |caches| - 1;
    if i == n {
      assert caches[i := c][..n] == caches[..n];
    } else {
      TotalSizeUpdate(caches[..n], i, c);
      assert caches[i := c][..n] == caches[..n][i := c];
    }
  }

  lemma {:induction false} SizeAtMostTotal(caches: seq<Cache>, i: nat)
    requires i < |caches|
    ensures |caches[i]| <= TotalSize(caches)
  {
    if i < |caches| - 1 { SizeAtMostTotal(caches[..|caches| - 1], i); }
  }

  /** How many elements the lists have left. */
  ghost function Left(hits: seq<seq<Hit>>, pos: seq<nat>): int
    requires |pos| == |hits|
  {
    if pos == [] then 0
    else Left(hits[..|pos| - 1], pos[..|pos| - 1]) + |hits[|pos| - 1]| - pos[|pos| - 1]
  }

  lemma {:induction false} LeftUpdate(hits: seq<seq<Hit>>, pos: seq<nat>, i: nat, n: nat)
    requires |pos| == |hits| && i < |pos|
    ensures Left(hits, pos[i := n]) == Left(hits, pos) + pos[i] - n
  {
    var m := |pos| - 1;
    if i == m {
      assert pos[i := n][..m] == pos[..m];
    } else {
      LeftUpdate(hits[..m], pos[..m], i, n);
      assert pos[i := n][..m] == pos[..m][i := n];
    }
  }

  lemma {:induction false} LeftNonNegative(hits: seq<seq<Hit>>, pos: seq<nat>)
    requires |pos| == |hits| && forall i :: 0 <= i < |pos| ==> pos[i] <= |hits[i]|
    ensures Left(hits, pos) >= 0
  {
    if pos != [] { LeftNonNegative(hits[..|pos| - 1], pos[..|pos| - 1]); }
  }

  ghost function AllKeys(caches: seq<Cache>): set<Doc> {
    if caches == [] then {} else AllKeys(caches[..|caches| - 1]) + caches[|caches| - 1].Keys
  }

  lemma {:induction false} AllKeysHeld(caches: seq<Cache>, d: Doc)
    ensures d in AllKeys(caches) <==> Held(caches, d)
  {
    if caches != [] {
      var n := |caches| - 1;
      AllKeysHeld(caches[..n], d);
      if Held(caches[..n], d) {
        var i :| 0 <= i < n && d in caches[..n][i];
        assert d in caches[i];
      }
      if Held(caches, d) {
        var i :| 0 <= i <= n && d in caches[i];
        assert i == n || d in caches[..n][i];
      }
    }
  }

  lemma {:induction false} AllKeysAtMostTotal(caches: seq<Cache>)
    ensures |AllKeys(caches)| <= TotalSize(caches)
  {
    if caches != [] {
      AllKeysAtMostTotal(caches[..|caches| - 1]);
    }
  }

  lemma {:induction false} SizeByDocs(s: set<Entry>, docs: set<Doc>)
    requires forall e :: e in s ==> e.doc in docs
    requires forall a, b :: a in s && b in s && a.doc == b.doc ==> a == b
    ensures |s| <= |docs|
    decreases |s|
  {
    if s != {} {
      var e :| e in s;
      SizeByDocs(s - {e}, docs - {e.doc});
    }
  }

  lemma EntriesRight(mins: map<Doc, real>, sorted: set<Entry>)
    requires SortedRight(mins, sorted)
    ensures forall d :: d in mins ==> Entry(-mins[d], d) in sorted
    ensures forall e :: e in sorted ==> e.doc in mins && e.neg == -mins[e.doc]
  {
    forall d | d in mins
      ensures Entry(-mins[d], d) in sorted
    {
      assert HasEntry(mins, sorted, d);
    }
    forall e | e in sorted
      ensures e.doc in mins && e.neg == -mins[e.doc]
    {
      assert IsEntry(mins, sorted, e);
    }
  }

  /** There are at most as many pending documents as cached scores. */
  lemma PendingAtMostCached(p: Pool)
    requires MinsRight(p.caches, p.mins) && SortedRight(p.mins, p.sorted)
    ensures |p.sorted| <= TotalSize(p.caches)
  {
    forall e | e in p.sorted
      ensures e.doc in AllKeys(p.caches)
    {
      assert IsEntry(p.mins, p.sorted, e);
      assert MinOk(p.caches, p.mins, e.doc);
      AllKeysHeld(p.caches, e.doc);
    }
    EntriesRight(p.mins, p.sorted);
    SizeByDocs(p.sorted, AllKeys(p.caches));
    AllKeysAtMostTotal(p.caches);
  }

  lemma {:induction false} KeysAtMostEntries(docs: set<Doc>, mins: map<Doc, real>, s: set<Entry>)
    requires forall d :: d in docs ==> d in mins && Entry(-mins[d], d) in s
    ensures |docs| <= |s|
    decreases |docs|
  {
    if docs != {} {
      var d := Pick(docs);
      KeysAtMostEntries(docs - {d}, mins, s - {Entry(-mins[d], d)});
    }
  }

  /** A cache holds no more documents than are pending. */
  lemma CacheAtMostPending(p: Pool, i: nat)
    requires MinsRight(p.caches, p.mins) && SortedRight(p.mins, p.sorted) && i < |p.caches|
    ensures |p.caches[i]| <= |p.sorted|
  {
    forall d | d in p.caches[i].Keys
      ensures d in p.mins
    {
      assert MinOk(p.caches, p.mins, d);
      assert Held(p.caches, d);
    }
    EntriesRight(p.mins, p.sorted);
    KeysAtMostEntries(p.caches[i].Keys, p.mins, p.sorted);
    assert |p.caches[i].Keys| == |p.caches[i]|;
  }

  lemma {:induction false} PurgedSize(caches: seq<Cache>, d: Doc)
    ensures TotalSize(Purged(caches, d)) <= TotalSize(caches)
  {
    if caches != [] {
      var n := |caches| - 1;
      PurgedSize(caches[..n], d);
      assert Purged(caches, d)[..n] == Purged(caches[..n], d);
      assert |(caches[n] - {d}).Keys| <= |caches[n].Keys| by { SubsetSize((caches[n] - {d}).Keys, caches[n].Keys); }
      assert |(caches[n] - {d}).Keys| == |caches[n] - {d}| && |caches[n].Keys| == |caches[n]|;
    }
  }

  ghost function DocsRead(h: seq<Hit>, n: nat): (s: set<Doc>)
    requires n <= |h|
    ensures |s| <= n
    ensures forall d :: d in s <==> Among(h, n, d)
  {
    if n == 0 then {}
    else
      AmongNextSet(h, n);
      DocsRead(h, n - 1) + {h[n - 1].doc}
  }

  lemma AmongNextSet(h: seq<Hit>, n: nat)
    requires 0 < n <= |h|
    ensures forall d :: Among(h, n, d) <==> Among(h, n - 1, d) || h[n - 1].doc == d
  {
    forall d | true
      ensures Among(h, n, d) <==> Among(h, n - 1, d) || h[n - 1].doc == d
    {
      AmongNext(h, n - 1, d);
    }
  }

  /** A cache holds no more documents than were read from its list. */
  lemma CacheWithinRead(h: seq<Hit>, n: nat, used: set<Doc>, c: Cache)
    requires n <= |h| && CacheOf(h, n, used, c)
    ensures |c| <= n
  {
    forall d | d in c
      ensures d in DocsRead(h, n)
    {
      assert Among(h, n, d);
    }
    SubsetSize(c.Keys, DocsRead(h, n));
    assert |c.Keys| == |c|;
  }

  // ---- keeping the caches stocked --------------------------------------------------------------

  const CACHE_SIZE: nat := 40

  /** An open list whose cache fell below half its size. */
  predicate Short(p: Pool, i: nat) {
    i in p.iters && i < |p.caches| && |p.caches[i]| < CACHE_SIZE / 2
  }

  /** How many elements were read from a list that is still open with c documents cached: one cache, and
      one refill for every size the cache has shrunk to since. */
  function Depth(c: nat): (n: nat)
    ensures n >= CACHE_SIZE
    decreases if c < CACHE_SIZE / 2 then CACHE_SIZE / 2 - c else 0
  {
    if c >= CACHE_SIZE / 2 then CACHE_SIZE else Depth(c + 1) + (CACHE_SIZE - c)
  }

  lemma {:induction false} DepthFalls(a: nat, b: nat)
    requires a <= b
    ensures Depth(a) >= Depth(b)
    decreases b - a
  {
    if a < b { DepthFalls(a + 1, b); }
  }

  /** The depth in closed form. */
  lemma {:induction false} DepthSum(c: nat)
    requires c <= CACHE_SIZE / 2
    ensures 2 * Depth(c) == 1300 - 81 * c + c * c
    decreases CACHE_SIZE / 2 - c
  {
    if c < CACHE_SIZE / 2 {
      DepthSum(c + 1);
      NextSquare(c);
    }
  }

  lemma NextSquare(c: int)
    ensures (c + 1) * (c + 1) == c * c + 2 * c + 1
  {
  }

  /** An open list with one document cached was read for 610 elements, with none for 650. */
  lemma DepthAtEnd()
    ensures Depth(1) == 610 && Depth(0) == 650
  {
    DepthSum(1);
    DepthSum(0);
  }

  /** Every open list was read as far as the size of its cache tells. */
  ghost predicate Stocked(p: Pool, i: nat) {
    i in p.iters && i < |p.caches| && i < |p.pos| ==> p.pos[i] >= Depth(|p.caches[i]|)
  }

  /** The same after a document may have left the cache, or nothing has been read yet. */
  ghost predicate Paced(p: Pool, i: nat) {
    i in p.iters && i < |p.caches| && i < |p.pos| ==>
      (p.pos[i] == 0 && p.used == {}) || p.pos[i] >= Depth(|p.caches[i]| + 1)
  }

  ghost predicate AllPaced(hits: seq<seq<Hit>>, p: Pool) {
    forall i {:trigger Paced(p, i)} :: 0 <= i < |hits| ==> Paced(p, i)
  }

  /** The invariant, with every open list stocked. */
  ghost predicate Ready(hits: seq<seq<Hit>>, p: Pool) {
    Inv(hits, p) && forall i {:trigger Stocked(p, i)} :: 0 <= i < |hits| ==> Stocked(p, i)
  }

  /** Same documents yielded, no list read less far, no closed list reopened. */
  ghost predicate Further(p: Pool, q: Pool) {
    && q.used == p.used && q.iters <= p.iters && |q.pos| == |p.pos|
    && (forall i :: 0 <= i < |p.pos| ==> p.pos[i] <= q.pos[i])
  }

  function FillOne(hits: seq<seq<Hit>>, p: Pool, i: nat): (q: Pool)
    requires i < |hits| == |p.pos| == |p.unread| == |p.caches|
    ensures |q.pos| == |q.unread| == |q.caches| == |hits|
  {
    if Short(p, i) then
      ReadManyFrame(p, i, hits[i], CACHE_SIZE - |p.caches[i]|);
      ReadMany(p, i, hits[i], CACHE_SIZE - |p.caches[i]|)
    else p
  }

  /** The effect of refilling lists 0 to n-1, each when it is short. */
  function Fill(hits: seq<seq<Hit>>, p: Pool, n: nat): (q: Pool)
    requires n <= |hits| == |p.pos| == |p.unread| == |p.caches|
    ensures |q.pos| == |q.unread| == |q.caches| == |hits|
  {
    if n == 0 then p else FillOne(hits, Fill(hits, p, n - 1), n - 1)
  }

  lemma {:induction false} AllUnused(h: seq<Hit>, n: nat, c: Cache)
    requires Descending(h) && n <= |h| && CacheOf(h, n, {}, c)
    ensures |c| == n
  {
    DocsReadSize(h, n);
    forall d
      ensures d in c.Keys <==> d in DocsRead(h, n)
    {
    }
    assert c.Keys == DocsRead(h, n);
    assert |c.Keys| == |c|;
  }

  lemma {:induction false} DocsReadSize(h: seq<Hit>, n: nat)
    requires Descending(h) && n <= |h|
    ensures |DocsRead(h, n)| == n
  {
    if n > 0 {
      DocsReadSize(h, n - 1);
      assert !Among(h, n - 1, h[n - 1].doc);
    }
  }

  lemma FillOneKeeps(hits: seq<seq<Hit>>, p: Pool, i: nat)
    requires Inv(hits, p) && i < |hits|
    ensures var q := FillOne(hits, p, i); Inv(hits, q) && Further(p, q)
  {
    if Short(p, i) {
      var size := CACHE_SIZE - |p.caches[i]|;
      ReadManyKeeps(hits, p, i, size);
      ReadManyMoves(p, i, hits[i], size);
      ReadManyFrame(p, i, hits[i], size);
    }
  }

  /** A list of which nothing was read is read for a whole cache. */
  lemma FillOneFresh(hits: seq<seq<Hit>>, p: Pool, i: nat)
    requires Inv(hits, p) && i < |hits| && Short(p, i) && p.pos[i] == 0 && p.used == {}
    ensures Stocked(FillOne(hits, p, i), i)
  {
    var q := FillOne(hits, p, i);
    assert CacheOf(hits[i], p.pos[i], p.used, p.caches[i]);
    CacheWithinRead(hits[i], p.pos[i], p.used, p.caches[i]);
    FillOneKeeps(hits, p, i);
    ReadManyMoves(p, i, hits[i], CACHE_SIZE);
    assert CacheOf(hits[i], q.pos[i], q.used, q.caches[i]);
    if i in q.iters { AllUnused(hits[i], q.pos[i], q.caches[i]); }
  }

  /** Refilling a list leaves it stocked. */
  lemma FillOneStocks(hits: seq<seq<Hit>>, p: Pool, i: nat)
    requires Inv(hits, p) && i < |hits| && Paced(p, i)
    ensures Stocked(FillOne(hits, p, i), i)
  {
    assert CacheOf(hits[i], p.pos[i], p.used, p.caches[i]);
    CacheWithinRead(hits[i], p.pos[i], p.used, p.caches[i]);
    if Short(p, i) {
      if p.pos[i] == 0 && p.used == {} {
        FillOneFresh(hits, p, i);
      } else {
        var c := |p.caches[i]|;
        ReadManyMoves(p, i, hits[i], CACHE_SIZE - c);
        DepthFalls(c, |FillOne(hits, p, i).caches[i]|);
      }
    }
  }

  lemma FillOneFrame(hits: seq<seq<Hit>>, p: Pool, i: nat, j: nat)
    requires i < |hits| == |p.pos| == |p.unread| == |p.caches| && j < |hits| && i != j
    ensures var q := FillOne(hits, p, i);
            && q.caches[j] == p.caches[j] && q.pos[j] == p.pos[j] && q.unread[j] == p.unread[j]
            && (j in q.iters <==> j in p.iters)
            && (Short(q, j) <==> Short(p, j)) && (Stocked(q, j) <==> Stocked(p, j)) && (Paced(q, j) <==> Paced(p, j))
  {
    if Short(p, i) { ReadManyFrame(p, i, hits[i], CACHE_SIZE - |p.caches[i]|); }
  }

  /** Refilling keeps the invariant. */
  lemma {:induction false} FillKeeps(hits: seq<seq<Hit>>, p: Pool, n: nat)
    requires Inv(hits, p) && n <= |hits|
    ensures Inv(hits, Fill(hits, p, n)) && Further(p, Fill(hits, p, n))
  {
    if n > 0 {
      FillKeeps(hits, p, n - 1);
      FillOneKeeps(hits, Fill(hits, p, n - 1), n - 1);
    }
  }

  /** A list not yet visited is as it was before the pass, so whether it is refilled is decided by the
      state before the pass. */
  lemma {:induction false} FillFrame(hits: seq<seq<Hit>>, p: Pool, n: nat, j: nat)
    requires n <= j < |hits| == |p.pos| == |p.unread| == |p.caches|
    ensures (Short(Fill(hits, p, n), j) <==> Short(p, j)) && (Paced(Fill(hits, p, n), j) <==> Paced(p, j))
  {
    if n > 0 {
      FillFrame(hits, p, n - 1, j);
      FillOneFrame(hits, Fill(hits, p, n - 1), n - 1, j);
    }
  }

  /** A visited list is left stocked. */
  lemma {:induction false} FillStocks(hits: seq<seq<Hit>>, p: Pool, n: nat, j: nat)
    requires Inv(hits, p) && AllPaced(hits, p) && j < n <= |hits|
    ensures Stocked(Fill(hits, p, n), j)
  {
    FillKeeps(hits, p, n - 1);
    if j == n - 1 {
      assert Paced(p, j);
      FillFrame(hits, p, n - 1, j);
      FillOneStocks(hits, Fill(hits, p, n - 1), n - 1);
    } else {
      FillStocks(hits, p, n - 1, j);
      FillOneFrame(hits, Fill(hits, p, n - 1), n - 1, j);
    }
  }

  /** When no list is short the pass changes nothing. */
  lemma {:induction false} FillNothing(hits: seq<seq<Hit>>, p: Pool, n: nat)
    requires n <= |hits| == |p.pos| == |p.unread| == |p.caches|
    requires forall i :: 0 <= i < n ==> !Short(p, i)
    ensures Fill(hits, p, n) == p
  {
    if n > 0 { FillNothing(hits, p, n - 1); }
  }

  // ---- advancing past a rejected window --------------------------------------------------------

  /** What is left to do: elements to read and iterators to close. */
  ghost function Work(hits: seq<seq<Hit>>, p: Pool): int
    requires |hits| == |p.pos|
  {
    Left(hits, p.pos) + |p.iters|
  }

  /** Reading on from a list that can still produce something makes progress. */
  lemma AdvanceProgress(hits: seq<seq<Hit>>, p: Pool, i: nat, size: nat)
    requires i < |hits| == |p.pos| == |p.unread| == |p.caches| && i in p.iters && size > 0
    requires forall j :: 0 <= j < |hits| ==> p.pos[j] <= |hits[j]|
    ensures var q := ReadMany(p, i, hits[i], size);
            Further(p, q) && 0 <= Work(hits, q) < Work(hits, p)
  {
    var q := ReadMany(p, i, hits[i], size);
    ReadManyMoves(p, i, hits[i], size);
    ReadManyFrame(p, i, hits[i], size);
    LeftUpdate(hits, p.pos, i, q.pos[i]);
    LeftNonNegative(hits, q.pos);
  }

  lemma AdvanceStocked(hits: seq<seq<Hit>>, p: Pool, i: nat, size: nat, j: nat)
    requires i < |hits| == |p.pos| == |p.unread| == |p.caches| && j < |hits|
    requires p.pos[i] <= |hits[i]| && Stocked(p, j)
    ensures Stocked(ReadMany(p, i, hits[i], size), j)
  {
    ReadManyMoves(p, i, hits[i], size);
    ReadManyFrame(p, i, hits[i], size);
    if i == j && i < |p.caches| { DepthFalls(|p.caches[i]|, |ReadMany(p, i, hits[i], size).caches[i]|); }
  }

  /** Reading half a cache more from an open list keeps everything and makes progress. */
  lemma AdvanceKeeps(hits: seq<seq<Hit>>, p: Pool, i: nat)
    requires Ready(hits, p) && i < |hits| && i in p.iters
    ensures var q := ReadMany(p, i, hits[i], CACHE_SIZE / 2);
            Ready(hits, q) && Further(p, q) && 0 <= Work(hits, q) < Work(hits, p)
  {
    ReadManyKeeps(hits, p, i, CACHE_SIZE / 2);
    AdvanceProgress(hits, p, i, CACHE_SIZE / 2);
    forall j | 0 <= j < |hits|
      ensures Stocked(ReadMany(p, i, hits[i], CACHE_SIZE / 2), j)
    {
      AdvanceStocked(hits, p, i, CACHE_SIZE / 2, j);
    }
  }

  // ---- the start and the end of a merge --------------------------------------------------------

  /** The variables before the first pass: nothing read, each cap the best score of its list. */
  ghost function Fresh(hits: seq<seq<Hit>>): Pool
    requires forall i :: 0 <= i < |hits| ==> hits[i] != []
  {
    Pool(seq(|hits|, _ => 0), Upto(|hits|), seq(|hits|, i requires 0 <= i < |hits| => hits[i][0].score),
         seq(|hits|, _ => map[]), map[], {}, map[], {})
  }

  lemma FreshInv(hits: seq<seq<Hit>>)
    requires forall i :: 0 <= i < |hits| ==> hits[i] != [] && Descending(hits[i])
    ensures Inv(hits, Fresh(hits))
  {
  }

  /** All documents of all lists. */
  ghost function AllDocs(hits: seq<seq<Hit>>): set<Doc> {
    if hits == [] then {} else AllDocs(hits[..|hits| - 1]) + DocsRead(hits[|hits| - 1], |hits[|hits| - 1]|)
  }

  lemma {:induction false} AllDocsHas(hits: seq<seq<Hit>>, i: nat, n: nat, d: Doc)
    requires i < |hits| && n <= |hits[i]| && Among(hits[i], n, d)
    ensures d in AllDocs(hits)
  {
    if i == |hits| - 1 {
      assert Among(hits[i], |hits[i]|, d);
    } else {
      AllDocsHas(hits[..|hits| - 1], i, n, d);
    }
  }

  /** A document read from a list was yielded or is pending. */
  lemma ReadUsedOrPending(hits: seq<seq<Hit>>, p: Pool, i: nat, d: Doc)
    requires Inv(hits, p) && i < |hits| && Among(hits[i], p.pos[i], d)
    ensures d in p.used || d in p.mins
  {
    assert CacheOf(hits[i], p.pos[i], p.used, p.caches[i]);
    if d !in p.used {
      assert d in p.caches[i];
      assert MinOk(p.caches, p.mins, d) && Held(p.caches, d);
    }
  }

  /** Conservation: the documents read so far are the yielded ones and the pending ones, and none is both. */
  lemma ReadIsUsedOrPending(hits: seq<seq<Hit>>, p: Pool, d: Doc)
    requires Inv(hits, p)
    ensures !NotRead(hits, p.pos, d) <==> d in p.used || d in p.mins
    ensures !(d in p.used && d in p.mins)
  {
    assert UsedWasRead(hits, p.pos, p.used, d);
    if d in p.mins { PendingUnused(hits, p, d); }
    if !NotRead(hits, p.pos, d) {
      var i :| 0 <= i < |hits| && Among(hits[i], p.pos[i], d);
      ReadUsedOrPending(hits, p, i, d);
    }
  }

  /** A list that stays open has at least as many elements as a cache. */
  lemma ReadyOpenAreLong(hits: seq<seq<Hit>>, p: Pool, i: nat)
    requires Ready(hits, p) && i in p.iters
    ensures i < |hits| && Depth(|p.caches[i]|) <= p.pos[i] <= |hits[i]|
  {
    assert Stocked(p, i);
  }

  /** After a document was yielded from stocked lists they are paced. */
  lemma YieldPaced(hits: seq<seq<Hit>>, p: Pool, d: Doc, unread: seq<real>)
    requires Ready(hits, p) && d in p.mins
    ensures AllPaced(hits, Yielded(p, d, unread))
  {
    var q := Yielded(p, d, unread);
    forall i | 0 <= i < |hits|
      ensures Paced(q, i)
    {
      assert Stocked(p, i);
      LosesAtMostOne(p.caches[i], d);
      DepthFalls(|p.caches[i]|, |q.caches[i]| + 1);
    }
  }

  lemma ReadyPaced(hits: seq<seq<Hit>>, p: Pool)
    requires Ready(hits, p)
    ensures AllPaced(hits, p)
  {
    forall i | 0 <= i < |hits|
      ensures Paced(p, i)
    {
      assert Stocked(p, i);
      DepthFalls(|p.caches[i]|, |p.caches[i]| + 1);
    }
  }

  lemma LosesAtMostOne(c: Cache, d: Doc)
    ensures |c| <= |c - {d}| + 1
  {
    assert (c - {d}).Keys == c.Keys - {d};
    assert |(c - {d}).Keys| == |c - {d}| && |c.Keys| == |c|;
  }

  lemma FreshPaced(hits: seq<seq<Hit>>)
    requires forall i :: 0 <= i < |hits| ==> hits[i] != []
    ensures AllPaced(hits, Fresh(hits))
  {
  }

  // ---- how often pending documents are cached --------------------------------------------------

  lemma {:induction false} DisjointSize(caches: seq<Cache>)
    requires forall i, j, d :: 0 <= i < j < |caches| && d in caches[i] ==> d !in caches[j]
    ensures TotalSize(caches) == |AllKeys(caches)|
  {
    if caches != [] {
      var n := |caches| - 1;
      DisjointSize(caches[..n]);
      forall d | d in AllKeys(caches[..n])
        ensures d !in caches[n]
      {
        AllKeysHeld(caches[..n], d);
        var i :| 0 <= i < n && d in caches[..n][i];
        assert d in caches[i];
      }
      assert AllKeys(caches[..n]) !! caches[n].Keys;
      assert |caches[n].Keys| == |caches[n]|;
    }
  }

  /** The pending documents are counted by the distinct documents in the caches. */
  lemma PendingCount(p: Pool)
    requires MinsRight(p.caches, p.mins) && SortedRight(p.mins, p.sorted)
    ensures |p.sorted| == |AllKeys(p.caches)|
  {
    forall d | true
      ensures d in AllKeys(p.caches) <==> d in p.mins
    {
      assert MinOk(p.caches, p.mins, d);
      AllKeysHeld(p.caches, d);
    }
    EntriesRight(p.mins, p.sorted);
    SizeByDocs(p.sorted, AllKeys(p.caches));
    KeysAtMostEntries(AllKeys(p.caches), p.mins, p.sorted);
  }

  lemma {:induction false} AllDocsAmong(hits: seq<seq<Hit>>, d: Doc) returns (i: nat)
    requires d in AllDocs(hits)
    ensures i < |hits| && Among(hits[i], |hits[i]|, d)
  {
    i := |hits| - 1;
    if !Among(hits[i], |hits[i]|, d) {
      i := AllDocsAmong(hits[..i], d);
    }
  }

  /** Once every list is exhausted, what was not yielded is pending. */
  lemma ExhaustedCount(hits: seq<seq<Hit>>, p: Pool)
    requires Inv(hits, p) && p.iters == {} && p.used <= AllDocs(hits)
    ensures |p.sorted| + |p.used| == |AllDocs(hits)|
  {
    forall d | true
      ensures d in AllKeys(p.caches) <==> d in AllDocs(hits) && d !in p.used
    {
      AllKeysHeld(p.caches, d);
      if d in AllDocs(hits) && d !in p.used {
        var i := AllDocsAmong(hits, d);
        assert CacheOf(hits[i], p.pos[i], p.used, p.caches[i]);
        assert d in p.caches[i];
      }
      if Held(p.caches, d) {
        var i :| 0 <= i < |p.caches| && d in p.caches[i];
        assert CacheOf(hits[i], p.pos[i], p.used, p.caches[i]);
        AllDocsHas(hits, i, p.pos[i], d);
      }
    }
    PendingCount(p);
    assert AllKeys(p.caches) == AllDocs(hits) - p.used;
  }
}
