/** What the lazy merge has read but not yet yielded, and what every read keeps true of it. */
module MergePool {
  import opened SortedSets
  import opened Scores

  /** The merge's variables. `pos[i]` is how far iterator i has gone, `iters` the iterators still open,
      `unread[i]` the cap on what list i can still produce, `caches[i]` its read, unyielded documents,
      `ids` the lists each document was cached from, `used` the yielded documents, `mins` the lower
      bounds and `sorted` the same bounds as an ordered tree of (-bound, docid). */
  datatype Pool = Pool(pos: seq<nat>, iters: set<nat>, unread: seq<real>, caches: seq<Cache>,
                       ids: map<Doc, seq<nat>>, used: set<Doc>, mins: map<Doc, real>, sorted: set<Entry>)

  ghost predicate Shape(hits: seq<seq<Hit>>, pos: seq<nat>, iters: set<nat>) {
    && |pos| == |hits|
    && (forall i :: i in iters ==> i < |hits|)
    && (forall i {:trigger Descending(hits[i])} :: 0 <= i < |hits| ==> Descending(hits[i]))
    && (forall i :: 0 <= i < |hits| ==> pos[i] <= |hits[i]|)
  }

  /** `unread[i]` dominates everything list i has not produced; a closed list has nothing left. */
  ghost predicate Dominated(hits: seq<seq<Hit>>, pos: seq<nat>, iters: set<nat>, unread: seq<real>)
    requires |pos| == |hits|
  {
    && |unread| == |hits|
    && (forall i :: 0 <= i < |hits| ==> 0.0 <= unread[i] <= Top(hits[i]))
    && (forall i, k :: 0 <= i < |hits| && pos[i] <= k < |hits[i]| ==> hits[i][k].score <= unread[i])
    && (forall i :: 0 <= i < |hits| && i !in iters ==> pos[i] == |hits[i]| && unread[i] == 0.0)
  }

  /** A cache holds exactly the documents its list has produced that were not yielded, with their scores. */
  ghost predicate CacheOf(h: seq<Hit>, n: nat, used: set<Doc>, c: Cache) {
    forall d :: (d in c <==> d !in used && Among(h, n, d)) && (d in c ==> c[d] == ScoreIn(h, d))
  }

  ghost predicate CachesRight(hits: seq<seq<Hit>>, pos: seq<nat>, used: set<Doc>, caches: seq<Cache>)
    requires |pos| == |hits|
  {
    |caches| == |hits|
    && forall i {:trigger CacheOf(hits[i], pos[i], used, caches[i])} ::
         0 <= i < |hits| ==> CacheOf(hits[i], pos[i], used, caches[i])
  }

  ghost predicate Held(caches: seq<Cache>, d: Doc) {
    exists i :: 0 <= i < |caches| && d in caches[i]
  }

  ghost predicate MinOk(caches: seq<Cache>, mins: map<Doc, real>, d: Doc) {
    (d in mins <==> Held(caches, d)) && (d in mins ==> mins[d] == Sum(Known(caches, d)))
  }

  /** The pending documents are the cached ones; each lower bound is the sum of its cached scores. */
  ghost predicate MinsRight(caches: seq<Cache>, mins: map<Doc, real>) {
    forall d {:trigger MinOk(caches, mins, d)} :: MinOk(caches, mins, d)
  }

  function IdsOf(ids: map<Doc, seq<nat>>, d: Doc): seq<nat> {
    if d in ids then ids[d] else []
  }

  ghost predicate IdsOk(caches: seq<Cache>, l: seq<nat>, d: Doc) {
    && Distinct(l)
    && (forall i :: i in l <==> 0 <= i < |caches| && d in caches[i])
  }

  ghost predicate IdsRight(caches: seq<Cache>, ids: map<Doc, seq<nat>>, used: set<Doc>) {
    forall d {:trigger IdsOk(caches, IdsOf(ids, d), d)} :: d !in used ==> IdsOk(caches, IdsOf(ids, d), d)
  }

  ghost predicate HasEntry(mins: map<Doc, real>, sorted: set<Entry>, d: Doc) {
    d in mins ==> Entry(-mins[d], d) in sorted
  }

  ghost predicate IsEntry(mins: map<Doc, real>, sorted: set<Entry>, e: Entry) {
    e in sorted ==> e.doc in mins && e.neg == -mins[e.doc]
  }

  ghost predicate SortedRight(mins: map<Doc, real>, sorted: set<Entry>) {
    && (forall d {:trigger HasEntry(mins, sorted, d)} :: HasEntry(mins, sorted, d))
    && (forall e {:trigger IsEntry(mins, sorted, e)} :: IsEntry(mins, sorted, e))
  }

  ghost predicate NotRead(hits: seq<seq<Hit>>, pos: seq<nat>, d: Doc)
    requires |pos| == |hits|
  {
    forall i :: 0 <= i < |hits| ==> !Among(hits[i], pos[i], d)
  }

  /** A yielded document was read from some list. */
  ghost predicate UsedWasRead(hits: seq<seq<Hit>>, pos: seq<nat>, used: set<Doc>, d: Doc)
    requires |pos| == |hits|
  {
    d in used ==> !NotRead(hits, pos, d)
  }

  /** The invariant of the merge. Given how far each list was read and what was yielded, it fixes every
      cache, every bound and the order in which the pending documents will be considered. */
  ghost predicate Inv(hits: seq<seq<Hit>>, p: Pool) {
    && Shape(hits, p.pos, p.iters)
    && Dominated(hits, p.pos, p.iters, p.unread)
    && CachesRight(hits, p.pos, p.used, p.caches)
    && MinsRight(p.caches, p.mins)
    && IdsRight(p.caches, p.ids, p.used)
    && SortedRight(p.mins, p.sorted)
    && forall d {:trigger UsedWasRead(hits, p.pos, p.used, d)} :: UsedWasRead(hits, p.pos, p.used, d)
  }

  // ---- reading one element ---------------------------------------------------------------------

  function MinReal(a: real, b: real): real { if a > b then b else a }

  /** The iterator moves on and the cap drops to the score just produced. */
  function Advance(p: Pool, i: nat, score: real): Pool
    requires i < |p.pos| == |p.unread|
  {
    p.(pos := p.pos[i := p.pos[i] + 1], unread := p.unread[i := MinReal(p.unread[i], score)])
  }

  /** The document just produced is cached and its lower bound grows by its score. */
  function Remember(p: Pool, i: nat, h: Hit): Pool
    requires i < |p.caches|
  {
    var known := h.doc in p.mins;
    var total := (if known then p.mins[h.doc] else 0.0) + h.score;
    p.(caches := p.caches[i := p.caches[i][h.doc := h.score]],
       ids := p.ids[h.doc := IdsOf(p.ids, h.doc) + [i]],
       mins := p.mins[h.doc := total],
       sorted := (if known then p.sorted - {Entry(-p.mins[h.doc], h.doc)} else p.sorted) + {Entry(-total, h.doc)})
  }

  /** The effect of producing one more element of an open list. */
  function Read(p: Pool, i: nat, h: Hit): Pool
    requires i < |p.pos| == |p.unread| == |p.caches|
  {
    var q := Advance(p, i, h.score);
    if h.doc in p.used then q else Remember(q, i, h)
  }

  ghost predicate CanRead(hits: seq<seq<Hit>>, p: Pool, i: nat) {
    Inv(hits, p) && i < |hits| && i in p.iters && p.pos[i] < |hits[i]|
  }

  lemma AmongNext(h: seq<Hit>, n: nat, d: Doc)
    requires n < |h|
    ensures Among(h, n + 1, d) <==> Among(h, n, d) || h[n].doc == d
  {
    if Among(h, n + 1, d) {
      var k :| 0 <= k < n + 1 && k < |h| && h[k].doc == d;
    }
    if h[n].doc == d {
      assert 0 <= n < n + 1 && n < |h|;
    }
  }

  lemma ReadCaches(hits: seq<seq<Hit>>, p: Pool, i: nat)
    requires CanRead(hits, p, i)
    ensures var q := Read(p, i, hits[i][p.pos[i]]);
            Shape(hits, q.pos, q.iters) && CachesRight(hits, q.pos, q.used, q.caches)
    ensures hits[i][p.pos[i]].doc !in p.caches[i]
  {
    var h, n := hits[i], p.pos[i];
    var q := Read(p, i, h[n]);
    assert CacheOf(h, n, p.used, p.caches[i]);
    ScoreAt(h, n);
    forall d | true
      ensures d in q.caches[i] <==> d !in q.used && Among(h, n + 1, d)
      ensures (d in q.caches[i] ==> q.caches[i][d] == ScoreIn(h, d))
    {
      AmongNext(h, n, d);
    }
    forall j | 0 <= j < |hits|
      ensures CacheOf(hits[j], q.pos[j], q.used, q.caches[j])
    {
      if j != i { assert CacheOf(hits[j], p.pos[j], p.used, p.caches[j]); }
    }
  }

  lemma ReadDominated(hits: seq<seq<Hit>>, p: Pool, i: nat)
    requires CanRead(hits, p, i)
    ensures var q := Read(p, i, hits[i][p.pos[i]]);
            Shape(hits, q.pos, q.iters) && Dominated(hits, q.pos, q.iters, q.unread)
  {
    assert Descending(hits[i]);
  }

  lemma KnownUpdate(caches: seq<Cache>, i: nat, doc: Doc, score: real, d: Doc)
    requires i < |caches| && doc !in caches[i]
    ensures var next := caches[i := caches[i][doc := score]];
            Sum(Known(next, d)) == Sum(Known(caches, d)) + (if d == doc then score else 0.0)
  {
    var next := caches[i := caches[i][doc := score]];
    if d == doc {
      assert Known(next, d) == Known(caches, d)[i := score];
      SumUpdate(Known(caches, d), i, score);
    } else {
      assert Known(next, d) == Known(caches, d);
    }
  }

  lemma NothingKnown(caches: seq<Cache>, d: Doc)
    requires !Held(caches, d)
    ensures Sum(Known(caches, d)) == 0.0
  {
    SumZero(Known(caches, d));
  }

  lemma ReadMins(hits: seq<seq<Hit>>, p: Pool, i: nat)
    requires CanRead(hits, p, i)
    ensures var q := Read(p, i, hits[i][p.pos[i]]); MinsRight(q.caches, q.mins)
  {
    var h := hits[i][p.pos[i]];
    var q := Read(p, i, h);
    ReadCaches(hits, p, i);
    if h.doc !in p.used {
      forall d | true
        ensures MinOk(q.caches, q.mins, d)
      {
        assert MinOk(p.caches, p.mins, d);
        assert MinOk(p.caches, p.mins, h.doc);
        KnownUpdate(p.caches, i, h.doc, h.score, d);
        if !Held(p.caches, d) { NothingKnown(p.caches, d); }
        HeldUpdate(p.caches, i, h.doc, h.score, d);
      }
    }
  }

  lemma HeldUpdate(caches: seq<Cache>, i: nat, doc: Doc, score: real, d: Doc)
    requires i < |caches|
    ensures Held(caches[i := caches[i][doc := score]], d) <==> Held(caches, d) || d == doc
  {
    var next := caches[i := caches[i][doc := score]];
    if Held(caches, d) {
      var j :| 0 <= j < |caches| && d in caches[j];
      assert d in next[j];
    }
    if d == doc { assert d in next[i]; }
  }

  lemma ReadIds(hits: seq<seq<Hit>>, p: Pool, i: nat)
    requires CanRead(hits, p, i)
    ensures var q := Read(p, i, hits[i][p.pos[i]]); IdsRight(q.caches, q.ids, q.used)
  {
    var h := hits[i][p.pos[i]];
    var q := Read(p, i, h);
    ReadCaches(hits, p, i);
    forall d | d !in q.used
      ensures IdsOk(q.caches, IdsOf(q.ids, d), d)
    {
      assert IdsOk(p.caches, IdsOf(p.ids, d), d);
      if h.doc !in p.used && d == h.doc {
        var l := IdsOf(p.ids, d);
        assert i !in l;
        assert forall j :: j in l + [i] <==> j in l || j == i;
      }
    }
  }

  lemma SortedUpdate(mins: map<Doc, real>, sorted: set<Entry>, doc: Doc, total: real)
    requires SortedRight(mins, sorted)
    ensures SortedRight(mins[doc := total],
                        (if doc in mins then sorted - {Entry(-mins[doc], doc)} else sorted) + {Entry(-total, doc)})
  {
    var mins1 := mins[doc := total];
    var sorted1 := (if doc in mins then sorted - {Entry(-mins[doc], doc)} else sorted) + {Entry(-total, doc)};
    forall d
      ensures HasEntry(mins1, sorted1, d)
    {
      assert HasEntry(mins, sorted, d);
    }
    forall e
      ensures IsEntry(mins1, sorted1, e)
    {
      assert IsEntry(mins, sorted, e);
    }
  }

  lemma RememberSorted(p: Pool, i: nat, h: Hit)
    requires SortedRight(p.mins, p.sorted) && i < |p.caches|
    ensures SortedRight(Remember(p, i, h).mins, Remember(p, i, h).sorted)
  {
    SortedUpdate(p.mins, p.sorted, h.doc, (if h.doc in p.mins then p.mins[h.doc] else 0.0) + h.score);
  }

  lemma ReadSorted(p: Pool, i: nat, h: Hit)
    requires SortedRight(p.mins, p.sorted) && i < |p.pos| == |p.unread| == |p.caches|
    ensures SortedRight(Read(p, i, h).mins, Read(p, i, h).sorted)
  {
    if h.doc !in p.used { RememberSorted(Advance(p, i, h.score), i, h); }
  }

  /** Reading one element keeps the whole invariant. */
  lemma ReadKeeps(hits: seq<seq<Hit>>, p: Pool, i: nat)
    requires CanRead(hits, p, i)
    ensures Inv(hits, Read(p, i, hits[i][p.pos[i]]))
  {
    ReadCaches(hits, p, i);
    ReadDominated(hits, p, i);
    ReadMins(hits, p, i);
    ReadIds(hits, p, i);
    ReadSorted(p, i, hits[i][p.pos[i]]);
    ReadUsed(hits, p, i);
  }

  lemma ReadUsed(hits: seq<seq<Hit>>, p: Pool, i: nat)
    requires CanRead(hits, p, i)
    ensures var q := Read(p, i, hits[i][p.pos[i]]);
            && |q.pos| == |hits|
            && forall d {:trigger UsedWasRead(hits, q.pos, q.used, d)} :: UsedWasRead(hits, q.pos, q.used, d)
  {
    var q := Read(p, i, hits[i][p.pos[i]]);
    forall d
      ensures UsedWasRead(hits, q.pos, q.used, d)
    {
      assert UsedWasRead(hits, p.pos, p.used, d);
      if d in q.used {
        var j :| 0 <= j < |hits| && Among(hits[j], p.pos[j], d);
        assert Among(hits[j], q.pos[j], d);
      }
    }
  }

  /** The effect of finding an iterator exhausted. */
  function Close(p: Pool, i: nat): Pool
    requires i < |p.unread|
  {
    p.(iters := p.iters - {i}, unread := p.unread[i := 0.0])
  }

  lemma CloseKeeps(hits: seq<seq<Hit>>, p: Pool, i: nat)
    requires Inv(hits, p) && i < |hits| && p.pos[i] == |hits[i]|
    ensures Inv(hits, Close(p, i))
  {
    var q := Close(p, i);
    forall d
      ensures UsedWasRead(hits, q.pos, q.used, d)
    {
      assert UsedWasRead(hits, p.pos, p.used, d);
    }
  }

  /** precache(i, size): read up to `size` more elements of list i, closing it when it runs out. */
  function ReadMany(p: Pool, i: nat, h: seq<Hit>, size: nat): Pool
    requires i < |p.pos| == |p.unread| == |p.caches|
    decreases size
  {
    if size == 0 then p
    else if p.pos[i] >= |h| then Close(p, i)
    else ReadMany(Read(p, i, h[p.pos[i]]), i, h, size - 1)
  }

  lemma ReadManyStep(p: Pool, i: nat, h: seq<Hit>, size: nat)
    requires i < |p.pos| == |p.unread| == |p.caches| && size > 0
    ensures p.pos[i] >= |h| ==> ReadMany(p, i, h, size) == Close(p, i)
    ensures p.pos[i] < |h| ==> ReadMany(p, i, h, size) == ReadMany(Read(p, i, h[p.pos[i]]), i, h, size - 1)
  {
  }

  /** Every read keeps the invariant. */
  lemma {:induction false} ReadManyKeeps(hits: seq<seq<Hit>>, p: Pool, i: nat, size: nat)
    requires Inv(hits, p) && i < |hits| && i in p.iters
    ensures Inv(hits, ReadMany(p, i, hits[i], size))
    decreases size
  {
    if size > 0 {
      if p.pos[i] >= |hits[i]| {
        CloseKeeps(hits, p, i);
      } else {
        ReadKeeps(hits, p, i);
        ReadManyKeeps(hits, Read(p, i, hits[i][p.pos[i]]), i, size - 1);
      }
    }
  }

  /** How far the reads go; the list stays open only when all `size` elements were there. */
  lemma {:induction false} ReadManyMoves(p: Pool, i: nat, h: seq<Hit>, size: nat)
    requires i < |p.pos| == |p.unread| == |p.caches| && p.pos[i] <= |h|
    ensures var q := ReadMany(p, i, h, size);
            && q.pos == p.pos[i := if p.pos[i] + size <= |h| then p.pos[i] + size else |h|]
            && q.iters == (if p.pos[i] + size <= |h| then p.iters else p.iters - {i})
            && |q.caches| == |p.caches| && |q.caches[i]| >= |p.caches[i]|
    decreases size
  {
    if size > 0 && p.pos[i] < |h| {
      ReadManyMoves(Read(p, i, h[p.pos[i]]), i, h, size - 1);
    }
  }

  lemma {:induction false} ReadManyFrame(p: Pool, i: nat, h: seq<Hit>, size: nat)
    requires i < |p.pos| == |p.unread| == |p.caches|
    ensures var q := ReadMany(p, i, h, size);
            && |q.pos| == |q.unread| == |q.caches| == |p.pos|
            && q.used == p.used
            && (forall j :: 0 <= j < |p.pos| && j != i ==>
                  q.caches[j] == p.caches[j] && q.pos[j] == p.pos[j] && q.unread[j] == p.unread[j])
            && (forall j :: j != i ==> (j in q.iters <==> j in p.iters))
    decreases size
  {
    if size > 0 && p.pos[i] < |h| {
      ReadManyFrame(Read(p, i, h[p.pos[i]]), i, h, size - 1);
    }
  }

  // ---- the bounds ------------------------------------------------------------------------------

  lemma UnreadScore(hits: seq<seq<Hit>>, p: Pool, i: nat, d: Doc)
    requires Shape(hits, p.pos, p.iters) && Dominated(hits, p.pos, p.iters, p.unread) && i < |hits|
    requires !Among(hits[i], p.pos[i], d)
    ensures 0.0 <= ScoreIn(hits[i], d) <= p.unread[i]
  {
    if Among(hits[i], |hits[i]|, d) {
      var k :| 0 <= k < |hits[i]| && hits[i][k].doc == d;
      ScoreAt(hits[i], k);
      assert p.pos[i] <= k;
    }
  }

  /** A pending document's true total lies between the sum of its cached scores and that sum plus
      the caps of the lists it has not been read from. */
  lemma BoundsSound(hits: seq<seq<Hit>>, p: Pool, d: Doc)
    requires Inv(hits, p) && d in p.mins
    ensures p.mins[d] <= Total(hits, d) <= Sum(Capped(p.caches, p.unread, d))
  {
    var n := |hits|;
    assert MinOk(p.caches, p.mins, d);
    var truth := seq(n, i requires 0 <= i < n => ScoreIn(hits[i], d));
    forall i | 0 <= i < n
      ensures Known(p.caches, d)[i] <= truth[i] <= Capped(p.caches, p.unread, d)[i]
    {
      assert CacheOf(hits[i], p.pos[i], p.used, p.caches[i]);
      PendingUnused(hits, p, d);
      if d !in p.caches[i] { UnreadScore(hits, p, i, d); }
    }
    SumMonotone(Known(p.caches, d), truth);
    SumMonotone(truth, Capped(p.caches, p.unread, d));
  }

  /** The bounds of a pending document come list by list: its score where it is cached, the cap elsewhere. */
  lemma PendingEstimated(hits: seq<seq<Hit>>, p: Pool, d: Doc)
    requires Inv(hits, p) && d in p.mins
    ensures Estimates(hits, d, p.mins[d], Sum(Capped(p.caches, p.unread, d)))
  {
    var lows, highs := Known(p.caches, d), Capped(p.caches, p.unread, d);
    assert MinOk(p.caches, p.mins, d);
    PendingUnused(hits, p, d);
    forall i | 0 <= i < |hits|
      ensures InBounds(hits[i], d, lows[i], highs[i])
      ensures d in p.caches[i] ==> ReadIn(hits[i], d, lows[i], highs[i])
    {
      assert CacheOf(hits[i], p.pos[i], p.used, p.caches[i]);
      if d !in p.caches[i] { UnreadScore(hits, p, i, d); }
    }
    var i :| 0 <= i < |p.caches| && d in p.caches[i];
    assert ReadIn(hits[i], d, lows[i], highs[i]);
    assert ListBounds(hits, d, lows, highs);
  }

  lemma PendingUnused(hits: seq<seq<Hit>>, p: Pool, d: Doc)
    requires Inv(hits, p) && d in p.mins
    ensures d !in p.used && !NotRead(hits, p.pos, d)
  {
    assert MinOk(p.caches, p.mins, d);
    var i :| 0 <= i < |p.caches| && d in p.caches[i];
    assert CacheOf(hits[i], p.pos[i], p.used, p.caches[i]);
  }

  /** Nothing still unread can beat the sum of the caps. */
  lemma UnreadBelowCaps(hits: seq<seq<Hit>>, p: Pool, d: Doc)
    requires Inv(hits, p) && NotRead(hits, p.pos, d)
    ensures Total(hits, d) <= Sum(p.unread)
  {
    var n := |hits|;
    forall i | 0 <= i < n
      ensures ScoreIn(hits[i], d) <= p.unread[i]
    {
      UnreadScore(hits, p, i, d);
    }
    SumMonotone(seq(n, i requires 0 <= i < n => ScoreIn(hits[i], d)), p.unread);
  }

  /** The upper bound as the merge computes it. */
  lemma UpperBoundComputed(hits: seq<seq<Hit>>, p: Pool, d: Doc)
    requires Inv(hits, p) && d in p.mins
    ensures forall j :: 0 <= j < |IdsOf(p.ids, d)| ==> IdsOf(p.ids, d)[j] < |p.unread|
    ensures Sum(Capped(p.caches, p.unread, d)) == Sum(p.unread) - SumAt(p.unread, IdsOf(p.ids, d)) + p.mins[d]
  {
    PendingUnused(hits, p, d);
    assert MinOk(p.caches, p.mins, d);
    assert IdsOk(p.caches, IdsOf(p.ids, d), d);
    assert forall j :: 0 <= j < |IdsOf(p.ids, d)| ==> IdsOf(p.ids, d)[j] in IdsOf(p.ids, d);
    FastUpperBound(p.caches, p.unread, IdsOf(p.ids, d), d);
  }

  /** The upper bound of a pending entry can be computed from the caps and the lists it was cached from. */
  ghost predicate Priced(p: Pool, e: Entry) {
    && |p.unread| == |p.caches|
    && (forall j :: 0 <= j < |IdsOf(p.ids, e.doc)| ==> IdsOf(p.ids, e.doc)[j] < |p.unread|)
    && Sum(Capped(p.caches, p.unread, e.doc)) == Sum(p.unread) - SumAt(p.unread, IdsOf(p.ids, e.doc)) - e.neg
  }

  lemma AllPriced(hits: seq<seq<Hit>>, p: Pool)
    requires Inv(hits, p)
    ensures forall e :: e in p.sorted ==> Priced(p, e)
  {
    forall e | e in p.sorted
      ensures Priced(p, e)
    {
      assert IsEntry(p.mins, p.sorted, e);
      UpperBoundComputed(hits, p, e.doc);
    }
  }

  // ---- yielding one document -------------------------------------------------------------------

  ghost predicate IsMaxOf(m: real, c: Cache) {
    && (exists d :: d in c && c[d] == m)
    && (forall d :: d in c ==> c[d] <= m)
  }

  /** The cap of a list after its cached document d left: when d sat on the cap, the cap is raised to the
      best score still cached, otherwise it stays. */
  ghost predicate CapAfter(c: Cache, d: Doc, before: real, after: real) {
    if d in c && c[d] == before then IsMaxOf(after, c - {d}) else after == before
  }

  /** Every cache without document d. */
  ghost function Purged(caches: seq<Cache>, d: Doc): (r: seq<Cache>)
    ensures |r| == |caches|
  {
    seq(|caches|, i requires 0 <= i < |caches| => caches[i] - {d})
  }

  /** The effect of yielding pending document d, with `unread` the caps after the resets. */
  ghost function Yielded(p: Pool, d: Doc, unread: seq<real>): Pool
    requires d in p.mins
  {
    p.(unread := unread, used := p.used + {d}, mins := p.mins - {d}, sorted := p.sorted - {Entry(-p.mins[d], d)},
       caches := Purged(p.caches, d))
  }

  ghost predicate CapsAfter(p: Pool, d: Doc, unread: seq<real>) {
    && |unread| == |p.unread| == |p.caches|
    && (forall i {:trigger CapAfter(p.caches[i], d, p.unread[i], unread[i])} ::
          0 <= i < |unread| ==> CapAfter(p.caches[i], d, p.unread[i], unread[i]))
  }

  ghost predicate CanYield(hits: seq<seq<Hit>>, p: Pool, d: Doc, unread: seq<real>) {
    Inv(hits, p) && d in p.mins && CapsAfter(p, d, unread)
  }

  lemma CachedBeatsUnread(hits: seq<seq<Hit>>, p: Pool, i: nat, d: Doc)
    requires Inv(hits, p) && i < |hits| && d in p.caches[i]
    ensures 0.0 < p.caches[i][d] <= Top(hits[i])
    ensures forall k :: p.pos[i] <= k < |hits[i]| ==> hits[i][k].score <= p.caches[i][d]
  {
    assert CacheOf(hits[i], p.pos[i], p.used, p.caches[i]);
    var k :| 0 <= k < p.pos[i] && k < |hits[i]| && hits[i][k].doc == d;
    ScoreAt(hits[i], k);
    assert hits[i][0].score >= hits[i][k].score;
  }

  lemma YieldDominated(hits: seq<seq<Hit>>, p: Pool, d: Doc, unread: seq<real>)
    requires CanYield(hits, p, d, unread)
    ensures var q := Yielded(p, d, unread); Shape(hits, q.pos, q.iters) && Dominated(hits, q.pos, q.iters, q.unread)
  {
    var q := Yielded(p, d, unread);
    forall i | 0 <= i < |hits|
      ensures 0.0 <= q.unread[i] <= Top(hits[i])
      ensures forall k :: q.pos[i] <= k < |hits[i]| ==> hits[i][k].score <= q.unread[i]
      ensures i !in q.iters ==> q.pos[i] == |hits[i]| && q.unread[i] == 0.0
    {
      assert CapAfter(p.caches[i], d, p.unread[i], unread[i]);
      if d in p.caches[i] && p.caches[i][d] == p.unread[i] {
        CachedBeatsUnread(hits, p, i, d);
        var best :| best in p.caches[i] - {d} && p.caches[i][best] == unread[i];
        CachedBeatsUnread(hits, p, i, best);
      }
    }
  }

  lemma YieldCaches(hits: seq<seq<Hit>>, p: Pool, d: Doc, unread: seq<real>)
    requires CanYield(hits, p, d, unread)
    ensures var q := Yielded(p, d, unread); |q.pos| == |hits| && CachesRight(hits, q.pos, q.used, q.caches)
  {
    var q := Yielded(p, d, unread);
    forall i | 0 <= i < |hits|
      ensures CacheOf(hits[i], q.pos[i], q.used, q.caches[i])
    {
      assert CacheOf(hits[i], p.pos[i], p.used, p.caches[i]);
    }
  }

  lemma OthersStayHeld(p: Pool, d: Doc, unread: seq<real>, x: Doc)
    requires d in p.mins && x != d
    ensures var q := Yielded(p, d, unread);
            (Held(q.caches, x) <==> Held(p.caches, x)) && Sum(Known(q.caches, x)) == Sum(Known(p.caches, x))
  {
    var q := Yielded(p, d, unread);
    assert Known(q.caches, x) == Known(p.caches, x);
    if Held(p.caches, x) {
      var i :| 0 <= i < |p.caches| && x in p.caches[i];
      assert x in q.caches[i];
    }
  }

  lemma YieldMins(p: Pool, d: Doc, unread: seq<real>)
    requires MinsRight(p.caches, p.mins) && d in p.mins
    ensures var q := Yielded(p, d, unread); MinsRight(q.caches, q.mins)
  {
    var q := Yielded(p, d, unread);
    assert !Held(q.caches, d);
    forall x | x != d
      ensures MinOk(q.caches, q.mins, x)
    {
      assert MinOk(p.caches, p.mins, x);
      OthersStayHeld(p, d, unread, x);
    }
  }

  lemma YieldSorted(p: Pool, d: Doc, unread: seq<real>)
    requires SortedRight(p.mins, p.sorted) && d in p.mins
    ensures var q := Yielded(p, d, unread); SortedRight(q.mins, q.sorted)
  {
    var q := Yielded(p, d, unread);
    forall x
      ensures HasEntry(q.mins, q.sorted, x)
    {
      assert HasEntry(p.mins, p.sorted, x);
    }
    forall e
      ensures IsEntry(q.mins, q.sorted, e)
    {
      assert IsEntry(p.mins, p.sorted, e);
    }
  }

  lemma YieldIds(hits: seq<seq<Hit>>, p: Pool, d: Doc, unread: seq<real>)
    requires CanYield(hits, p, d, unread)
    ensures var q := Yielded(p, d, unread); IdsRight(q.caches, q.ids, q.used)
  {
    var q := Yielded(p, d, unread);
    forall x | x !in q.used
      ensures IdsOk(q.caches, IdsOf(q.ids, x), x)
    {
      assert IdsOk(p.caches, IdsOf(p.ids, x), x);
    }
  }

  /** Yielding a pending document keeps the whole invariant, the raised caps included. */
  lemma YieldKeeps(hits: seq<seq<Hit>>, p: Pool, d: Doc, unread: seq<real>)
    requires CanYield(hits, p, d, unread)
    ensures Inv(hits, Yielded(p, d, unread))
  {
    YieldDominated(hits, p, d, unread);
    YieldCaches(hits, p, d, unread);
    YieldMins(p, d, unread);
    YieldSorted(p, d, unread);
    YieldIds(hits, p, d, unread);
    YieldUsed(hits, p, d, unread);
  }

  lemma YieldUsed(hits: seq<seq<Hit>>, p: Pool, d: Doc, unread: seq<real>)
    requires CanYield(hits, p, d, unread)
    ensures var q := Yielded(p, d, unread);
            forall x {:trigger UsedWasRead(hits, q.pos, q.used, x)} :: UsedWasRead(hits, q.pos, q.used, x)
  {
    var q := Yielded(p, d, unread);
    PendingUnused(hits, p, d);
    forall x
      ensures UsedWasRead(hits, q.pos, q.used, x)
    {
      assert UsedWasRead(hits, p.pos, p.used, x);
    }
  }

  // ---- the window ------------------------------------------------------------------------------

  const ORDER_SIZE: nat := 15
  const ORDER_VIOLATION: nat := 3

  /** The test a window must pass before anything is yielded from it. */
  ghost predicate WindowOk(mins: seq<real>, maxs: seq<real>, maxSum: real)
    requires |mins| == |maxs|
  {
    && (forall i, j :: 0 <= i < |mins| - ORDER_VIOLATION - 1 && i + ORDER_VIOLATION <= j < |maxs| ==>
          maxs[j] <= mins[i])
    && (|mins| == ORDER_SIZE ==> mins[|mins| - ORDER_VIOLATION] >= maxSum)
  }

  /** A window slot: a pending entry with its lower and upper bound. */
  ghost predicate Slot(p: Pool, e: Entry, d: Doc, min: real, max: real) {
    |p.unread| == |p.caches| && e == Entry(-min, d) && max == Sum(Capped(p.caches, p.unread, d))
  }

  /** The window is the first `ORDER_SIZE` pending documents with their bounds. */
  ghost predicate IsWindow(p: Pool, docids: seq<Doc>, mins: seq<real>, maxs: seq<real>) {
    && |p.unread| == |p.caches|
    && |docids| == |mins| == |maxs| == (if |p.sorted| < ORDER_SIZE then |p.sorted| else ORDER_SIZE)
    && forall j :: 0 <= j < |docids| ==> Slot(p, InOrder(p.sorted)[j], docids[j], mins[j], maxs[j])
  }

  /** `truth` names the true totals. */
  ghost predicate IsTruth(truth: Doc -> real, hits: seq<seq<Hit>>) {
    forall d {:trigger Total(hits, d)} :: truth(d) == Total(hits, d)
  }

  predicate NotBelow(truth: Doc -> real, a: Doc, b: Doc) {
    truth(a) >= truth(b)
  }

  /** What an accepted window guarantees about the true totals. */
  ghost predicate InPlace(truth: Doc -> real, hits: seq<seq<Hit>>, pos: seq<nat>, docids: seq<Doc>)
    requires |pos| == |hits|
  {
    && (forall i, j {:trigger NotBelow(truth, docids[i], docids[j])} ::
          0 <= i < |docids| - 4 && i + 3 <= j < |docids| ==> NotBelow(truth, docids[i], docids[j]))
    && (|docids| == 15 ==> forall i, d {:trigger NotBelow(truth, docids[i], d)} ::
          0 <= i < 13 && NotRead(hits, pos, d) ==> NotBelow(truth, docids[i], d))
  }

  lemma WindowBounds(hits: seq<seq<Hit>>, p: Pool, docids: seq<Doc>, mins: seq<real>, maxs: seq<real>, j: nat)
    requires Inv(hits, p) && IsWindow(p, docids, mins, maxs) && j < |docids|
    ensures docids[j] in p.mins && mins[j] == p.mins[docids[j]]
    ensures mins[j] <= Total(hits, docids[j]) <= maxs[j]
  {
    var e := InOrder(p.sorted)[j];
    assert e in InOrder(p.sorted) && IsEntry(p.mins, p.sorted, e);
    BoundsSound(hits, p, docids[j]);
  }

  /** The same bounds around the named truth. */
  lemma WindowTruth(truth: Doc -> real, hits: seq<seq<Hit>>, p: Pool, docids: seq<Doc>, mins: seq<real>,
                    maxs: seq<real>, j: nat)
    requires IsTruth(truth, hits)
    requires Inv(hits, p) && IsWindow(p, docids, mins, maxs) && j < |docids|
    ensures mins[j] <= truth(docids[j]) <= maxs[j]
  {
    WindowBounds(hits, p, docids, mins, maxs, j);
  }

  lemma UnreadTruth(truth: Doc -> real, hits: seq<seq<Hit>>, p: Pool, d: Doc)
    requires IsTruth(truth, hits) && Inv(hits, p) && NotRead(hits, p.pos, d)
    ensures truth(d) <= Sum(p.unread)
  {
    UnreadBelowCaps(hits, p, d);
  }

  /** The order guarantee: no document of an accepted window is more than three places too early, and
      the first thirteen of a full window beat everything not yet read. */
  lemma AcceptedWindow(truth: Doc -> real, hits: seq<seq<Hit>>, p: Pool, docids: seq<Doc>, mins: seq<real>,
                       maxs: seq<real>)
    requires IsTruth(truth, hits)
    requires Inv(hits, p) && IsWindow(p, docids, mins, maxs) && WindowOk(mins, maxs, Sum(p.unread))
    ensures InPlace(truth, hits, p.pos, docids)
  {
    forall i, j | 0 <= i < |docids| - 4 && i + 3 <= j < |docids|
      ensures NotBelow(truth, docids[i], docids[j])
    {
      WindowTruth(truth, hits, p, docids, mins, maxs, i);
      WindowTruth(truth, hits, p, docids, mins, maxs, j);
    }
    if |docids| == 15 {
      forall i, d | 0 <= i < 13 && NotRead(hits, p.pos, d)
        ensures NotBelow(truth, docids[i], d)
      {
        WindowTruth(truth, hits, p, docids, mins, maxs, i);
        UnreadTruth(truth, hits, p, d);
        WindowFalls(hits, p, docids, mins, maxs, i, 12);
      }
    }
  }

  lemma WindowFalls(hits: seq<seq<Hit>>, p: Pool, docids: seq<Doc>, mins: seq<real>, maxs: seq<real>, i: nat, j: nat)
    requires Inv(hits, p) && IsWindow(p, docids, mins, maxs) && i <= j < |docids|
    ensures mins[i] >= mins[j]
  {
    if i < j {
      assert Below(InOrder(p.sorted)[i], InOrder(p.sorted)[j]);
    }
  }

  /** Once nothing can be read any more the bounds coincide. */
  lemma NoSlack(hits: seq<seq<Hit>>, p: Pool, docids: seq<Doc>, mins: seq<real>, maxs: seq<real>, j: nat)
    requires Inv(hits, p) && IsWindow(p, docids, mins, maxs) && j < |docids|
    requires forall i :: 0 <= i < |hits| ==> p.unread[i] == 0.0
    ensures maxs[j] == mins[j] >= 0.0
  {
    WindowBounds(hits, p, docids, mins, maxs, j);
    assert MinOk(p.caches, p.mins, docids[j]);
    assert Capped(p.caches, p.unread, docids[j]) == Known(p.caches, docids[j]);
    MinsNonNegative(hits, p, docids[j]);
  }

  lemma ExhaustedWindowOk(hits: seq<seq<Hit>>, p: Pool, docids: seq<Doc>, mins: seq<real>, maxs: seq<real>)
    requires Inv(hits, p) && IsWindow(p, docids, mins, maxs)
    requires forall i :: 0 <= i < |hits| ==> p.unread[i] == 0.0
    ensures WindowOk(mins, maxs, Sum(p.unread))
  {
    SumZero(p.unread);
    if |mins| == ORDER_SIZE { NoSlack(hits, p, docids, mins, maxs, |mins| - ORDER_VIOLATION); }
    forall i, j | 0 <= i <= j < |docids|
      ensures maxs[j] <= mins[i]
    {
      NoSlack(hits, p, docids, mins, maxs, j);
      WindowFalls(hits, p, docids, mins, maxs, i, j);
    }
  }

  /** A rejected window means some list can still produce something. */
  lemma RejectedHasUnread(hits: seq<seq<Hit>>, p: Pool, docids: seq<Doc>, mins: seq<real>, maxs: seq<real>)
    requires Inv(hits, p) && IsWindow(p, docids, mins, maxs) && !WindowOk(mins, maxs, Sum(p.unread))
    ensures exists i :: 0 <= i < |hits| && p.unread[i] > 0.0
  {
    if forall i :: 0 <= i < |hits| ==> p.unread[i] == 0.0 {
      ExhaustedWindowOk(hits, p, docids, mins, maxs);
    }
  }

  lemma MinsNonNegative(hits: seq<seq<Hit>>, p: Pool, d: Doc)
    requires Inv(hits, p) && d in p.mins
    ensures p.mins[d] >= 0.0
  {
    var known := Known(p.caches, d);
    assert MinOk(p.caches, p.mins, d);
    forall i | 0 <= i < |known|
      ensures known[i] >= 0.0
    {
      if d in p.caches[i] { CachedBeatsUnread(hits, p, i, d); }
    }
    var zeros := seq(|known|, _ => 0.0);
    SumZero(zeros);
    SumMonotone(zeros, known);
  }
}
