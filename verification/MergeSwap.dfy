/** Two lists of which the merge yields the first two documents in the wrong order. */
module MergeSwap {
  import opened Wrappers
  import opened SortedSets
  import opened Scores
  import opened MergePool
  import opened MergeCounts
  import opened MergeView
  import opened MergeRun
  import opened MergeShort
  import opened MergeWear

  /** List a holds two documents. List b holds forty others of equal score, and only then the second one of a,
      which that makes the better one. */
  ghost predicate Misleading(a: seq<Hit>, b: seq<Hit>) {
    && Descending(a) && Descending(b) && |a| == 2 && |b| > CACHE_SIZE
    && (forall s :: 0 <= s < CACHE_SIZE ==> b[s].score == Top(b))
    && b[CACHE_SIZE].doc == a[1].doc && !Among(b, |b|, a[0].doc)
    && Top(b) < a[1].score < a[0].score < a[1].score + b[CACHE_SIZE].score
  }

  ghost predicate MisleadingPair(hits: seq<seq<Hit>>) {
    |hits| == 2 && Misleading(hits[0], hits[1])
  }

  /** Both lists were read into their caches, and the first one is closed. */
  ghost predicate BothCached(hits: seq<seq<Hit>>, p: Pool) {
    && |hits| == |p.pos| == |p.unread| == |p.caches| == 2
    && p.pos[0] == |hits[0]| && p.pos[1] == CACHE_SIZE && p.used == {} && 0 !in p.iters
    && p.unread[0] == 0.0 && p.unread[1] <= Top(hits[1])
  }

  // ---- the first refill ------------------------------------------------------------------------

  /** Nothing has been read from either list. */
  ghost predicate Untouched(p: Pool) {
    && |p.pos| == |p.unread| == |p.caches| == 2 && p.used == {} && p.pos == [0, 0]
    && Short(p, 0) && Short(p, 1) && |p.caches[0]| == 0 && |p.caches[1]| == 0
  }

  lemma StartIsUntouched(hits: seq<seq<Hit>>, p: Pool)
    requires |hits| == 2 && (forall i :: 0 <= i < |hits| ==> hits[i] != []) && p == Fresh(hits)
    ensures Untouched(p)
  {
  }

  /** Refilling the first list reads it to its end, refilling the second one fills its cache. */
  lemma FillsBoth(hits: seq<seq<Hit>>, p: Pool, q: Pool, r: Pool)
    requires MisleadingPair(hits) && Untouched(p)
    requires ReadOnBy(p, q, 0, 1, hits[0], CACHE_SIZE)
    requires ReadOnBy(q, r, 1, 0, hits[1], CACHE_SIZE) && CapsRead(q, r, 1, hits[1])
    requires Inv(hits, r)
    ensures BothCached(hits, r)
  {
  }

  lemma BothReads(hits: seq<seq<Hit>>, p: Pool)
    requires MisleadingPair(hits) && Untouched(p)
    ensures var q := FillOne(hits, p, 0);
            && ReadOnBy(p, q, 0, 1, hits[0], CACHE_SIZE)
            && ReadOnBy(q, FillOne(hits, q, 1), 1, 0, hits[1], CACHE_SIZE)
            && CapsRead(q, FillOne(hits, q, 1), 1, hits[1])
  {
    var q := FillOne(hits, p, 0);
    FillOneReads(hits, p, 0, 1);
    FillOneFrame(hits, p, 0, 1);
    FillOneReads(hits, q, 1, 0);
  }

  lemma FillOfTwo(hits: seq<seq<Hit>>, p: Pool)
    requires |hits| == |p.pos| == |p.unread| == |p.caches| == 2
    ensures Fill(hits, p, 2) == FillOne(hits, FillOne(hits, p, 0), 1)
  {
    assert Fill(hits, p, 0) == p;
    assert Fill(hits, p, 1) == FillOne(hits, p, 0);
  }

  /** The first refill. */
  lemma BothRead(hits: seq<seq<Hit>>, p: Pool)
    requires MisleadingPair(hits) && Inv(hits, p) && Untouched(p)
    ensures Inv(hits, Fill(hits, p, 2)) && BothCached(hits, Fill(hits, p, 2))
  {
    BothReads(hits, p);
    FillKeeps(hits, p, 2);
    FillOfTwo(hits, p);
    FillsBoth(hits, p, FillOne(hits, p, 0), Fill(hits, p, 2));
  }

  // ---- what is pending then --------------------------------------------------------------------

  lemma CachedFromFirst(hits: seq<seq<Hit>>, p: Pool)
    requires MisleadingPair(hits) && Inv(hits, p) && BothCached(hits, p)
    ensures forall d :: d in p.caches[0] <==> d == hits[0][0].doc || d == hits[0][1].doc
    ensures forall j :: 0 <= j < 2 ==> p.caches[0][hits[0][j].doc] == hits[0][j].score
  {
    var a := hits[0];
    assert CacheOf(a, p.pos[0], p.used, p.caches[0]);
    forall j | 0 <= j < 2
      ensures a[j].doc in p.caches[0] && p.caches[0][a[j].doc] == a[j].score
    {
      assert Among(a, 2, a[j].doc);
      ScoreAt(a, j);
    }
    forall d | d in p.caches[0]
      ensures d == a[0].doc || d == a[1].doc
    {
      assert Among(a, 2, d);
    }
  }

  lemma CachedFromSecond(hits: seq<seq<Hit>>, p: Pool)
    requires MisleadingPair(hits) && Inv(hits, p) && BothCached(hits, p)
    ensures |p.caches[1]| == CACHE_SIZE
    ensures hits[0][0].doc !in p.caches[1] && hits[0][1].doc !in p.caches[1]
    ensures forall d :: d in p.caches[1] ==> p.caches[1][d] == Top(hits[1])
  {
    var a, b := hits[0], hits[1];
    assert CacheOf(b, p.pos[1], p.used, p.caches[1]);
    AllUnused(b, CACHE_SIZE, p.caches[1]);
    assert Among(b, CACHE_SIZE, a[0].doc) ==> Among(b, |b|, a[0].doc);
    IndexUnused(b, CACHE_SIZE, CACHE_SIZE);
    forall d | d in p.caches[1]
      ensures p.caches[1][d] == Top(b)
    {
      var s :| 0 <= s < CACHE_SIZE && s < |b| && b[s].doc == d;
      ScoreAt(b, s);
    }
  }

  /** The bounds of a pending document: the score it was read with, and nothing more for the forty. */
  lemma BoundsOfBoth(hits: seq<seq<Hit>>, p: Pool, d: Doc)
    requires MisleadingPair(hits) && Inv(hits, p) && BothCached(hits, p)
    ensures d in p.mins <==> d in p.caches[0] || d in p.caches[1]
    ensures d in p.caches[0] ==> p.mins[d] == p.caches[0][d]
    ensures d in p.caches[1] ==> d !in p.caches[0] && p.mins[d] == Top(hits[1])
    ensures d in p.caches[1] ==> Sum(Capped(p.caches, p.unread, d)) == Top(hits[1])
  {
    CachedFromFirst(hits, p);
    CachedFromSecond(hits, p);
    assert MinOk(p.caches, p.mins, d);
    SumOfTwo(Known(p.caches, d));
    SumOfTwo(Capped(p.caches, p.unread, d));
    if d in p.caches[0] { assert Held(p.caches, d); }
    if d in p.caches[1] { assert Held(p.caches, d); }
  }

  /** The two documents of the first list, in its order. */
  function FirstTwo(a: seq<Hit>): (f: seq<Entry>)
    requires |a| == 2
    ensures |f| == 2
  {
    [Entry(-a[0].score, a[0].doc), Entry(-a[1].score, a[1].doc)]
  }

  lemma TwoOrBehind(hits: seq<seq<Hit>>, p: Pool, e: Entry)
    requires MisleadingPair(hits) && Inv(hits, p) && BothCached(hits, p) && e in p.sorted
    ensures e in FirstTwo(hits[0]) || (After(FirstTwo(hits[0]), e) && e.doc in p.caches[1] && e.neg == -Top(hits[1]))
  {
    EntriesRight(p.mins, p.sorted);
    CachedFromFirst(hits, p);
    BoundsOfBoth(hits, p, e.doc);
    if e.doc in p.caches[0] {
      assert e == FirstTwo(hits[0])[0] || e == FirstTwo(hits[0])[1];
    }
  }

  /** The pending documents start with the two. */
  lemma TwoFirst(hits: seq<seq<Hit>>, p: Pool)
    requires MisleadingPair(hits) && Inv(hits, p) && BothCached(hits, p)
    ensures |p.sorted| >= CACHE_SIZE && InOrder(p.sorted)[..2] == FirstTwo(hits[0])
  {
    var f := FirstTwo(hits[0]);
    EntriesRight(p.mins, p.sorted);
    CachedFromFirst(hits, p);
    CachedFromSecond(hits, p);
    CacheAtMostPending(p, 1);
    forall e | e in f
      ensures e in p.sorted
    {
      BoundsOfBoth(hits, p, e.doc);
    }
    forall e | e in p.sorted
      ensures e in f || After(f, e)
    {
      TwoOrBehind(hits, p, e);
    }
    FrontOrder(p.sorted, f);
  }

  // ---- the window ------------------------------------------------------------------------------

  /** What slot j of a window shows: the two first, and then only documents of the common score. */
  ghost predicate ShowsBoth(hits: seq<seq<Hit>>, j: nat, d: Doc, low: real, high: real)
    requires MisleadingPair(hits)
  {
    if j < 2 then d == hits[0][j].doc && low > Top(hits[1]) else low == high == Top(hits[1])
  }

  lemma SlotOfBoth(hits: seq<seq<Hit>>, p: Pool, j: nat, d: Doc, low: real, high: real)
    requires MisleadingPair(hits) && Inv(hits, p) && BothCached(hits, p)
    requires j < |p.sorted| && Slot(p, InOrder(p.sorted)[j], d, low, high)
    ensures ShowsBoth(hits, j, d, low, high)
  {
    var order := InOrder(p.sorted);
    TwoFirst(hits, p);
    assert order[j] in order;
    if j < 2 {
      assert order[..2][j] == order[j];
    } else {
      PastFront2(p.sorted, j);
      TwoOrBehind(hits, p, order[j]);
      BoundsOfBoth(hits, p, d);
    }
  }

  lemma PastFront2(s: set<Entry>, j: nat)
    requires 2 <= j < |s|
    ensures InOrder(s)[j] !in InOrder(s)[..2]
  {
    var order := InOrder(s);
    assert Below(order[0], order[j]) && Below(order[1], order[j]);
  }

  /** Any window shows the two first, and is accepted. */
  lemma WindowOfBoth(hits: seq<seq<Hit>>, p: Pool, docs: seq<Doc>, lows: seq<real>, highs: seq<real>)
    requires MisleadingPair(hits) && Inv(hits, p) && BothCached(hits, p) && IsWindow(p, docs, lows, highs)
    ensures |docs| == ORDER_SIZE && docs[0] == hits[0][0].doc && docs[1] == hits[0][1].doc
    ensures WindowOk(lows, highs, Sum(p.unread))
  {
    TwoFirst(hits, p);
    SumOfTwo(p.unread);
    forall j: nat | j < |docs|
      ensures ShowsBoth(hits, j, docs[j], lows[j], highs[j])
    {
      assert Slot(p, InOrder(p.sorted)[j], docs[j], lows[j], highs[j]);
      SlotOfBoth(hits, p, j, docs[j], lows[j], highs[j]);
    }
  }

  lemma AcceptsBoth(hits: seq<seq<Hit>>, p: Pool)
    requires MisleadingPair(hits) && Inv(hits, p) && BothCached(hits, p)
    ensures Accepts(p)
  {
    forall docs, lows, highs | IsWindow(p, docs, lows, highs)
      ensures WindowOk(lows, highs, Sum(p.unread))
    {
      WindowOfBoth(hits, p, docs, lows, highs);
    }
  }

  // ---- the first two turns ---------------------------------------------------------------------

  /** Everything at hand is cached, and the window starts with the two documents. */
  ghost predicate ShowsSwapped(hits: seq<seq<Hit>>, t: Turn)
    requires MisleadingPair(hits)
  {
    && Inv(hits, t.m) && BothCached(hits, t.m) && |t.x.docids| == ORDER_SIZE
    && t.x.docids[0] == hits[0][0].doc && t.x.docids[1] == hits[0][1].doc
  }

  /** The first turn is about to yield the first document of the first list. */
  lemma FirstSwapTurn(truth: Doc -> real, hits: seq<seq<Hit>>, t: Turn)
    requires MisleadingPair(hits) && TurnOk(truth, hits, t) && AtStart(hits, t.p, t.v)
    ensures ShowsSwapped(hits, t)
  {
    StartIsUntouched(hits, t.p);
    BothRead(hits, t.p);
    AcceptsBoth(hits, Fill(hits, t.p, 2));
    FirstRenews(t.p, t.v, 2);
    WindowOfBoth(hits, t.m, t.x.docids, t.x.mins, t.x.maxs);
  }

  lemma FirstNotOnCap(hits: seq<seq<Hit>>, p: Pool)
    requires MisleadingPair(hits) && Inv(hits, p) && BothCached(hits, p)
    ensures NoneOnCap(p, hits[0][0].doc)
  {
    CachedFromFirst(hits, p);
    CachedFromSecond(hits, p);
    assert hits[0][1].doc in p.caches[0].Keys;
  }

  /** After it, the window stands: no list is short. */
  lemma SecondKeeps(hits: seq<seq<Hit>>, t: Turn, q: Pool, w: View, s: Scored)
    requires MisleadingPair(hits) && ShowsSwapped(hits, t) && Linked(t, q, w, s)
    ensures !Renews(q, w, 2) && w.docids != [] && w.docids[0] == hits[0][1].doc
    ensures NoneOnCap(q, hits[0][1].doc)
  {
    var c, d := t.m.caches, s.0;
    CachedFromFirst(hits, t.m);
    CachedFromSecond(hits, t.m);
    assert c[1] - {d} == c[1] && q.caches[1] == c[1];
    assert CapAfter(c[0], d, t.m.unread[0], q.unread[0]);
    assert q.unread[0] == 0.0;
  }

  /** The turn is about to yield document d. */
  ghost predicate AboutTo(t: Turn, d: Doc) {
    t.x.docids != [] && t.x.docids[0] == d && NoneOnCap(t.m, d)
  }

  /** A turn that does not renew its window leaves everything as it was. */
  lemma NotRenewed(truth: Doc -> real, hits: seq<seq<Hit>>, t: Turn)
    requires TurnOk(truth, hits, t) && !Renews(t.p, t.v, |hits|)
    ensures t.m == t.p && t.x == t.v
  {
  }

  lemma SwapTruth(truth: Doc -> real, hits: seq<seq<Hit>>)
    requires MisleadingPair(hits) && IsTruth(truth, hits)
    ensures truth(hits[0][0].doc) < truth(hits[0][1].doc)
  {
    var a, b := hits[0], hits[1];
    var x, y := a[0].doc, a[1].doc;
    SumOfTwo(seq(2, i requires 0 <= i < 2 => ScoreIn(hits[i], x)));
    SumOfTwo(seq(2, i requires 0 <= i < 2 => ScoreIn(hits[i], y)));
    ScoreAt(a, 0);
    ScoreAt(a, 1);
    ScoreAt(b, CACHE_SIZE);
    assert Total(hits, x) == ScoreIn(a, x) + ScoreIn(b, x);
    assert Total(hits, y) == ScoreIn(a, y) + ScoreIn(b, y);
  }

  /** A turn with a document to yield that no cap holds back is not the last one. */
  lemma GoesOn(truth: Doc -> real, hits: seq<seq<Hit>>, turns: seq<Turn>, out: seq<Scored>, end: Ending, k: nat,
               d: Doc)
    requires Ran(truth, hits, turns, out, end) && k < |turns| && AboutTo(turns[k], d)
    ensures k < |out| && out[k].0 == d
  {
    if k < |out| { LinkAt(truth, hits, turns, out, k); }
  }

  lemma SwapFirst(truth: Doc -> real, hits: seq<seq<Hit>>, turns: seq<Turn>, out: seq<Scored>, end: Ending)
    requires MisleadingPair(hits) && Ran(truth, hits, turns, out, end)
    ensures |out| >= 1 && out[0].0 == hits[0][0].doc
    ensures ShowsSwapped(hits, turns[0])
  {
    TurnAt(truth, hits, turns, out, 0);
    FirstTurn(truth, hits, turns, out);
    FirstSwapTurn(truth, hits, turns[0]);
    FirstNotOnCap(hits, turns[0].m);
    GoesOn(truth, hits, turns, out, end, 0, hits[0][0].doc);
  }

  lemma SecondAt(truth: Doc -> real, hits: seq<seq<Hit>>, turns: seq<Turn>, out: seq<Scored>, k: nat)
    requires MisleadingPair(hits) && Steps(truth, hits, turns, out) && k + 1 < |turns| && ShowsSwapped(hits, turns[k])
    ensures AboutTo(turns[k + 1], hits[0][1].doc)
  {
    var n := k + 1;
    LinkAt(truth, hits, turns, out, k);
    TurnAt(truth, hits, turns, out, n);
    SecondKeeps(hits, turns[k], turns[n].p, turns[n].v, out[k]);
    NotRenewed(truth, hits, turns[n]);
  }

  lemma SwapSecond(truth: Doc -> real, hits: seq<seq<Hit>>, turns: seq<Turn>, out: seq<Scored>, end: Ending)
    requires MisleadingPair(hits) && Ran(truth, hits, turns, out, end)
    ensures |out| >= 2 && out[1].0 == hits[0][1].doc
  {
    SwapFirst(truth, hits, turns, out, end);
    SecondAt(truth, hits, turns, out, 0);
    GoesOn(truth, hits, turns, out, end, 1, hits[0][1].doc);
  }

  /** Every merge of two such lists yields first the worse and then the better document of the first list. */
  lemma SwapRun(truth: Doc -> real, hits: seq<seq<Hit>>, turns: seq<Turn>, out: seq<Scored>, end: Ending)
    requires MisleadingPair(hits) && Ran(truth, hits, turns, out, end)
    ensures |out| >= 2 && out[0].0 == hits[0][0].doc && out[1].0 == hits[0][1].doc
    ensures truth(out[0].0) < truth(out[1].0)
  {
    SwapFirst(truth, hits, turns, out, end);
    SwapSecond(truth, hits, turns, out, end);
    TurnAt(truth, hits, turns, out, 0);
    SwapTruth(truth, hits);
  }
}
