/** What a caller can check before a merge: when nothing is lost, and when the results are in order. */
module MergeLimits {
  import opened Wrappers
  import opened SortedSets
  import opened Scores
  import opened MergePool
  import opened MergeCounts
  import opened MergeView
  import opened MergeRun
  import opened MergeShort

  // ---- when nothing is lost --------------------------------------------------------------------

  /** The documents that are in one list only. */
  ghost function LoneDocs(hits: seq<seq<Hit>>): set<Doc> {
    set d | d in AllDocs(hits) && Lone(hits, d)
  }

  /** A turn that shows two of three pending documents and is stranded has each of the three cached once. */
  lemma TwoOfThree(truth: Doc -> real, hits: seq<seq<Hit>>, t: Turn)
    requires TurnOk(truth, hits, t) && Stranded(t.m, t.x) && |t.x.docids| == ORDER_VIOLATION - 1
    ensures |LoneDocs(hits)| >= 3
  {
    var p := t.m;
    PendingAtMostCached(p);
    PendingCount(p);
    CachedOnceIff(hits, p);
    forall d | d in AllKeys(p.caches)
      ensures d in LoneDocs(hits)
    {
      AllKeysHeld(p.caches, d);
      assert MinOk(p.caches, p.mins, d);
      PendingUnused(hits, p, d);
      ReadIsMember(hits, p.pos, d);
    }
    SubsetSize(AllKeys(p.caches), LoneDocs(hits));
  }

  /** A fresh window shows all of a few pending documents, so a stranded turn has kept its window. */
  lemma StrandedIsKept(truth: Doc -> real, hits: seq<seq<Hit>>, t: Turn)
    requires TurnOk(truth, hits, t) && Stranded(t.m, t.x)
    ensures !Renews(t.p, t.v, |hits|) && t.m == t.p && t.x == t.v
  {
  }

  /** A turn that shows all but one of at most three pending documents, with nothing left to read, is
      stranded. */
  lemma KeptIsStranded(truth: Doc -> real, hits: seq<seq<Hit>>, t: Turn)
    requires TurnOk(truth, hits, t) && t.m.iters == {}
    requires |t.x.docids| < ORDER_VIOLATION && |t.m.sorted| == |t.x.docids| + 1
    ensures Stranded(t.m, t.x)
  {
  }

  /** A stranded turn with fewer than two documents to show follows a stranded one. */
  lemma StrandedBefore(truth: Doc -> real, hits: seq<seq<Hit>>, t: Turn, s: Scored, u: Turn)
    requires TurnOk(truth, hits, t) && TurnOk(truth, hits, u) && Linked(t, u.p, u.v, s)
    requires Stranded(u.m, u.x) && |u.x.docids| < ORDER_VIOLATION - 1
    ensures Stranded(t.m, t.x)
  {
    StrandedIsKept(truth, hits, u);
    YieldDone(truth, hits, t.m, t.x, u.p, u.v);
    KeptIsStranded(truth, hits, t);
  }

  lemma FirstNotStranded(truth: Doc -> real, hits: seq<seq<Hit>>, t: Turn)
    requires TurnOk(truth, hits, t) && t.v.cacheLen.None?
    ensures !Stranded(t.m, t.x)
  {
    FirstRenews(t.p, t.v, |hits|);
    if Stranded(t.m, t.x) { StrandedIsKept(truth, hits, t); }
  }

  lemma StrandedBeforeAt(truth: Doc -> real, hits: seq<seq<Hit>>, turns: seq<Turn>, out: seq<Scored>, k: nat)
    requires Steps(truth, hits, turns, out) && StrandedAt(turns, k + 1) && |turns[k + 1].x.docids| < ORDER_VIOLATION - 1
    ensures StrandedAt(turns, k)
  {
    TurnAt(truth, hits, turns, out, k);
    TurnAt(truth, hits, turns, out, k + 1);
    LinkAt(truth, hits, turns, out, k);
    StrandedBefore(truth, hits, turns[k], out[k], turns[k + 1]);
  }

  lemma FirstAtNotStranded(truth: Doc -> real, hits: seq<seq<Hit>>, turns: seq<Turn>, out: seq<Scored>)
    requires Steps(truth, hits, turns, out)
    ensures !StrandedAt(turns, 0)
  {
    if turns != [] {
      TurnAt(truth, hits, turns, out, 0);
      FirstTurn(truth, hits, turns, out);
      FirstNotStranded(truth, hits, turns[0]);
    }
  }

  lemma TwoOfThreeAt(truth: Doc -> real, hits: seq<seq<Hit>>, turns: seq<Turn>, out: seq<Scored>, k: nat)
    requires Steps(truth, hits, turns, out) && StrandedAt(turns, k) && |turns[k].x.docids| == ORDER_VIOLATION - 1
    ensures |LoneDocs(hits)| >= 3
  {
    TurnAt(truth, hits, turns, out, k);
    TwoOfThree(truth, hits, turns[k]);
  }

  /** No run is stranded without three documents that are in one list only. */
  lemma {:induction false} StrandedHasLone(truth: Doc -> real, hits: seq<seq<Hit>>, turns: seq<Turn>,
                                           out: seq<Scored>, k: nat)
    requires Steps(truth, hits, turns, out) && StrandedAt(turns, k)
    ensures |LoneDocs(hits)| >= 3
  {
    FirstAtNotStranded(truth, hits, turns, out);
    if |turns[k].x.docids| == ORDER_VIOLATION - 1 {
      TwoOfThreeAt(truth, hits, turns, out, k);
    } else {
      StrandedBeforeAt(truth, hits, turns, out, k - 1);
      StrandedHasLone(truth, hits, turns, out, k - 1);
    }
  }

  /** A run to exhaustion that leaves a read document behind has three documents or more that are in one
      list only, whatever the lengths of the lists. */
  lemma LeftBehindHasLone(truth: Doc -> real, hits: seq<seq<Hit>>, turns: seq<Turn>, out: seq<Scored>)
    requires Ran(truth, hits, turns, out, Exhausted) && turns[|out|].m.sorted != {}
    ensures |LoneDocs(hits)| >= 3
  {
    LeftBehindIff(truth, hits, turns, out);
    var k: nat :| StrandedAt(turns, k);
    StrandedHasLone(truth, hits, turns, out, k);
  }

  lemma NothingInMins(p: Pool, d: Doc)
    requires SortedRight(p.mins, p.sorted) && p.sorted == {}
    ensures d !in p.mins
  {
    assert HasEntry(p.mins, p.sorted, d);
  }

  lemma ShortCloses(hits: seq<seq<Hit>>, p: Pool)
    requires Spent(hits, p) && forall i :: 0 <= i < |hits| ==> |hits[i]| < RAISE_DEPTH
    ensures p.iters == {}
  {
    if p.iters != {} { var i := Pick(p.iters); }
  }

  /** With all lists shorter than 610 and fewer than three documents in one list only, everything comes out. */
  lemma NothingLost(truth: Doc -> real, hits: seq<seq<Hit>>, turns: seq<Turn>, out: seq<Scored>, end: Ending)
    requires Ran(truth, hits, turns, out, end)
    requires (forall i :: 0 <= i < |hits| ==> |hits[i]| < RAISE_DEPTH) && |LoneDocs(hits)| < 3
    ensures end == Exhausted && forall d :: d in AllDocs(hits) ==> CameOut(out, d)
  {
    var p := turns[|out|].m;
    var odd := ShorterNeverRaises(truth, hits, turns, out, end);
    TurnAt(truth, hits, turns, out, |out|);
    NothingLeft(truth, hits, turns[|out|]);
    if p.sorted != {} { LeftBehindHasLone(truth, hits, turns, out); }
    RanLoses(truth, hits, turns, out);
    ShortCloses(hits, p);
    forall d | d in AllDocs(hits)
      ensures CameOut(out, d)
    {
      NothingInMins(p, d);
    }
  }

  // ---- when the results are in order -----------------------------------------------------------

  /** No list is longer than one cache. */
  ghost predicate OneCache(hits: seq<seq<Hit>>) {
    forall i :: 0 <= i < |hits| ==> |hits[i]| <= CACHE_SIZE
  }

  lemma OneCacheReads(hits: seq<seq<Hit>>, p: Pool)
    requires OneCache(hits) && Ready(hits, p)
    ensures ReadWhole(hits, p)
  {
    forall i | 0 <= i < |hits|
      ensures p.pos[i] == |hits[i]|
    {
      if i in p.iters { ReadyOpenAreLong(hits, p, i); }
    }
  }

  /** Every turn has everything read. */
  lemma OneCacheTurn(truth: Doc -> real, hits: seq<seq<Hit>>, t: Turn)
    requires OneCache(hits) && TurnOk(truth, hits, t)
    ensures ReadWhole(hits, t.m) && t.m.sorted == Ranking(truth, AllDocs(hits) - t.m.used) && t.m.used == t.p.used
  {
    OneCacheReads(hits, t.m);
    WholeRanking(truth, hits, t.m);
  }

  /** What comes out of a turn is the best pending document. */
  lemma BestComesOut(t: Turn, q: Pool, w: View, s: Scored)
    requires Linked(t, q, w, s) && ShowsBest(t.m, t.x)
    ensures s.0 == InOrder(t.m.sorted)[0].doc && q.sorted == t.m.sorted - {InOrder(t.m.sorted)[0]}
  {
  }

  /** Nothing changes before it does. */
  lemma OneCacheKeeps(truth: Doc -> real, hits: seq<seq<Hit>>, u: Turn)
    requires OneCache(hits) && TurnOk(truth, hits, u) && ReadWhole(hits, u.p)
    ensures u.m.sorted == u.p.sorted
  {
    OneCacheTurn(truth, hits, u);
    WholeRanking(truth, hits, u.p);
  }

  /** From one turn to the next the best pending document comes out. */
  ghost predicate Takes(t: Turn, u: Turn, s: Scored) {
    && t.m.sorted != {} && s.0 == InOrder(t.m.sorted)[0].doc
    && u.m.sorted == t.m.sorted - {InOrder(t.m.sorted)[0]}
  }

  lemma OneCacheNext(truth: Doc -> real, hits: seq<seq<Hit>>, t: Turn, s: Scored, u: Turn)
    requires OneCache(hits) && TurnOk(truth, hits, t) && TurnOk(truth, hits, u) && Linked(t, u.p, u.v, s)
    ensures Takes(t, u, s)
  {
    OneCacheTurn(truth, hits, t);
    BestShown(truth, hits, t);
    BestComesOut(t, u.p, u.v, s);
    OneCacheKeeps(truth, hits, u);
  }

  /** The first k results are the first k documents of the order. */
  ghost predicate Follows(out: seq<Scored>, order: seq<Entry>, k: nat) {
    k <= |out| && k <= |order| && forall j :: 0 <= j < k ==> out[j].0 == order[j].doc
  }

  /** Where the merge stands at turn k: what is pending is the order from k on. */
  ghost predicate Stands(out: seq<Scored>, order: seq<Entry>, t: Turn, k: nat) {
    Follows(out, order, k) && InOrder(t.m.sorted) == order[k..]
  }

  /** The results are the order, all of it or all but the last. */
  ghost predicate InFullOrder(out: seq<Scored>, order: seq<Entry>) {
    |order| <= |out| + 1 && Follows(out, order, |out|)
  }

  lemma OneCacheFirst(truth: Doc -> real, hits: seq<seq<Hit>>, turns: seq<Turn>, out: seq<Scored>)
    requires OneCache(hits) && Steps(truth, hits, turns, out) && turns != []
    ensures Stands(out, Order(truth, hits), turns[0], 0)
  {
    TurnAt(truth, hits, turns, out, 0);
    FirstTurn(truth, hits, turns, out);
    OneCacheTurn(truth, hits, turns[0]);
    NobodyYielded(hits);
  }

  lemma OneCacheNextAt(truth: Doc -> real, hits: seq<seq<Hit>>, turns: seq<Turn>, out: seq<Scored>, k: nat)
    requires OneCache(hits) && Steps(truth, hits, turns, out) && k + 1 < |turns|
    ensures k < |out| && Takes(turns[k], turns[k + 1], out[k])
  {
    TurnAt(truth, hits, turns, out, k);
    TurnAt(truth, hits, turns, out, k + 1);
    LinkAt(truth, hits, turns, out, k);
    OneCacheNext(truth, hits, turns[k], out[k], turns[k + 1]);
  }

  lemma StandsNext(out: seq<Scored>, order: seq<Entry>, t: Turn, u: Turn, k: nat)
    requires k < |out| && Takes(t, u, out[k]) && Stands(out, order, t, k)
    ensures Stands(out, order, u, k + 1)
  {
    OrderNext(t.m.sorted, order, k);
  }

  lemma {:induction false} OneCacheAt(truth: Doc -> real, hits: seq<seq<Hit>>, turns: seq<Turn>, out: seq<Scored>,
                                      order: seq<Entry>, k: nat)
    requires OneCache(hits) && Steps(truth, hits, turns, out) && k < |turns| && order == Order(truth, hits)
    ensures Stands(out, order, turns[k], k)
  {
    if k == 0 {
      OneCacheFirst(truth, hits, turns, out);
    } else {
      OneCacheAt(truth, hits, turns, out, order, k - 1);
      OneCacheNextAt(truth, hits, turns, out, k - 1);
      StandsNext(out, order, turns[k - 1], turns[k], k - 1);
    }
  }

  /** Merging lists of at most 40 elements ends normally, and the documents come out by descending true total
      and ascending id, all of them or all but the last. */
  lemma OneCacheRun(truth: Doc -> real, hits: seq<seq<Hit>>, turns: seq<Turn>, out: seq<Scored>, end: Ending)
    requires Ran(truth, hits, turns, out, end) && OneCache(hits)
    ensures end == Exhausted && InFullOrder(out, Order(truth, hits))
  {
    var order := Order(truth, hits);
    var odd := ShorterNeverRaises(truth, hits, turns, out, end);
    OneCacheAt(truth, hits, turns, out, order, |out|);
    LeftBehindIff(truth, hits, turns, out);
  }

  /** In words: of two results the earlier one has the greater total, or the same and the smaller id. */
  lemma FullOrderInWords(truth: Doc -> real, docs: set<Doc>, out: seq<Scored>, j: nat, k: nat)
    requires InFullOrder(out, InOrder(Ranking(truth, docs))) && j < k < |out|
    ensures out[j].0 in docs && out[k].0 in docs
    ensures truth(out[j].0) > truth(out[k].0) || (truth(out[j].0) == truth(out[k].0) && out[j].0 < out[k].0)
  {
    RankingInWords(truth, docs);
    var all := Listed(InOrder(Ranking(truth, docs)));
    assert all[j].0 == out[j].0 && all[k].0 == out[k].0 && Before(all[j], all[k]);
  }

  /** The same of a whole merge, whatever its lists. */
  ghost predicate WithinLimits(truth: Doc -> real, hits: seq<seq<Hit>>, out: seq<Scored>, end: Ending) {
    && (OneCache(hits) ==> end == Exhausted && InFullOrder(out, Order(truth, hits)))
    && ((forall i :: 0 <= i < |hits| ==> |hits[i]| < RAISE_DEPTH) && |LoneDocs(hits)| < 3 ==>
          end == Exhausted && forall d :: d in AllDocs(hits) ==> CameOut(out, d))
  }

  lemma RanWithinLimits(truth: Doc -> real, hits: seq<seq<Hit>>, turns: seq<Turn>, out: seq<Scored>, end: Ending)
    requires Ran(truth, hits, turns, out, end)
    ensures WithinLimits(truth, hits, out, end)
  {
    if OneCache(hits) { OneCacheRun(truth, hits, turns, out, end); }
    if (forall i :: 0 <= i < |hits| ==> |hits[i]| < RAISE_DEPTH) && |LoneDocs(hits)| < 3 {
      NothingLost(truth, hits, turns, out, end);
    }
  }
}
