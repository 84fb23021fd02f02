/** Merges of lists shorter than one cache: exactly what comes out, and the one document that may not. */
module MergeShort {
  import opened Wrappers
  import opened Sequences
  import opened SortedSets
  import opened Scores
  import opened MergePool
  import opened MergeCounts
  import opened MergeView
  import opened MergeRun

  /** Every list is shorter than one cache. */
  ghost predicate Brief(hits: seq<seq<Hit>>) {
    forall i :: 0 <= i < |hits| ==> |hits[i]| < CACHE_SIZE
  }

  /** Documents with their true totals, best first and by id among equals. */
  ghost function Ranking(truth: Doc -> real, docs: set<Doc>): set<Entry> {
    set d | d in docs :: Entry(-truth(d), d)
  }

  ghost function Order(truth: Doc -> real, hits: seq<seq<Hit>>): seq<Entry> {
    InOrder(Ranking(truth, AllDocs(hits)))
  }

  /** The result for an entry of the order. */
  function Result(e: Entry): Scored { (e.doc, -e.neg) }

  /** Results with exact weights. */
  ghost function Listed(order: seq<Entry>): seq<Scored> {
    seq(|order|, k requires 0 <= k < |order| => Result(order[k]))
  }

  /** No two lists hold document d. */
  ghost predicate Lone(hits: seq<seq<Hit>>, d: Doc) {
    forall i, j ::
      0 <= i < |hits| && 0 <= j < |hits| && Among(hits[i], |hits[i]|, d) && Among(hits[j], |hits[j]|, d) ==> i == j
  }

  ghost predicate WorstThreeLone(hits: seq<seq<Hit>>, order: seq<Entry>) {
    |order| >= 3 && forall k :: |order| - 3 <= k < |order| ==> Lone(hits, order[k].doc)
  }

  /** The numbers of documents after which the window is left with two of three. */
  predicate Uneven(n: nat) { n > ORDER_SIZE && n % 13 == 3 }

  ghost predicate LosesLast(hits: seq<seq<Hit>>, order: seq<Entry>) {
    Uneven(|order|) && WorstThreeLone(hits, order)
  }

  // ---- everything is read at once --------------------------------------------------------------

  lemma BriefCloses(hits: seq<seq<Hit>>, p: Pool)
    requires Brief(hits) && Ready(hits, p)
    ensures p.iters == {}
  {
    if p.iters != {} {
      var i := Pick(p.iters);
      ReadyOpenAreLong(hits, p, i);
    }
  }

  /** Every list was read to its end, whether that was noticed or not. */
  ghost predicate ReadWhole(hits: seq<seq<Hit>>, p: Pool) {
    |p.pos| == |hits| && forall i :: 0 <= i < |hits| ==> p.pos[i] == |hits[i]|
  }

  /** Then a lower bound is the true total. */
  lemma WholeExact(truth: Doc -> real, hits: seq<seq<Hit>>, p: Pool, d: Doc)
    requires IsTruth(truth, hits) && Inv(hits, p) && ReadWhole(hits, p) && d in p.mins
    ensures p.mins[d] == truth(d)
  {
    var n := |hits|;
    var scores := seq(n, i requires 0 <= i < n => ScoreIn(hits[i], d));
    assert MinOk(p.caches, p.mins, d);
    PendingUnused(hits, p, d);
    forall i | 0 <= i < n
      ensures Known(p.caches, d)[i] == scores[i]
    {
      assert CacheOf(hits[i], p.pos[i], p.used, p.caches[i]);
    }
    assert Known(p.caches, d) == scores;
    assert Total(hits, d) == Sum(scores);
  }

  lemma WholePending(hits: seq<seq<Hit>>, p: Pool, d: Doc)
    requires Inv(hits, p) && ReadWhole(hits, p)
    ensures d in p.mins <==> d in AllDocs(hits) && d !in p.used
  {
    if d in p.mins {
      PendingUnused(hits, p, d);
      ReadIsMember(hits, p.pos, d);
    }
    if d in AllDocs(hits) && d !in p.used {
      var i := AllDocsAmong(hits, d);
      ReadUsedOrPending(hits, p, i, d);
    }
  }

  /** And the pending documents are all that were not yielded, ranked by their true totals. */
  lemma WholeRanking(truth: Doc -> real, hits: seq<seq<Hit>>, p: Pool)
    requires IsTruth(truth, hits) && Inv(hits, p) && ReadWhole(hits, p)
    ensures p.sorted == Ranking(truth, AllDocs(hits) - p.used)
  {
    var ranking := Ranking(truth, AllDocs(hits) - p.used);
    EntriesRight(p.mins, p.sorted);
    forall e | true
      ensures e in p.sorted <==> e in ranking
    {
      WholePending(hits, p, e.doc);
      if e.doc in p.mins { WholeExact(truth, hits, p, e.doc); }
    }
  }

  /** How many documents a full window shows. */
  function Full(pending: nat): nat { if pending < ORDER_SIZE then pending else ORDER_SIZE }

  /** How many the next window shows, with `shown` left of the last one and `cached` scores cached. */
  function NextShown(pending: nat, shown: nat, cached: nat): nat {
    if cached > ORDER_VIOLATION && shown < ORDER_VIOLATION then Full(pending) else shown
  }

  /** The bounds of a window computed then are exact. */
  lemma ClosedWindow(hits: seq<seq<Hit>>, p: Pool, docids: seq<Doc>, mins: seq<real>, maxs: seq<real>)
    requires Inv(hits, p) && p.iters == {} && IsWindow(p, docids, mins, maxs)
    ensures mins == maxs && |docids| == Full(|p.sorted|)
  {
    forall j | 0 <= j < |docids|
      ensures mins[j] == maxs[j]
    {
      NoSlack(hits, p, docids, mins, maxs, j);
    }
  }

  /** No window is renewed for want of cached documents. */
  lemma ClosedRenews(p: Pool, v: View, n: nat)
    requires p.iters == {} && v.cacheLen == Some(TotalSize(p.caches))
    ensures Renews(p, v, n) <==> TotalSize(p.caches) > ORDER_VIOLATION && |v.docids| < ORDER_VIOLATION
  {
  }

  lemma FirstRenews(p: Pool, v: View, n: nat)
    requires v.cacheLen.None? && Counted(p, v) && n > 0
    ensures Renews(p, v, n)
  {
    assert |p.caches[0]| == 0;
    assert Short(p, 0);
  }

  // ---- how often the pending documents are cached ----------------------------------------------

  ghost predicate Once(caches: seq<Cache>) {
    forall i, j, d :: 0 <= i < j < |caches| && d in caches[i] ==> d !in caches[j]
  }

  lemma OnceInit(caches: seq<Cache>)
    requires caches != [] && Once(caches[..|caches| - 1])
    requires AllKeys(caches[..|caches| - 1]) !! caches[|caches| - 1].Keys
    ensures Once(caches)
  {
    var n := |caches| - 1;
    forall i, j, d | 0 <= i < j <= n && d in caches[i]
      ensures d !in caches[j]
    {
      assert caches[..n][i] == caches[i];
      if j == n {
        AllKeysHeld(caches[..n], d);
      } else {
        assert caches[..n][j] == caches[j];
      }
    }
  }

  /** The caches hold no document twice when their sizes add up to the number of their documents. */
  lemma {:induction false} SizedOnce(caches: seq<Cache>)
    requires TotalSize(caches) == |AllKeys(caches)|
    ensures Once(caches)
  {
    if caches != [] {
      var n := |caches| - 1;
      var a, b := AllKeys(caches[..n]), caches[n].Keys;
      AllKeysAtMostTotal(caches[..n]);
      assert |b| == |caches[n]|;
      assert |a + b| == |a| + |b| - |a * b|;
      SizedOnce(caches[..n]);
      assert a * b == {};
      forall x | x in a
        ensures x !in b
      {
        assert x in b ==> x in a * b;
      }
      OnceInit(caches);
    }
  }

  /** With every list read to its end, the caches add up to the pending documents exactly when none of
      those is in two lists. */
  lemma CachedOnceIff(hits: seq<seq<Hit>>, p: Pool)
    requires Inv(hits, p) && p.iters == {}
    ensures TotalSize(p.caches) == |p.sorted| <==> forall d :: d in p.mins ==> Lone(hits, d)
  {
    PendingCount(p);
    if TotalSize(p.caches) == |p.sorted| {
      SizedOnce(p.caches);
      forall d | d in p.mins
        ensures Lone(hits, d)
      {
        OnceLone(hits, p, d);
      }
    }
    if forall d :: d in p.mins ==> Lone(hits, d) {
      forall i, j, d | 0 <= i < j < |p.caches| && d in p.caches[i]
        ensures d !in p.caches[j]
      {
        LoneOnce(hits, p, i, j, d);
      }
      DisjointSize(p.caches);
    }
  }

  lemma OnceLone(hits: seq<seq<Hit>>, p: Pool, d: Doc)
    requires Inv(hits, p) && p.iters == {} && Once(p.caches) && d in p.mins
    ensures Lone(hits, d)
  {
    PendingUnused(hits, p, d);
    forall i | 0 <= i < |hits| && Among(hits[i], |hits[i]|, d)
      ensures d in p.caches[i]
    {
      assert CacheOf(hits[i], p.pos[i], p.used, p.caches[i]);
    }
  }

  lemma LoneOnce(hits: seq<seq<Hit>>, p: Pool, i: nat, j: nat, d: Doc)
    requires Inv(hits, p) && p.iters == {} && i < j < |p.caches| && d in p.caches[i]
    requires forall x :: x in p.mins ==> Lone(hits, x)
    ensures d !in p.caches[j]
  {
    assert CacheOf(hits[i], p.pos[i], p.used, p.caches[i]);
    assert CacheOf(hits[j], p.pos[j], p.used, p.caches[j]);
    assert MinOk(p.caches, p.mins, d);
    assert Held(p.caches, d);
    assert Lone(hits, d);
  }

  // ---- one turn after another ------------------------------------------------------------------

  /** A turn of a merge of short lists reads everything. */
  lemma BriefTurn(truth: Doc -> real, hits: seq<seq<Hit>>, t: Turn)
    requires TurnOk(truth, hits, t) && Brief(hits)
    ensures t.m.iters == {} && t.m.used == t.p.used && t.m.sorted == Ranking(truth, AllDocs(hits) - t.m.used)
  {
    BriefCloses(hits, t.m);
    WholeRanking(truth, hits, t.m);
  }

  lemma NobodyYielded(hits: seq<seq<Hit>>)
    ensures AllDocs(hits) - {} == AllDocs(hits)
  {
  }

  /** A turn that renews its window takes a full one. */
  lemma BriefRenewed(hits: seq<seq<Hit>>, t: Turn)
    requires Inv(hits, t.m) && t.m.iters == {} && Halfway(hits, t.p, t.v, t.m, t.x) && Renews(t.p, t.v, |hits|)
    ensures t.m.used == t.p.used && t.x.mins == t.x.maxs && |t.x.docids| == Full(|t.m.sorted|)
  {
    ClosedWindow(hits, t.m, t.x.docids, t.x.mins, t.x.maxs);
  }

  /** The window starts with the best pending document. */
  ghost predicate ShowsBest(p: Pool, x: View) {
    && x.docids != [] && |x.docids| == |x.mins| && p.sorted != {}
    && x.docids[0] in p.mins && p.mins[x.docids[0]] == x.mins[0]
    && InOrder(p.sorted)[0] == Entry(-x.mins[0], x.docids[0])
  }

  lemma BestShown(truth: Doc -> real, hits: seq<seq<Hit>>, t: Turn)
    requires TurnOk(truth, hits, t) && t.x.docids != []
    ensures ShowsBest(t.m, t.x)
  {
    FirstIsPending(truth, hits, t.m, t.x);
  }

  /** What a turn yields when its bounds are exact: the best pending document with its exact weight. */
  lemma BriefYield(t: Turn, q: Pool, w: View, s: Scored)
    requires Linked(t, q, w, s) && ShowsBest(t.m, t.x) && t.x.mins == t.x.maxs
    ensures s == Result(InOrder(t.m.sorted)[0]) && q.sorted == t.m.sorted - {InOrder(t.m.sorted)[0]}
    ensures q.iters == t.m.iters && w.mins == w.maxs && w.cacheLen == Some(TotalSize(q.caches))
    ensures |w.docids| + 1 == |t.x.docids| && |q.sorted| + 1 == |t.m.sorted|
  {
    assert s.1 == t.x.mins[0];
  }

  /** How a later turn gets its window; nothing else changes before the document is yielded. */
  lemma BriefLater(truth: Doc -> real, hits: seq<seq<Hit>>, t: Turn)
    requires TurnOk(truth, hits, t) && Brief(hits)
    requires t.p.iters == {} && t.v.mins == t.v.maxs && t.v.cacheLen == Some(TotalSize(t.p.caches))
    ensures t.m == t.p && t.x.mins == t.x.maxs
    ensures |t.x.docids| == NextShown(|t.m.sorted|, |t.v.docids|, TotalSize(t.m.caches))
    ensures |t.v.docids| < ORDER_VIOLATION - 1 ==> |t.m.sorted| <= |t.v.docids| + 1
  {
    ClosedRenews(t.p, t.v, |hits|);
    if Renews(t.p, t.v, |hits|) { BriefRenewed(hits, t); }
  }

  /** Where the merge stands at turn k: everything is read, what is pending is the order from k on, and
      the bounds of the window are exact. */
  ghost predicate Standing(order: seq<Entry>, t: Turn, k: nat) {
    && t.m.iters == {} && t.x.mins == t.x.maxs
    && k <= |order| && InOrder(t.m.sorted) == order[k..]
  }

  lemma OrderNext(sorted: set<Entry>, order: seq<Entry>, k: nat)
    requires sorted != {} && k <= |order| && InOrder(sorted) == order[k..]
    ensures k < |order| && InOrder(sorted)[0] == order[k]
    ensures InOrder(sorted - {InOrder(sorted)[0]}) == order[k + 1..]
  {
    InOrderTail(sorted);
    DropMore(order, k);
  }

  lemma StandingNext(order: seq<Entry>, t: Turn, u: Turn, s: Scored, k: nat)
    requires Standing(order, t, k) && Succeeds(t, u, s)
    ensures k < |order| && s == Result(order[k]) && Standing(order, u, k + 1)
  {
    OrderNext(t.m.sorted, order, k);
  }

  /** What leads from one turn to the next once everything is read: the best pending document goes. */
  ghost predicate Succeeds(t: Turn, u: Turn, s: Scored) {
    && t.m.sorted != {} && s == Result(InOrder(t.m.sorted)[0])
    && u.m.sorted == t.m.sorted - {InOrder(t.m.sorted)[0]} && u.m.iters == {} && u.x.mins == u.x.maxs
  }

  /** How many documents are pending and shown after it. */
  predicate CountsDown(pending: nat, shown: nat, cached: nat, pending1: nat, left: nat, shown1: nat) {
    && pending1 + 1 == pending && left + 1 == shown && shown1 == NextShown(pending1, left, cached)
    && (left < ORDER_VIOLATION - 1 ==> pending1 <= left + 1)
  }

  ghost predicate TurnCounts(t: Turn, u: Turn) {
    CountsDown(|t.m.sorted|, |t.x.docids|, TotalSize(u.m.caches), |u.m.sorted|, |u.v.docids|, |u.x.docids|)
  }

  lemma BriefSucceeds(truth: Doc -> real, hits: seq<seq<Hit>>, t: Turn, u: Turn, s: Scored)
    requires Brief(hits) && TurnOk(truth, hits, u) && Linked(t, u.p, u.v, s)
    requires t.m.iters == {} && t.x.mins == t.x.maxs && ShowsBest(t.m, t.x)
    ensures Succeeds(t, u, s) && TurnCounts(t, u)
  {
    BriefYield(t, u.p, u.v, s);
    BriefLater(truth, hits, u);
  }

  lemma BestShownAt(truth: Doc -> real, hits: seq<seq<Hit>>, turns: seq<Turn>, out: seq<Scored>, k: nat)
    requires Steps(truth, hits, turns, out) && k + 1 < |turns|
    ensures ShowsBest(turns[k].m, turns[k].x)
  {
    TurnAt(truth, hits, turns, out, k);
    LinkAt(truth, hits, turns, out, k);
    BestShown(truth, hits, turns[k]);
  }

  lemma SucceedsAt(truth: Doc -> real, hits: seq<seq<Hit>>, turns: seq<Turn>, out: seq<Scored>, k: nat)
    requires Brief(hits) && Steps(truth, hits, turns, out) && k + 1 < |turns|
    requires turns[k].m.iters == {} && turns[k].x.mins == turns[k].x.maxs
    ensures Succeeds(turns[k], turns[k + 1], out[k]) && TurnCounts(turns[k], turns[k + 1])
  {
    var n := k + 1;
    BestShownAt(truth, hits, turns, out, k);
    TurnAt(truth, hits, turns, out, n);
    LinkAt(truth, hits, turns, out, k);
    BriefSucceeds(truth, hits, turns[k], turns[n], out[k]);
  }

  lemma StandingFirst(truth: Doc -> real, hits: seq<seq<Hit>>, turns: seq<Turn>, out: seq<Scored>)
    requires Brief(hits) && Steps(truth, hits, turns, out) && turns != []
    ensures Standing(Order(truth, hits), turns[0], 0) && CourseAt(hits, Order(truth, hits), turns[0])
  {
    TurnAt(truth, hits, turns, out, 0);
    FirstTurn(truth, hits, turns, out);
    BriefTurn(truth, hits, turns[0]);
    FirstRenews(turns[0].p, turns[0].v, |hits|);
    BriefRenewed(hits, turns[0]);
    NobodyYielded(hits);
    CourseStarts(|Order(truth, hits)|, WorstThreeLone(hits, Order(truth, hits)));
  }

  /** Up to any turn the results are those of the order. */
  lemma {:induction false} StandingAt(truth: Doc -> real, hits: seq<seq<Hit>>, turns: seq<Turn>, out: seq<Scored>,
                                      order: seq<Entry>, k: nat)
    requires Brief(hits) && Steps(truth, hits, turns, out) && k < |turns| && order == Order(truth, hits)
    ensures Standing(order, turns[k], k) && k <= |out| && out[..k] == Listed(order)[..k]
  {
    if k == 0 {
      StandingFirst(truth, hits, turns, out);
    } else {
      StandingAt(truth, hits, turns, out, order, k - 1);
      SucceedsAt(truth, hits, turns, out, k - 1);
      StandingNext(order, turns[k - 1], turns[k], out[k - 1], k - 1);
      PrefixSnoc(out, k);
      PrefixSnoc(Listed(order), k);
    }
  }

  // ---- the surplus of pending documents over the window ----------------------------------------

  /** With `pending` documents pending and `shown` in the window: as long as the surplus is one more than
      a multiple of 13 the last document is on its way to be lost, which only three lone documents seal. */
  predicate OnCourse(n: nat, lone: bool, pending: nat, shown: nat) {
    && shown <= pending
    && (Uneven(n) && lone ==> (pending - shown) % 13 == 1)
    && ((pending - shown) % 13 == 1 ==> Uneven(n))
    && (pending == shown + 1 && shown < ORDER_VIOLATION ==> lone)
  }

  lemma CourseStarts(n: nat, lone: bool)
    ensures OnCourse(n, lone, n, Full(n))
  {
  }

  /** The next turn: one document less is pending, and with `cached` scores the window is renewed or not. */
  lemma CourseHolds(n: nat, lone: bool, pending: nat, shown: nat, cached: nat, pending1: nat, left: nat, shown1: nat)
    requires OnCourse(n, lone, pending, shown) && CountsDown(pending, shown, cached, pending1, left, shown1)
    requires CachedWell(lone, pending1, cached)
    ensures OnCourse(n, lone, pending1, shown1)
  {
  }

  /** No document is cached twice when the last three are lone, and three cached scores make those lone. */
  predicate CachedWell(lone: bool, pending: nat, cached: nat) {
    pending <= cached && (lone && pending <= 3 ==> cached == pending) && (pending == 3 && cached == 3 ==> lone)
  }

  /** When nothing is shown any more the course has come true. */
  lemma CourseEnds(n: nat, lone: bool, pending: nat)
    requires OnCourse(n, lone, pending, 0) && pending <= 1
    ensures pending == (if Uneven(n) && lone then 1 else 0)
  {
  }

  lemma PendingOfOrder(p: Pool, order: seq<Entry>, k: nat, d: Doc)
    requires k <= |order| && InOrder(p.sorted) == order[k..] && SortedRight(p.mins, p.sorted) && d in p.mins
    ensures exists j :: k <= j < |order| && order[j].doc == d
  {
    EntriesRight(p.mins, p.sorted);
    var e := Entry(-p.mins[d], d);
    assert e in InOrder(p.sorted);
    var j :| 0 <= j < |order| - k && order[k..][j] == e;
    assert order[k + j].doc == d;
  }

  lemma OrderIsPending(p: Pool, order: seq<Entry>, k: nat, j: nat)
    requires k <= j < |order| && InOrder(p.sorted) == order[k..] && SortedRight(p.mins, p.sorted)
    ensures order[j].doc in p.mins
  {
    EntriesRight(p.mins, p.sorted);
    assert order[k..][j - k] == order[j];
    assert order[j] in InOrder(p.sorted);
  }

  /** The caches hold each of the last documents once exactly when those are lone. */
  lemma CachedAt(hits: seq<seq<Hit>>, p: Pool, order: seq<Entry>, k: nat)
    requires Inv(hits, p) && p.iters == {} && k <= |order| && InOrder(p.sorted) == order[k..]
    ensures CachedWell(WorstThreeLone(hits, order), |p.sorted|, TotalSize(p.caches))
  {
    PendingAtMostCached(p);
    CachedOnceIff(hits, p);
    if WorstThreeLone(hits, order) && |p.sorted| <= 3 {
      forall d | d in p.mins
        ensures Lone(hits, d)
      {
        PendingOfOrder(p, order, k, d);
      }
    }
    if |p.sorted| == 3 && TotalSize(p.caches) == 3 {
      forall j | |order| - 3 <= j < |order|
        ensures Lone(hits, order[j].doc)
      {
        OrderIsPending(p, order, k, j);
      }
    }
  }

  ghost predicate CourseAt(hits: seq<seq<Hit>>, order: seq<Entry>, t: Turn) {
    OnCourse(|order|, WorstThreeLone(hits, order), |t.m.sorted|, |t.x.docids|)
  }

  lemma CourseNext(hits: seq<seq<Hit>>, order: seq<Entry>, t: Turn, u: Turn)
    requires CachedWell(WorstThreeLone(hits, order), |u.m.sorted|, TotalSize(u.m.caches))
    requires TurnCounts(t, u) && CourseAt(hits, order, t)
    ensures CourseAt(hits, order, u)
  {
    CourseHolds(|order|, WorstThreeLone(hits, order), |t.m.sorted|, |t.x.docids|, TotalSize(u.m.caches),
                |u.m.sorted|, |u.v.docids|, |u.x.docids|);
  }

  lemma CachedWellAt(truth: Doc -> real, hits: seq<seq<Hit>>, turns: seq<Turn>, out: seq<Scored>,
                     order: seq<Entry>, k: nat)
    requires Steps(truth, hits, turns, out) && k < |turns| && Standing(order, turns[k], k)
    ensures CachedWell(WorstThreeLone(hits, order), |turns[k].m.sorted|, TotalSize(turns[k].m.caches))
  {
    TurnAt(truth, hits, turns, out, k);
    CachedAt(hits, turns[k].m, order, k);
  }

  lemma {:induction false} CourseKept(truth: Doc -> real, hits: seq<seq<Hit>>, turns: seq<Turn>, out: seq<Scored>,
                                      order: seq<Entry>, k: nat)
    requires Brief(hits) && Steps(truth, hits, turns, out) && k < |turns| && order == Order(truth, hits)
    ensures CourseAt(hits, order, turns[k])
  {
    if k == 0 {
      StandingFirst(truth, hits, turns, out);
    } else {
      CourseKept(truth, hits, turns, out, order, k - 1);
      StandingAt(truth, hits, turns, out, order, k - 1);
      StandingAt(truth, hits, turns, out, order, k);
      SucceedsAt(truth, hits, turns, out, k - 1);
      CachedWellAt(truth, hits, turns, out, order, k);
      CourseNext(hits, order, turns[k - 1], turns[k]);
    }
  }

  /** The whole order, or all of it but the last. */
  ghost function Surviving(order: seq<Entry>, loses: bool): (out: seq<Scored>)
    requires loses ==> order != []
  {
    if loses then Listed(order)[..|order| - 1] else Listed(order)
  }

  /** What the merge of short lists yields: all documents, but for the last one when the order loses it. */
  ghost function ShortResult(truth: Doc -> real, hits: seq<seq<Hit>>): seq<Scored> {
    var order := Order(truth, hits);
    Surviving(order, LosesLast(hits, order))
  }

  // ---- the order in words ----------------------------------------------------------------------

  /** Result a has more weight than b, or the same and a smaller id. */
  predicate Before(a: Scored, b: Scored) {
    a.1 > b.1 || (a.1 == b.1 && a.0 < b.0)
  }

  ghost predicate Falls(out: seq<Scored>) {
    forall j, k :: 0 <= j < k < |out| ==> Before(out[j], out[k])
  }

  /** A ranking lists every document once with its total, better ones first, of equal ones the smaller id. */
  lemma RankingInWords(truth: Doc -> real, docs: set<Doc>)
    ensures var out := Listed(InOrder(Ranking(truth, docs)));
            && (forall k :: 0 <= k < |out| ==> out[k].0 in docs && out[k].1 == truth(out[k].0))
            && (forall d :: d in docs ==> (d, truth(d)) in out) && Falls(out)
  {
    var order := InOrder(Ranking(truth, docs));
    var out := Listed(order);
    forall k | 0 <= k < |out|
      ensures out[k].0 in docs && out[k].1 == truth(out[k].0)
    {
      assert order[k] in order;
    }
    forall d | d in docs
      ensures (d, truth(d)) in out
    {
      assert Entry(-truth(d), d) in order;
      var k :| 0 <= k < |order| && order[k] == Entry(-truth(d), d);
      assert out[k] == (d, truth(d));
    }
    forall j, k | 0 <= j < k < |out|
      ensures Before(out[j], out[k])
    {
      assert Below(order[j], order[k]);
    }
  }

  /** The one result that is missing comes after all others. */
  lemma MissingIsLast(all: seq<Scored>, s: Scored)
    requires Falls(all) && s in all && s !in all[..|all| - 1]
    ensures forall k :: 0 <= k < |all| - 1 ==> Before(all[k], s)
  {
    var k :| 0 <= k < |all| && all[k] == s;
    forall i | 0 <= i < |all| - 1
      ensures all[i] in all[..|all| - 1]
    {
      assert all[..|all| - 1][i] == all[i];
    }
  }

  /** The result for short lists in words: documents with their totals, better ones first, of equal ones the
      smaller id. When a document is missing, the order loses its last one, and it comes after all others. */
  lemma ShortInWords(truth: Doc -> real, hits: seq<seq<Hit>>, d: Doc)
    ensures var out := ShortResult(truth, hits);
            && (forall k :: 0 <= k < |out| ==> out[k].0 in AllDocs(hits) && out[k].1 == truth(out[k].0))
            && Falls(out)
            && (d in AllDocs(hits) && (d, truth(d)) !in out ==>
                  LosesLast(hits, Order(truth, hits)) && forall k :: 0 <= k < |out| ==> Before(out[k], (d, truth(d))))
  {
    var order := Order(truth, hits);
    RankingInWords(truth, AllDocs(hits));
    SurvivingInWords(Listed(order), order, LosesLast(hits, order), (d, truth(d)));
  }

  lemma SurvivingInWords(all: seq<Scored>, order: seq<Entry>, loses: bool, s: Scored)
    requires all == Listed(order) && Falls(all) && (loses ==> order != [])
    ensures var out := Surviving(order, loses);
            && Falls(out) && out <= all
            && (s in all && s !in out ==> loses && forall k :: 0 <= k < |out| ==> Before(out[k], s))
  {
    if loses && s in all && s !in all[..|all| - 1] { MissingIsLast(all, s); }
  }

  lemma ShortSize(truth: Doc -> real, hits: seq<seq<Hit>>)
    ensures var order := Order(truth, hits);
            |ShortResult(truth, hits)| == if LosesLast(hits, order) then |order| - 1 else |order|
  {
  }

  /** With nothing open the generator does not raise. */
  lemma ClosedNoneOnCap(hits: seq<seq<Hit>>, p: Pool, d: Doc)
    requires Ready(hits, p) && p.iters == {}
    ensures NoneOnCap(p, d)
  {
    forall i | 0 <= i < |p.caches|
      ensures !OnlyOnCap(p, i, d)
    {
      if OnlyOnCap(p, i, d) { CrashNeedsWear(hits, p, i, d); }
    }
  }

  lemma BriefEnd(truth: Doc -> real, hits: seq<seq<Hit>>, t: Turn, end: Ending)
    requires Brief(hits) && TurnOk(truth, hits, t) && EndsWith(t, end)
    ensures end == Exhausted && t.x.docids == [] && |t.m.sorted| <= 1
  {
    BriefCloses(hits, t.m);
    if end == EmptyCache { ClosedNoneOnCap(hits, t.m, t.x.docids[0]); }
  }

  lemma BriefEndAt(truth: Doc -> real, hits: seq<seq<Hit>>, turns: seq<Turn>, out: seq<Scored>, end: Ending)
    requires Ran(truth, hits, turns, out, end) && Brief(hits)
    ensures var t := turns[|out|]; end == Exhausted && t.x.docids == [] && |t.m.sorted| <= 1
  {
    TurnAt(truth, hits, turns, out, |out|);
    BriefEnd(truth, hits, turns[|out|], end);
  }

  /** Merging lists that are all shorter than 40 yields exactly all documents, best true total first and by
      id among equals, with exact weights; the last one is dropped if and only if there are 16, 29, 42, ...
      documents and each of the three worst is in one list only. */
  lemma ShortRun(truth: Doc -> real, hits: seq<seq<Hit>>, turns: seq<Turn>, out: seq<Scored>, end: Ending)
    requires Ran(truth, hits, turns, out, end) && Brief(hits)
    ensures end == Exhausted && out == ShortResult(truth, hits)
  {
    var k, order := |out|, Order(truth, hits);
    StandingAt(truth, hits, turns, out, order, k);
    CourseKept(truth, hits, turns, out, order, k);
    BriefEndAt(truth, hits, turns, out, end);
    CourseEnds(|order|, WorstThreeLone(hits, order), |turns[k].m.sorted|);
    assert out[..k] == out;
  }
}
