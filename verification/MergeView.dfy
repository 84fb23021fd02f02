/** The window of the lazy merge between yields, and what one resumption of the generator keeps true. */
module MergeView {
  import opened Wrappers
  import opened Sequences
  import opened SortedSets
  import opened Scores
  import opened MergePool
  import opened MergeCounts

  /** The window the generator keeps between yields: documents left with their bounds, the accepted
      window they come from, and the running size of the caches (None before the first pass). */
  datatype View = View(docids: seq<Doc>, mins: seq<real>, maxs: seq<real>, window: seq<Doc>, cacheLen: Option<int>)

  /** The view is what is left of its accepted window. */
  ghost predicate TailOfWindow(v: View) {
    && |v.docids| == |v.mins| == |v.maxs| <= |v.window| <= ORDER_SIZE
    && v.docids == v.window[|v.window| - |v.docids|..]
  }

  /** The view lists the best pending documents with sound bounds. */
  ghost predicate Bounded(truth: Doc -> real, sorted: set<Entry>, docids: seq<Doc>, mins: seq<real>, maxs: seq<real>) {
    && |docids| == |mins| == |maxs| <= |sorted|
    && (forall j :: 0 <= j < |docids| ==> InOrder(sorted)[j] == Entry(-mins[j], docids[j]))
    && (forall j :: 0 <= j < |docids| ==> mins[j] <= truth(docids[j]) <= maxs[j])
  }

  /** Document a scores at least half of what d does. */
  predicate HalfOf(truth: Doc -> real, a: Doc, d: Doc) {
    2.0 * truth(a) >= truth(d)
  }

  /** Each of the first 13 documents of a full window scores at least half of what any document does that
      was not yielded by then. */
  ghost predicate Halved(truth: Doc -> real, used: set<Doc>, window: seq<Doc>) {
    |window| == ORDER_SIZE ==> forall i, d {:trigger HalfOf(truth, window[i], d)} ::
      0 <= i < ORDER_SIZE - 2 && d !in used && d !in window[..i] ==> HalfOf(truth, window[i], d)
  }

  /** What the view no longer shows of its window was yielded. */
  ghost predicate Spoken(used: set<Doc>, v: View) {
    |v.docids| <= |v.window| && forall d :: d in v.window[..|v.window| - |v.docids|] ==> d in used
  }

  /** The view is the unconsumed tail of an accepted window, aligned with the best pending documents. */
  ghost predicate Aligned(truth: Doc -> real, hits: seq<seq<Hit>>, p: Pool, v: View)
    requires |p.pos| == |hits|
  {
    && TailOfWindow(v) && Spoken(p.used, v)
    && InPlace(truth, hits, p.pos, v.window) && Halved(truth, p.used, v.window)
    && Bounded(truth, p.sorted, v.docids, v.mins, v.maxs) && Estimated(hits, v.docids, v.mins, v.maxs)
  }

  /** The bounds of the view were put together list by list. */
  ghost predicate Estimated(hits: seq<seq<Hit>>, docids: seq<Doc>, mins: seq<real>, maxs: seq<real>) {
    && |docids| == |mins| == |maxs|
    && forall j {:trigger Estimates(hits, docids[j], mins[j], maxs[j])} ::
         0 <= j < |docids| ==> Estimates(hits, docids[j], mins[j], maxs[j])
  }

  /** `cacheLen` is the total cache size; before the first pass every list is open with an empty cache. */
  ghost predicate Counted(p: Pool, v: View) {
    if v.cacheLen.Some? then v.cacheLen.value == TotalSize(p.caches)
    else v.docids == [] && 0 in p.iters && p.caches != [] && p.caches[0] == map[]
  }

  /** At most one pending document is missing from a nearly used-up view. */
  ghost predicate Trailing(p: Pool, v: View) {
    v.cacheLen.Some? && |v.docids| < ORDER_VIOLATION - 1 ==> |p.sorted| <= |v.docids| + 1
  }

  /** What holds between two resumptions. */
  ghost predicate Coherent(truth: Doc -> real, hits: seq<seq<Hit>>, p: Pool, v: View) {
    Inv(hits, p) && AllPaced(hits, p) && Aligned(truth, hits, p, v) && Counted(p, v) && Trailing(p, v)
  }

  /** Everything is read, three scores or fewer are cached, and one pending document is not in the view:
      no window will be computed any more, so that document will never be yielded. */
  ghost predicate Stranded(p: Pool, v: View) {
    && p.iters == {} && v.cacheLen.Some? && v.cacheLen.value <= ORDER_VIOLATION
    && |v.docids| < ORDER_VIOLATION && |p.sorted| == |v.docids| + 1
  }

  /** The document sits on the cap of open list i and is all its cache holds. */
  predicate OnlyOnCap(p: Pool, i: nat, d: Doc) {
    i < |p.caches| && i < |p.unread| && d in p.caches[i] && p.caches[i][d] == p.unread[i] && p.caches[i].Keys == {d}
  }

  // ---- the first half of a resumption ----------------------------------------------------------

  /** When a new window is computed: a list is short, or the window runs low while the caches do not. */
  ghost predicate Renews(p: Pool, v: View, n: nat) {
    || (exists i :: 0 <= i < n && Short(p, i))
    || (v.cacheLen.Some? && v.cacheLen.value > ORDER_VIOLATION && |v.docids| < ORDER_VIOLATION)
  }

  /** Whatever window is computed in this state, it is accepted. */
  ghost predicate Accepts(p: Pool) {
    forall docs, lows, highs {:trigger IsWindow(p, docs, lows, highs)} ::
      IsWindow(p, docs, lows, highs) ==> WindowOk(lows, highs, Sum(p.unread))
  }

  lemma SettledBounded(truth: Doc -> real, hits: seq<seq<Hit>>, p: Pool,
                       docs: seq<Doc>, lows: seq<real>, highs: seq<real>)
    requires IsTruth(truth, hits)
    requires Inv(hits, p) && IsWindow(p, docs, lows, highs)
    ensures Bounded(truth, p.sorted, docs, lows, highs)
  {
    forall j | 0 <= j < |docs|
      ensures InOrder(p.sorted)[j] == Entry(-lows[j], docs[j]) && lows[j] <= truth(docs[j]) <= highs[j]
    {
      assert Slot(p, InOrder(p.sorted)[j], docs[j], lows[j], highs[j]);
      WindowTruth(truth, hits, p, docs, lows, highs, j);
    }
  }

  lemma SettledEstimated(hits: seq<seq<Hit>>, p: Pool, docs: seq<Doc>, lows: seq<real>, highs: seq<real>)
    requires Inv(hits, p) && IsWindow(p, docs, lows, highs)
    ensures Estimated(hits, docs, lows, highs)
  {
    forall j | 0 <= j < |docs|
      ensures Estimates(hits, docs[j], lows[j], highs[j])
    {
      assert Slot(p, InOrder(p.sorted)[j], docs[j], lows[j], highs[j]);
      WindowBounds(hits, p, docs, lows, highs, j);
      PendingEstimated(hits, p, docs[j]);
    }
  }

  /** The upper bound of a pending document exceeds its lower bound by the sum of the caps at most. */
  lemma CappedBelow(hits: seq<seq<Hit>>, p: Pool, d: Doc)
    requires Inv(hits, p) && d in p.mins
    ensures Sum(Capped(p.caches, p.unread, d)) <= p.mins[d] + Sum(p.unread)
  {
    var known := Known(p.caches, d);
    assert MinOk(p.caches, p.mins, d);
    var both := seq(|known|, i requires 0 <= i < |known| => known[i] + p.unread[i]);
    SumAdd(known, p.unread, both);
    SumMonotone(Capped(p.caches, p.unread, d), both);
  }

  /** A pending document that is not among the first i has no better lower bound than the one at i. */
  lemma MinBelowSlot(hits: seq<seq<Hit>>, p: Pool, docs: seq<Doc>, lows: seq<real>, highs: seq<real>, i: nat, d: Doc)
    requires Inv(hits, p) && IsWindow(p, docs, lows, highs) && i < |docs| && d in p.mins && d !in docs[..i]
    ensures p.mins[d] <= lows[i]
  {
    var order := InOrder(p.sorted);
    EntriesRight(p.mins, p.sorted);
    assert Entry(-p.mins[d], d) in order;
    var k :| 0 <= k < |order| && order[k] == Entry(-p.mins[d], d);
    assert Slot(p, order[i], docs[i], lows[i], highs[i]);
    forall l | 0 <= l < i
      ensures order[l].doc in docs[..i]
    {
      assert Slot(p, order[l], docs[l], lows[l], highs[l]);
      assert docs[..i][l] == order[l].doc;
    }
    if k > i { assert Below(order[i], order[k]); }
  }

  /** What can come after one of the first 13 documents of an accepted window of fifteen scores at most
      twice as much. */
  lemma AcceptedHalved(truth: Doc -> real, hits: seq<seq<Hit>>, p: Pool,
                       docs: seq<Doc>, lows: seq<real>, highs: seq<real>)
    requires IsTruth(truth, hits)
    requires Inv(hits, p) && IsWindow(p, docs, lows, highs) && WindowOk(lows, highs, Sum(p.unread))
    ensures Halved(truth, p.used, docs)
  {
    if |docs| == ORDER_SIZE {
      forall i, d | 0 <= i < ORDER_SIZE - 2 && d !in p.used && d !in docs[..i]
        ensures HalfOf(truth, docs[i], d)
      {
        WindowTruth(truth, hits, p, docs, lows, highs, i);
        WindowFalls(hits, p, docs, lows, highs, i, 12);
        ReadIsUsedOrPending(hits, p, d);
        WindowBounds(hits, p, docs, lows, highs, i);
        MinsNonNegative(hits, p, docs[i]);
        if d in p.mins {
          BoundsSound(hits, p, d);
          CappedBelow(hits, p, d);
          MinBelowSlot(hits, p, docs, lows, highs, i, d);
        } else {
          UnreadTruth(truth, hits, p, d);
        }
      }
    }
  }

  /** A freshly accepted window is aligned with the pending documents and keeps its order guarantee. */
  lemma SettledAligned(truth: Doc -> real, hits: seq<seq<Hit>>, p: Pool,
                       docs: seq<Doc>, lows: seq<real>, highs: seq<real>, n: Option<int>)
    requires IsTruth(truth, hits)
    requires Inv(hits, p) && IsWindow(p, docs, lows, highs) && WindowOk(lows, highs, Sum(p.unread))
    ensures Aligned(truth, hits, p, View(docs, lows, highs, docs, n))
  {
    AcceptedWindow(truth, hits, p, docs, lows, highs);
    AcceptedHalved(truth, hits, p, docs, lows, highs);
    SettledBounded(truth, hits, p, docs, lows, highs);
    SettledEstimated(hits, p, docs, lows, highs);
  }

  lemma EstimatedRest(hits: seq<seq<Hit>>, docids: seq<Doc>, mins: seq<real>, maxs: seq<real>)
    requires Estimated(hits, docids, mins, maxs) && docids != []
    ensures Estimates(hits, docids[0], mins[0], maxs[0]) && Estimated(hits, docids[1..], mins[1..], maxs[1..])
  {
    forall j | 0 <= j < |docids| - 1
      ensures Estimates(hits, docids[1..][j], mins[1..][j], maxs[1..][j])
    {
      assert Estimates(hits, docids[j + 1], mins[j + 1], maxs[j + 1]);
    }
  }

  /** With every open list stocked, three cached scores or fewer mean that either nothing is open or a
      list was just short. */
  lemma FewCachedAllClosed(p: Pool)
    requires forall i :: i in p.iters ==> i < |p.caches|
    requires TotalSize(p.caches) <= ORDER_VIOLATION
    requires forall i :: 0 <= i < |p.caches| ==> !Short(p, i)
    ensures p.iters == {}
  {
    if p.iters != {} {
      var i := Pick(p.iters);
      SizeAtMostTotal(p.caches, i);
      var short := Short(p, i);
    }
  }

  /** After the pass over the lists every open one is stocked. */
  lemma RefilledReady(hits: seq<seq<Hit>>, p: Pool)
    requires Inv(hits, p) && AllPaced(hits, p)
    ensures Ready(hits, Fill(hits, p, |hits|)) && Further(p, Fill(hits, p, |hits|))
    ensures (forall i :: 0 <= i < |hits| ==> !Short(p, i)) ==> Fill(hits, p, |hits|) == p
  {
    FillKeeps(hits, p, |hits|);
    forall j | 0 <= j < |hits|
      ensures Stocked(Fill(hits, p, |hits|), j)
    {
      FillStocks(hits, p, |hits|, j);
    }
    if forall i :: 0 <= i < |hits| ==> !Short(p, i) { FillNothing(hits, p, |hits|); }
  }

  /** The state from which a document is yielded or the merge stops. */
  ghost predicate Prepared(truth: Doc -> real, hits: seq<seq<Hit>>, p: Pool, v: View) {
    && Ready(hits, p) && Aligned(truth, hits, p, v) && v.cacheLen == Some(TotalSize(p.caches))
    && (|v.docids| < ORDER_VIOLATION ==> |p.sorted| <= |v.docids| + 1)
  }

  /** Keeping the old window is sound: nothing was read, and at most one pending document is outside it. */
  lemma KeptWindow(truth: Doc -> real, hits: seq<seq<Hit>>, p: Pool, v: View)
    requires Coherent(truth, hits, p, v) && |hits| > 0 && !Renews(p, v, |hits|)
    ensures Prepared(truth, hits, p, v)
    ensures v.docids == [] && p.sorted != {} ==> Stranded(p, v)
  {
    assert |p.caches| == |hits|;
    var short := Short(p, 0);
    PendingAtMostCached(p);
    assert forall i :: 0 <= i < |hits| ==> !Short(p, i);
    RefilledReady(hits, p);
    if |v.docids| < ORDER_VIOLATION { FewCachedAllClosed(p); }
  }

  /** The first half of a resumption, from (p, v) to (m, x): nothing is yielded, what was read stays read,
      a renewed window is the accepted window of m and anything else stays as it was. Lists are read
      beyond the refill only when a window was rejected. */
  ghost predicate Halfway(hits: seq<seq<Hit>>, p: Pool, v: View, m: Pool, x: View) {
    && |p.pos| == |p.unread| == |p.caches| == |hits|
    && Further(p, m) && (p.iters == {} ==> m == p)
    && (Accepts(Fill(hits, p, |hits|)) ==> m == Fill(hits, p, |hits|))
    && (if Renews(p, v, |hits|) then
          IsWindow(m, x.docids, x.mins, x.maxs) && WindowOk(x.mins, x.maxs, Sum(m.unread)) && x.window == x.docids
        else m == p && x == v)
  }

  /** The lists refilled, and what that means for the window. */
  lemma RefilledStep(truth: Doc -> real, hits: seq<seq<Hit>>, p: Pool, v: View, updated: bool, n: Option<int>)
    requires Coherent(truth, hits, p, v) && |hits| > 0
    requires updated <==> exists i :: 0 <= i < |hits| && Short(p, i)
    requires n == if updated then Some(TotalSize(Fill(hits, p, |hits|).caches)) else v.cacheLen
    ensures var q := Fill(hits, p, |hits|);
            Ready(hits, q) && Further(p, q) && (!updated ==> q == p) && (p.iters == {} ==> !updated)
    ensures var renewed := updated || (n.Some? && n.value > ORDER_VIOLATION && |v.docids| < ORDER_VIOLATION);
            && (renewed <==> Renews(p, v, |hits|))
            && (renewed ==> n == Some(TotalSize(Fill(hits, p, |hits|).caches)))
            && (!renewed ==> Prepared(truth, hits, p, v) && Halfway(hits, p, v, p, v))
  {
    RefilledReady(hits, p);
    if !Renews(p, v, |hits|) { KeptWindow(truth, hits, p, v); }
  }

  lemma NewHalfway(hits: seq<seq<Hit>>, p: Pool, v: View, m: Pool, x: View)
    requires |p.pos| == |p.unread| == |p.caches| == |hits| && Renews(p, v, |hits|)
    requires Further(p, m) && (p.iters == {} ==> m == p)
    requires Accepts(Fill(hits, p, |hits|)) ==> m == Fill(hits, p, |hits|)
    requires IsWindow(m, x.docids, x.mins, x.maxs) && WindowOk(x.mins, x.maxs, Sum(m.unread)) && x.window == x.docids
    ensures Halfway(hits, p, v, m, x)
  {
  }

  lemma FurtherStill(p: Pool, q: Pool, r: Pool)
    requires Further(p, q) && Further(q, r)
    ensures Further(p, r)
  {
  }

  /** A stranded merge reads nothing and keeps its window. */
  lemma StrandedKeeps(p: Pool, v: View, n: nat)
    requires Stranded(p, v)
    ensures !Renews(p, v, n)
  {
  }

  // ---- the second half of a resumption ---------------------------------------------------------

  /** The view after its first document was yielded. */
  ghost function Rest(v: View, n: Option<int>): View
    requires v.docids != [] && |v.docids| == |v.mins| == |v.maxs|
  {
    v.(docids := v.docids[1..], mins := v.mins[1..], maxs := v.maxs[1..], cacheLen := n)
  }

  lemma FirstIsPending(truth: Doc -> real, hits: seq<seq<Hit>>, p: Pool, v: View)
    requires Inv(hits, p) && Aligned(truth, hits, p, v) && v.docids != []
    ensures v.docids[0] in p.mins && p.mins[v.docids[0]] == v.mins[0]
    ensures Entry(-p.mins[v.docids[0]], v.docids[0]) in p.sorted
  {
    var order := InOrder(p.sorted);
    assert order[0] in order && IsEntry(p.mins, p.sorted, order[0]);
    assert HasEntry(p.mins, p.sorted, v.docids[0]);
  }

  /** What is left of the window lines up with what is left of the pending documents. */
  lemma RestBounded(truth: Doc -> real, sorted: set<Entry>, docids: seq<Doc>, mins: seq<real>, maxs: seq<real>)
    requires Bounded(truth, sorted, docids, mins, maxs) && docids != []
    ensures var e := Entry(-mins[0], docids[0]);
            e in sorted && Bounded(truth, sorted - {e}, docids[1..], mins[1..], maxs[1..])
  {
    InOrderTail(sorted);
    var e := Entry(-mins[0], docids[0]);
    assert InOrder(sorted)[0] == e;
    forall j | 0 <= j < |docids| - 1
      ensures InOrder(sorted - {e})[j] == Entry(-mins[1..][j], docids[1..][j])
    {
      assert InOrder(sorted)[1..][j] == InOrder(sorted)[j + 1];
    }
  }

  lemma RestOfTail(v: View, n: Option<int>)
    requires TailOfWindow(v) && v.docids != []
    ensures TailOfWindow(Rest(v, n))
  {
    var k := |v.window| - |v.docids|;
    assert v.window[k..][1..] == v.window[k + 1..];
  }

  /** With one document more yielded, the guarantees of the window stand. */
  lemma RestHalved(truth: Doc -> real, used: set<Doc>, v: View, n: Option<int>)
    requires TailOfWindow(v) && Spoken(used, v) && Halved(truth, used, v.window) && v.docids != []
    ensures Spoken(used + {v.docids[0]}, Rest(v, n)) && Halved(truth, used + {v.docids[0]}, v.window)
  {
    var k := |v.window| - |v.docids|;
    assert v.window[k] == v.docids[0];
    PrefixSnoc(v.window, k + 1);
  }

  lemma RestCounted(p: Pool, q: Pool, v: View, d: Doc)
    requires v.docids != [] && |v.docids| == |v.mins| == |v.maxs|
    requires q.caches == Purged(p.caches, d) && |q.sorted| == |p.sorted| - 1 && q.iters == p.iters
    requires v.cacheLen == Some(TotalSize(p.caches))
    requires |v.docids| < ORDER_VIOLATION ==> |p.sorted| <= |v.docids| + 1
    ensures var w := Rest(v, Some(TotalSize(q.caches)));
            Counted(q, w) && Trailing(q, w) && (Stranded(p, v) ==> Stranded(q, w))
  {
    PurgedSize(p.caches, d);
  }

  /** Yielding the first document of the window keeps the window sound, and a stranded merge stranded. */
  lemma YieldAligned(truth: Doc -> real, p: Pool, q: Pool, v: View)
    requires TailOfWindow(v) && Bounded(truth, p.sorted, v.docids, v.mins, v.maxs) && v.docids != []
    requires q.caches == Purged(p.caches, v.docids[0]) && q.iters == p.iters
    requires q.sorted == p.sorted - {Entry(-v.mins[0], v.docids[0])}
    requires v.cacheLen == Some(TotalSize(p.caches))
    requires |v.docids| < ORDER_VIOLATION ==> |p.sorted| <= |v.docids| + 1
    ensures var w := Rest(v, Some(TotalSize(q.caches)));
            && TailOfWindow(w) && Bounded(truth, q.sorted, w.docids, w.mins, w.maxs)
            && Counted(q, w) && Trailing(q, w) && (Stranded(p, v) ==> Stranded(q, w))
  {
    RestBounded(truth, p.sorted, v.docids, v.mins, v.maxs);
    RestOfTail(v, Some(TotalSize(q.caches)));
    RestCounted(p, q, v, v.docids[0]);
  }

  /** w is the midpoint of an interval around the true total. */
  predicate Midpoint(low: real, high: real, total: real, w: real) {
    low <= total <= high && w + w == low + high
  }

  /** The weight is the midpoint of an interval around the total, put together list by list: exact where the
      document was read, and within the best score of the list elsewhere. */
  ghost predicate Weighed(hits: seq<seq<Hit>>, d: Doc, total: real, w: real) {
    exists low, high :: Estimates(hits, d, low, high) && Midpoint(low, high, total, w)
  }

  lemma IsWeighed(hits: seq<seq<Hit>>, d: Doc, total: real, w: real, low: real, high: real)
    requires Estimates(hits, d, low, high) && Midpoint(low, high, total, w)
    ensures Weighed(hits, d, total, w)
  {
  }

  lemma ReadIsMember(hits: seq<seq<Hit>>, pos: seq<nat>, d: Doc)
    requires |pos| == |hits| && !NotRead(hits, pos, d)
    requires forall i :: 0 <= i < |hits| ==> pos[i] <= |hits[i]|
    ensures d in AllDocs(hits)
  {
    var i :| 0 <= i < |hits| && Among(hits[i], pos[i], d);
    AllDocsHas(hits, i, pos[i], d);
  }

  /** Document d is fit to be yielded with weight w: it is a document of some list that was not yielded
      before, w is the midpoint of the interval [low, high] around its true total, and d is next in the
      accepted window, of which `left` documents remain. */
  ghost predicate Fit(truth: Doc -> real, hits: seq<seq<Hit>>, used: set<Doc>, window: seq<Doc>, left: nat,
                      d: Doc, w: real, low: real, high: real)
  {
    && d !in used && d in AllDocs(hits) && Estimates(hits, d, low, high) && Midpoint(low, high, truth(d), w)
    && left < |window| && window[|window| - left - 1] == d
  }

  lemma FirstIsFit(truth: Doc -> real, hits: seq<seq<Hit>>, p: Pool, v: View, w: real)
    requires Inv(hits, p) && Aligned(truth, hits, p, v) && v.docids != [] && w + w == v.mins[0] + v.maxs[0]
    ensures Fit(truth, hits, p.used, v.window, |v.docids| - 1, v.docids[0], w, v.mins[0], v.maxs[0])
  {
    FirstIsPending(truth, hits, p, v);
    EstimatedRest(hits, v.docids, v.mins, v.maxs);
    PendingUnused(hits, p, v.docids[0]);
    ReadIsMember(hits, p.pos, v.docids[0]);
  }

  /** Yielding the first document of a prepared window is sound and keeps everything. */
  lemma YieldDone(truth: Doc -> real, hits: seq<seq<Hit>>, p: Pool, v: View, q: Pool, w: View)
    requires Prepared(truth, hits, p, v) && v.docids != [] && v.docids[0] in p.mins
    requires q == Yielded(p, v.docids[0], q.unread) && CapsAfter(p, v.docids[0], q.unread)
    requires w == Rest(v, Some(TotalSize(q.caches)))
    ensures Coherent(truth, hits, q, w) && (Stranded(p, v) ==> Stranded(q, w))
    ensures w.window == v.window && |w.docids| == |v.docids| - 1 && |q.sorted| == |p.sorted| - 1
  {
    FirstIsPending(truth, hits, p, v);
    YieldKeeps(hits, p, v.docids[0], q.unread);
    YieldPaced(hits, p, v.docids[0], q.unread);
    YieldFields(p, q, v);
    YieldAligned(truth, p, q, v);
    RestHalved(truth, p.used, v, Some(TotalSize(q.caches)));
    EstimatedRest(hits, v.docids, v.mins, v.maxs);
  }

  lemma YieldFields(p: Pool, q: Pool, v: View)
    requires v.docids != [] && v.mins != [] && v.docids[0] in p.mins && p.mins[v.docids[0]] == v.mins[0]
    requires Entry(-v.mins[0], v.docids[0]) in p.sorted && q == Yielded(p, v.docids[0], q.unread)
    ensures q.caches == Purged(p.caches, v.docids[0]) && q.iters == p.iters && q.pos == p.pos
    ensures q.sorted == p.sorted - {Entry(-v.mins[0], v.docids[0])} && |q.sorted| == |p.sorted| - 1
  {
  }

  // ---- how far the lists were read when the merge ends -----------------------------------------

  const RAISE_DEPTH: nat := 610
  const STOP_DEPTH: nat := 650

  /** The generator can only die on a list of which at least 610 elements were read, and all of those but
      the popped one yielded. */
  lemma CrashNeedsWear(hits: seq<seq<Hit>>, p: Pool, i: nat, d: Doc)
    requires Ready(hits, p) && OnlyOnCap(p, i, d)
    ensures i < |hits| && i in p.iters && RAISE_DEPTH <= p.pos[i] <= |hits[i]|
    ensures forall x :: Among(hits[i], p.pos[i], x) ==> x == d || x in p.used
  {
    CachedBeatsUnread(hits, p, i, d);
    assert |p.caches[i].Keys| == |p.caches[i]|;
    ReadyOpenAreLong(hits, p, i);
    DepthAtEnd();
    assert CacheOf(hits[i], p.pos[i], p.used, p.caches[i]);
  }

  /** Either every list was read to its end and one document at most is pending, or nothing is pending and
      at least 650 elements were read from every list that is still open. */
  ghost predicate Spent(hits: seq<seq<Hit>>, p: Pool) {
    && |p.pos| == |hits|
    && if p.iters == {} then |p.sorted| <= 1
       else p.sorted == {} && forall i :: i in p.iters ==> i < |hits| && STOP_DEPTH <= p.pos[i] <= |hits[i]|
  }

  lemma EmptyIsDeep(hits: seq<seq<Hit>>, p: Pool, i: nat)
    requires Ready(hits, p) && p.sorted == {} && i in p.iters
    ensures i < |hits| && STOP_DEPTH <= p.pos[i] <= |hits[i]|
  {
    ReadyOpenAreLong(hits, p, i);
    CacheAtMostPending(p, i);
    DepthAtEnd();
  }

  /** When no document is left in the window the merge is spent. */
  lemma StopIsSpent(truth: Doc -> real, hits: seq<seq<Hit>>, p: Pool, v: View)
    requires Prepared(truth, hits, p, v) && v.docids == [] && (p.sorted != {} ==> Stranded(p, v))
    ensures Spent(hits, p)
  {
    if p.iters != {} {
      forall i | i in p.iters
        ensures i < |hits| && STOP_DEPTH <= p.pos[i] <= |hits[i]|
      {
        EmptyIsDeep(hits, p, i);
      }
    }
  }

  /** Of the first 650 documents of list i, or all when it has fewer, only d may be missing. */
  ghost predicate AllBut(hits: seq<seq<Hit>>, used: set<Doc>, i: nat, d: Doc) {
    i < |hits| && forall x :: Among(hits[i], STOP_DEPTH, x) ==> x in used || x == d
  }

  lemma OnePending(p: Pool) returns (d: Doc)
    requires SortedRight(p.mins, p.sorted) && |p.sorted| <= 1
    ensures forall x :: x in p.mins ==> x == d
  {
    d := if p.sorted == {} then 0 else Least(p.sorted).doc;
    forall x | x in p.mins
      ensures x == d
    {
      assert HasEntry(p.mins, p.sorted, x);
      if Entry(-p.mins[x], x) != Least(p.sorted) {
        assert {Entry(-p.mins[x], x), Least(p.sorted)} <= p.sorted;
        SubsetSize({Entry(-p.mins[x], x), Least(p.sorted)}, p.sorted);
      }
    }
  }

  /** A spent merge has yielded the first 650 documents of every list, but for one and the same document. */
  lemma SpentComplete(hits: seq<seq<Hit>>, p: Pool) returns (d: Doc)
    requires Inv(hits, p) && Spent(hits, p)
    ensures forall i :: 0 <= i < |hits| ==> AllBut(hits, p.used, i, d)
  {
    d := OnePending(p);
    forall i, x | 0 <= i < |hits| && Among(hits[i], STOP_DEPTH, x)
      ensures x in p.used || x == d
    {
      assert i in p.iters || p.pos[i] == |hits[i]|;
      assert Among(hits[i], p.pos[i], x);
      ReadUsedOrPending(hits, p, i, x);
    }
  }

  lemma CacheLoses(c: Cache, d: Doc)
    requires d in c
    ensures |c - {d}| == |c| - 1
    ensures c - {d} == map[] <==> c.Keys == {d}
  {
    assert (c - {d}).Keys == c.Keys - {d};
    assert |(c - {d}).Keys| == |c - {d}| && |c.Keys| == |c|;
  }
}
