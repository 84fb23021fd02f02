/** Arithmetic behind the lazy merge: scored lists, true totals, and the bounds known part-way through. */
module Scores {
  import opened SortedSets

  type Doc = int

  /** One element of a list: a document and its score in that list, already weighted. */
  datatype Hit = Hit(doc: Doc, score: real)

  /** One argument of the merge: a tree of (-score, docid), the length its counter reports, and its weight. */
  datatype Ranked = Ranked(tree: set<Entry>, length: int, weight: real)

  /** What the index promises of a word's tree: positive scores, no document twice, a positive weight. */
  ghost predicate IsRanked(l: Ranked) {
    && l.weight > 0.0
    && (forall e :: e in l.tree ==> e.neg < 0.0)
    && (forall a, b :: a in l.tree && b in l.tree && a.doc == b.doc ==> a == b)
  }

  /** The weighted score of an entry. */
  function Weighted(e: Entry, weight: real): real { -e.neg * weight }

  /** The hits of a list in the order its iterator produces them. */
  function Hits(l: Ranked): (h: seq<Hit>)
    ensures |h| == |l.tree|
  {
    var t := InOrder(l.tree);
    seq(|t|, k requires 0 <= k < |t| => Hit(t[k].doc, Weighted(t[k], l.weight)))
  }

  /** Hit k is the k-th entry of the tree: its document, and its score times the weight of the list. */
  lemma HitAt(l: Ranked, k: nat)
    requires k < |l.tree|
    ensures InOrder(l.tree)[k] in l.tree
    ensures Hits(l)[k] == Hit(InOrder(l.tree)[k].doc, -InOrder(l.tree)[k].neg * l.weight)
  {
    assert InOrder(l.tree)[k] in InOrder(l.tree);
  }

  /** Best first, all positive, every document once. */
  ghost predicate Descending(h: seq<Hit>) {
    && (forall k :: 0 <= k < |h| ==> h[k].score > 0.0)
    && (forall j, k :: 0 <= j < k < |h| ==> h[j].score >= h[k].score)
    && (forall j, k :: 0 <= j < k < |h| ==> h[j].doc != h[k].doc)
  }

  lemma WeightedOrder(a: Entry, b: Entry, w: real)
    requires w > 0.0 && a.neg <= b.neg < 0.0
    ensures Weighted(a, w) >= Weighted(b, w) > 0.0
  {
    assert (b.neg - a.neg) * w >= 0.0;
  }

  /** Iterating a tree of negated scores visits documents from best to worst. */
  lemma RankedDescends(l: Ranked)
    requires IsRanked(l)
    ensures Descending(Hits(l))
  {
    var t, h := InOrder(l.tree), Hits(l);
    forall k | 0 <= k < |h|
      ensures h[k].score > 0.0
    {
      assert t[k] in t;
      WeightedOrder(t[k], t[k], l.weight);
    }
    forall j, k | 0 <= j < k < |h|
      ensures h[j].score >= h[k].score && h[j].doc != h[k].doc
    {
      assert t[j] in t && t[k] in t && Below(t[j], t[k]);
      WeightedOrder(t[j], t[k], l.weight);
    }
  }

  ghost predicate Among(h: seq<Hit>, n: int, d: Doc) {
    exists k :: 0 <= k < n && k < |h| && h[k].doc == d
  }

  /** The score of a document in one list, zero when the list does not hold it. */
  ghost function ScoreIn(h: seq<Hit>, d: Doc): (s: real)
  {
    if Among(h, |h|, d) then
      var k :| 0 <= k < |h| && h[k].doc == d;
      h[k].score
    else 0.0
  }

  lemma ScoreAt(h: seq<Hit>, k: nat)
    requires Descending(h) && k < |h|
    ensures ScoreIn(h, h[k].doc) == h[k].score
  {
    assert Among(h, |h|, h[k].doc);
  }

  function Sum(u: seq<real>): (s: real)
  {
    if u == [] then 0.0 else Sum(u[..|u| - 1]) + u[|u| - 1]
  }

  lemma {:induction false} SumMonotone(u: seq<real>, v: seq<real>)
    requires |u| == |v|
    requires forall i :: 0 <= i < |u| ==> u[i] <= v[i]
    ensures Sum(u) <= Sum(v)
  {
    if |u| > 0 {
      SumMonotone(u[..|u| - 1], v[..|v| - 1]);
    }
  }

  lemma {:induction false} SumUpdate(u: seq<real>, i: nat, x: real)
    requires i < |u|
    ensures Sum(u[i := x]) == Sum(u) - u[i] + x
  {
    var n := |u| - 1;
    if i == n {
      assert u[i := x][..n] == u[..n];
    } else {
      SumUpdate(u[..n], i, x);
      assert u[i := x][..n] == u[..n][i := x];
    }
  }

  lemma {:induction false} SumZero(u: seq<real>)
    requires forall i :: 0 <= i < |u| ==> u[i] == 0.0
    ensures Sum(u) == 0.0
  {
    if |u| > 0 {
      SumZero(u[..|u| - 1]);
    }
  }

  /** The total the merge is after: the sum of the document's scores over all lists. */
  ghost function Total(hits: seq<seq<Hit>>, d: Doc): real {
    Sum(seq(|hits|, i requires 0 <= i < |hits| => ScoreIn(hits[i], d)))
  }

  /** The best score of a list. */
  function Top(h: seq<Hit>): real { if h == [] then 0.0 else h[0].score }

  /** What is known of a document's score in one list: the score itself, or no more than that the best of
      the list is not exceeded. */
  ghost predicate InBounds(h: seq<Hit>, d: Doc, low: real, high: real) {
    low == ScoreIn(h, d) == high || (low == 0.0 && ScoreIn(h, d) <= high <= Top(h))
  }

  ghost predicate ReadIn(h: seq<Hit>, d: Doc, low: real, high: real) {
    Among(h, |h|, d) && low == ScoreIn(h, d) == high
  }

  /** Bounds list by list, exact in at least one list that holds the document. */
  ghost predicate ListBounds(hits: seq<seq<Hit>>, d: Doc, lows: seq<real>, highs: seq<real>) {
    && |lows| == |highs| == |hits|
    && (forall i {:trigger InBounds(hits[i], d, lows[i], highs[i])} ::
          0 <= i < |hits| ==> InBounds(hits[i], d, lows[i], highs[i]))
    && (exists i {:trigger ReadIn(hits[i], d, lows[i], highs[i])} ::
          0 <= i < |hits| && ReadIn(hits[i], d, lows[i], highs[i]))
  }

  /** An interval for the document's total made of such bounds. */
  ghost predicate Estimates(hits: seq<seq<Hit>>, d: Doc, low: real, high: real) {
    exists lows, highs :: ListBounds(hits, d, lows, highs) && low == Sum(lows) && high == Sum(highs)
  }

  type Cache = map<Doc, real>

  /** Per list, the cached score of a document or zero: its sum is the lower bound. */
  ghost function Known(caches: seq<Cache>, d: Doc): (u: seq<real>)
    ensures |u| == |caches|
  {
    seq(|caches|, i requires 0 <= i < |caches| => if d in caches[i] then caches[i][d] else 0.0)
  }

  /** Per list, the cached score or the most an unread element could score: its sum is the upper bound. */
  ghost function Capped(caches: seq<Cache>, unread: seq<real>, d: Doc): (u: seq<real>)
    requires |unread| == |caches|
    ensures |u| == |caches|
  {
    seq(|caches|, i requires 0 <= i < |caches| => if d in caches[i] then caches[i][d] else unread[i])
  }

  /** sum(unread[i] for i in ids) */
  function SumAt(unread: seq<real>, ids: seq<nat>): real
    requires forall j :: 0 <= j < |ids| ==> ids[j] < |unread|
  {
    if ids == [] then 0.0 else SumAt(unread, ids[..|ids| - 1]) + unread[ids[|ids| - 1]]
  }

  ghost predicate Distinct(ids: seq<nat>) {
    forall j, k :: 0 <= j < k < |ids| ==> ids[j] != ids[k]
  }

  ghost function Without(unread: seq<real>, ids: seq<nat>): (u: seq<real>)
    ensures |u| == |unread|
  {
    seq(|unread|, i requires 0 <= i < |unread| => if i in ids then 0.0 else unread[i])
  }

  lemma {:induction false} SumWithout(unread: seq<real>, ids: seq<nat>)
    requires Distinct(ids)
    requires forall j :: 0 <= j < |ids| ==> ids[j] < |unread|
    ensures Sum(Without(unread, ids)) == Sum(unread) - SumAt(unread, ids)
  {
    if ids == [] {
      assert Without(unread, ids) == unread;
    } else {
      var last, init := ids[|ids| - 1], ids[..|ids| - 1];
      SumWithout(unread, init);
      assert last !in init;
      assert ids == init + [last];
      assert Without(unread, ids) == Without(unread, init)[last := 0.0];
      SumUpdate(Without(unread, init), last, 0.0);
    }
  }

  lemma {:induction false} SumAdd(u: seq<real>, v: seq<real>, w: seq<real>)
    requires |u| == |v| == |w|
    requires forall i :: 0 <= i < |u| ==> w[i] == u[i] + v[i]
    ensures Sum(w) == Sum(u) + Sum(v)
  {
    if |u| > 0 {
      var n := |u| - 1;
      SumAdd(u[..n], v[..n], w[..n]);
    }
  }

  /** The shortcut for the upper bound (total of the caps, less those of the lists that hold the document,
      plus the lower bound) equals the plain list-by-list sum. */
  lemma FastUpperBound(caches: seq<Cache>, unread: seq<real>, ids: seq<nat>, d: Doc)
    requires |unread| == |caches| && Distinct(ids)
    requires forall i :: 0 <= i < |caches| ==> (i in ids <==> d in caches[i])
    requires forall j :: 0 <= j < |ids| ==> ids[j] < |unread|
    ensures Sum(Capped(caches, unread, d)) == Sum(unread) - SumAt(unread, ids) + Sum(Known(caches, d))
  {
    SumWithout(unread, ids);
    SumAdd(Without(unread, ids), Known(caches, d), Capped(caches, unread, d));
  }
}
