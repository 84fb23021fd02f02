/** Concrete merges that lose documents or raise, for every size at which they do. */
module MergeLoss {
  import opened SortedSets
  import opened Scores
  import opened MergePool
  import opened MergeCounts
  import opened MergeView
  import opened MergeRun
  import opened MergeShort
  import opened MergeSwap
  import opened MergeWear
  import opened LazyUnion

  // ---- two short words -------------------------------------------------------------------------

  /** n entries for the documents after `base`, each with its own score. */
  function Ladder(base: int, n: nat): (t: set<Entry>)
    ensures |t| == n
    ensures forall e :: e in t <==> base < e.doc <= base + n && e.neg == -((e.doc - base) as real)
  {
    if n == 0 then {} else Ladder(base, n - 1) + {Entry(-(n as real), base + n)}
  }

  /** A word in the documents base+1 to base+n. */
  method MakeWord(base: int, n: nat) returns (k: Ranked)
    ensures IsRanked(k) && |Hits(k)| == n
    ensures forall d :: Among(Hits(k), n, d) ==> base < d <= base + n
  {
    k := Ranked(Ladder(base, n), n, 1.0);
    ghost var order, h := InOrder(k.tree), Hits(k);
    forall d | Among(h, n, d)
      ensures base < d <= base + n
    {
      var j :| 0 <= j < n && h[j].doc == d;
      assert order[j] in order;
    }
  }

  lemma PairDocs(a: seq<Hit>, b: seq<Hit>)
    ensures AllDocs([a, b]) == DocsRead(a, |a|) + DocsRead(b, |b|)
  {
    assert [a, b][..1] == [a] && [a][..0] == [];
    assert AllDocs([a]) == DocsRead(a, |a|);
  }

  lemma {:induction false} RankingSize(truth: Doc -> real, docs: set<Doc>)
    ensures |Ranking(truth, docs)| == |docs|
    decreases |docs|
  {
    if docs != {} {
      var d := Pick(docs);
      RankingSize(truth, docs - {d});
      assert Ranking(truth, docs) == Ranking(truth, docs - {d}) + {Entry(-truth(d), d)};
    }
  }

  ghost predicate InBoth(a: seq<Hit>, b: seq<Hit>, d: Doc) {
    Among(a, |a|, d) && Among(b, |b|, d)
  }

  /** No document is in both lists. */
  ghost predicate NoneShared(a: seq<Hit>, b: seq<Hit>) {
    forall d {:trigger InBoth(a, b, d)} :: !InBoth(a, b, d)
  }

  lemma UnsharedSize(truth: Doc -> real, a: seq<Hit>, b: seq<Hit>)
    requires Descending(a) && Descending(b) && NoneShared(a, b)
    ensures |Order(truth, [a, b])| == |a| + |b|
  {
    PairDocs(a, b);
    DocsReadSize(a, |a|);
    DocsReadSize(b, |b|);
    forall d | d in DocsRead(a, |a|)
      ensures d !in DocsRead(b, |b|)
    {
      assert !InBoth(a, b, d);
    }
    assert DocsRead(a, |a|) !! DocsRead(b, |b|);
    RankingSize(truth, AllDocs([a, b]));
  }

  lemma UnsharedLone(a: seq<Hit>, b: seq<Hit>, d: Doc)
    requires NoneShared(a, b)
    ensures Lone([a, b], d)
  {
    var hits := [a, b];
    assert !InBoth(a, b, d);
    assert hits[0] == a && hits[1] == b;
  }

  /** The uneven numbers up to 80. */
  predicate UnevenBelow80(n: nat) {
    n == 16 || n == 29 || n == 42 || n == 55 || n == 68
  }

  lemma UnevenNumbers(n: nat)
    requires n < 80
    ensures Uneven(n) <==> UnevenBelow80(n)
  {
  }

  lemma UnsharedLoses(a: seq<Hit>, b: seq<Hit>, order: seq<Entry>)
    requires NoneShared(a, b) && |order| < 80
    ensures LosesLast([a, b], order) <==> UnevenBelow80(|order|)
  {
    UnevenNumbers(|order|);
    forall d | true
      ensures Lone([a, b], d)
    {
      UnsharedLone(a, b, d);
    }
  }

  /** Two short lists without a common document lose their last one exactly when there are 16, 29, 42, 55 or
      68 documents. */
  lemma UnsharedLoss(truth: Doc -> real, a: seq<Hit>, b: seq<Hit>, n: nat)
    requires Descending(a) && Descending(b) && NoneShared(a, b) && |a| + |b| == n < 80
    ensures |ShortResult(truth, [a, b])| == if UnevenBelow80(n) then n - 1 else n
  {
    UnsharedSize(truth, a, b);
    UnsharedLoses(a, b, Order(truth, [a, b]));
    ShortSize(truth, [a, b]);
  }

  lemma BriefPair(a: seq<Hit>, b: seq<Hit>)
    requires |a| < CACHE_SIZE && |b| < CACHE_SIZE
    ensures Brief([a, b])
  {
  }

  /** The hits of two words. */
  ghost function PairOf(k: Ranked, l: Ranked): (h: seq<seq<Hit>>)
    ensures |h| == 2 && h[0] == Hits(k) && h[1] == Hits(l)
  {
    [Hits(k), Hits(l)]
  }

  lemma PairHits(k: Ranked, l: Ranked)
    ensures AllHits([k, l]) == PairOf(k, l)
  {
  }

  /** A merge of two words that are both in some document. */
  method MergeTwo(k: Ranked, l: Ranked) returns (out: seq<Scored>, end: Ending, ghost turns: seq<Turn>)
    requires IsRanked(k) && IsRanked(l) && k.tree != {} && l.tree != {}
    ensures Ran(Totals(PairOf(k, l)), PairOf(k, l), turns, out, end) && NoRepeats(out)
    ensures Brief(PairOf(k, l)) ==> out == ShortResult(Totals(PairOf(k, l)), PairOf(k, l))
  {
    ghost var used, odd;
    out, end, used, odd, turns := MassWeightedUnion([k, l]);
    PairHits(k, l);
  }

  lemma ManyHits(k: Ranked)
    requires IsRanked(k) && Hits(k) != []
    ensures Descending(Hits(k)) && k.tree != {}
  {
    RankedDescends(k);
  }

  /** The result of searching for two words that share no document. */
  lemma UnsharedResult(k: Ranked, l: Ranked, n: nat)
    requires Descending(Hits(k)) && Descending(Hits(l)) && NoneShared(Hits(k), Hits(l))
    requires |Hits(k)| < CACHE_SIZE && |Hits(l)| < CACHE_SIZE && |Hits(k)| + |Hits(l)| == n
    ensures Brief(PairOf(k, l))
    ensures |ShortResult(Totals(PairOf(k, l)), PairOf(k, l))| == if UnevenBelow80(n) then n - 1 else n
  {
    BriefPair(Hits(k), Hits(l));
    UnsharedLoss(Totals(PairOf(k, l)), Hits(k), Hits(l), n);
  }

  /** Searching for any two words with fewer than 40 documents each and none in common, n together: all of
      them come out, best first and with exact weights, but for the last one when n is 16, 29, 42, 55 or 68. */
  method TwoWordSearch(k: Ranked, l: Ranked, ghost n: nat) returns (out: seq<Scored>)
    requires IsRanked(k) && IsRanked(l) && 0 < |Hits(k)| < CACHE_SIZE && 0 < |Hits(l)| < CACHE_SIZE
    requires NoneShared(Hits(k), Hits(l)) && |Hits(k)| + |Hits(l)| == n
    ensures out == ShortResult(Totals(PairOf(k, l)), PairOf(k, l))
    ensures |out| == if UnevenBelow80(n) then n - 1 else n
  {
    var end;
    ghost var turns;
    ManyHits(k);
    ManyHits(l);
    UnsharedResult(k, l, n);
    out, end, turns := MergeTwo(k, l);
  }

  lemma ApartUnshared(a: seq<Hit>, b: seq<Hit>, n: nat)
    requires |a| == |b| == n
    requires (forall d :: Among(a, n, d) ==> d <= n) && forall d :: Among(b, n, d) ==> n < d
    ensures NoneShared(a, b)
  {
    forall d | true
      ensures !InBoth(a, b, d)
    {
    }
  }

  /** For instance two words in the documents 1 to n and n + 1 to 2n, which lose one for n = 8, 21 and 34. */
  method EqualWords(n: nat) returns (out: seq<Scored>)
    requires 0 < n < CACHE_SIZE
    ensures |out| == if UnevenBelow80(n + n) then n + n - 1 else n + n
  {
    var k := MakeWord(0, n);
    var l := MakeWord(n, n);
    ApartUnshared(Hits(k), Hits(l), n);
    out := TwoWordSearch(k, l, n + n);
  }

  // ---- lists that wear each other out ----------------------------------------------------------

  /** k steps up. */
  function Rungs(k: nat, step: nat): nat {
    if k == 0 then 0 else Rungs(k - 1, step) + step
  }

  /** n scores falling in steps of `step`, the documents of the last 40 being 0 to 39. */
  function Falling(n: nat, step: nat): (s: seq<Entry>)
    requires n >= CACHE_SIZE
    ensures |s| == n
  {
    seq(n, t requires 0 <= t < n =>
             Entry(-(Rungs(n - t, step) as real), if t < n - CACHE_SIZE then t + CACHE_SIZE else t - (n - CACHE_SIZE)))
  }

  /** Documents 0 to n-1, all scored 1 or from n down to 1. */
  function Level(n: nat, flat: bool): (s: seq<Entry>)
    ensures |s| == n
  {
    seq(n, t requires 0 <= t < n => Entry(if flat then -1.0 else -((n - t) as real), t))
  }

  function Members(s: seq<Entry>): (t: set<Entry>) {
    set e | e in s
  }

  /** A word with these entries, in their order. */
  function Listing(s: seq<Entry>): Ranked {
    Ranked(Members(s), |s|, 1.0)
  }

  lemma ListingHits(s: seq<Entry>)
    requires Sorted(s)
    ensures Hits(Listing(s)) == seq(|s|, k requires 0 <= k < |s| => Hit(s[k].doc, -s[k].neg))
    ensures s != [] ==> Listing(s).tree != {}
  {
    SortedUnique(InOrder(Members(s)), s);
    HasFirst(s);
  }

  lemma ListingAt(s: seq<Entry>, k: nat)
    requires Sorted(s) && k < |s|
    ensures |Hits(Listing(s))| == |s| && Hits(Listing(s))[k] == Hit(s[k].doc, -s[k].neg) && Listing(s).tree != {}
  {
    ListingHits(s);
  }

  lemma ListingRanked(s: seq<Entry>)
    requires forall k :: 0 <= k < |s| ==> s[k].neg < 0.0
    requires forall j, k :: 0 <= j < |s| && 0 <= k < |s| && s[j].doc == s[k].doc ==> j == k
    ensures IsRanked(Listing(s))
  {
  }

  lemma {:induction false} RungsApart(x: nat, y: nat, step: nat)
    requires x > y
    ensures Rungs(x, step) >= Rungs(y, step) + step
  {
    if x > y + 1 { RungsApart(x - 1, y, step); }
  }

  lemma FallingFalls(n: nat, step: nat, j: nat, k: nat)
    requires n >= CACHE_SIZE && j < k < n
    ensures -Falling(n, step)[j].neg >= -Falling(n, step)[k].neg + step as real
  {
    RungsApart(n - j, n - k, step);
  }

  lemma FallingAbove(n: nat, step: nat, j: nat)
    requires n >= CACHE_SIZE && j < n
    ensures -Falling(n, step)[j].neg >= step as real
  {
    RungsApart(n - j, 0, step);
  }

  lemma FallingRanked(n: nat, step: nat)
    requires n >= CACHE_SIZE && step > 0
    ensures Sorted(Falling(n, step)) && IsRanked(Listing(Falling(n, step)))
  {
    var s := Falling(n, step);
    forall i, j | 0 <= i < j < |s|
      ensures Below(s[i], s[j])
    {
      FallingFalls(n, step, i, j);
    }
    forall k | 0 <= k < |s|
      ensures s[k].neg < 0.0
    {
      FallingAbove(n, step, k);
    }
    ListingRanked(s);
  }

  lemma LevelRanked(n: nat, flat: bool)
    ensures Sorted(Level(n, flat)) && IsRanked(Listing(Level(n, flat)))
  {
    ListingRanked(Level(n, flat));
  }

  /** The list that outweighs the other. */
  function Heavy(n: nat, len: nat): Ranked
    requires n >= CACHE_SIZE
  {
    Listing(Falling(n, len + 1))
  }

  /** The list that is worn out. */
  function Light(len: nat, flat: bool): Ranked {
    Listing(Level(len, flat))
  }

  lemma HeavySteep(n: nat, len: nat, a: seq<Hit>, top: real)
    requires n >= CACHE_SIZE && a == Hits(Heavy(n, len)) && top <= len as real
    ensures Steep(a, top)
  {
    var s := Falling(n, len + 1);
    FallingRanked(n, len + 1);
    ListingHits(s);
    forall j, k | 0 <= j < k < |a|
      ensures Over(a[j].score, a[k].score, top)
    {
      FallingFalls(n, len + 1, j, k);
    }
    forall j | 0 <= j < |a|
      ensures a[j].score > top
    {
      FallingAbove(n, len + 1, j);
    }
  }

  lemma HeavyDocs(n: nat, len: nat, a: seq<Hit>, t: nat)
    requires n >= CACHE_SIZE && a == Hits(Heavy(n, len)) && t < n
    ensures |a| == n && a[t].doc == if t < n - CACHE_SIZE then t + CACHE_SIZE else t - (n - CACHE_SIZE)
  {
    FallingRanked(n, len + 1);
    ListingHits(Falling(n, len + 1));
  }

  lemma HeavyDescends(n: nat, len: nat, a: seq<Hit>)
    requires n >= CACHE_SIZE && a == Hits(Heavy(n, len))
    ensures Descending(a)
  {
    FallingRanked(n, len + 1);
    RankedDescends(Heavy(n, len));
  }

  lemma LightDescends(len: nat, flat: bool, b: seq<Hit>)
    requires b == Hits(Light(len, flat))
    ensures Descending(b)
  {
    LevelRanked(len, flat);
    RankedDescends(Light(len, flat));
  }

  lemma LightHits(len: nat, flat: bool, b: seq<Hit>)
    requires b == Hits(Light(len, flat)) && len > 0
    ensures |b| == len && Kind(flat, b) && Top(b) <= len as real
    ensures forall s :: 0 <= s < len ==> b[s].doc == s
  {
    LevelRanked(len, flat);
    ListingAt(Level(len, flat), 0);
    forall s | 0 <= s < len
      ensures b[s] == Hit(s, if flat then 1.0 else (len - s) as real)
    {
      ListingAt(Level(len, flat), s);
    }
  }

  /** The documents of the one list are those of the other, in another order. */
  lemma SameDocs(n: nat, len: nat, a: seq<Hit>, b: seq<Hit>)
    requires CACHE_SIZE <= n <= len && a == Hits(Heavy(n, len)) && |b| == len
    requires forall s :: 0 <= s < len ==> b[s].doc == s
    ensures |a| == n
    ensures forall s :: 0 <= s < CACHE_SIZE ==> b[s].doc == a[n - CACHE_SIZE + s].doc
    ensures forall s :: CACHE_SIZE <= s < n ==> Among(a, n - CACHE_SIZE, b[s].doc)
  {
    HeavyDocs(n, len, a, 0);
    forall s | 0 <= s < CACHE_SIZE
      ensures b[s].doc == a[n - CACHE_SIZE + s].doc
    {
      HeavyDocs(n, len, a, n - CACHE_SIZE + s);
    }
    forall s | CACHE_SIZE <= s < n
      ensures Among(a, n - CACHE_SIZE, b[s].doc)
    {
      HeavyDocs(n, len, a, s - CACHE_SIZE);
    }
  }

  lemma PutTogether(n: nat, a: seq<Hit>, b: seq<Hit>)
    requires Descending(a) && Descending(b) && RAISE_DEPTH <= |a| == n <= |b| && Steep(a, Top(b))
    requires forall s :: 0 <= s < CACHE_SIZE ==> b[s].doc == a[n - CACHE_SIZE + s].doc
    requires forall s :: CACHE_SIZE <= s < n ==> Among(a, n - CACHE_SIZE, b[s].doc)
    ensures Wearing(a, b)
  {
  }

  /** They are two such lists. */
  lemma TheyWear(n: nat, len: nat, flat: bool, a: seq<Hit>, b: seq<Hit>)
    requires RAISE_DEPTH <= n <= len && a == Hits(Heavy(n, len)) && b == Hits(Light(len, flat))
    ensures |a| == n && Wearing(a, b) && Kind(flat, b)
  {
    HeavyDescends(n, len, a);
    LightDescends(len, flat, b);
    LightHits(len, flat, b);
    HeavySteep(n, len, a, Top(b));
    SameDocs(n, len, a, b);
    PutTogether(n, a, b);
  }

  lemma NotEmpty(n: nat, len: nat, flat: bool)
    requires CACHE_SIZE <= n <= len
    ensures IsRanked(Heavy(n, len)) && Heavy(n, len).tree != {}
    ensures IsRanked(Light(len, flat)) && Light(len, flat).tree != {}
  {
    FallingRanked(n, len + 1);
    LevelRanked(len, flat);
    ListingHits(Falling(n, len + 1));
    ListingHits(Level(len, flat));
  }

  lemma WearResult(n: nat, len: nat, flat: bool, hits: seq<seq<Hit>>, turns: seq<Turn>, out: seq<Scored>, end: Ending)
    requires RAISE_DEPTH <= n <= len && (flat || STOP_DEPTH <= n)
    requires hits == [Hits(Heavy(n, len)), Hits(Light(len, flat))] && Ran(Totals(hits), hits, turns, out, end)
    ensures end == if flat then EmptyCache else Exhausted
    ensures |out| == if flat then n - 1 else n
    ensures forall k :: 0 <= k < |out| ==> 0 <= out[k].0 < n
  {
    TheyWear(n, len, flat, hits[0], hits[1]);
    WearRun(Totals(hits), flat, hits, turns, out, end);
    forall k | 0 <= k < |out|
      ensures 0 <= out[k].0 < n
    {
      HeavyDocs(n, len, hits[0], k);
    }
  }

  /** Merging them yields the documents 0 to n-1 of the n documents of the one list. */
  method Wear(n: nat, len: nat, flat: bool) returns (out: seq<Scored>, end: Ending)
    requires RAISE_DEPTH <= n <= len && (flat || STOP_DEPTH <= n)
    ensures end == if flat then EmptyCache else Exhausted
    ensures |out| == if flat then n - 1 else n
    ensures NoRepeats(out) && forall k :: 0 <= k < |out| ==> 0 <= out[k].0 < n
  {
    NotEmpty(n, len, flat);
    ghost var used, odd, turns;
    out, end, used, odd, turns := MassWeightedUnion([Heavy(n, len), Light(len, flat)]);
    PairHits(Heavy(n, len), Light(len, flat));
    WearResult(n, len, flat, [Hits(Heavy(n, len)), Hits(Light(len, flat))], turns, out, end);
  }

  /** An early stop: of two words, one in n documents and one in those and len - n others, only the n come
      out, though the merge ends as if it were complete. */
  method EarlyStop(n: nat, len: nat) returns (out: seq<Scored>, end: Ending)
    requires STOP_DEPTH <= n <= len
    ensures end == Exhausted && |out| == n && forall k :: 0 <= k < |out| ==> 0 <= out[k].0 < n
    ensures |Hits(Light(len, false))| == len && forall d :: n <= d < len ==> !CameOut(out, d)
    ensures forall d :: n <= d < len ==> Among(Hits(Light(len, false)), len, d)
  {
    out, end := Wear(n, len, false);
    LightHits(len, false, Hits(Light(len, false)));
    forall d | n <= d < len
      ensures Among(Hits(Light(len, false)), len, d)
    {
      assert Hits(Light(len, false))[d].doc == d;
    }
  }

  /** With equal scores in the longer word the merge raises instead, one document short of the n. */
  method Raise(n: nat, len: nat) returns (out: seq<Scored>, end: Ending)
    requires RAISE_DEPTH <= n <= len
    ensures end == EmptyCache && |out| == n - 1
  {
    out, end := Wear(n, len, true);
  }

  // ---- results out of order --------------------------------------------------------------------

  /** Two documents with twenty and nineteen. */
  function Lead(): seq<Entry> {
    [Entry(-20.0, 0), Entry(-19.0, 1)]
  }

  /** Forty documents with three, then one of those two with two, and others with one. */
  function Trail(len: nat): (s: seq<Entry>)
    ensures |s| == len
  {
    seq(len, k requires 0 <= k < len =>
               if k < CACHE_SIZE then Entry(-3.0, k + 2)
               else if k == CACHE_SIZE then Entry(-2.0, 1) else Entry(-1.0, k + 1))
  }

  lemma LeadHits(a: seq<Hit>)
    requires a == Hits(Listing(Lead()))
    ensures IsRanked(Listing(Lead())) && Listing(Lead()).tree != {} && Descending(a)
    ensures |a| == 2 && a[0] == Hit(0, 20.0) && a[1] == Hit(1, 19.0)
  {
    ListingAt(Lead(), 0);
    ListingAt(Lead(), 1);
    ListingRanked(Lead());
    RankedDescends(Listing(Lead()));
  }

  lemma TrailRanked(len: nat)
    requires len > CACHE_SIZE
    ensures Sorted(Trail(len)) && IsRanked(Listing(Trail(len)))
  {
    ListingRanked(Trail(len));
  }

  lemma TrailAt(len: nat, b: seq<Hit>, k: nat)
    requires k < len && len > CACHE_SIZE && b == Hits(Listing(Trail(len)))
    ensures |b| == len && Listing(Trail(len)).tree != {} && b[k].doc != 0
    ensures if k < CACHE_SIZE then b[k].score == 3.0 else if k == CACHE_SIZE then b[k] == Hit(1, 2.0) else true
  {
    TrailRanked(len);
    ListingAt(Trail(len), k);
  }

  lemma TrailHits(len: nat, b: seq<Hit>)
    requires len > CACHE_SIZE && b == Hits(Listing(Trail(len)))
    ensures IsRanked(Listing(Trail(len))) && Listing(Trail(len)).tree != {} && Descending(b)
    ensures |b| == len && b[CACHE_SIZE] == Hit(1, 2.0) && !Among(b, len, 0)
    ensures forall k :: 0 <= k < CACHE_SIZE ==> b[k].score == 3.0
  {
    TrailRanked(len);
    RankedDescends(Listing(Trail(len)));
    TrailAt(len, b, CACHE_SIZE);
    forall k | 0 <= k < len
      ensures b[k].doc != 0 && (k < CACHE_SIZE ==> b[k].score == 3.0)
    {
      TrailAt(len, b, k);
    }
  }

  /** The hits of the two words. */
  ghost function SwapPair(len: nat): (h: seq<seq<Hit>>) {
    PairOf(Listing(Lead()), Listing(Trail(len)))
  }

  lemma TheyMislead(len: nat)
    requires len > CACHE_SIZE
    ensures MisleadingPair(SwapPair(len)) && SwapPair(len)[0][0].doc == 0 && SwapPair(len)[0][1].doc == 1
    ensures |SwapPair(len)[0]| == 2 && |SwapPair(len)[1]| == len
  {
    LeadHits(SwapPair(len)[0]);
    TrailHits(len, SwapPair(len)[1]);
  }

  /** Results out of order: of a word in two documents and one in `len` documents, for every len from 41 on,
      the document with the lower total comes out first and the better one after it. */
  method OutOfOrder(len: nat) returns (out: seq<Scored>)
    requires len > CACHE_SIZE
    ensures |SwapPair(len)| == 2 && |SwapPair(len)[0]| == 2 && |SwapPair(len)[1]| == len
    ensures |out| >= 2 && out[0].0 == 0 && out[1].0 == 1 && Total(SwapPair(len), 0) < Total(SwapPair(len), 1)
  {
    var k, l := Listing(Lead()), Listing(Trail(len));
    LeadHits(Hits(k));
    TrailHits(len, Hits(l));
    TheyMislead(len);
    var end;
    ghost var turns;
    out, end, turns := MergeTwo(k, l);
    SwapRun(Totals(SwapPair(len)), SwapPair(len), turns, out, end);
  }
}
