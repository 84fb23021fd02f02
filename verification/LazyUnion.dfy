/** The incremental weighted union of score-ordered lists (mass_weightedUnion). */
module LazyUnion {
  import opened Wrappers
  import opened SortedSets
  import opened Scores
  import opened MergePool
  import opened MergeCounts
  import opened MergeRun
  import opened MergeShort
  import opened MergeView
  import opened MergeLimits

  /** What one resumption of the generator does: yield a document, stop, or die in max() of an empty cache. */
  datatype Step = Yield(doc: Doc, weight: real) | Stop | Crash(list: nat)

  ghost predicate RightHits(lists: seq<Ranked>, hits: seq<seq<Hit>>) {
    |lists| == |hits| && forall i :: 0 <= i < |lists| ==> hits[i] == Hits(lists[i])
  }

  ghost function AllHits(lists: seq<Ranked>): (h: seq<seq<Hit>>)
    ensures RightHits(lists, h)
  {
    seq(|lists|, i requires 0 <= i < |lists| => Hits(lists[i]))
  }

  ghost function Totals(hits: seq<seq<Hit>>): Doc -> real { d => Total(hits, d) }

  lemma FreshAlike(h: seq<seq<Hit>>, p: Pool)
    requires forall i :: 0 <= i < |h| ==> h[i] != []
    requires |p.pos| == |p.unread| == |p.caches| == |h| && p.iters == Upto(|h|)
    requires forall i :: 0 <= i < |h| ==> p.pos[i] == 0 && p.unread[i] == h[i][0].score && p.caches[i] == map[]
    requires p.ids == map[] && p.used == {} && p.mins == map[] && p.sorted == {}
    ensures p == Fresh(h)
  {
  }

  // ---- totals from the entries -----------------------------------------------------------------

  /** x is what entry e is worth in a list of this weight: minus its negated score, times the weight. */
  predicate Worth(e: Entry, weight: real, x: real) {
    x == -e.neg * weight
  }

  /** x is what list l gives document d: what its entry is worth, or nothing when it has none. */
  ghost predicate Gives(l: Ranked, d: Doc, x: real) {
    && (forall e {:trigger Worth(e, l.weight, x)} :: e in l.tree && e.doc == d ==> Worth(e, l.weight, x))
    && ((forall e :: e in l.tree ==> e.doc != d) ==> x == 0.0)
  }

  lemma EntryAt(l: Ranked, e: Entry) returns (k: nat)
    requires e in l.tree
    ensures k < |Hits(l)| && Hits(l)[k].doc == e.doc && Hits(l)[k].score == Weighted(e, l.weight)
  {
    var order := InOrder(l.tree);
    assert e in order;
    k :| 0 <= k < |order| && order[k] == e;
  }

  lemma WeightedWorth(e: Entry, weight: real)
    ensures Worth(e, weight, Weighted(e, weight))
  {
  }

  /** The score the merge sees in a list is what the list gives. */
  lemma ScoreIsGiven(l: Ranked, d: Doc)
    requires IsRanked(l)
    ensures Gives(l, d, ScoreIn(Hits(l), d))
  {
    var order, h := InOrder(l.tree), Hits(l);
    RankedDescends(l);
    forall e | e in l.tree && e.doc == d
      ensures Worth(e, l.weight, ScoreIn(h, d))
    {
      var k := EntryAt(l, e);
      ScoreAt(h, k);
      WeightedWorth(e, l.weight);
    }
    if Among(h, |h|, d) {
      var k :| 0 <= k < |h| && h[k].doc == d;
      assert order[k] in order;
    }
  }

  lemma GivesOnce(l: Ranked, d: Doc, x: real, y: real)
    requires Gives(l, d, x) && Gives(l, d, y)
    ensures x == y
  {
    if e :| e in l.tree && e.doc == d {
      assert Worth(e, l.weight, x) && Worth(e, l.weight, y);
    }
  }

  /** The total of a document is the sum of what the lists give it. */
  lemma TotalIsSum(lists: seq<Ranked>, d: Doc, shares: seq<real>)
    requires |shares| == |lists| && forall i :: 0 <= i < |lists| ==> IsRanked(lists[i])
    requires forall i {:trigger Gives(lists[i], d, shares[i])} :: 0 <= i < |lists| ==> Gives(lists[i], d, shares[i])
    ensures Total(AllHits(lists), d) == Sum(shares)
  {
    var hits := AllHits(lists);
    var scores := seq(|hits|, i requires 0 <= i < |hits| => ScoreIn(hits[i], d));
    forall i | 0 <= i < |lists|
      ensures scores[i] == shares[i]
    {
      ScoreIsGiven(lists[i], d);
      assert Gives(lists[i], d, shares[i]);
      GivesOnce(lists[i], d, scores[i], shares[i]);
    }
    assert scores == shares;
  }

  /** The merge starts with nothing read and each cap at the best score of its list. */
  ghost predicate Starting(lists: seq<Ranked>, p: Pool)
    requires forall i :: 0 <= i < |lists| ==> lists[i].tree != {}
  {
    && p.pos == seq(|lists|, _ => 0) && p.iters == Upto(|lists|)
    && p.unread == seq(|lists|, i requires 0 <= i < |lists| && lists[i].tree != {} =>
                                  Weighted(InOrder(lists[i].tree)[0], lists[i].weight))
    && p.caches == seq(|lists|, _ => map[]) && p.ids == map[] && p.used == {} && p.mins == map[] && p.sorted == {}
  }

  lemma StartingAt(lists: seq<Ranked>, p: Pool, i: nat)
    requires (forall j :: 0 <= j < |lists| ==> lists[j].tree != {}) && i < |lists|
    requires Starting(lists, p)
    ensures |p.pos| == |p.unread| == |p.caches| == |lists|
    ensures p.pos[i] == 0 && p.caches[i] == map[] && p.unread[i] == Weighted(InOrder(lists[i].tree)[0], lists[i].weight)
  {
  }

  lemma StartingFresh(lists: seq<Ranked>, p: Pool, h: seq<seq<Hit>>)
    requires |lists| >= 2 && RightHits(lists, h)
    requires forall i :: 0 <= i < |lists| ==> IsRanked(lists[i]) && lists[i].tree != {}
    requires Starting(lists, p)
    ensures forall i :: 0 <= i < |h| ==> h[i] != [] && Descending(h[i])
    ensures p == Fresh(h)
  {
    StartingAt(lists, p, 0);
    forall i | 0 <= i < |h|
      ensures h[i] != [] && Descending(h[i]) && p.pos[i] == 0 && p.caches[i] == map[] && p.unread[i] == h[i][0].score
    {
      RankedDescends(lists[i]);
      StartingAt(lists, p, i);
    }
    FreshAlike(h, p);
  }

  lemma FreshCoherent(truth: Doc -> real, h: seq<seq<Hit>>, p: Pool, v: View)
    requires |h| >= 2 && AtStart(h, p, v) && forall i :: 0 <= i < |h| ==> Descending(h[i])
    ensures Coherent(truth, h, p, v)
  {
    FreshInv(h);
    FreshPaced(h);
    assert 0 in p.iters && p.caches[0] == map[];
  }

  /** List j, when document d has been taken out of the first i lists. */
  ghost predicate DrainedAt(p: Pool, caches: seq<Cache>, unread: seq<real>, i: nat, d: Doc, j: nat)
    requires j < |caches| == |unread| == |p.caches| == |p.unread|
  {
    if j < i then caches[j] == p.caches[j] - {d} && CapAfter(p.caches[j], d, p.unread[j], unread[j])
    else caches[j] == p.caches[j] && unread[j] == p.unread[j]
  }

  ghost predicate Drained(p: Pool, caches: seq<Cache>, unread: seq<real>, i: nat, d: Doc) {
    && |caches| == |unread| == |p.caches| == |p.unread|
    && forall j: nat {:trigger DrainedAt(p, caches, unread, i, d, j)} ::
         j < |caches| ==> DrainedAt(p, caches, unread, i, d, j)
  }

  /** The list at hand is still as it was. */
  lemma DrainedHere(p: Pool, caches: seq<Cache>, unread: seq<real>, i: nat, d: Doc)
    requires Drained(p, caches, unread, i, d) && i < |caches|
    ensures caches[i] == p.caches[i] && unread[i] == p.unread[i]
  {
    assert DrainedAt(p, caches, unread, i, d, i);
  }

  /** One list more. */
  lemma DrainedNext(p: Pool, caches: seq<Cache>, unread: seq<real>, i: nat, d: Doc,
                    caches1: seq<Cache>, unread1: seq<real>)
    requires Drained(p, caches, unread, i, d) && i < |caches| && |unread1| == |unread|
    requires if d in caches[i] then
               && caches1 == caches[i := caches[i] - {d}] && unread1 == unread[i := unread1[i]]
               && CapAfter(caches[i], d, unread[i], unread1[i])
             else caches1 == caches && unread1 == unread
    ensures Drained(p, caches1, unread1, i + 1, d)
  {
    DrainedHere(p, caches, unread, i, d);
    if d !in caches[i] { assert caches[i] - {d} == caches[i]; }
    var n := i + 1;
    forall j: nat | j < |caches1|
      ensures DrainedAt(p, caches1, unread1, n, d, j)
    {
      assert DrainedAt(p, caches, unread, i, d, j);
    }
  }

  lemma DrainedAll(p: Pool, caches: seq<Cache>, unread: seq<real>, d: Doc)
    requires Drained(p, caches, unread, |caches|, d)
    ensures caches == Purged(p.caches, d) && CapsAfter(p, d, unread)
  {
    forall j: nat | j < |caches|
      ensures caches[j] == p.caches[j] - {d} && CapAfter(p.caches[j], d, p.unread[j], unread[j])
    {
      assert DrainedAt(p, caches, unread, |caches|, d, j);
    }
  }

  /** Document d recorded as yielded. */
  ghost function Retired(p: Pool, d: Doc): Pool
    requires d in p.mins
  {
    p.(used := p.used + {d}, sorted := p.sorted - {Entry(-p.mins[d], d)}, mins := p.mins - {d})
  }

  lemma YieldedInSteps(p: Pool, q: Pool, d: Doc)
    requires d in p.mins && q == p.(caches := Purged(p.caches, d), unread := q.unread)
    ensures Retired(q, d) == Yielded(p, d, q.unread)
  {
  }

  /** What list i promises per element not yet cached. */
  function Promise(unread: real, length: int, cached: nat): real {
    unread / (if length - cached > 1 then length - cached else 1) as real
  }

  lemma QuotientsOrdered(x: real, p: real, y: real, q: real)
    requires p > 0.0 && q > 0.0
    ensures x / p <= y / q <==> x * q <= y * p
  {
    var a, b := x / p, y / q;
    assert a * p == x && b * q == y;
    assert x * q == a * (p * q) && y * p == b * (p * q);
    if a <= b { assert (b - a) * (p * q) >= 0.0; } else { assert (a - b) * (p * q) > 0.0; }
  }

  /** Which of two lists promises more: the cap of each against the number of its elements not cached, at
      least one, of the other. */
  lemma PromiseInWords(unread1: real, length1: int, cached1: nat, unread2: real, length2: int, cached2: nat)
    ensures var left1, left2 := length1 - cached1, length2 - cached2;
            Promise(unread1, length1, cached1) <= Promise(unread2, length2, cached2) <==>
            unread1 * (if left2 > 1 then left2 else 1) as real <= unread2 * (if left1 > 1 then left1 else 1) as real
  {
    var left1, left2 := length1 - cached1, length2 - cached2;
    QuotientsOrdered(unread1, (if left1 > 1 then left1 else 1) as real,
                     unread2, (if left2 > 1 then left2 else 1) as real);
  }

  predicate Leads(lists: seq<Ranked>, unread: seq<real>, caches: seq<Cache>, best: nat)
    requires |unread| == |caches| == |lists| && best < |lists|
  {
    forall j :: 0 <= j < |lists| ==>
      Promise(unread[j], lists[j].length, |caches[j]|) <= Promise(unread[best], lists[best].length, |caches[best]|)
  }

  lemma PromisePositive(unread: real, length: int, cached: nat)
    ensures unread > 0.0 <==> Promise(unread, length, cached) > 0.0
  {
  }

  /** When a window is rejected, the list that promises most is still open. */
  lemma ChosenIsOpen(lists: seq<Ranked>, hits: seq<seq<Hit>>, p: Pool,
                     docs: seq<Doc>, lows: seq<real>, highs: seq<real>, best: nat)
    requires Inv(hits, p) && |lists| == |hits| && best < |lists|
    requires IsWindow(p, docs, lows, highs) && !WindowOk(lows, highs, Sum(p.unread))
    requires Leads(lists, p.unread, p.caches, best)
    ensures best in p.iters
  {
    RejectedHasUnread(hits, p, docs, lows, highs);
    var j :| 0 <= j < |hits| && p.unread[j] > 0.0;
    PromisePositive(p.unread[j], lists[j].length, |p.caches[j]|);
    PromisePositive(p.unread[best], lists[best].length, |p.caches[best]|);
  }

  /** So reading on from it keeps everything and makes progress. */
  lemma RejectedAdvances(lists: seq<Ranked>, hits: seq<seq<Hit>>, p: Pool,
                         docs: seq<Doc>, lows: seq<real>, highs: seq<real>, best: nat)
    requires Ready(hits, p) && |lists| == |hits| && best < |lists|
    requires IsWindow(p, docs, lows, highs) && !WindowOk(lows, highs, Sum(p.unread))
    requires Leads(lists, p.unread, p.caches, best)
    ensures best in p.iters
    ensures var q := ReadMany(p, best, hits[best], CACHE_SIZE / 2);
            Ready(hits, q) && Further(p, q) && 0 <= Work(hits, q) < Work(hits, p)
  {
    ChosenIsOpen(lists, hits, p, docs, lows, highs, best);
    AdvanceKeeps(hits, p, best);
  }

  method Middle(low: real, high: real) returns (w: real)
    ensures w + w == low + high
  {
    w := (low + high) / 2.0;
  }

  /** max() over the values of a non-empty dictionary. */
  method MaxValue(c: Cache) returns (m: real)
    requires c != map[]
    ensures IsMaxOf(m, c)
  {
    ghost var some := Pick(c.Keys);
    var d :| d in c;
    m := c[d];
    var rest := c.Keys - {d};
    while rest != {}
      invariant rest <= c.Keys
      invariant exists x :: x in c && c[x] == m
      invariant forall x :: x in c && x !in rest ==> c[x] <= m
      decreases rest
    {
      ghost var some := Pick(rest);
      var x :| x in rest;
      if c[x] > m { m := c[x]; }
      rest := rest - {x};
    }
  }

  /** The merge of two or more lists; `Pull` is one resumption of the generator. */
  class Merge {
    const lists: seq<Ranked>
    ghost const hits: seq<seq<Hit>>
    ghost const truth: Doc -> real

    var pos: seq<nat>
    var iters: set<nat>
    var unread: seq<real>
    var caches: seq<Cache>
    var ids: map<Doc, seq<nat>>
    var used: set<Doc>
    var mins: map<Doc, real>
    var sorted: set<Entry>

    var docids: seq<Doc>
    var winMins: seq<real>
    var winMaxs: seq<real>
    var cacheLen: Option<int>
    ghost var window: seq<Doc>

    ghost function State(): Pool
      reads this
    {
      Pool(pos, iters, unread, caches, ids, used, mins, sorted)
    }

    ghost function Window(): View
      reads this
    {
      View(docids, winMins, winMaxs, window, cacheLen)
    }

    ghost predicate Valid()
      reads this
    {
      RightHits(lists, hits) && IsTruth(truth, hits) && |lists| >= 2 && Coherent(truth, hits, State(), Window())
    }

    /** Start a merge; the head of each tree sets the cap of its list. */
    constructor (lists: seq<Ranked>)
      requires |lists| >= 2 && forall i :: 0 <= i < |lists| ==> IsRanked(lists[i]) && lists[i].tree != {}
      ensures Valid() && this.lists == lists && hits == AllHits(lists) && truth == Totals(hits)
      ensures AtStart(hits, State(), Window())
    {
      this.lists := lists;
      pos := seq(|lists|, _ => 0);
      iters := Upto(|lists|);
      unread := seq(|lists|, i requires 0 <= i < |lists| && lists[i].tree != {} =>
                      Weighted(InOrder(lists[i].tree)[0], lists[i].weight));
      caches := seq(|lists|, _ => map[]);
      ids, used, mins, sorted := map[], {}, map[], {};
      docids, winMins, winMaxs, cacheLen, window := [], [], [], None, [];
      ghost var h := AllHits(lists);
      hits := h;
      truth := Totals(h);
      new;
      StartingFresh(lists, State(), h);
      FreshCoherent(truth, h, State(), Window());
    }

    /** Cache a document that list i has just produced. */
    method Note(i: nat, docid: Doc, score: real)
      requires i < |caches|
      modifies this`caches, this`ids, this`mins, this`sorted
      ensures State() == Remember(old(State()), i, Hit(docid, score))
    {
      caches := caches[i := caches[i][docid := score]];
      ids := ids[docid := IdsOf(ids, docid) + [i]];
      var total := (if docid in mins then mins[docid] else 0.0) + score;
      if docid in mins { sorted := sorted - {Entry(-mins[docid], docid)}; }
      mins := mins[docid := total];
      sorted := sorted + {Entry(-total, docid)};
    }

    /** One iteration of the loop in precache, for an iterator that is not exhausted. */
    method ReadNext(i: nat)
      requires i < |pos| == |unread| == |caches| == |lists| == |hits| && hits[i] == Hits(lists[i])
      requires pos[i] < |hits[i]|
      modifies this`pos, this`unread, this`caches, this`ids, this`mins, this`sorted
      ensures State() == Read(old(State()), i, hits[i][old(pos[i])])
    {
      var e := InOrder(lists[i].tree)[pos[i]];
      var docid, score := e.doc, Weighted(e, lists[i].weight);
      assert hits[i][pos[i]] == Hit(docid, score);
      pos := pos[i := pos[i] + 1];
      if unread[i] > score { unread := unread[i := score]; }
      assert State() == Advance(old(State()), i, score);
      if docid !in used { Note(i, docid, score); }
    }

    /** The iterator has run out. */
    method Exhaust(i: nat)
      requires i < |unread|
      modifies this`iters, this`unread
      ensures State() == Close(old(State()), i)
    {
      iters := iters - {i};
      unread := unread[i := 0.0];
    }

    /** next(iters[i]) and what follows from it, on the way to `goal`; false when the iterator has run out. */
    method Advanced(i: nat, ghost size: nat, ghost goal: Pool) returns (ran: bool)
      requires i < |pos| == |unread| == |caches| == |lists| == |hits| && hits[i] == Hits(lists[i])
      requires size > 0 && goal == ReadMany(State(), i, hits[i], size)
      modifies this`pos, this`iters, this`unread, this`caches, this`ids, this`mins, this`sorted
      ensures |pos| == |unread| == |caches| == |lists|
      ensures if ran then goal == ReadMany(State(), i, hits[i], size - 1) else State() == goal
    {
      ReadManyStep(State(), i, hits[i], size);
      ran := pos[i] < |lists[i].tree|;
      if ran { ReadNext(i); } else { Exhaust(i); }
    }

    /** precache(i, size) */
    method Precache(i: nat, size: nat)
      requires i < |pos| == |unread| == |caches| == |lists| == |hits| && hits[i] == Hits(lists[i])
      modifies this`pos, this`iters, this`unread, this`caches, this`ids, this`mins, this`sorted
      ensures State() == ReadMany(old(State()), i, hits[i], size)
    {
      ghost var h := hits[i];
      ghost var goal := ReadMany(State(), i, h, size);
      for j := 0 to size
        invariant |pos| == |unread| == |caches| == |lists|
        invariant goal == ReadMany(State(), i, h, size - j)
      {
        var ran := Advanced(i, size - j, goal);
        if !ran { return; }
      }
    }

    /** Read on in list i when it is short. */
    method RefillOne(i: nat) returns (short: bool)
      requires i < |pos| == |unread| == |caches| == |lists| == |hits| && hits[i] == Hits(lists[i])
      modifies this`pos, this`iters, this`unread, this`caches, this`ids, this`mins, this`sorted, this`cacheLen
      ensures State() == FillOne(hits, old(State()), i)
      ensures short <==> Short(old(State()), i)
      ensures cacheLen == if short then Some(TotalSize(caches)) else old(cacheLen)
    {
      short := i in iters && |caches[i]| < CACHE_SIZE / 2;
      if short {
        Precache(i, CACHE_SIZE - |caches[i]|);
        cacheLen := Some(TotalSize(caches));
      }
    }

    /** Keep the caches of the open lists long enough; report whether anything was read. */
    method Refill() returns (updated: bool)
      requires RightHits(lists, hits) && |pos| == |unread| == |caches| == |lists|
      modifies this`pos, this`iters, this`unread, this`caches, this`ids, this`mins, this`sorted, this`cacheLen
      ensures State() == Fill(hits, old(State()), |lists|)
      ensures updated <==> exists i :: 0 <= i < |lists| && Short(old(State()), i)
      ensures cacheLen == if updated then Some(TotalSize(caches)) else old(cacheLen)
    {
      updated := false;
      ghost var before := State();
      for i := 0 to |lists|
        invariant State() == Fill(hits, before, i)
        invariant updated <==> exists j :: 0 <= j < i && Short(before, j)
        invariant cacheLen == if updated then Some(TotalSize(caches)) else old(cacheLen)
      {
        FillFrame(hits, before, i, i);
        ghost var now := State();
        assert |now.pos| == |now.unread| == |now.caches| == |lists|;
        var short := RefillOne(i);
        if short { updated := true; }
        if !short { assert State() == now; }
      }
    }

    /** The upper bound of a pending document. */
    method UpperBound(e: Entry, maxSum: real) returns (max: real)
      requires Priced(State(), e) && maxSum == Sum(unread)
      ensures max == Sum(Capped(caches, unread, e.doc))
    {
      max := maxSum - SumAt(unread, IdsOf(ids, e.doc)) - e.neg;
    }

    /** Take the first pending documents and compute their bounds. */
    method LookAhead() returns (docs: seq<Doc>, lows: seq<real>, highs: seq<real>)
      requires |unread| == |caches| && forall e :: e in sorted ==> Priced(State(), e)
      ensures IsWindow(State(), docs, lows, highs)
    {
      ghost var p := State();
      var maxSum := Sum(unread);
      var order := InOrder(sorted);
      docs, lows, highs := [], [], [];
      for k := 0 to if |order| < ORDER_SIZE then |order| else ORDER_SIZE
        invariant |docs| == |lows| == |highs| == k
        invariant forall j {:trigger docs[j]} :: 0 <= j < k ==> Slot(p, order[j], docs[j], lows[j], highs[j])
      {
        var e := order[k];
        assert e in order && Priced(p, e);
        var max := UpperBound(e, maxSum);
        docs, lows, highs := docs + [e.doc], lows + [-e.neg], highs + [max];
      }
    }

    /** Can the window still be out of order? */
    method Violated() returns (violated: bool)
      requires |winMins| == |winMaxs|
      ensures violated <==> !WindowOk(winMins, winMaxs, Sum(unread))
    {
      violated := false;
      var i := 0;
      while i < |winMins| - ORDER_VIOLATION - 1 && !violated
        invariant 0 <= i
        invariant violated ==>
          exists a, b ::
            && 0 <= a < |winMins| - ORDER_VIOLATION - 1 && a + ORDER_VIOLATION <= b < |winMaxs|
            && winMaxs[b] > winMins[a]
        invariant !violated ==>
          forall a, b ::
            0 <= a < i && a < |winMins| - ORDER_VIOLATION - 1 && a + ORDER_VIOLATION <= b < |winMaxs| ==>
              winMaxs[b] <= winMins[a]
        decreases |winMins| - i, !violated
      {
        var j := i + ORDER_VIOLATION;
        while j < |winMaxs| && !violated
          invariant i + ORDER_VIOLATION <= j
          invariant violated ==> j < |winMaxs| && winMaxs[j] > winMins[i]
          invariant !violated ==> forall b :: i + ORDER_VIOLATION <= b < j && b < |winMaxs| ==> winMaxs[b] <= winMins[i]
          decreases |winMaxs| - j, !violated
        {
          if winMaxs[j] > winMins[i] { violated := true; } else { j := j + 1; }
        }
        if !violated { i := i + 1; }
      }
      if |winMins| == ORDER_SIZE && winMins[|winMins| - ORDER_VIOLATION] < Sum(unread) {
        violated := true;
      }
    }

    /** The list that promises most per element not yet cached, the first of equals. */
    method MostPromising() returns (best: nat)
      requires |unread| == |caches| == |lists| > 0
      ensures best < |lists| && Leads(lists, unread, caches, best)
      ensures forall j :: 0 <= j < best ==>
        Promise(unread[j], lists[j].length, |caches[j]|) < Promise(unread[best], lists[best].length, |caches[best]|)
    {
      best := 0;
      for i := 1 to |lists|
        invariant best < i
        invariant forall j :: 0 <= j < i ==>
          Promise(unread[j], lists[j].length, |caches[j]|) <= Promise(unread[best], lists[best].length, |caches[best]|)
        invariant forall j :: 0 <= j < best ==>
          Promise(unread[j], lists[j].length, |caches[j]|) < Promise(unread[best], lists[best].length, |caches[best]|)
      {
        var promise := Promise(unread[i], lists[i].length, |caches[i]|);
        if promise > Promise(unread[best], lists[best].length, |caches[best]|) { best := i; }
      }
    }

    /** Compute the window and test it. */
    method Examine() returns (violated: bool)
      requires |unread| == |caches| && forall e :: e in sorted ==> Priced(State(), e)
      modifies this`docids, this`winMins, this`winMaxs
      ensures IsWindow(State(), docids, winMins, winMaxs)
      ensures violated <==> !WindowOk(winMins, winMaxs, Sum(unread))
    {
      docids, winMins, winMaxs := LookAhead();
      violated := Violated();
    }

    /** Read on from the list that promises most. */
    method ReadOn() returns (i: nat)
      requires RightHits(lists, hits) && |pos| == |unread| == |caches| == |lists| > 0
      modifies this`pos, this`iters, this`unread, this`caches, this`ids, this`mins, this`sorted, this`cacheLen
      ensures i < |lists| && Leads(lists, old(unread), old(caches), i)
      ensures State() == ReadMany(old(State()), i, hits[i], CACHE_SIZE / 2)
      ensures cacheLen == Some(TotalSize(caches))
    {
      i := MostPromising();
      Precache(i, CACHE_SIZE / 2);
      cacheLen := Some(TotalSize(caches));
    }

    /** Read on after a rejected window. */
    method Retry(ghost start: Pool)
      requires RightHits(lists, hits) && |lists| > 0 && Ready(hits, State()) && Further(start, State())
      requires IsWindow(State(), docids, winMins, winMaxs) && !WindowOk(winMins, winMaxs, Sum(unread))
      modifies this`pos, this`iters, this`unread, this`caches, this`ids, this`mins, this`sorted, this`cacheLen
      ensures Ready(hits, State()) && Further(start, State())
      ensures 0 <= Work(hits, State()) < Work(hits, old(State()))
      ensures cacheLen == Some(TotalSize(caches)) && old(iters) != {} && !Accepts(old(State()))
    {
      ghost var p := State();
      assert !Accepts(p);
      var i := ReadOn();
      RejectedAdvances(lists, hits, p, docids, winMins, winMaxs, i);
      FurtherStill(start, p, State());
    }

    /** Compute the window and test it. */
    method Judge() returns (violated: bool)
      requires Ready(hits, State())
      modifies this`docids, this`winMins, this`winMaxs
      ensures IsWindow(State(), docids, winMins, winMaxs)
      ensures violated <==> !WindowOk(winMins, winMaxs, Sum(unread))
    {
      AllPriced(hits, State());
      violated := Examine();
    }

    /** Read on until the window cannot be out of order. */
    method Settle()
      requires RightHits(lists, hits) && |lists| > 0 && Ready(hits, State())
      modifies this`pos, this`iters, this`unread, this`caches, this`ids, this`mins, this`sorted, this`cacheLen
      modifies this`docids, this`winMins, this`winMaxs
      ensures Ready(hits, State()) && Further(old(State()), State())
      ensures IsWindow(State(), docids, winMins, winMaxs) && WindowOk(winMins, winMaxs, Sum(unread))
      ensures (State() == old(State()) && cacheLen == old(cacheLen)) || cacheLen == Some(TotalSize(caches))
      ensures old(iters) == {} || Accepts(old(State())) ==> State() == old(State())
    {
      ghost var start := State();
      ghost var moved := false;
      var violated := Judge();
      while violated
        invariant Ready(hits, State()) && Further(start, State())
        invariant if moved then cacheLen == Some(TotalSize(caches)) && start.iters != {} && !Accepts(start)
                  else State() == start && cacheLen == old(cacheLen)
        invariant IsWindow(State(), docids, winMins, winMaxs)
        invariant violated <==> !WindowOk(winMins, winMaxs, Sum(unread))
        decreases Work(hits, State())
      {
        Retry(start);
        moved := true;
        violated := Judge();
      }
    }

    /** Compute an acceptable window from scratch. */
    method NewWindow()
      requires RightHits(lists, hits) && IsTruth(truth, hits) && |lists| > 0 && Ready(hits, State())
      requires cacheLen == Some(TotalSize(caches))
      modifies this`pos, this`iters, this`unread, this`caches, this`ids, this`mins, this`sorted, this`cacheLen
      modifies this`docids, this`winMins, this`winMaxs, this`window
      ensures Prepared(truth, hits, State(), Window()) && Further(old(State()), State())
      ensures IsWindow(State(), docids, winMins, winMaxs) && WindowOk(winMins, winMaxs, Sum(unread)) && window == docids
      ensures old(iters) == {} || Accepts(old(State())) ==> State() == old(State())
    {
      Settle();
      window := docids;
      SettledAligned(truth, hits, State(), docids, winMins, winMaxs, cacheLen);
    }

    /** The first half of a resumption: keep the caches long enough and, when anything was read or the
        window runs low, compute an acceptable window. */
    method Prepare()
      requires Valid()
      modifies this`pos, this`iters, this`unread, this`caches, this`ids, this`mins, this`sorted, this`cacheLen
      modifies this`docids, this`winMins, this`winMaxs, this`window
      ensures Prepared(truth, hits, State(), Window())
      ensures Halfway(hits, old(State()), old(Window()), State(), Window())
    {
      ghost var p, v := State(), Window();
      var updated := Refill();
      ghost var q := State();
      RefilledStep(truth, hits, p, v, updated, cacheLen);
      if updated || (cacheLen.Some? && cacheLen.value > ORDER_VIOLATION && |docids| < ORDER_VIOLATION) {
        NewWindow();
        FurtherStill(p, q, State());
        NewHalfway(hits, p, v, State(), Window());
      }
    }

    /** Take document d out of one cache, raising the cap if it sat on it; dead when that cache had nothing
        else, on which max() fails. */
    method DropFrom(i: nat, d: Doc) returns (dead: bool)
      requires |caches| == |unread| && i < |caches| && d in caches[i] && cacheLen == Some(TotalSize(caches))
      modifies this`caches, this`unread, this`cacheLen
      ensures dead <==> OnlyOnCap(old(State()), i, d)
      ensures !dead ==> caches == old(caches)[i := old(caches)[i] - {d}] && cacheLen == Some(TotalSize(caches))
      ensures !dead ==> |unread| == |old(unread)| && unread == old(unread)[i := unread[i]]
      ensures !dead ==> CapAfter(old(caches)[i], d, old(unread)[i], unread[i])
    {
      var onCap := caches[i][d] == unread[i];
      var rest := caches[i] - {d};
      TotalSizeUpdate(caches, i, rest);
      CacheLoses(caches[i], d);
      dead := onCap && rest == map[];
      if !dead {
        caches := caches[i := rest];
        if onCap {
          var m := MaxValue(rest);
          unread := unread[i := m];
        }
        cacheLen := Some(cacheLen.value - 1);
      }
    }

    /** Take document d out of every cache; `dead` is the first list on which that fails. */
    method Withdraw(d: Doc) returns (dead: Option<nat>)
      requires |caches| == |unread| && cacheLen == Some(TotalSize(caches))
      modifies this`caches, this`unread, this`cacheLen
      ensures dead.None? ==> forall j :: 0 <= j < |old(caches)| ==> !OnlyOnCap(old(State()), j, d)
      ensures dead.Some? ==> OnlyOnCap(old(State()), dead.value, d)
      ensures dead.Some? ==> forall j :: 0 <= j < dead.value ==> !OnlyOnCap(old(State()), j, d)
      ensures dead.None? ==> caches == Purged(old(caches), d) && cacheLen == Some(TotalSize(caches))
      ensures dead.None? ==> CapsAfter(old(State()), d, unread)
    {
      ghost var p := State();
      for i := 0 to |caches|
        invariant Drained(p, caches, unread, i, d) && cacheLen == Some(TotalSize(caches))
        invariant forall j :: 0 <= j < i ==> !OnlyOnCap(p, j, d)
      {
        ghost var c, u := caches, unread;
        DrainedHere(p, c, u, i, d);
        if d in caches[i] {
          var stuck := DropFrom(i, d);
          if stuck { return Some(i); }
        }
        DrainedNext(p, c, u, i, d, caches, unread);
      }
      DrainedAll(p, caches, unread, d);
      dead := None;
    }

    /** Pop the first document of the window with its bounds. */
    method Pop() returns (docid: Doc, low: real, high: real)
      requires docids != [] && |docids| == |winMins| == |winMaxs|
      modifies this`docids, this`winMins, this`winMaxs
      ensures docid == old(docids[0]) && low == old(winMins[0]) && high == old(winMaxs[0])
      ensures Window() == Rest(old(Window()), cacheLen)
    {
      docid, low, high := docids[0], winMins[0], winMaxs[0];
      docids, winMins, winMaxs := docids[1..], winMins[1..], winMaxs[1..];
    }

    /** Record a document as yielded. */
    method Retire(docid: Doc, low: real)
      requires docid in mins && mins[docid] == low
      modifies this`used, this`sorted, this`mins
      ensures State() == Retired(old(State()), docid)
    {
      used := used + {docid};
      sorted := sorted - {Entry(-low, docid)};
      mins := mins - {docid};
    }

    /** Take a pending document out of the caches and record it as yielded. */
    method Release(docid: Doc, low: real) returns (dead: Option<nat>)
      requires docid in mins && mins[docid] == low
      requires |caches| == |unread| && cacheLen == Some(TotalSize(caches))
      modifies this`caches, this`unread, this`cacheLen, this`used, this`sorted, this`mins
      ensures dead.Some? ==> used == old(used) && OnlyOnCap(old(State()), dead.value, docid)
      ensures dead.None? ==> State() == Yielded(old(State()), docid, unread) && cacheLen == Some(TotalSize(caches))
      ensures dead.None? ==> CapsAfter(old(State()), docid, unread) && NoneOnCap(old(State()), docid)
    {
      ghost var p := State();
      dead := Withdraw(docid);
      if dead.None? {
        ghost var q := State();
        Retire(docid, low);
        YieldedInSteps(p, q, docid);
      }
    }

    /** The second half of a resumption: pop the window and give up the popped document. */
    method Emit() returns (r: Step)
      requires docids != [] && |docids| == |winMins| == |winMaxs|
      requires docids[0] in mins && mins[docids[0]] == winMins[0]
      requires |caches| == |unread| && cacheLen == Some(TotalSize(caches))
      modifies this`caches, this`unread, this`cacheLen, this`docids, this`winMins, this`winMaxs
      modifies this`used, this`sorted, this`mins
      ensures !r.Stop? && (r.Crash? ==> used == old(used) && OnlyOnCap(old(State()), r.list, old(docids[0])))
      ensures r.Yield? ==> GivenUp(old(State()), old(Window()), State(), Window(), (r.doc, r.weight))
    {
      var docid, low, high := Pop();
      var dead := Release(docid, low);
      if dead.Some? { return Crash(dead.value); }
      var weight := Middle(low, high);
      return Yield(docid, weight);
    }

    /** One resumption of the generator, as one turn t of a run. A document is yielded that was not yielded
        before, weighed by the midpoint of its bounds; or the merge ends, with at most one read document
        left, exactly when it was stranded; or it raises, on a long list of which the first 610 documents
        came out but for one. */
    method Pull() returns (r: Step, ghost t: Turn)
      requires Valid()
      modifies this
      ensures t.p == old(State()) && t.v == old(Window()) && TurnOk(truth, hits, t)
      ensures r.Yield? ==> Valid() && Linked(t, State(), Window(), (r.doc, r.weight)) && used == old(used) + {r.doc}
      ensures r.Yield? ==> Fit(truth, hits, old(used), window, |docids|, r.doc, r.weight, t.x.mins[0], t.x.maxs[0])
      ensures r.Yield? && old(Stranded(State(), Window())) ==> Stranded(State(), Window())
      ensures r.Stop? ==> Valid() && State() == t.m && EndsWith(t, Exhausted) && Spent(hits, State())
      ensures r.Stop? ==> used == old(used) && (sorted != {} <==> old(Stranded(State(), Window())))
      ensures r.Crash? ==> EndsWith(t, EmptyCache) && used == old(used) && RaisesOn(hits, used, r.list, t.x.docids[0])
      ensures r.Crash? ==> !old(Stranded(State(), Window()))
    {
      ghost var p, v := State(), Window();
      Prepare();
      t := Turn(p, v, State(), Window());
      if docids == [] {
        TurnStops(truth, hits, t);
        return Stop, t;
      }
      FirstIsPending(truth, hits, t.m, t.x);
      r := Emit();
      if r.Crash? {
        TurnRaises(truth, hits, t, r.list);
      } else {
        TurnYields(truth, hits, t, State(), Window(), (r.doc, r.weight));
      }
    }

    /** The run so far has led here. */
    ghost predicate Running(turns: seq<Turn>, out: seq<Scored>)
      reads this
    {
      Valid() && |turns| == |out| && Continues(truth, hits, turns, out, State(), Window())
    }

    /** One pass of the loop that collects the results. */
    method Collect(out: seq<Scored>, ghost turns: seq<Turn>)
      returns (next: seq<Scored>, end: Option<Ending>, ghost passed: seq<Turn>)
      requires Running(turns, out)
      modifies this
      ensures end.None? ==> Running(passed, next) && |next| == |out| + 1
      ensures end.None? ==> used == old(used) + {next[|out|].0} && next[|out|].0 in AllDocs(hits) - old(used)
      ensures end.Some? ==> Ran(truth, hits, passed, next, end.value) && used == passed[|next|].m.used
      ensures end == Some(Exhausted) ==> State() == passed[|next|].m
    {
      ghost var p, v := State(), Window();
      assert Continues(truth, hits, turns, out, p, v);
      var r;
      ghost var t;
      r, t := Pull();
      passed := turns + [t];
      if r.Yield? {
        next, end := out + [(r.doc, r.weight)], None;
        RunContinues(truth, hits, turns, out, t, State(), Window(), (r.doc, r.weight));
      } else {
        next, end := out, Some(if r.Stop? then Exhausted else EmptyCache);
        RunEnds(truth, hits, turns, out, t, end.value);
      }
    }

    /** Run the generator to its end. The turns of the run, each starting from what the one before left, tell
        what is behind the results. */
    method Drain() returns (out: seq<Scored>, end: Ending, ghost turns: seq<Turn>)
      requires Valid() && AtStart(hits, State(), Window())
      modifies this
      ensures Ran(truth, hits, turns, out, end) && used == turns[|out|].m.used
      ensures Outcome(hits, truth, used, out) && InOrderRun(truth, hits, turns, out)
      ensures end.Exhausted? ==> State() == turns[|out|].m && |sorted| <= 1
      ensures end.Exhausted? ==> (sorted != {} <==> exists k: nat :: StrandedAt(turns, k))
    {
      out, turns := [], [];
      var ended: Option<Ending> := None;
      while ended.None?
        invariant ended.None? ==> Running(turns, out) && used <= AllDocs(hits)
        invariant ended.Some? ==> Ran(truth, hits, turns, out, ended.value) && used == turns[|out|].m.used
        invariant ended == Some(Exhausted) ==> State() == turns[|out|].m
        decreases ended.None?, AllDocs(hits) - used
      {
        out, ended, turns := Collect(out, turns);
      }
      end := ended.value;
      RanResults(truth, hits, turns, out, end);
      if end.Exhausted? { LeftBehindIff(truth, hits, turns, out); }
    }
  }

  /** What merging a single list yields: its documents best first, each with its exact score. */
  function Alone(h: seq<Hit>): seq<Scored> {
    seq(|h|, k requires 0 <= k < |h| => (h[k].doc, h[k].score))
  }

  /** With one list the total is the score, and known exactly. */
  lemma AloneAt(h: seq<Hit>, k: nat)
    requires Descending(h) && k < |h|
    ensures Total([h], h[k].doc) == h[k].score && Estimates([h], h[k].doc, h[k].score, h[k].score)
  {
    var hits, d := [h], h[k].doc;
    assert Among(h, |h|, d);
    ScoreAt(h, k);
    var column := seq(1, i requires 0 <= i < 1 => ScoreIn(hits[i], d));
    assert column[..0] == [];
    assert Total(hits, d) == Sum(column) == column[0];
    assert InBounds(hits[0], d, column[0], column[0]) && ReadIn(hits[0], d, column[0], column[0]);
    assert ListBounds(hits, d, column, column);
  }

  lemma AloneDocs(h: seq<Hit>)
    ensures AllDocs([h]) == DocsRead(h, |h|)
  {
    assert [h][..0] == [];
  }

  lemma AloneAccurate(h: seq<Hit>)
    requires Descending(h)
    ensures Accurate([h], Totals([h]), Alone(h)) && NoRepeats(Alone(h))
  {
    var hits, out := [h], Alone(h);
    AloneDocs(h);
    forall k | 0 <= k < |out|
      ensures out[k].0 in AllDocs(hits) && Weighed(hits, out[k].0, Totals(hits)(out[k].0), out[k].1)
    {
      AloneAt(h, k);
      IsWeighed(hits, out[k].0, h[k].score, h[k].score, h[k].score, h[k].score);
      assert Among(h, |h|, out[k].0);
    }
  }

  lemma AloneOutcome(h: seq<Hit>)
    requires Descending(h)
    ensures Outcome([h], Totals([h]), DocsRead(h, |h|), Alone(h))
  {
    var out := Alone(h);
    AloneAccurate(h);
    forall d | true
      ensures d in DocsRead(h, |h|) <==> CameOut(out, d)
    {
      if Among(h, |h|, d) {
        var k :| 0 <= k < |h| && h[k].doc == d;
        assert out[k].0 == d;
      }
    }
  }

  /** Entry e came out, with what it is worth. */
  ghost predicate ComesOutAs(out: seq<Scored>, e: Entry, weight: real) {
    exists k :: 0 <= k < |out| && out[k].0 == e.doc && Worth(e, weight, out[k].1)
  }

  lemma AloneComesOut(l: Ranked, e: Entry)
    requires e in l.tree
    ensures ComesOutAs(Alone(Hits(l)), e, l.weight)
  {
    var k := EntryAt(l, e);
    WeightedWorth(e, l.weight);
    assert Alone(Hits(l))[k].0 == e.doc && Worth(e, l.weight, Alone(Hits(l))[k].1);
  }

  lemma AloneInOrder(l: Ranked, j: nat, k: nat)
    requires IsRanked(l) && j < k < |Alone(Hits(l))|
    ensures Before(Alone(Hits(l))[j], Alone(Hits(l))[k])
  {
    var order, out := InOrder(l.tree), Alone(Hits(l));
    assert out[j] == (order[j].doc, Weighted(order[j], l.weight));
    assert out[k] == (order[k].doc, Weighted(order[k], l.weight));
    HeavierFirst(order[j], order[k], l.weight);
  }

  /** The single list in words: every entry of the tree comes out with its weighted score, nothing else does,
      and better ones come first, of equal ones the smaller id. */
  lemma AloneInWords(l: Ranked)
    requires IsRanked(l)
    ensures |Alone(Hits(l))| == |l.tree|
    ensures forall e {:trigger ComesOutAs(Alone(Hits(l)), e, l.weight)} ::
              e in l.tree ==> ComesOutAs(Alone(Hits(l)), e, l.weight)
    ensures forall j, k :: 0 <= j < k < |Alone(Hits(l))| ==> Before(Alone(Hits(l))[j], Alone(Hits(l))[k])
  {
    var out := Alone(Hits(l));
    forall e | e in l.tree
      ensures ComesOutAs(out, e, l.weight)
    {
      AloneComesOut(l, e);
    }
    forall j, k | 0 <= j < k < |out|
      ensures Before(out[j], out[k])
    {
      AloneInOrder(l, j, k);
    }
  }

  lemma HeavierFirst(a: Entry, b: Entry, w: real)
    requires w > 0.0 && Below(a, b)
    ensures Weighted(a, w) > Weighted(b, w) || (a.neg == b.neg && a.doc < b.doc)
  {
    if a.neg != b.neg { assert (b.neg - a.neg) * w > 0.0; }
  }

  /** The single-list branch: iterate the tree. */
  method UnionOfOne(l: Ranked) returns (out: seq<Scored>)
    ensures out == Alone(Hits(l))
  {
    var order := InOrder(l.tree);
    out := [];
    for k := 0 to |order|
      invariant out == Alone(Hits(l))[..k]
    {
      out := out + [(order[k].doc, Weighted(order[k], l.weight))];
    }
  }

  /** minKey() fails on the first empty tree. */
  method AnyEmpty(lists: seq<Ranked>) returns (found: bool)
    ensures found <==> exists i :: 0 <= i < |lists| && lists[i].tree == {}
  {
    found := false;
    var i := 0;
    while i < |lists| && !found
      invariant 0 <= i <= |lists|
      invariant found <==> exists j :: 0 <= j < i && lists[j].tree == {}
    {
      if lists[i].tree == {} { found := true; }
      i := i + 1;
    }
  }

  /** What the merge of two lists or more promises: results weighed, once each and in the order of its
      turns; when it is exhausted, the first 650 documents of every list save one and the same; when it
      raises, a list of 610 elements or more; for short lists exactly which results; and what the lengths
      of the lists and their shared documents tell beforehand. */
  ghost predicate Delivered(hits: seq<seq<Hit>>, turns: seq<Turn>, out: seq<Scored>, end: Ending, used: set<Doc>,
                            odd: Doc)
  {
    && Ran(Totals(hits), hits, turns, out, end) && InOrderRun(Totals(hits), hits, turns, out)
    && (end == Exhausted ==> forall i :: 0 <= i < |hits| ==> AllBut(hits, used, i, odd))
    && (end == EmptyCache ==> exists i: nat :: RaisesOn(hits, used, i, odd))
    && (Brief(hits) ==> end == Exhausted && out == ShortResult(Totals(hits), hits))
    && WithinLimits(Totals(hits), hits, out, end)
  }

  lemma RunDelivers(hits: seq<seq<Hit>>, turns: seq<Turn>, out: seq<Scored>, end: Ending) returns (odd: Doc)
    requires Ran(Totals(hits), hits, turns, out, end)
    ensures Delivered(hits, turns, out, end, turns[|out|].m.used, odd)
  {
    RanInOrder(Totals(hits), hits, turns, out, end);
    RanWithinLimits(Totals(hits), hits, turns, out, end);
    if Brief(hits) { ShortRun(Totals(hits), hits, turns, out, end); }
    if end == Exhausted {
      odd := RanComplete(Totals(hits), hits, turns, out);
    } else {
      ghost var i;
      i, odd := RanRaises(Totals(hits), hits, turns, out);
    }
  }

  /** list(mass_weightedUnion(lists)): nothing for no list, the list itself for one, and otherwise the merge,
      unless one of the lists is empty. */
  method MassWeightedUnion(lists: seq<Ranked>)
    returns (out: seq<Scored>, end: Ending, ghost used: set<Doc>, ghost odd: Doc, ghost turns: seq<Turn>)
    requires forall i :: 0 <= i < |lists| ==> IsRanked(lists[i])
    ensures end == EmptyTree <==> |lists| >= 2 && exists i :: 0 <= i < |lists| && lists[i].tree == {}
    ensures Outcome(AllHits(lists), Totals(AllHits(lists)), used, out)
    ensures |lists| == 1 ==> end == Exhausted && out == Alone(Hits(lists[0]))
    ensures |lists| == 1 ==> forall e {:trigger ComesOutAs(out, e, lists[0].weight)} ::
              e in lists[0].tree ==> ComesOutAs(out, e, lists[0].weight)
    ensures lists == [] ==> end == Exhausted
    ensures end == EmptyTree || lists == [] ==> out == []
    ensures |lists| >= 2 && end != EmptyTree ==> Delivered(AllHits(lists), turns, out, end, used, odd)
  {
    ghost var hits := AllHits(lists);
    used, odd, turns, out, end := {}, 0, [], [], Exhausted;
    if |lists| == 1 {
      out := UnionOfOne(lists[0]);
      RankedDescends(lists[0]);
      AloneOutcome(Hits(lists[0]));
      AloneInWords(lists[0]);
      used := DocsRead(Hits(lists[0]), |Hits(lists[0])|);
      assert hits == [Hits(lists[0])];
    } else if |lists| >= 2 {
      var empty := AnyEmpty(lists);
      if empty { return [], EmptyTree, {}, 0, []; }
      out, end, used, odd, turns := UnionOfMany(lists);
    }
  }

  method UnionOfMany(lists: seq<Ranked>)
    returns (out: seq<Scored>, end: Ending, ghost used: set<Doc>, ghost odd: Doc, ghost turns: seq<Turn>)
    requires |lists| >= 2 && forall i :: 0 <= i < |lists| ==> IsRanked(lists[i]) && lists[i].tree != {}
    ensures Outcome(AllHits(lists), Totals(AllHits(lists)), used, out)
    ensures end != EmptyTree && Delivered(AllHits(lists), turns, out, end, used, odd)
  {
    var merge := new Merge(lists);
    out, end, turns := merge.Drain();
    used := merge.used;
    odd := RunDelivers(AllHits(lists), turns, out, end);
  }
}
