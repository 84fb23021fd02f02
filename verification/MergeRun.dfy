/** Whole runs of the lazy merge: the turns a run is made of, and what every run delivers. */
module MergeRun {
  import opened Wrappers
  import opened Sequences
  import opened SortedSets
  import opened Scores
  import opened MergePool
  import opened MergeCounts
  import opened MergeView

  /** How a merge ends: normally, in minKey() of an empty tree, or in max() of an empty cache. */
  datatype Ending = Exhausted | EmptyTree | EmptyCache

  type Scored = (Doc, real)

  /** One resumption of the generator: the state and the window it starts from, and those from which a
      document is yielded or the merge ends. */
  datatype Turn = Turn(p: Pool, v: View, m: Pool, x: View)

  ghost predicate TurnOk(truth: Doc -> real, hits: seq<seq<Hit>>, t: Turn) {
    && |hits| > 0 && IsTruth(truth, hits)
    && Coherent(truth, hits, t.p, t.v) && Prepared(truth, hits, t.m, t.x) && Halfway(hits, t.p, t.v, t.m, t.x)
  }

  ghost predicate NoneOnCap(p: Pool, d: Doc) {
    forall i {:trigger OnlyOnCap(p, i, d)} :: 0 <= i < |p.caches| ==> !OnlyOnCap(p, i, d)
  }

  /** From (m, x) the result s was yielded, and (q, w) is what that left. */
  ghost predicate GivenUp(m: Pool, x: View, q: Pool, w: View, s: Scored) {
    && x.docids != [] && |x.docids| == |x.mins| == |x.maxs|
    && s.0 == x.docids[0] && s.1 + s.1 == x.mins[0] + x.maxs[0] && s.0 in m.mins
    && q == Yielded(m, s.0, q.unread) && CapsAfter(m, s.0, q.unread) && NoneOnCap(m, s.0)
    && w == Rest(x, Some(TotalSize(q.caches)))
  }

  ghost predicate Linked(t: Turn, q: Pool, w: View, s: Scored) {
    GivenUp(t.m, t.x, q, w, s)
  }

  ghost predicate AtStart(hits: seq<seq<Hit>>, p: Pool, v: View) {
    && (forall i :: 0 <= i < |hits| ==> hits[i] != [])
    && p == Fresh(hits) && v == View([], [], [], [], None)
  }

  /** (p, v) is what turn k starts from. */
  ghost predicate Incoming(hits: seq<seq<Hit>>, turns: seq<Turn>, out: seq<Scored>, k: nat, p: Pool, v: View)
    requires k <= |turns| && k <= |out|
  {
    if k == 0 then AtStart(hits, p, v) else Linked(turns[k - 1], p, v, out[k - 1])
  }

  ghost predicate StepAt(truth: Doc -> real, hits: seq<seq<Hit>>, turns: seq<Turn>, out: seq<Scored>, k: nat)
    requires k < |turns| && k <= |out|
  {
    TurnOk(truth, hits, turns[k]) && Incoming(hits, turns, out, k, turns[k].p, turns[k].v)
  }

  /** The turns of a run so far, each starting from what the one before it left. */
  ghost predicate Steps(truth: Doc -> real, hits: seq<seq<Hit>>, turns: seq<Turn>, out: seq<Scored>) {
    && |turns| <= |out| + 1
    && forall k: nat {:trigger StepAt(truth, hits, turns, out, k)} ::
         k < |turns| ==> StepAt(truth, hits, turns, out, k)
  }

  /** The last turn ends the merge: nothing is left in its window, or its document is all an open list has
      cached and sits on that list's cap. */
  ghost predicate EndsWith(t: Turn, end: Ending) {
    match end
    case Exhausted => t.x.docids == []
    case EmptyCache => t.x.docids != [] && !NoneOnCap(t.m, t.x.docids[0])
    case EmptyTree => false
  }

  /** A whole run of the generator with its results. */
  ghost predicate Ran(truth: Doc -> real, hits: seq<seq<Hit>>, turns: seq<Turn>, out: seq<Scored>, end: Ending) {
    && Steps(truth, hits, turns, out) && |turns| == |out| + 1
    && EndsWith(turns[|out|], end)
  }

  /** What a turn starts from depends on the turn before it and its result only. */
  lemma SameIncoming(hits: seq<seq<Hit>>, turns: seq<Turn>, out: seq<Scored>, turns1: seq<Turn>, out1: seq<Scored>,
                     k: nat, p: Pool, v: View)
    requires k <= |turns| && k <= |out| && k <= |turns1| && k <= |out1|
    requires k > 0 ==> turns[k - 1] == turns1[k - 1] && out[k - 1] == out1[k - 1]
    requires Incoming(hits, turns, out, k, p, v)
    ensures Incoming(hits, turns1, out1, k, p, v)
  {
  }

  lemma LastStep(truth: Doc -> real, hits: seq<seq<Hit>>, turns: seq<Turn>, out: seq<Scored>, t: Turn)
    requires |turns| == |out|
    requires TurnOk(truth, hits, t) && Incoming(hits, turns, out, |turns|, t.p, t.v)
    ensures StepAt(truth, hits, turns + [t], out, |turns|)
  {
    SameIncoming(hits, turns, out, turns + [t], out, |turns|, t.p, t.v);
  }

  lemma StepsExtend(truth: Doc -> real, hits: seq<seq<Hit>>, turns: seq<Turn>, out: seq<Scored>, t: Turn)
    requires Steps(truth, hits, turns, out) && |turns| == |out|
    requires TurnOk(truth, hits, t) && Incoming(hits, turns, out, |turns|, t.p, t.v)
    ensures Steps(truth, hits, turns + [t], out)
  {
    var next := turns + [t];
    LastStep(truth, hits, turns, out, t);
    forall k: nat | k < |turns|
      ensures StepAt(truth, hits, next, out, k)
    {
      assert StepAt(truth, hits, turns, out, k);
      SameIncoming(hits, turns, out, next, out, k, turns[k].p, turns[k].v);
    }
  }

  lemma ResultExtends(truth: Doc -> real, hits: seq<seq<Hit>>, turns: seq<Turn>, out: seq<Scored>,
                      q: Pool, w: View, s: Scored)
    requires Steps(truth, hits, turns, out) && |turns| == |out| + 1
    requires Linked(turns[|out|], q, w, s)
    ensures Steps(truth, hits, turns, out + [s]) && Incoming(hits, turns, out + [s], |turns|, q, w)
  {
    var next := out + [s];
    forall k: nat | k < |turns|
      ensures StepAt(truth, hits, turns, next, k)
    {
      assert StepAt(truth, hits, turns, out, k);
      SameIncoming(hits, turns, out, turns, next, k, turns[k].p, turns[k].v);
    }
  }

  /** The run so far, and what its next turn starts from. */
  ghost predicate Continues(truth: Doc -> real, hits: seq<seq<Hit>>, turns: seq<Turn>, out: seq<Scored>, p: Pool,
                            v: View)
  {
    |turns| == |out| && Steps(truth, hits, turns, out) && Incoming(hits, turns, out, |turns|, p, v)
  }

  lemma RunContinues(truth: Doc -> real, hits: seq<seq<Hit>>, turns: seq<Turn>, out: seq<Scored>, t: Turn,
                     q: Pool, w: View, s: Scored)
    requires Continues(truth, hits, turns, out, t.p, t.v) && TurnOk(truth, hits, t) && Linked(t, q, w, s)
    ensures Continues(truth, hits, turns + [t], out + [s], q, w)
  {
    StepsExtend(truth, hits, turns, out, t);
    ResultExtends(truth, hits, turns + [t], out, q, w, s);
  }

  lemma RunEnds(truth: Doc -> real, hits: seq<seq<Hit>>, turns: seq<Turn>, out: seq<Scored>, t: Turn, end: Ending)
    requires Continues(truth, hits, turns, out, t.p, t.v) && TurnOk(truth, hits, t) && EndsWith(t, end)
    ensures Ran(truth, hits, turns + [t], out, end) && (turns + [t])[|out|] == t && t.m.used == t.p.used
  {
    StepsExtend(truth, hits, turns, out, t);
  }

  /** Turn k. */
  lemma TurnAt(truth: Doc -> real, hits: seq<seq<Hit>>, turns: seq<Turn>, out: seq<Scored>, k: nat)
    requires Steps(truth, hits, turns, out) && k < |turns|
    ensures k <= |out| && TurnOk(truth, hits, turns[k])
  {
    assert StepAt(truth, hits, turns, out, k);
  }

  /** The result of turn k leads to the next turn. */
  lemma LinkAt(truth: Doc -> real, hits: seq<seq<Hit>>, turns: seq<Turn>, out: seq<Scored>, k: nat)
    requires Steps(truth, hits, turns, out) && k + 1 < |turns|
    ensures Linked(turns[k], turns[k + 1].p, turns[k + 1].v, out[k])
  {
    var n := k + 1;
    assert StepAt(truth, hits, turns, out, n);
  }

  lemma FirstTurn(truth: Doc -> real, hits: seq<seq<Hit>>, turns: seq<Turn>, out: seq<Scored>)
    requires Steps(truth, hits, turns, out) && turns != []
    ensures AtStart(hits, turns[0].p, turns[0].v)
  {
    assert StepAt(truth, hits, turns, out, 0);
  }

  // ---- what comes out --------------------------------------------------------------------------

  ghost predicate NoRepeats(out: seq<Scored>) {
    forall i, j :: 0 <= i < j < |out| ==> out[i].0 != out[j].0
  }

  ghost predicate CameOut(out: seq<Scored>, d: Doc) {
    exists k :: 0 <= k < |out| && out[k].0 == d
  }

  /** Every result is a document of some list with the midpoint of an interval holding its true total. */
  ghost predicate Accurate(hits: seq<seq<Hit>>, truth: Doc -> real, out: seq<Scored>) {
    forall k :: 0 <= k < |out| ==>
      && out[k].0 in AllDocs(hits)
      && Weighed(hits, out[k].0, truth(out[k].0), out[k].1)
  }

  ghost predicate Outcome(hits: seq<seq<Hit>>, truth: Doc -> real, used: set<Doc>, out: seq<Scored>) {
    && NoRepeats(out) && Accurate(hits, truth, out)
    && forall d {:trigger CameOut(out, d)} :: d in used <==> CameOut(out, d)
  }

  lemma OutcomeExtends(hits: seq<seq<Hit>>, truth: Doc -> real, used: set<Doc>, out: seq<Scored>, s: Scored)
    requires Outcome(hits, truth, used, out) && s.0 !in used && s.0 in AllDocs(hits)
    requires Weighed(hits, s.0, truth(s.0), s.1)
    ensures Outcome(hits, truth, used + {s.0}, out + [s])
  {
    var next := out + [s];
    assert !CameOut(out, s.0);
    forall x | true
      ensures CameOut(next, x) <==> CameOut(out, x) || x == s.0
    {
      if CameOut(out, x) {
        var k :| 0 <= k < |out| && out[k].0 == x;
        assert next[k].0 == x;
      }
      if x == s.0 { assert next[|out|].0 == s.0; }
    }
  }

  /** What a turn yields is new, a document of the lists, and weighed. */
  lemma LinkedIsFit(truth: Doc -> real, hits: seq<seq<Hit>>, t: Turn, q: Pool, w: View, s: Scored)
    requires TurnOk(truth, hits, t) && Linked(t, q, w, s)
    ensures s.0 !in t.p.used && s.0 in AllDocs(hits) && q.used == t.p.used + {s.0}
    ensures Weighed(hits, s.0, truth(s.0), s.1)
  {
    FirstIsFit(truth, hits, t.m, t.x, s.1);
    IsWeighed(hits, s.0, truth(s.0), s.1, t.x.mins[0], t.x.maxs[0]);
  }

  lemma ResultIsFit(truth: Doc -> real, hits: seq<seq<Hit>>, turns: seq<Turn>, out: seq<Scored>, k: nat)
    requires Steps(truth, hits, turns, out) && k + 1 < |turns|
    ensures turns[k + 1].p.used == turns[k].p.used + {out[k].0}
    ensures out[k].0 !in turns[k].p.used && out[k].0 in AllDocs(hits)
    ensures Weighed(hits, out[k].0, truth(out[k].0), out[k].1)
  {
    TurnAt(truth, hits, turns, out, k);
    LinkAt(truth, hits, turns, out, k);
    LinkedIsFit(truth, hits, turns[k], turns[k + 1].p, turns[k + 1].v, out[k]);
  }

  /** The results before turn k are the documents yielded by then, each once and well weighed. */
  lemma {:induction false} OutcomeAt(truth: Doc -> real, hits: seq<seq<Hit>>, turns: seq<Turn>, out: seq<Scored>,
                                     k: nat)
    requires Steps(truth, hits, turns, out) && k < |turns|
    ensures k <= |out| && Outcome(hits, truth, turns[k].p.used, out[..k])
  {
    if k == 0 {
      FirstTurn(truth, hits, turns, out);
    } else {
      OutcomeAt(truth, hits, turns, out, k - 1);
      ResultIsFit(truth, hits, turns, out, k - 1);
      OutcomeExtends(hits, truth, turns[k - 1].p.used, out[..k - 1], out[k - 1]);
      PrefixSnoc(out, k);
    }
  }

  /** All results of a run. */
  lemma RanOutcome(truth: Doc -> real, hits: seq<seq<Hit>>, turns: seq<Turn>, out: seq<Scored>, end: Ending)
    requires Ran(truth, hits, turns, out, end)
    ensures Outcome(hits, truth, turns[|out|].m.used, out)
  {
    OutcomeAt(truth, hits, turns, out, |out|);
    TurnAt(truth, hits, turns, out, |out|);
    assert out[..|out|] == out;
  }

  // ---- what is left behind ---------------------------------------------------------------------

  /** A turn that has nothing to yield but something pending is stranded. */
  lemma NothingLeft(truth: Doc -> real, hits: seq<seq<Hit>>, t: Turn)
    requires TurnOk(truth, hits, t) && t.x.docids == []
    ensures t.m.sorted != {} ==> Stranded(t.m, t.x)
    ensures Spent(hits, t.m)
  {
    if !Renews(t.p, t.v, |hits|) { KeptWindow(truth, hits, t.p, t.v); }
    StopIsSpent(truth, hits, t.m, t.x);
  }

  /** A stranded merge reads nothing, so its next turn is stranded. */
  lemma StrandedTurn(truth: Doc -> real, hits: seq<seq<Hit>>, t: Turn)
    requires TurnOk(truth, hits, t) && Stranded(t.p, t.v)
    ensures Stranded(t.m, t.x)
  {
    StrandedKeeps(t.p, t.v, |hits|);
  }

  /** What follows a stranded turn is stranded. */
  lemma StrandedNext(truth: Doc -> real, hits: seq<seq<Hit>>, t: Turn, s: Scored, u: Turn)
    requires TurnOk(truth, hits, t) && TurnOk(truth, hits, u) && Linked(t, u.p, u.v, s) && Stranded(t.m, t.x)
    ensures Stranded(u.m, u.x)
  {
    YieldDone(truth, hits, t.m, t.x, u.p, u.v);
    StrandedTurn(truth, hits, u);
  }

  lemma StrandedStep(truth: Doc -> real, hits: seq<seq<Hit>>, turns: seq<Turn>, out: seq<Scored>, k: nat)
    requires Steps(truth, hits, turns, out) && k + 1 < |turns| && Stranded(turns[k].m, turns[k].x)
    ensures Stranded(turns[k + 1].m, turns[k + 1].x)
  {
    var n := k + 1;
    TurnAt(truth, hits, turns, out, k);
    TurnAt(truth, hits, turns, out, n);
    LinkAt(truth, hits, turns, out, k);
    StrandedNext(truth, hits, turns[k], out[k], turns[n]);
  }

  lemma {:induction false} StrandedStays(truth: Doc -> real, hits: seq<seq<Hit>>, turns: seq<Turn>, out: seq<Scored>,
                                         j: nat, k: nat)
    requires Steps(truth, hits, turns, out) && j <= k < |turns| && Stranded(turns[j].m, turns[j].x)
    ensures Stranded(turns[k].m, turns[k].x)
  {
    if j < k {
      StrandedStays(truth, hits, turns, out, j, k - 1);
      StrandedStep(truth, hits, turns, out, k - 1);
    }
  }

  ghost predicate StrandedAt(turns: seq<Turn>, k: nat) {
    k < |turns| && Stranded(turns[k].m, turns[k].x)
  }

  /** A run to exhaustion leaves a read document behind, and then exactly one, if and only if it passes a
      stranded turn. */
  lemma LeftBehindIff(truth: Doc -> real, hits: seq<seq<Hit>>, turns: seq<Turn>, out: seq<Scored>)
    requires Ran(truth, hits, turns, out, Exhausted)
    ensures |turns[|out|].m.sorted| <= 1
    ensures turns[|out|].m.sorted != {} <==> exists k: nat :: StrandedAt(turns, k)
  {
    var last := turns[|out|];
    TurnAt(truth, hits, turns, out, |out|);
    NothingLeft(truth, hits, last);
    if last.m.sorted != {} { assert StrandedAt(turns, |out|); }
    if exists k: nat :: StrandedAt(turns, k) {
      var k: nat :| StrandedAt(turns, k);
      StrandedStays(truth, hits, turns, out, k, |out|);
    }
  }

  /** A run to exhaustion yields the first 650 documents of every list, or all when it has fewer, save for
      one and the same document. */
  lemma RanComplete(truth: Doc -> real, hits: seq<seq<Hit>>, turns: seq<Turn>, out: seq<Scored>) returns (d: Doc)
    requires Ran(truth, hits, turns, out, Exhausted)
    ensures forall i :: 0 <= i < |hits| ==> AllBut(hits, turns[|out|].m.used, i, d)
  {
    TurnAt(truth, hits, turns, out, |out|);
    NothingLeft(truth, hits, turns[|out|]);
    d := SpentComplete(hits, turns[|out|].m);
  }

  lemma SpentLoses(hits: seq<seq<Hit>>, p: Pool, out: seq<Scored>, d: Doc)
    requires Inv(hits, p) && Spent(hits, p) && d in AllDocs(hits) && (d in p.used <==> CameOut(out, d))
    ensures CameOut(out, d) || d in p.mins || (p.iters != {} && NotRead(hits, p.pos, d))
    ensures p.iters != {} ==> (CameOut(out, d) <==> !NotRead(hits, p.pos, d))
  {
    ReadIsUsedOrPending(hits, p, d);
    if d in p.mins { assert HasEntry(p.mins, p.sorted, d); }
    if p.iters == {} {
      var i := AllDocsAmong(hits, d);
      assert Among(hits[i], p.pos[i], d);
    }
  }

  /** What a run to exhaustion loses. When a list is still open at the end, exactly the documents that were
      not read from any list; otherwise no document but the one still pending. */
  lemma RanLoses(truth: Doc -> real, hits: seq<seq<Hit>>, turns: seq<Turn>, out: seq<Scored>)
    requires Ran(truth, hits, turns, out, Exhausted)
    ensures var p := turns[|out|].m;
            && |p.pos| == |hits| && |p.sorted| <= 1
            && forall d {:trigger CameOut(out, d)} :: d in AllDocs(hits) ==>
                 if p.iters != {} then CameOut(out, d) <==> !NotRead(hits, p.pos, d)
                 else CameOut(out, d) || d in p.mins
  {
    var p := turns[|out|].m;
    TurnAt(truth, hits, turns, out, |out|);
    NothingLeft(truth, hits, turns[|out|]);
    RanOutcome(truth, hits, turns, out, Exhausted);
    forall d | d in AllDocs(hits)
      ensures if p.iters != {} then CameOut(out, d) <==> !NotRead(hits, p.pos, d) else CameOut(out, d) || d in p.mins
    {
      SpentLoses(hits, p, out, d);
    }
  }

  /** Of list i at least 610 documents were read, and of its first 610 only d has not come out. */
  ghost predicate RaisesOn(hits: seq<seq<Hit>>, used: set<Doc>, i: nat, d: Doc) {
    i < |hits| && |hits[i]| >= RAISE_DEPTH && d !in used
    && forall x :: Among(hits[i], RAISE_DEPTH, x) ==> x in used || x == d
  }

  lemma OnCapRaises(hits: seq<seq<Hit>>, p: Pool, i: nat, d: Doc)
    requires Ready(hits, p) && OnlyOnCap(p, i, d)
    ensures i in p.iters && RaisesOn(hits, p.used, i, d)
  {
    CrashNeedsWear(hits, p, i, d);
    assert CacheOf(hits[i], p.pos[i], p.used, p.caches[i]);
    forall x | Among(hits[i], RAISE_DEPTH, x)
      ensures Among(hits[i], p.pos[i], x)
    {
    }
  }

  /** A run that raises does so on a list of 610 elements or more, most of which have come out. */
  lemma RanRaises(truth: Doc -> real, hits: seq<seq<Hit>>, turns: seq<Turn>, out: seq<Scored>) returns (i: nat, d: Doc)
    requires Ran(truth, hits, turns, out, EmptyCache)
    ensures RaisesOn(hits, turns[|out|].m.used, i, d)
  {
    var t := turns[|out|];
    TurnAt(truth, hits, turns, out, |out|);
    d := t.x.docids[0];
    i :| 0 <= i < |t.m.caches| && OnlyOnCap(t.m, i, d);
    OnCapRaises(hits, t.m, i, d);
  }

  /** With every list shorter than 610 a run never raises, and all documents come out but at most one. */
  lemma ShorterNeverRaises(truth: Doc -> real, hits: seq<seq<Hit>>, turns: seq<Turn>, out: seq<Scored>, end: Ending)
    returns (d: Doc)
    requires Ran(truth, hits, turns, out, end) && forall i :: 0 <= i < |hits| ==> |hits[i]| < RAISE_DEPTH
    ensures end == Exhausted && forall x :: x in AllDocs(hits) ==> CameOut(out, x) || x == d
  {
    if end == EmptyCache {
      var i: nat;
      i, d := RanRaises(truth, hits, turns, out);
    } else {
      d := RanComplete(truth, hits, turns, out);
      RanOutcome(truth, hits, turns, out, end);
      forall x | x in AllDocs(hits)
        ensures CameOut(out, x) || x == d
      {
        var i := AllDocsAmong(hits, x);
        assert AllBut(hits, turns[|out|].m.used, i, d);
        assert Among(hits[i], STOP_DEPTH, x);
      }
    }
  }

  // ---- what one turn does ----------------------------------------------------------------------

  /** A turn that yields. */
  lemma TurnYields(truth: Doc -> real, hits: seq<seq<Hit>>, t: Turn, q: Pool, w: View, s: Scored)
    requires TurnOk(truth, hits, t) && Linked(t, q, w, s)
    ensures Coherent(truth, hits, q, w) && q.used == t.p.used + {s.0} && (Stranded(t.p, t.v) ==> Stranded(q, w))
    ensures Fit(truth, hits, t.p.used, w.window, |w.docids|, s.0, s.1, t.x.mins[0], t.x.maxs[0])
  {
    YieldDone(truth, hits, t.m, t.x, q, w);
    FirstIsFit(truth, hits, t.m, t.x, s.1);
    if Stranded(t.p, t.v) { StrandedTurn(truth, hits, t); }
  }

  /** A turn that ends the merge. */
  lemma TurnStops(truth: Doc -> real, hits: seq<seq<Hit>>, t: Turn)
    requires TurnOk(truth, hits, t) && t.x.docids == []
    ensures Coherent(truth, hits, t.m, t.x) && Spent(hits, t.m) && t.m.used == t.p.used
    ensures t.m.sorted != {} <==> Stranded(t.p, t.v)
  {
    NothingLeft(truth, hits, t);
    ReadyPaced(hits, t.m);
    if Stranded(t.p, t.v) { StrandedTurn(truth, hits, t); }
  }

  /** A turn that raises. */
  lemma TurnRaises(truth: Doc -> real, hits: seq<seq<Hit>>, t: Turn, i: nat)
    requires TurnOk(truth, hits, t) && t.x.docids != [] && OnlyOnCap(t.m, i, t.x.docids[0])
    ensures EndsWith(t, EmptyCache) && RaisesOn(hits, t.p.used, i, t.x.docids[0]) && !Stranded(t.p, t.v)
  {
    OnCapRaises(hits, t.m, i, t.x.docids[0]);
    if Stranded(t.p, t.v) { StrandedTurn(truth, hits, t); }
  }

  // ---- the order of the results ----------------------------------------------------------------

  /** The results j and k were taken from one window. */
  ghost predicate SameWindow(hits: seq<seq<Hit>>, turns: seq<Turn>, j: nat, k: nat) {
    j <= k < |turns| && forall l :: j < l <= k ==> !Renews(turns[l].p, turns[l].v, |hits|)
  }

  /** Results of one window three or more apart are in order, the last four of the window aside. */
  ghost predicate PairInOrder(truth: Doc -> real, hits: seq<seq<Hit>>, turns: seq<Turn>, out: seq<Scored>,
                              j: nat, k: nat)
    requires j < |out| && k < |out|
  {
    SameWindow(hits, turns, j, k) && j + ORDER_VIOLATION <= k && |turns[j].x.docids| > ORDER_VIOLATION + 1 ==>
      truth(out[j].0) >= truth(out[k].0)
  }

  /** A result taken from a window of fifteen that holds three or more scores at least half of what any
      document does that has not come out by then, and no less than one not read from any list by then. */
  ghost predicate BeatsLater(truth: Doc -> real, hits: seq<seq<Hit>>, turns: seq<Turn>, out: seq<Scored>,
                              k: nat, d: Doc)
    requires k < |turns| && k < |out|
  {
    var t := turns[k];
    |t.m.pos| == |hits| && |t.x.window| == ORDER_SIZE && |t.x.docids| >= ORDER_VIOLATION ==>
      && (d !in t.m.used ==> HalfOf(truth, out[k].0, d))
      && (NotRead(hits, t.m.pos, d) ==> truth(out[k].0) >= truth(d))
  }

  ghost predicate InOrderRun(truth: Doc -> real, hits: seq<seq<Hit>>, turns: seq<Turn>, out: seq<Scored>) {
    && |turns| == |out| + 1
    && (forall j: nat, k: nat {:trigger PairInOrder(truth, hits, turns, out, j, k)} ::
          j < |out| && k < |out| ==> PairInOrder(truth, hits, turns, out, j, k))
    && (forall k: nat, d {:trigger BeatsLater(truth, hits, turns, out, k, d)} ::
          k < |out| ==> BeatsLater(truth, hits, turns, out, k, d))
  }

  /** A turn that does not renew the window takes over what the one before it left. */
  lemma WindowKept(truth: Doc -> real, hits: seq<seq<Hit>>, turns: seq<Turn>, out: seq<Scored>, k: nat)
    requires Steps(truth, hits, turns, out) && k + 1 < |turns|
    requires !Renews(turns[k + 1].p, turns[k + 1].v, |hits|)
    ensures turns[k].x.docids != [] && turns[k + 1].x.docids == turns[k].x.docids[1..]
    ensures turns[k + 1].x.window == turns[k].x.window
  {
    TurnAt(truth, hits, turns, out, k + 1);
    LinkAt(truth, hits, turns, out, k);
  }

  /** While the window is not renewed it only loses its first documents. */
  lemma {:induction false} WindowShrinks(truth: Doc -> real, hits: seq<seq<Hit>>, turns: seq<Turn>, out: seq<Scored>,
                                         j: nat, k: nat)
    requires Steps(truth, hits, turns, out) && SameWindow(hits, turns, j, k)
    ensures k - j <= |turns[j].x.docids| && turns[k].x.docids == turns[j].x.docids[k - j..]
    ensures turns[k].x.window == turns[j].x.window
  {
    if j < k {
      WindowShrinks(truth, hits, turns, out, j, k - 1);
      WindowKept(truth, hits, turns, out, k - 1);
      DropMore(turns[j].x.docids, k - 1 - j);
    }
  }

  /** Result k is the first document of its window, which has its order guarantee. */
  lemma ResultAt(truth: Doc -> real, hits: seq<seq<Hit>>, turns: seq<Turn>, out: seq<Scored>, k: nat)
    requires Steps(truth, hits, turns, out) && |turns| == |out| + 1 && k < |out|
    ensures var t := turns[k];
            && t.x.docids != [] && out[k].0 == t.x.docids[0] && TailOfWindow(t.x)
            && |t.m.pos| == |hits| && InPlace(truth, hits, t.m.pos, t.x.window)
            && Spoken(t.m.used, t.x) && Halved(truth, t.m.used, t.x.window)
  {
    TurnAt(truth, hits, turns, out, k);
    LinkAt(truth, hits, turns, out, k);
  }

  lemma PairsInOrder(truth: Doc -> real, hits: seq<seq<Hit>>, turns: seq<Turn>, out: seq<Scored>, j: nat, k: nat)
    requires Steps(truth, hits, turns, out) && |turns| == |out| + 1 && j < |out| && k < |out|
    ensures PairInOrder(truth, hits, turns, out, j, k)
  {
    if SameWindow(hits, turns, j, k) && j + ORDER_VIOLATION <= k && |turns[j].x.docids| > ORDER_VIOLATION + 1 {
      var x := turns[j].x;
      WindowShrinks(truth, hits, turns, out, j, k);
      ResultAt(truth, hits, turns, out, j);
      ResultAt(truth, hits, turns, out, k);
      var a := |x.window| - |x.docids|;
      var b := a + (k - j);
      assert x.window[a] == out[j].0 && x.window[b] == out[k].0;
      assert NotBelow(truth, x.window[a], x.window[b]);
    }
  }

  lemma LaterBeaten(truth: Doc -> real, hits: seq<seq<Hit>>, turns: seq<Turn>, out: seq<Scored>, k: nat, d: Doc)
    requires Steps(truth, hits, turns, out) && |turns| == |out| + 1 && k < |out|
    ensures BeatsLater(truth, hits, turns, out, k, d)
  {
    var t := turns[k];
    ResultAt(truth, hits, turns, out, k);
    if |t.x.window| == ORDER_SIZE && |t.x.docids| >= ORDER_VIOLATION {
      var i := ORDER_SIZE - |t.x.docids|;
      assert t.x.window[i] == out[k].0;
      if NotRead(hits, t.m.pos, d) { assert NotBelow(truth, t.x.window[i], d); }
      if d !in t.m.used { assert HalfOf(truth, t.x.window[i], d); }
    }
  }

  /** The order every run keeps. */
  lemma RanInOrder(truth: Doc -> real, hits: seq<seq<Hit>>, turns: seq<Turn>, out: seq<Scored>, end: Ending)
    requires Ran(truth, hits, turns, out, end)
    ensures InOrderRun(truth, hits, turns, out)
  {
    forall j: nat, k: nat | j < |out| && k < |out|
      ensures PairInOrder(truth, hits, turns, out, j, k)
    {
      PairsInOrder(truth, hits, turns, out, j, k);
    }
    forall k: nat, d | k < |out|
      ensures BeatsLater(truth, hits, turns, out, k, d)
    {
      LaterBeaten(truth, hits, turns, out, k, d);
    }
  }

  /** What every run delivers, in what order. */
  lemma RanResults(truth: Doc -> real, hits: seq<seq<Hit>>, turns: seq<Turn>, out: seq<Scored>, end: Ending)
    requires Ran(truth, hits, turns, out, end)
    ensures Outcome(hits, truth, turns[|out|].m.used, out) && InOrderRun(truth, hits, turns, out)
  {
    RanOutcome(truth, hits, turns, out, end);
    RanInOrder(truth, hits, turns, out, end);
  }
}
