/** What the inverted index owes each word, as a function of the indexed documents. */
module Postings {
  import opened SortedSets

  type Doc = int
  type Wid = nat
  type Docs = map<Doc, seq<Wid>>

  /** The score of a word occurring f times in a document of n distinct words. */
  type Score = (nat, nat) -> real

  /** A word's record: its tree of (-score, docid) pairs and its document counter. */
  datatype Record = Record(tree: set<Entry>, length: int)

  /** Word ids by record; a missing record stands for an empty one. */
  type WordInfo = map<Wid, Record>

  const EMPTY: Record := Record({}, 0)

  function RecordOf(info: WordInfo, w: Wid): Record {
    if w in info then info[w] else EMPTY
  }

  function Words(ws: seq<Wid>): (s: set<Wid>)
    ensures (forall w :: w in s <==> w in ws) && (s == {} <==> ws == [])
  {
    var s := set w | w in ws;
    assert ws != [] ==> ws[0] in s;
    s
  }

  /** The pair a document contributes to the tree of word w. */
  function Pair(score: Score, d: Doc, ws: seq<Wid>, w: Wid): Entry {
    Entry(-score(multiset(ws)[w], |Words(ws)|), d)
  }

  ghost predicate Positive(score: Score) {
    forall f: nat, n: nat :: f > 0 && n > 0 ==> score(f, n) > 0.0
  }

  /** Word w occurs in the document of e, and e carries its score there: of how often the document holds w
      and how many distinct words it has. */
  ghost predicate Posted(score: Score, docs: Docs, w: Wid, e: Entry) {
    && e.doc in docs && w in docs[e.doc]
    && e.neg == -score(multiset(docs[e.doc])[w], |Words(docs[e.doc])|)
  }

  /** The places of a text where word w stands. */
  function Places(ws: seq<Wid>, w: Wid): set<nat> {
    set i: nat | i < |ws| && ws[i] == w
  }

  lemma {:induction false} PlacesCount(ws: seq<Wid>, w: Wid)
    ensures |Places(ws, w)| == multiset(ws)[w]
    decreases |ws|
  {
    if ws == [] {
      assert Places(ws, w) == {};
    } else {
      var n := |ws| - 1;
      var init := ws[..n];
      PlacesCount(init, w);
      assert ws == init + [ws[n]];
      assert Places(ws, w) == Places(init, w) + if ws[n] == w then {n} else {};
    }
  }

  /** The tree of a word holds, for every document with the word, the score of how often and among how many
      distinct words it stands there, and nothing else for that document. */
  lemma EntryInWords(score: Score, docs: Docs, info: WordInfo, d: Doc, w: Wid)
    requires Agrees(score, docs, info) && d in docs && w in docs[d]
    ensures forall e ::
              e in RecordOf(info, w).tree && e.doc == d <==>
              e == Entry(-score(|Places(docs[d], w)|, |Words(docs[d])|), d)
  {
    PlacesCount(docs[d], w);
    assert RecordRight(score, docs, w, RecordOf(info, w));
  }

  /** What is said of sqrt(f) / sqrt(n) without naming the root: positive, and squared it is f / n. */
  ghost predicate Roots(score: Score) {
    forall f: nat, n: nat :: f > 0 && n > 0 ==>
      score(f, n) > 0.0 && score(f, n) * score(f, n) * (n as real) == f as real
  }

  /** More occurrences score more, more distinct words less. */
  ghost predicate Rising(score: Score) {
    forall f: nat, n: nat, g: nat, m: nat ::
      g > 0 && n > 0 && f >= g && n <= m && (f > g || n < m) ==> score(f, n) > score(g, m)
  }

  lemma TimesMonotone(a: real, b: real, c: real)
    requires a <= b && c > 0.0
    ensures c * a <= c * b && (a < b ==> c * a < c * b)
  {
  }

  lemma SquaresOrdered(x: real, y: real)
    requires 0.0 < x <= y
    ensures 0.0 < x * x <= y * y
  {
    TimesMonotone(x, y, x);
    TimesMonotone(x, y, y);
    assert x * x <= x * y == y * x <= y * y;
  }

  lemma ProductsOrdered(x: real, y: real, n: real, m: real)
    requires 0.0 < x <= y && 0.0 < n <= m
    ensures x * n <= y * m && (n < m ==> x * n < y * m)
  {
    TimesMonotone(x, y, n);
    TimesMonotone(n, m, y);
    assert n * x == x * n && n * y == y * n;
  }

  lemma RootsApart(x: real, y: real, f: real, n: real, g: real, m: real)
    requires x > 0.0 && y > 0.0 && g > 0.0 && n > 0.0 && x * x * n == f && y * y * m == g
    requires f >= g && n <= m && (f > g || n < m)
    ensures x > y
  {
    if x <= y {
      SquaresOrdered(x, y);
      ProductsOrdered(x * x, y * y, n, m);
      assert false;
    }
  }

  lemma RootsRise(score: Score)
    requires Roots(score)
    ensures Positive(score) && Rising(score)
  {
    forall f: nat, n: nat, g: nat, m: nat | g > 0 && n > 0 && f >= g && n <= m && (f > g || n < m)
      ensures score(f, n) > score(g, m)
    {
      RootsApart(score(f, n), score(g, m), f as real, n as real, g as real, m as real);
    }
  }

  /** The record is exactly the postings of w, and its counter counts them. */
  ghost predicate RecordRight(score: Score, docs: Docs, w: Wid, r: Record) {
    (forall e :: e in r.tree <==> Posted(score, docs, w, e)) && r.length == |r.tree|
  }

  ghost predicate Agrees(score: Score, docs: Docs, info: WordInfo) {
    forall w {:trigger RecordRight(score, docs, w, RecordOf(info, w))} :: RecordRight(score, docs, w, RecordOf(info, w))
  }

  /** The documents holding word w. */
  function Holding(docs: Docs, w: Wid): set<Doc> {
    set d | d in docs && w in docs[d]
  }

  /** A word's tree has one entry per document holding it, so its counter is its document frequency. */
  lemma {:induction false} TreeSize(score: Score, docs: Docs, w: Wid, r: Record)
    requires RecordRight(score, docs, w, r)
    ensures r.length == |Holding(docs, w)|
  {
    OneEach(score, docs, w, r.tree, Holding(docs, w));
  }

  lemma {:induction false} OneEach(score: Score, docs: Docs, w: Wid, tree: set<Entry>, held: set<Doc>)
    requires forall e :: e in tree <==> e.doc in held && Posted(score, docs, w, e)
    requires forall d :: d in held ==> d in docs && w in docs[d]
    ensures |tree| == |held|
    decreases |held|
  {
    if held == {} {
      assert tree == {};
    } else {
      var d := Pick(held);
      var e := Pair(score, d, docs[d], w);
      OneEach(score, docs, w, tree - {e}, held - {d});
      assert e in tree;
    }
  }

  // ---- adding and removing one document --------------------------------------------------------

  /** The record after the document's pair was added. */
  function Added(r: Record, e: Entry): Record { Record(r.tree + {e}, r.length + 1) }

  /** The record after the document's pair was removed. */
  function Removed(r: Record, e: Entry): Record { Record(r.tree - {e}, r.length - 1) }

  lemma NotYetPosted(score: Score, docs: Docs, w: Wid, r: Record, d: Doc)
    requires RecordRight(score, docs, w, r) && d !in docs
    ensures forall e :: e in r.tree ==> e.doc != d
  {
  }

  lemma AddRight(score: Score, docs: Docs, w: Wid, r: Record, d: Doc, ws: seq<Wid>)
    requires RecordRight(score, docs, w, r) && d !in docs
    ensures RecordRight(score, docs[d := ws], w, if w in ws then Added(r, Pair(score, d, ws, w)) else r)
  {
    var p, docs1 := Pair(score, d, ws, w), docs[d := ws];
    NotYetPosted(score, docs, w, r, d);
    AddedSize(r, p);
    var r1 := if w in ws then Added(r, p) else r;
    forall e
      ensures e in r1.tree <==> Posted(score, docs1, w, e)
    {
      PostedMore(score, docs, w, d, ws, e);
      assert e in r1.tree <==> e in r.tree || (w in ws && e == p);
    }
  }

  lemma AddedSize(r: Record, e: Entry)
    requires r.length == |r.tree| && e !in r.tree
    ensures Added(r, e).length == |Added(r, e).tree|
  {
  }

  /** What a new document adds to the postings of a word. */
  lemma PostedMore(score: Score, docs: Docs, w: Wid, d: Doc, ws: seq<Wid>, e: Entry)
    requires d !in docs
    ensures Posted(score, docs[d := ws], w, e) <==> Posted(score, docs, w, e) || (w in ws && e == Pair(score, d, ws, w))
  {
  }

  lemma RemoveRight(score: Score, docs: Docs, w: Wid, r: Record, d: Doc)
    requires RecordRight(score, docs, w, r) && d in docs
    ensures w in docs[d] ==> Pair(score, d, docs[d], w) in r.tree
    ensures RecordRight(score, docs - {d}, w, if w in docs[d] then Removed(r, Pair(score, d, docs[d], w)) else r)
  {
    if w in docs[d] {
      var p := Pair(score, d, docs[d], w);
      assert Posted(score, docs, w, p);
    }
  }

  /** Re-indexing replaces the document's pair; the counter moves only for words gained or lost. */
  function Replaced(r: Record, was: bool, before: Entry, now: bool, after: Entry): Record {
    Record((if was then r.tree - {before} else r.tree) + (if now then {after} else {}),
           r.length + (if now && !was then 1 else 0) - (if was && !now then 1 else 0))
  }

  lemma ReplaceRight(score: Score, docs: Docs, w: Wid, r: Record, d: Doc, ws: seq<Wid>)
    requires RecordRight(score, docs, w, r) && d in docs
    ensures RecordRight(score, docs[d := ws], w,
                        Replaced(r, w in docs[d], Pair(score, d, docs[d], w), w in ws, Pair(score, d, ws, w)))
  {
    var without := if w in docs[d] then Removed(r, Pair(score, d, docs[d], w)) else r;
    RemoveRight(score, docs, w, r, d);
    AddRight(score, docs - {d}, w, without, d, ws);
    SameDocs(docs, d, ws);
    ReplacedIs(r, w in docs[d], Pair(score, d, docs[d], w), w in ws, Pair(score, d, ws, w));
  }

  lemma SameDocs(docs: Docs, d: Doc, ws: seq<Wid>)
    ensures (docs - {d})[d := ws] == docs[d := ws]
  {
  }

  /** Replacing is removing, then adding. */
  lemma ReplacedIs(r: Record, was: bool, before: Entry, now: bool, after: Entry)
    ensures Replaced(r, was, before, now, after) ==
            var without := if was then Removed(r, before) else r; if now then Added(without, after) else without
  {
  }

  lemma WordsWithin(ws: seq<Wid>, info: WordInfo)
    requires forall w :: w in ws ==> w in info
    ensures Words(ws) <= info.Keys
  {
    forall w | w in Words(ws)
      ensures w in info.Keys
    {
      assert w in ws;
    }
  }

  // ---- whole indexes ---------------------------------------------------------------------------

  /** Every record after document d was added with words ws. */
  ghost predicate AllAdded(score: Score, info: WordInfo, next: WordInfo, d: Doc, ws: seq<Wid>) {
    forall w {:trigger RecordOf(next, w)} ::
      RecordOf(next, w) == (if w in ws then Added(RecordOf(info, w), Pair(score, d, ws, w)) else RecordOf(info, w))
  }

  /** Every record after document d with words ws was removed. */
  ghost predicate AllRemoved(score: Score, info: WordInfo, next: WordInfo, d: Doc, ws: seq<Wid>) {
    forall w {:trigger RecordOf(next, w)} ::
      RecordOf(next, w) == (if w in ws then Removed(RecordOf(info, w), Pair(score, d, ws, w)) else RecordOf(info, w))
  }

  /** Every record after the words of document d changed from `was` to ws. */
  ghost predicate AllReplaced(score: Score, info: WordInfo, next: WordInfo, d: Doc, was: seq<Wid>, ws: seq<Wid>) {
    forall w {:trigger RecordOf(next, w)} ::
      RecordOf(next, w) == Replaced(RecordOf(info, w), w in was, Pair(score, d, was, w), w in ws, Pair(score, d, ws, w))
  }

  lemma AddAgrees(score: Score, docs: Docs, info: WordInfo, next: WordInfo, d: Doc, ws: seq<Wid>)
    requires Agrees(score, docs, info) && d !in docs && AllAdded(score, info, next, d, ws)
    ensures Agrees(score, docs[d := ws], next)
  {
    forall w | true
      ensures RecordRight(score, docs[d := ws], w, RecordOf(next, w))
    {
      assert RecordRight(score, docs, w, RecordOf(info, w));
      AddRight(score, docs, w, RecordOf(info, w), d, ws);
    }
  }

  lemma RemoveAgrees(score: Score, docs: Docs, info: WordInfo, next: WordInfo, d: Doc)
    requires Agrees(score, docs, info) && d in docs && AllRemoved(score, info, next, d, docs[d])
    ensures Agrees(score, docs - {d}, next)
  {
    forall w | true
      ensures RecordRight(score, docs - {d}, w, RecordOf(next, w))
    {
      assert RecordRight(score, docs, w, RecordOf(info, w));
      RemoveRight(score, docs, w, RecordOf(info, w), d);
    }
  }

  lemma ReplaceAgrees(score: Score, docs: Docs, info: WordInfo, next: WordInfo, d: Doc, ws: seq<Wid>)
    requires Agrees(score, docs, info) && d in docs && AllReplaced(score, info, next, d, docs[d], ws)
    ensures Agrees(score, docs[d := ws], next)
  {
    forall w | true
      ensures RecordRight(score, docs[d := ws], w, RecordOf(next, w))
    {
      assert RecordRight(score, docs, w, RecordOf(info, w));
      ReplaceRight(score, docs, w, RecordOf(info, w), d, ws);
    }
  }

  /** The pairs of an indexed document are in the trees, whose counters are right: removing them cannot fail. */
  lemma PairsPresent(score: Score, docs: Docs, info: WordInfo, d: Doc)
    requires Agrees(score, docs, info) && d in docs
    ensures forall w :: w in docs[d] ==> PairStored(score, info, d, docs[d], w)
    ensures Words(docs[d]) <= info.Keys
  {
    forall w | w in docs[d]
      ensures PairStored(score, info, d, docs[d], w) && w in info
    {
      assert RecordRight(score, docs, w, RecordOf(info, w));
      RemoveRight(score, docs, w, RecordOf(info, w), d);
    }
  }

  ghost predicate PairStored(score: Score, info: WordInfo, d: Doc, ws: seq<Wid>, w: Wid) {
    Pair(score, d, ws, w) in RecordOf(info, w).tree && RecordOf(info, w).length == |RecordOf(info, w).tree|
  }

  /** The words of ws whose counter is zero. */
  function Zeroed(ws: seq<Wid>, info: WordInfo): set<Wid> {
    set w | w in Words(ws) && RecordOf(info, w).length == 0
  }

  /** The words of ws that no document holds. */
  function Orphans(ws: seq<Wid>, docs: Docs): set<Wid> {
    set w | w in Words(ws) && Holding(docs, w) == {}
  }

  lemma ZeroedAreOrphans(score: Score, docs: Docs, info: WordInfo, ws: seq<Wid>)
    requires Agrees(score, docs, info)
    ensures Zeroed(ws, info) == Orphans(ws, docs)
  {
    forall w | w in ws
      ensures RecordOf(info, w).length == 0 <==> Holding(docs, w) == {}
    {
      assert RecordRight(score, docs, w, RecordOf(info, w));
      TreeSize(score, docs, w, RecordOf(info, w));
    }
  }

  lemma OneFewer(docs: Docs, d: Doc)
    requires d in docs
    ensures |docs - {d}| == |docs| - 1
  {
    assert (docs - {d}).Keys == docs.Keys - {d};
    assert |(docs - {d}).Keys| == |docs - {d}| && |docs.Keys| == |docs|;
  }

  /** What is left once every pair of a document was removed. */
  lemma UnindexDone(score: Score, docs: Docs, info: WordInfo, next: WordInfo, d: Doc)
    requires Agrees(score, docs, info) && d in docs && AllRemoved(score, info, next, d, docs[d])
    ensures Agrees(score, docs - {d}, next) && |docs - {d}| == |docs| - 1
    ensures Zeroed(docs[d], next) == Orphans(docs[d], docs - {d})
  {
    OneFewer(docs, d);
    RemoveAgrees(score, docs, info, next, d);
    ZeroedAreOrphans(score, docs - {d}, next, docs[d]);
  }
}
