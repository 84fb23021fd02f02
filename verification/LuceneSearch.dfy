/** Searching the text index: the lists it hands to the merge and what comes back. */
module LuceneSearch {
  import opened Sequences
  import opened SortedSets
  import opened Scores
  import opened MergePool
  import opened MergeCounts
  import opened MergeView
  import opened MergeRun
  import opened MergeShort
  import opened MergeLimits
  import opened LazyUnion
  import opened Postings
  import opened LuceneIndex

  /** The squared inverse document frequency of a word held by k of n documents, positive when n is. */
  type Idf2 = (int, int) -> real

  ghost predicate PositiveIdf(idf2: Idf2) {
    forall n, k :: n >= 1 && k >= 0 ==> idf2(n, k) > 0.0
  }

  /** One entry of _search_wids. */
  function ListOf(r: Record, n: int, idf2: Idf2): Ranked {
    Ranked(r.tree, r.length, idf2(n, r.length))
  }

  /** A record that agrees with the documents is fit for the merge. */
  lemma RecordIsRanked(score: Score, docs: Docs, w: Wid, r: Record, n: int, idf2: Idf2)
    requires Positive(score) && RecordRight(score, docs, w, r) && PositiveIdf(idf2) && n >= 1
    ensures IsRanked(ListOf(r, n, idf2))
  {
    forall e | e in r.tree
      ensures e.neg < 0.0
    {
      assert Posted(score, docs, w, e);
      PositivePair(score, e.doc, docs[e.doc], w);
    }
  }

  lemma PositivePair(score: Score, d: Doc, ws: seq<Wid>, w: Wid)
    requires Positive(score) && w in ws
    ensures Pair(score, d, ws, w).neg < 0.0
  {
    assert w in multiset(ws) && w in Words(ws);
    assert |Words(ws)| > 0;
  }

  /** The score of word w in document d. */
  function ScoreOf(score: Score, docs: Docs, w: Wid, d: Doc): real
    requires d in docs
  {
    score(multiset(docs[d])[w], |Words(docs[d])|)
  }

  /** The weight of document d for word w: its score there times the word's squared idf, or nothing. */
  function WordWeight(score: Score, docs: Docs, w: Wid, n: int, idf2: Idf2, d: Doc): real {
    if d in docs && w in docs[d] then ScoreOf(score, docs, w, d) * idf2(n, |Holding(docs, w)|) else 0.0
  }

  lemma HitsOfWord(score: Score, docs: Docs, w: Wid, r: Record, n: int, idf2: Idf2, d: Doc)
    requires RecordRight(score, docs, w, r)
    ensures var h := Hits(ListOf(r, n, idf2)); Among(h, |h|, d) <==> d in docs && w in docs[d]
  {
    var l := ListOf(r, n, idf2);
    var order, h := InOrder(l.tree), Hits(l);
    if Among(h, |h|, d) {
      var k :| 0 <= k < |h| && h[k].doc == d;
      assert order[k] in order && order[k] in r.tree;
    }
    if d in docs && w in docs[d] {
      var e := Pair(score, d, docs[d], w);
      assert Posted(score, docs, w, e) && e in order;
      var k :| 0 <= k < |order| && order[k] == e;
      assert h[k].doc == d;
    }
  }

  lemma WeightOfHolder(score: Score, docs: Docs, w: Wid, n: int, idf2: Idf2, d: Doc)
    requires d in docs && w in docs[d]
    ensures Weighted(Entry(-ScoreOf(score, docs, w, d), d), idf2(n, |Holding(docs, w)|)) ==
            WordWeight(score, docs, w, n, idf2, d)
  {
  }

  /** The hit of a document holding the word. */
  lemma ScoreOfHolder(score: Score, docs: Docs, w: Wid, r: Record, l: Ranked, d: Doc)
    requires RecordRight(score, docs, w, r) && IsRanked(l) && l.tree == r.tree
    requires d in docs && w in docs[d] && Among(Hits(l), |Hits(l)|, d)
    ensures ScoreIn(Hits(l), d) == Weighted(Entry(-ScoreOf(score, docs, w, d), d), l.weight)
  {
    var order, h := InOrder(l.tree), Hits(l);
    var k :| 0 <= k < |h| && h[k].doc == d;
    RankedDescends(l);
    ScoreAt(h, k);
    assert order[k] in order && Posted(score, docs, w, order[k]);
  }

  /** What the merge sees of a document in a word's list is the document's weight for the word. */
  lemma ScoreOfWord(score: Score, docs: Docs, w: Wid, r: Record, n: int, idf2: Idf2, d: Doc)
    requires RecordRight(score, docs, w, r) && IsRanked(ListOf(r, n, idf2))
    ensures ScoreIn(Hits(ListOf(r, n, idf2)), d) == WordWeight(score, docs, w, n, idf2, d)
  {
    HitsOfWord(score, docs, w, r, n, idf2, d);
    TreeSize(score, docs, w, r);
    if d in docs && w in docs[d] {
      ScoreOfHolder(score, docs, w, r, ListOf(r, n, idf2), d);
      WeightOfHolder(score, docs, w, n, idf2, d);
    }
  }

  /** The ids with a record, in order and as often as given (_remove_oov_wids). */
  function Known(info: WordInfo, wids: seq<Wid>): (r: seq<Wid>)
    ensures forall w :: w in r <==> w in wids && w in info
  {
    if wids == [] then []
    else (if wids[0] in info then [wids[0]] else []) + Known(info, wids[1..])
  }

  /** The lists of the known words. */
  function Lists(info: WordInfo, words: seq<Wid>, n: int, idf2: Idf2): (l: seq<Ranked>)
    ensures |l| == |words|
  {
    seq(|words|, i requires 0 <= i < |words| => ListOf(RecordOf(info, words[i]), n, idf2))
  }

  /** The relevance of a document to the query: the sum of its weights over the query words. */
  ghost function Relevance(score: Score, docs: Docs, words: seq<Wid>, n: int, idf2: Idf2, d: Doc): real
  {
    Sum(seq(|words|, i requires 0 <= i < |words| =>
                       WordWeight(score, docs, words[i], n, idf2, d)))
  }

  /** The true totals of the merge are the relevances of the documents. */
  lemma TotalIsRelevance(score: Score, docs: Docs, info: WordInfo, words: seq<Wid>, n: int, idf2: Idf2, d: Doc)
    requires Positive(score) && Agrees(score, docs, info) && PositiveIdf(idf2) && n >= 1
    ensures Total(AllHits(Lists(info, words, n, idf2)), d) == Relevance(score, docs, words, n, idf2, d)
  {
    var hits := AllHits(Lists(info, words, n, idf2));
    forall i | 0 <= i < |words|
      ensures ScoreIn(hits[i], d) == WordWeight(score, docs, words[i], n, idf2, d)
    {
      assert RecordRight(score, docs, words[i], RecordOf(info, words[i]));
      RecordIsRanked(score, docs, words[i], RecordOf(info, words[i]), n, idf2);
      ScoreOfWord(score, docs, words[i], RecordOf(info, words[i]), n, idf2, d);
    }
    assert seq(|hits|, i requires 0 <= i < |hits| => ScoreIn(hits[i], d))
        == seq(|words|, i requires 0 <= i < |words| =>
                          WordWeight(score, docs, words[i], n, idf2, d));
  }

  /** What a search reports beside its results: how the merge ended, or the domain error of log(0). */
  datatype Answer = Ended(ending: Ending) | DomainError

  /** Every result holds a query word, and its weight is the midpoint of an interval around its relevance,
      exact in at least one word and never beyond the best score of a word. */
  ghost predicate Relevant(score: Score, docs: Docs, info: WordInfo, words: seq<Wid>, n: int, idf2: Idf2,
                           out: seq<Scored>)
  {
    var hits := AllHits(Lists(info, words, n, idf2));
    && NoRepeats(out)
    && forall k :: 0 <= k < |out| ==>
        && HoldsOne(docs, words, out[k].0)
        && Weighed(hits, out[k].0, Relevance(score, docs, words, n, idf2, out[k].0), out[k].1)
  }

  ghost predicate HoldsOne(docs: Docs, words: seq<Wid>, d: Doc) {
    d in docs && exists i :: 0 <= i < |words| && words[i] in docs[d]
  }

  /** Everything the merge of the words' lists yields is relevant. */
  lemma OutcomeIsRelevant(score: Score, docs: Docs, info: WordInfo, words: seq<Wid>, n: int, idf2: Idf2,
                          used: set<Doc>, out: seq<Scored>)
    requires Positive(score) && Agrees(score, docs, info) && PositiveIdf(idf2) && n >= 1
    requires var hits := AllHits(Lists(info, words, n, idf2)); Outcome(hits, Totals(hits), used, out)
    ensures Relevant(score, docs, info, words, n, idf2, out)
  {
    var hits := AllHits(Lists(info, words, n, idf2));
    forall k | 0 <= k < |out|
      ensures HoldsOne(docs, words, out[k].0)
      ensures Weighed(hits, out[k].0, Relevance(score, docs, words, n, idf2, out[k].0), out[k].1)
    {
      var d := out[k].0;
      var i := AllDocsAmong(hits, d);
      assert RecordRight(score, docs, words[i], RecordOf(info, words[i]));
      HitsOfWord(score, docs, words[i], RecordOf(info, words[i]), n, idf2, d);
      TotalIsRelevance(score, docs, info, words, n, idf2, d);
    }
  }

  /** The result of a one-word search: every document holding the word, once, best first, each with its exact
      weight. */
  ghost predicate OneWord(score: Score, docs: Docs, w: Wid, n: int, idf2: Idf2, out: seq<Scored>) {
    && |out| == |Holding(docs, w)| && NoRepeats(out)
    && (forall d {:trigger CameOut(out, d)} :: d in Holding(docs, w) ==> CameOut(out, d))
    && (forall k :: 0 <= k < |out| ==>
          out[k].0 in Holding(docs, w) && out[k].1 == WordWeight(score, docs, w, n, idf2, out[k].0))
    && (forall j, k :: 0 <= j < k < |out| ==> out[j].1 >= out[k].1)
  }

  lemma AloneIsOneWord(score: Score, docs: Docs, w: Wid, r: Record, n: int, idf2: Idf2)
    requires RecordRight(score, docs, w, r) && IsRanked(ListOf(r, n, idf2))
    ensures OneWord(score, docs, w, n, idf2, Alone(Hits(ListOf(r, n, idf2))))
  {
    var l := ListOf(r, n, idf2);
    var h := Hits(l);
    TreeSize(score, docs, w, r);
    RankedDescends(l);
    forall k | 0 <= k < |h|
      ensures h[k].doc in Holding(docs, w) && h[k].score == WordWeight(score, docs, w, n, idf2, h[k].doc)
    {
      assert Among(h, |h|, h[k].doc);
      HitsOfWord(score, docs, w, r, n, idf2, h[k].doc);
      ScoreOfWord(score, docs, w, r, n, idf2, h[k].doc);
      ScoreAt(h, k);
    }
    forall d | d in Holding(docs, w)
      ensures CameOut(Alone(h), d)
    {
      HitsOfWord(score, docs, w, r, n, idf2, d);
      var k :| 0 <= k < |h| && h[k].doc == d;
      assert Alone(h)[k].0 == d;
    }
  }

  /** A document that holds the word more often, and has no more distinct words, comes out first. */
  lemma OftenerComesFirst(score: Score, docs: Docs, w: Wid, n: int, idf2: Idf2, out: seq<Scored>, a: Doc, b: Doc)
    requires Rising(score) && PositiveIdf(idf2) && n >= 1 && OneWord(score, docs, w, n, idf2, out)
    requires a in Holding(docs, w) && b in Holding(docs, w)
    requires |Places(docs[a], w)| > |Places(docs[b], w)| && |Words(docs[a])| <= |Words(docs[b])|
    ensures exists j, k :: 0 <= j < k < |out| && out[j].0 == a && out[k].0 == b
  {
    PlacesCount(docs[a], w);
    PlacesCount(docs[b], w);
    assert w in multiset(docs[b]) && w in Words(docs[a]);
    var j := ComesOut(score, docs, w, n, idf2, out, a);
    var k := ComesOut(score, docs, w, n, idf2, out, b);
    Outweighs(ScoreOf(score, docs, w, a), ScoreOf(score, docs, w, b), idf2(n, |Holding(docs, w)|));
    HeavierIsEarlier(out, j, k);
  }

  lemma HeavierIsEarlier(out: seq<Scored>, j: nat, k: nat)
    requires j < |out| && k < |out| && out[j].1 > out[k].1
    requires forall a, b :: 0 <= a < b < |out| ==> out[a].1 >= out[b].1
    ensures j < k
  {
  }

  lemma Outweighs(s: real, t: real, x: real)
    requires s > t && x > 0.0
    ensures s * x > t * x
  {
    assert (s - t) * x > 0.0;
  }

  lemma ComesOut(score: Score, docs: Docs, w: Wid, n: int, idf2: Idf2, out: seq<Scored>, d: Doc) returns (k: nat)
    requires OneWord(score, docs, w, n, idf2, out) && d in Holding(docs, w)
    ensures k < |out| && out[k].0 == d && out[k].1 == WordWeight(score, docs, w, n, idf2, d)
  {
    assert CameOut(out, d);
    k :| 0 <= k < |out| && out[k].0 == d;
  }

  lemma ListsRanked(score: Score, docs: Docs, info: WordInfo, words: seq<Wid>, n: int, idf2: Idf2)
    requires Positive(score) && Agrees(score, docs, info) && PositiveIdf(idf2) && n >= 1
    ensures forall i :: 0 <= i < |words| ==> IsRanked(Lists(info, words, n, idf2)[i])
    ensures forall i :: 0 <= i < |words| ==>
              (Lists(info, words, n, idf2)[i].tree == {} <==> Holding(docs, words[i]) == {})
  {
    forall i | 0 <= i < |words|
      ensures IsRanked(Lists(info, words, n, idf2)[i])
      ensures Lists(info, words, n, idf2)[i].tree == {} <==> Holding(docs, words[i]) == {}
    {
      assert RecordRight(score, docs, words[i], RecordOf(info, words[i]));
      RecordIsRanked(score, docs, words[i], RecordOf(info, words[i]), n, idf2);
      TreeSize(score, docs, words[i], RecordOf(info, words[i]));
    }
  }

  // ---- what a search for several words finds ---------------------------------------------------

  /** The documents holding word w that score better than d, or the same with a smaller id. */
  ghost function Ahead(score: Score, docs: Docs, w: Wid, d: Doc): set<Doc>
    requires d in docs
  {
    set x | x in Holding(docs, w)
            && (ScoreOf(score, docs, w, x) > ScoreOf(score, docs, w, d)
                || (ScoreOf(score, docs, w, x) == ScoreOf(score, docs, w, d) && x < d))
  }

  /** Of the best `depth` documents holding w, all came out but `odd`. */
  ghost predicate BestFound(score: Score, docs: Docs, w: Wid, out: seq<Scored>, depth: nat, odd: Doc) {
    forall d {:trigger CameOut(out, d)} ::
      d in Holding(docs, w) && |Ahead(score, docs, w, d)| < depth ==> CameOut(out, d) || d == odd
  }

  lemma PostedAhead(score: Score, docs: Docs, w: Wid, a: Entry, b: Entry)
    requires Posted(score, docs, w, a) && Posted(score, docs, w, b) && Below(a, b)
    ensures a.doc in Ahead(score, docs, w, b.doc)
  {
  }

  /** Fewer documents go before one of the best in the word's list than before it in the tree. */
  lemma RankOfHolder(score: Score, docs: Docs, w: Wid, r: Record, n: int, idf2: Idf2, d: Doc, depth: nat)
    requires RecordRight(score, docs, w, r) && IsRanked(ListOf(r, n, idf2))
    requires d in Holding(docs, w) && |Ahead(score, docs, w, d)| < depth
    ensures Among(Hits(ListOf(r, n, idf2)), depth, d)
  {
    var l := ListOf(r, n, idf2);
    var order, h := InOrder(l.tree), Hits(l);
    HitsOfWord(score, docs, w, r, n, idf2, d);
    RankedDescends(l);
    var k :| 0 <= k < |h| && h[k].doc == d;
    HitAt(l, k);
    forall x | x in DocsRead(h, k)
      ensures x in Ahead(score, docs, w, d)
    {
      assert Among(h, k, x);
      var j :| 0 <= j < k && h[j].doc == x;
      HitAt(l, j);
      PostedAhead(score, docs, w, order[j], order[k]);
    }
    SubsetSize(DocsRead(h, k), Ahead(score, docs, w, d));
    DocsReadSize(h, k);
  }

  /** What the merge promises of a list's first elements, said of the best documents holding the word. */
  lemma BestOfWord(score: Score, docs: Docs, w: Wid, r: Record, n: int, idf2: Idf2,
                   used: set<Doc>, out: seq<Scored>, depth: nat, odd: Doc)
    requires RecordRight(score, docs, w, r) && IsRanked(ListOf(r, n, idf2))
    requires forall x :: Among(Hits(ListOf(r, n, idf2)), depth, x) ==> x in used || x == odd
    requires forall d {:trigger CameOut(out, d)} :: d in used <==> CameOut(out, d)
    ensures BestFound(score, docs, w, out, depth, odd)
  {
    forall d | d in Holding(docs, w) && |Ahead(score, docs, w, d)| < depth
      ensures CameOut(out, d) || d == odd
    {
      RankOfHolder(score, docs, w, r, n, idf2, d, depth);
    }
  }

  /** A word in at most 650 documents is found in all of them but one. */
  lemma FewAllFound(score: Score, docs: Docs, w: Wid, out: seq<Scored>, odd: Doc)
    requires BestFound(score, docs, w, out, STOP_DEPTH, odd) && |Holding(docs, w)| <= STOP_DEPTH
    ensures forall d :: d in Holding(docs, w) ==> CameOut(out, d) || d == odd
  {
    forall d | d in Holding(docs, w)
      ensures CameOut(out, d) || d == odd
    {
      SubsetSize(Ahead(score, docs, w, d), Holding(docs, w) - {d});
    }
  }

  /** Word w is in 610 documents or more; of its best 610 exactly `odd` did not come out. */
  ghost predicate RaisesAt(score: Score, docs: Docs, w: Wid, out: seq<Scored>, odd: Doc) {
    && |Holding(docs, w)| >= RAISE_DEPTH && BestFound(score, docs, w, out, RAISE_DEPTH, odd) && !CameOut(out, odd)
  }

  /** The relevances as one function. */
  ghost function Relevances(score: Score, docs: Docs, words: seq<Wid>, n: int, idf2: Idf2): Doc -> real
  {
    d => Relevance(score, docs, words, n, idf2, d)
  }

  /** The documents holding a query word. */
  ghost function Holders(docs: Docs, words: seq<Wid>): set<Doc> {
    set d | d in docs && HoldsOne(docs, words, d)
  }

  /** Document d holds no two of the query words. */
  ghost predicate HoldsNoTwo(docs: Docs, words: seq<Wid>, d: Doc) {
    d in docs ==> forall i, j ::
      0 <= i < |words| && 0 <= j < |words| && words[i] in docs[d] && words[j] in docs[d] ==> i == j
  }

  /** Each of the three worst holds one query word only. */
  ghost predicate WorstHoldOne(docs: Docs, words: seq<Wid>, order: seq<Entry>) {
    |order| >= 3 && forall k :: |order| - 3 <= k < |order| ==> HoldsNoTwo(docs, words, order[k].doc)
  }

  /** All holders by relevance, but for the last one when there are 16, 29, 42, ... of them and each of the
      three worst holds one query word only. */
  ghost function ShortAnswer(docs: Docs, words: seq<Wid>, relevance: Doc -> real): seq<Scored> {
    var order := InOrder(Ranking(relevance, Holders(docs, words)));
    Surviving(order, Uneven(|order|) && WorstHoldOne(docs, words, order))
  }

  lemma InListOfWord(score: Score, docs: Docs, info: WordInfo, words: seq<Wid>, n: int, idf2: Idf2, i: nat, d: Doc)
    requires Agrees(score, docs, info) && i < |words|
    ensures var hits := AllHits(Lists(info, words, n, idf2));
            Among(hits[i], |hits[i]|, d) <==> d in docs && words[i] in docs[d]
  {
    assert RecordRight(score, docs, words[i], RecordOf(info, words[i]));
    HitsOfWord(score, docs, words[i], RecordOf(info, words[i]), n, idf2, d);
  }

  lemma HolderIsListed(score: Score, docs: Docs, info: WordInfo, words: seq<Wid>, n: int, idf2: Idf2, d: Doc)
    requires Agrees(score, docs, info)
    ensures d in AllDocs(AllHits(Lists(info, words, n, idf2))) <==> d in Holders(docs, words)
  {
    var hits := AllHits(Lists(info, words, n, idf2));
    if d in AllDocs(hits) {
      var i := AllDocsAmong(hits, d);
      InListOfWord(score, docs, info, words, n, idf2, i, d);
    }
    if d in Holders(docs, words) {
      var i :| 0 <= i < |words| && words[i] in docs[d];
      InListOfWord(score, docs, info, words, n, idf2, i, d);
      AllDocsHas(hits, i, |hits[i]|, d);
    }
  }

  lemma HoldersAreListed(score: Score, docs: Docs, info: WordInfo, words: seq<Wid>, n: int, idf2: Idf2)
    requires Agrees(score, docs, info)
    ensures AllDocs(AllHits(Lists(info, words, n, idf2))) == Holders(docs, words)
  {
    forall d | true
      ensures d in AllDocs(AllHits(Lists(info, words, n, idf2))) <==> d in Holders(docs, words)
    {
      HolderIsListed(score, docs, info, words, n, idf2, d);
    }
  }

  lemma LoneHoldsNoTwo(score: Score, docs: Docs, info: WordInfo, words: seq<Wid>, n: int, idf2: Idf2, d: Doc)
    requires Agrees(score, docs, info)
    ensures Lone(AllHits(Lists(info, words, n, idf2)), d) <==> HoldsNoTwo(docs, words, d)
  {
    var hits := AllHits(Lists(info, words, n, idf2));
    forall i | 0 <= i < |words|
      ensures Among(hits[i], |hits[i]|, d) <==> d in docs && words[i] in docs[d]
    {
      InListOfWord(score, docs, info, words, n, idf2, i, d);
    }
  }

  lemma SameRanking(truth: Doc -> real, relevance: Doc -> real, docs: set<Doc>)
    requires forall d :: truth(d) == relevance(d)
    ensures Ranking(truth, docs) == Ranking(relevance, docs)
  {
  }

  lemma LosesLastOfWords(score: Score, docs: Docs, info: WordInfo, words: seq<Wid>, n: int, idf2: Idf2,
                         order: seq<Entry>)
    requires Agrees(score, docs, info) && Uneven(|order|)
    ensures LosesLast(AllHits(Lists(info, words, n, idf2)), order) <==> WorstHoldOne(docs, words, order)
  {
    forall k | |order| - 3 <= k < |order|
      ensures Lone(AllHits(Lists(info, words, n, idf2)), order[k].doc) <==> HoldsNoTwo(docs, words, order[k].doc)
    {
      LoneHoldsNoTwo(score, docs, info, words, n, idf2, order[k].doc);
    }
  }

  lemma OrderOfWords(score: Score, docs: Docs, info: WordInfo, words: seq<Wid>, n: int, idf2: Idf2)
    requires Positive(score) && Agrees(score, docs, info) && PositiveIdf(idf2) && n >= 1
    ensures var hits := AllHits(Lists(info, words, n, idf2));
            Order(Totals(hits), hits) ==
            InOrder(Ranking(Relevances(score, docs, words, n, idf2), Holders(docs, words)))
  {
    var hits := AllHits(Lists(info, words, n, idf2));
    forall d | true
      ensures Totals(hits)(d) == Relevances(score, docs, words, n, idf2)(d)
    {
      TotalIsRelevance(score, docs, info, words, n, idf2, d);
    }
    HoldersAreListed(score, docs, info, words, n, idf2);
    SameRanking(Totals(hits), Relevances(score, docs, words, n, idf2), AllDocs(hits));
  }

  lemma SameAnswer(truth: Doc -> real, hits: seq<seq<Hit>>, docs: Docs, words: seq<Wid>, relevance: Doc -> real,
                   order: seq<Entry>)
    requires order == Order(truth, hits) == InOrder(Ranking(relevance, Holders(docs, words)))
    requires Uneven(|order|) ==> (LosesLast(hits, order) <==> WorstHoldOne(docs, words, order))
    ensures ShortResult(truth, hits) == ShortAnswer(docs, words, relevance)
  {
  }

  /** The result of merging short lists, said of the documents. */
  lemma ShortIsAnswer(score: Score, docs: Docs, info: WordInfo, words: seq<Wid>, n: int, idf2: Idf2)
    requires Positive(score) && Agrees(score, docs, info) && PositiveIdf(idf2) && n >= 1
    ensures var hits := AllHits(Lists(info, words, n, idf2));
            ShortResult(Totals(hits), hits) == ShortAnswer(docs, words, Relevances(score, docs, words, n, idf2))
  {
    var hits := AllHits(Lists(info, words, n, idf2));
    var order := Order(Totals(hits), hits);
    OrderOfWords(score, docs, info, words, n, idf2);
    if Uneven(|order|) { LosesLastOfWords(score, docs, info, words, n, idf2, order); }
    SameAnswer(Totals(hits), hits, docs, words, Relevances(score, docs, words, n, idf2), order);
  }

  /** The documents that hold one query word and only once. */
  ghost function HoldersOfOne(docs: Docs, words: seq<Wid>): set<Doc> {
    set d | d in Holders(docs, words) && HoldsNoTwo(docs, words, d)
  }

  /** With every word in at most 40 documents the holders come out by relevance, all of them or all but the
      last; with every word in fewer than 610, and fewer than three documents holding no second query word,
      all holders come out. */
  ghost predicate FoundWithinLimits(docs: Docs, words: seq<Wid>, relevance: Doc -> real, out: seq<Scored>,
                                    ending: Ending)
  {
    && ((forall i :: 0 <= i < |words| ==> |Holding(docs, words[i])| <= CACHE_SIZE) ==>
          ending == Exhausted && InFullOrder(out, InOrder(Ranking(relevance, Holders(docs, words)))))
    && ((forall i :: 0 <= i < |words| ==> |Holding(docs, words[i])| < RAISE_DEPTH)
        && |HoldersOfOne(docs, words)| < 3 ==>
          ending == Exhausted && forall d :: d in Holders(docs, words) ==> CameOut(out, d))
  }

  lemma LoneHolders(score: Score, docs: Docs, info: WordInfo, words: seq<Wid>, n: int, idf2: Idf2)
    requires Agrees(score, docs, info)
    ensures LoneDocs(AllHits(Lists(info, words, n, idf2))) == HoldersOfOne(docs, words)
  {
    HoldersAreListed(score, docs, info, words, n, idf2);
    forall d | true
      ensures Lone(AllHits(Lists(info, words, n, idf2)), d) <==> HoldsNoTwo(docs, words, d)
    {
      LoneHoldsNoTwo(score, docs, info, words, n, idf2, d);
    }
  }

  lemma SizeOfWord(score: Score, docs: Docs, info: WordInfo, words: seq<Wid>, n: int, idf2: Idf2, i: nat)
    requires Agrees(score, docs, info) && i < |words|
    ensures |AllHits(Lists(info, words, n, idf2))[i]| == |Holding(docs, words[i])|
  {
    assert RecordRight(score, docs, words[i], RecordOf(info, words[i]));
    TreeSize(score, docs, words[i], RecordOf(info, words[i]));
  }

  lemma SizesOfWords(score: Score, docs: Docs, info: WordInfo, words: seq<Wid>, n: int, idf2: Idf2, limit: nat)
    requires Agrees(score, docs, info) && forall i :: 0 <= i < |words| ==> |Holding(docs, words[i])| <= limit
    ensures var hits := AllHits(Lists(info, words, n, idf2)); forall i :: 0 <= i < |hits| ==> |hits[i]| <= limit
  {
    forall i | 0 <= i < |words|
      ensures |AllHits(Lists(info, words, n, idf2))[i]| <= limit
    {
      SizeOfWord(score, docs, info, words, n, idf2, i);
    }
  }

  /** What the merge is known to deliver beforehand, said of words and documents. */
  lemma LimitsOfWords(score: Score, docs: Docs, info: WordInfo, words: seq<Wid>, n: int, idf2: Idf2,
                      out: seq<Scored>, ending: Ending)
    requires Positive(score) && Agrees(score, docs, info) && PositiveIdf(idf2) && n >= 1
    requires var hits := AllHits(Lists(info, words, n, idf2)); WithinLimits(Totals(hits), hits, out, ending)
    ensures FoundWithinLimits(docs, words, Relevances(score, docs, words, n, idf2), out, ending)
  {
    if forall i :: 0 <= i < |words| ==> |Holding(docs, words[i])| <= CACHE_SIZE {
      SizesOfWords(score, docs, info, words, n, idf2, CACHE_SIZE);
      OrderOfWords(score, docs, info, words, n, idf2);
    }
    if forall i :: 0 <= i < |words| ==> |Holding(docs, words[i])| < RAISE_DEPTH {
      SizesOfWords(score, docs, info, words, n, idf2, RAISE_DEPTH - 1);
      LoneHolders(score, docs, info, words, n, idf2);
      HoldersAreListed(score, docs, info, words, n, idf2);
    }
  }

  /** What a search for two known words or more delivers when none of them is lost: the order of its turns;
      when it ends, the best 650 documents of every word save one and the same; when it raises, that of a
      word in 610 documents or more; with all words in fewer than 40 documents, exactly which results; and
      what the frequencies of the words tell beforehand. */
  ghost predicate Found(score: Score, docs: Docs, info: WordInfo, words: seq<Wid>, n: int, idf2: Idf2,
                        turns: seq<Turn>, out: seq<Scored>, ending: Ending, odd: Doc)
  {
    var hits, relevance := AllHits(Lists(info, words, n, idf2)), Relevances(score, docs, words, n, idf2);
    && Ran(Totals(hits), hits, turns, out, ending) && InOrderRun(relevance, hits, turns, out)
    && (ending == Exhausted ==> forall i :: 0 <= i < |words| ==> BestFound(score, docs, words[i], out, STOP_DEPTH, odd))
    && (ending == EmptyCache ==> exists i :: 0 <= i < |words| && RaisesAt(score, docs, words[i], out, odd))
    && ((forall i :: 0 <= i < |words| ==> |Holding(docs, words[i])| < CACHE_SIZE) ==>
          ending == Exhausted && out == ShortAnswer(docs, words, relevance))
    && FoundWithinLimits(docs, words, relevance, out, ending)
  }

  predicate SameAt(truth: Doc -> real, relevance: Doc -> real, d: Doc) {
    truth(d) == relevance(d)
  }

  lemma SameOrder(truth: Doc -> real, relevance: Doc -> real, hits: seq<seq<Hit>>, turns: seq<Turn>, out: seq<Scored>)
    requires forall d {:trigger SameAt(truth, relevance, d)} :: SameAt(truth, relevance, d)
    requires InOrderRun(truth, hits, turns, out)
    ensures InOrderRun(relevance, hits, turns, out)
  {
    forall j: nat, k: nat | j < |out| && k < |out|
      ensures PairInOrder(relevance, hits, turns, out, j, k)
    {
      assert PairInOrder(truth, hits, turns, out, j, k);
      assert SameAt(truth, relevance, out[j].0) && SameAt(truth, relevance, out[k].0);
    }
    forall k: nat, d | k < |out|
      ensures BeatsLater(relevance, hits, turns, out, k, d)
    {
      assert BeatsLater(truth, hits, turns, out, k, d);
      assert SameAt(truth, relevance, out[k].0) && SameAt(truth, relevance, d);
    }
  }

  lemma BestOfWords(score: Score, docs: Docs, info: WordInfo, words: seq<Wid>, n: int, idf2: Idf2,
                    used: set<Doc>, out: seq<Scored>, i: nat, depth: nat, odd: Doc)
    requires Positive(score) && Agrees(score, docs, info) && PositiveIdf(idf2) && n >= 1 && i < |words|
    requires forall x :: Among(AllHits(Lists(info, words, n, idf2))[i], depth, x) ==> x in used || x == odd
    requires forall d {:trigger CameOut(out, d)} :: d in used <==> CameOut(out, d)
    ensures BestFound(score, docs, words[i], out, depth, odd)
  {
    assert RecordRight(score, docs, words[i], RecordOf(info, words[i]));
    RecordIsRanked(score, docs, words[i], RecordOf(info, words[i]), n, idf2);
    BestOfWord(score, docs, words[i], RecordOf(info, words[i]), n, idf2, used, out, depth, odd);
  }

  lemma RaisesAtWord(score: Score, docs: Docs, info: WordInfo, words: seq<Wid>, n: int, idf2: Idf2,
                     used: set<Doc>, out: seq<Scored>, i: nat, odd: Doc)
    requires Positive(score) && Agrees(score, docs, info) && PositiveIdf(idf2) && n >= 1
    requires RaisesOn(AllHits(Lists(info, words, n, idf2)), used, i, odd)
    requires forall d {:trigger CameOut(out, d)} :: d in used <==> CameOut(out, d)
    ensures i < |words| && RaisesAt(score, docs, words[i], out, odd)
  {
    SizeOfWord(score, docs, info, words, n, idf2, i);
    BestOfWords(score, docs, info, words, n, idf2, used, out, i, RAISE_DEPTH, odd);
  }

  lemma FoundInOrder(score: Score, docs: Docs, info: WordInfo, words: seq<Wid>, n: int, idf2: Idf2,
                     turns: seq<Turn>, out: seq<Scored>)
    requires Positive(score) && Agrees(score, docs, info) && PositiveIdf(idf2) && n >= 1
    requires var hits := AllHits(Lists(info, words, n, idf2)); InOrderRun(Totals(hits), hits, turns, out)
    ensures InOrderRun(Relevances(score, docs, words, n, idf2), AllHits(Lists(info, words, n, idf2)), turns, out)
  {
    var hits := AllHits(Lists(info, words, n, idf2));
    forall d | true
      ensures SameAt(Totals(hits), Relevances(score, docs, words, n, idf2), d)
    {
      TotalIsRelevance(score, docs, info, words, n, idf2, d);
    }
    SameOrder(Totals(hits), Relevances(score, docs, words, n, idf2), hits, turns, out);
  }

  /** What the merge delivers, said of words and documents. */
  lemma DeliveredIsFound(score: Score, docs: Docs, info: WordInfo, words: seq<Wid>, n: int, idf2: Idf2,
                         turns: seq<Turn>, out: seq<Scored>, ending: Ending, used: set<Doc>, odd: Doc)
    requires Positive(score) && Agrees(score, docs, info) && PositiveIdf(idf2) && n >= 1
    requires Delivered(AllHits(Lists(info, words, n, idf2)), turns, out, ending, used, odd)
    requires forall d {:trigger CameOut(out, d)} :: d in used <==> CameOut(out, d)
    ensures Found(score, docs, info, words, n, idf2, turns, out, ending, odd)
  {
    var hits := AllHits(Lists(info, words, n, idf2));
    FoundInOrder(score, docs, info, words, n, idf2, turns, out);
    LimitsOfWords(score, docs, info, words, n, idf2, out, ending);
    if ending == Exhausted {
      forall i | 0 <= i < |words|
        ensures BestFound(score, docs, words[i], out, STOP_DEPTH, odd)
      {
        assert AllBut(hits, used, i, odd);
        BestOfWords(score, docs, info, words, n, idf2, used, out, i, STOP_DEPTH, odd);
      }
    }
    if ending == EmptyCache {
      var i: nat :| RaisesOn(hits, used, i, odd);
      RaisesAtWord(score, docs, info, words, n, idf2, used, out, i, odd);
    }
    if forall i :: 0 <= i < |words| ==> |Holding(docs, words[i])| < CACHE_SIZE {
      SizesOfWords(score, docs, info, words, n, idf2, CACHE_SIZE - 1);
      ShortIsAnswer(score, docs, info, words, n, idf2);
    }
  }

  // ---- searching -------------------------------------------------------------------------------

  /** Merging the lists of words that have records. */
  method SearchWords(ix: Index, words: seq<Wid>, idf2: Idf2)
    returns (out: seq<Scored>, ending: Ending, ghost odd: Doc, ghost turns: seq<Turn>)
    requires ix.Valid() && PositiveIdf(idf2) && ix.documentCount >= 1
    ensures Relevant(ix.score, ix.docwords, ix.wordinfo, words, ix.documentCount, idf2, out)
    ensures ending == EmptyTree <==>
              |words| >= 2 && exists i :: 0 <= i < |words| && Holding(ix.docwords, words[i]) == {}
    ensures |words| == 1 ==>
              && ending == Exhausted
              && OneWord(ix.score, ix.docwords, words[0], ix.documentCount, idf2, out)
    ensures |words| >= 2 && ending != EmptyTree ==>
              Found(ix.score, ix.docwords, ix.wordinfo, words, ix.documentCount, idf2, turns, out, ending, odd)
  {
    ghost var score, docs, info, n := ix.score, ix.docwords, ix.wordinfo, ix.documentCount;
    var lists := Lists(ix.wordinfo, words, ix.documentCount, idf2);
    ListsRanked(score, docs, info, words, n, idf2);
    ghost var used;
    out, ending, used, odd, turns := MassWeightedUnion(lists);
    OutcomeIsRelevant(score, docs, info, words, n, idf2, used, out);
    if |words| == 1 {
      assert RecordRight(score, docs, words[0], RecordOf(info, words[0]));
      AloneIsOneWord(score, docs, words[0], RecordOf(info, words[0]), n, idf2);
    } else if |words| >= 2 && ending != EmptyTree {
      DeliveredIsFound(score, docs, info, words, n, idf2, turns, out, ending, used, odd);
    }
  }

  /** search: words without a record are ignored, none left means no results, and an index without documents
      has no idf. A search for several known words fails exactly when one of them is in no document, and
      otherwise finds what `Found` says. */
  method Search(ix: Index, wids: seq<Wid>, idf2: Idf2)
    returns (out: seq<Scored>, a: Answer, ghost odd: Doc, ghost turns: seq<Turn>)
    requires ix.Valid() && PositiveIdf(idf2)
    ensures a == DomainError <==> Known(ix.wordinfo, wids) != [] && ix.docwords == map[]
    ensures a == DomainError || Known(ix.wordinfo, wids) == [] ==> out == []
    ensures Known(ix.wordinfo, wids) == [] ==> a == Ended(Exhausted)
    ensures a.Ended? ==>
              Relevant(ix.score, ix.docwords, ix.wordinfo, Known(ix.wordinfo, wids), ix.documentCount, idf2, out)
    ensures a == Ended(EmptyTree) <==>
              var words := Known(ix.wordinfo, wids);
              && ix.docwords != map[] && |words| >= 2
              && exists i :: 0 <= i < |words| && Holding(ix.docwords, words[i]) == {}
    ensures a.Ended? && |Known(ix.wordinfo, wids)| == 1 ==>
              var w := Known(ix.wordinfo, wids)[0];
              && a.ending == Exhausted
              && OneWord(ix.score, ix.docwords, w, ix.documentCount, idf2, out)
    ensures a.Ended? && a.ending != EmptyTree && |Known(ix.wordinfo, wids)| >= 2 ==>
              var words := Known(ix.wordinfo, wids);
              Found(ix.score, ix.docwords, ix.wordinfo, words, ix.documentCount, idf2, turns, out, a.ending, odd)
  {
    odd, turns := 0, [];
    var words := Known(ix.wordinfo, wids);
    if words == [] {
      return [], Ended(Exhausted), 0, [];
    }
    if ix.documentCount == 0 {
      return [], DomainError, 0, [];
    }
    var ending;
    out, ending, odd, turns := SearchWords(ix, words, idf2);
    a := Ended(ending);
  }

  lemma {:induction false} AllKnown(info: WordInfo, wids: seq<Wid>)
    requires forall w :: w in wids ==> w in info
    ensures Known(info, wids) == wids
  {
    if wids != [] {
      assert forall w :: w in wids[1..] ==> w in wids;
      AllKnown(info, wids[1..]);
    }
  }

  lemma KnownOne(info: WordInfo, w: Wid)
    ensures Known(info, [w]) == if w in info then [w] else []
  {
    assert [w][1..] == [];
  }

  /** Dropping the unknown ids keeps order and repetitions: of a single id it leaves the id or nothing, and
      of any list what it leaves of its parts. */
  lemma {:induction false} KnownByParts(info: WordInfo, a: seq<Wid>, b: seq<Wid>)
    ensures Known(info, a + b) == Known(info, a) + Known(info, b)
    ensures |a| == 1 ==> Known(info, a) == if a[0] in info then a else []
  {
    if a == [] {
      assert a + b == b;
    } else {
      KnownByParts(info, a[1..], b);
      assert (a + b)[1..] == a[1..] + b;
      KnownOne(info, a[0]);
      Assoc(if a[0] in info then [a[0]] else [], Known(info, a[1..]), Known(info, b));
    }
  }

  /** A word dropped by re-indexing keeps an empty record, and searching for it together with another word
      fails: index a document as "x y", re-index it as "y", search for "x y". */
  method StaleWord(score: Score, idf2: Idf2, d: Doc, x: Wid, y: Wid) returns (out: seq<Scored>, a: Answer)
    requires Positive(score) && PositiveIdf(idf2) && x != y
    ensures a == Ended(EmptyTree)
  {
    var ix := new Index(score);
    var r := ix.IndexDoc(d, [x, y]);
    r := ix.IndexDoc(d, [y]);
    ghost var both := Words([x, y]);
    assert both <= ix.wordinfo.Keys && x in both && y in both;
    AllKnown(ix.wordinfo, [x, y]);
    assert Holding(ix.docwords, Known(ix.wordinfo, [x, y])[0]) == {};
    ghost var odd, turns;
    out, a, odd, turns := Search(ix, [x, y], idf2);
  }

  method IndexOne(score: Score, a: Doc, was: seq<Wid>) returns (ix: Index)
    requires Positive(score)
    ensures fresh(ix) && ix.Valid() && ix.score == score && ix.docwords == map[a := was]
  {
    ix := new Index(score);
    var _ := ix.IndexDoc(a, was);
  }

  method IndexMore(ix: Index, d: Doc, ws: seq<Wid>)
    requires ix.Valid() && ws != []
    modifies ix
    ensures ix.Valid() && ix.docwords == old(ix.docwords)[d := ws] && Words(ws) <= ix.wordinfo.Keys
  {
    var _ := ix.IndexDoc(d, ws);
  }

  /** An index of two documents, one of them indexed again. */
  method IndexTwo(score: Score, a: Doc, was: seq<Wid>, ws: seq<Wid>, b: Doc, xs: seq<Wid>) returns (ix: Index)
    requires Positive(score) && a != b && ws != [] && xs != []
    ensures ix.Valid() && ix.score == score && ix.docwords == map[a := ws, b := xs]
    ensures Words(ws) <= ix.wordinfo.Keys
  {
    ix := IndexOne(score, a, was);
    IndexMore(ix, b, xs);
    IndexMore(ix, a, ws);
  }

  /** Of two words that two documents hold equally often among equally many words, the rarer one weighs more. */
  lemma RarerWeighsMore(score: Score, docs: Docs, v: Wid, w: Wid, n: int, idf2: Idf2, a: Doc, b: Doc)
    requires Positive(score) && (forall j, k :: 0 < j < k <= n ==> idf2(n, j) > idf2(n, k))
    requires a in Holding(docs, v) && b in Holding(docs, w) && |Holding(docs, v)| < |Holding(docs, w)| <= n
    requires |Places(docs[a], v)| == |Places(docs[b], w)| && |Words(docs[a])| == |Words(docs[b])|
    ensures Relevance(score, docs, [v], n, idf2, a) > Relevance(score, docs, [w], n, idf2, b)
  {
    PlacesCount(docs[a], v);
    PlacesCount(docs[b], w);
    PositivePair(score, a, docs[a], v);
    assert |Holding(docs, v)| > 0;
    var s := ScoreOf(score, docs, v, a);
    assert s == ScoreOf(score, docs, w, b) > 0.0;
    Outweighs(idf2(n, |Holding(docs, v)|), idf2(n, |Holding(docs, w)|), s);
    RelevanceOfOne(score, docs, v, n, idf2, a);
    RelevanceOfOne(score, docs, w, n, idf2, b);
  }

  lemma RelevanceOfOne(score: Score, docs: Docs, w: Wid, n: int, idf2: Idf2, d: Doc)
    ensures Relevance(score, docs, [w], n, idf2, d) == WordWeight(score, docs, w, n, idf2, d)
  {
    var shares := seq(1, i requires 0 <= i < 1 => WordWeight(score, docs, [w][i], n, idf2, d));
    assert Relevance(score, docs, [w], n, idf2, d) == Sum(shares);
    assert shares[..0] == [] && Sum(shares) == Sum(shares[..0]) + shares[0];
  }

  lemma TwoDocs(docs: Docs, a: Doc, ws: seq<Wid>, b: Doc, xs: seq<Wid>, w: Wid)
    requires a != b && docs == map[a := ws, b := xs] && w in ws && w in xs
    ensures |Holding(docs, w)| == 2 && a in Holding(docs, w) && b in Holding(docs, w) && |docs| == 2
  {
    assert Holding(docs, w) == {a, b} && docs.Keys == {a, b};
    assert |docs.Keys| == |docs|;
  }

  lemma TwoInOrder(score: Score, docs: Docs, w: Wid, n: int, idf2: Idf2, out: seq<Scored>, a: Doc, b: Doc)
    requires Rising(score) && PositiveIdf(idf2) && n >= 1 && OneWord(score, docs, w, n, idf2, out)
    requires a in Holding(docs, w) && b in Holding(docs, w) && |Holding(docs, w)| == 2
    requires |Places(docs[a], w)| > |Places(docs[b], w)| && |Words(docs[a])| <= |Words(docs[b])|
    ensures |out| == 2 && out[0].0 == a && out[1].0 == b
  {
    OftenerComesFirst(score, docs, w, n, idf2, out, a, b);
  }

  /** Two documents compared, whether indexed for the first time or indexed again: the one that holds the word
      more often, among no more distinct words, comes out of a search for it first. */
  method OftenerFirst(score: Score, idf2: Idf2, a: Doc, was: seq<Wid>, ws: seq<Wid>, b: Doc, xs: seq<Wid>, w: Wid)
    returns (out: seq<Scored>)
    requires Positive(score) && Rising(score) && PositiveIdf(idf2) && a != b
    requires w in xs && |Places(ws, w)| > |Places(xs, w)| && |Words(ws)| <= |Words(xs)|
    ensures |out| == 2 && out[0].0 == a && out[1].0 == b
  {
    PlacesCount(ws, w);
    var ix := IndexTwo(score, a, was, ws, b, xs);
    TwoDocs(ix.docwords, a, ws, b, xs, w);
    KnownOne(ix.wordinfo, w);
    var ending;
    ghost var odd, turns;
    out, ending, odd, turns := SearchWords(ix, [w], idf2);
    TwoInOrder(score, ix.docwords, w, ix.documentCount, idf2, out, a, b);
  }
}
