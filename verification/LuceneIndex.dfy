/** The incremental Lucene-style text index (IncrementalLuceneIndex), keeping phrases. */
module LuceneIndex {
  import opened SortedSets
  import opened Postings

  /** What an index operation reports: a word count, nothing, the TypeError of a tree walk without trees,
      or the KeyError of a lost pair. */
  datatype Report = Count(n: nat) | Done | NoTrees | LostPair

  class Index {
    const score: Score
    var wordinfo: WordInfo
    var docwords: Docs
    var wordCount: int
    var documentCount: int

    ghost predicate Valid()
      reads this
    {
      Positive(score) && Agrees(score, docwords, wordinfo) && documentCount == |docwords|
    }

    constructor (score: Score)
      requires Positive(score)
      ensures Valid() && this.score == score && docwords == map[] && wordinfo == map[] && wordCount == 0
    {
      this.score := score;
      wordinfo, docwords, wordCount, documentCount := map[], map[], 0, 0;
    }

    /** Make sure every word has a record. */
    method GetDoctrees(wids: set<Wid>)
      modifies this`wordinfo, this`wordCount
      ensures forall w ::
                RecordOf(wordinfo, w) == RecordOf(old(wordinfo), w)
      ensures wordinfo.Keys == old(wordinfo).Keys + wids
      ensures wordCount == old(wordCount) + |wids - old(wordinfo).Keys|
    {
      var todo := wids;
      ghost var news: set<Wid> := {};
      while todo != {}
        invariant todo <= wids
        invariant forall w :: RecordOf(wordinfo, w) == RecordOf(old(wordinfo), w)
        invariant forall w :: w in wordinfo <==> w in old(wordinfo) || (w in wids && w !in todo)
        invariant forall w :: w in news <==> w in wids && w !in todo && w !in old(wordinfo)
        invariant wordCount == old(wordCount) + |news|
        decreases todo
      {
        var w :| w in todo;
        if w !in wordinfo {
          wordinfo := wordinfo[w := EMPTY];
          wordCount := wordCount + 1;
          news := news + {w};
        }
        todo := todo - {w};
      }
      assert news == wids - old(wordinfo).Keys;
    }

    /** weights[w].add(docscores[w]); lengths[w].change(1), for every word of a new document. */
    method AddPairs(docid: Doc, wids: seq<Wid>)
      requires forall w :: w in wids ==> w in wordinfo
      modifies this`wordinfo
      ensures wordinfo.Keys == old(wordinfo).Keys
      ensures AllAdded(score, old(wordinfo), wordinfo, docid, wids)
    {
      var todo := Words(wids);
      while todo != {}
        invariant todo <= Words(wids) && wordinfo.Keys == old(wordinfo).Keys
        invariant forall w ::
                var r := RecordOf(old(wordinfo), w);
                RecordOf(wordinfo, w) == if w in wids && w !in todo then Added(r, Pair(score, docid, wids, w)) else r
        decreases todo
      {
        var w :| w in todo;
        wordinfo := wordinfo[w := Added(wordinfo[w], Pair(score, docid, wids, w))];
        todo := todo - {w};
      }
    }

    /** index_doc */
    method IndexDoc(docid: Doc, wids: seq<Wid>) returns (r: Report)
      requires Valid()
      modifies this
      ensures Valid()
      ensures r.NoTrees? <==> wids == [] && docid in old(docwords) && old(docwords)[docid] == []
      ensures if r.NoTrees? then docwords == old(docwords) && wordinfo == old(wordinfo)
              else r == Count(|wids|) && docwords == old(docwords)[docid := wids]
      ensures !r.NoTrees? ==> wordinfo.Keys == old(wordinfo).Keys + Words(wids) +
                                (if docid in old(docwords) then Words(old(docwords)[docid]) else {})
    {
      if docid in docwords {
        r := ReindexDoc(docid, wids);
        return;
      }
      ghost var docs, info := docwords, wordinfo;
      docwords := docwords[docid := wids];
      if wids != [] {
        GetDoctrees(Words(wids));
        AddPairs(docid, wids);
      }
      documentCount := documentCount + 1;
      assert AllAdded(score, info, wordinfo, docid, wids);
      AddAgrees(score, docs, info, wordinfo, docid, wids);
      r := Count(|wids|);
    }

    /** The counters of words lost and gained, then the old pairs out and the new pairs in. `lost` counts the
        old pairs that were not found. */
    method SwapPairs(docid: Doc, was: seq<Wid>, wids: seq<Wid>) returns (lost: nat)
      requires forall w :: w in was || w in wids ==> w in wordinfo
      requires forall w :: w in was ==> PairStored(score, wordinfo, docid, was, w)
      modifies this`wordinfo
      ensures lost == 0 && wordinfo.Keys == old(wordinfo).Keys
      ensures AllReplaced(score, old(wordinfo), wordinfo, docid, was, wids)
    {
      WordsWithin(was, wordinfo);
      WordsWithin(wids, wordinfo);
      ChangeLengths(Words(was) - Words(wids), -1);
      ChangeLengths(Words(wids) - Words(was), 1);
      lost := RemovePairs(docid, was);
      InsertPairs(docid, wids);
    }

    /** lengths[w].change(delta) for w in wids */
    method ChangeLengths(wids: set<Wid>, delta: int)
      requires wids <= wordinfo.Keys
      modifies this`wordinfo
      ensures wordinfo.Keys == old(wordinfo).Keys
      ensures forall w ::
                var r := RecordOf(old(wordinfo), w);
                RecordOf(wordinfo, w) == Record(r.tree, r.length + if w in wids then delta else 0)
    {
      var todo := wids;
      while todo != {}
        invariant todo <= wids && wordinfo.Keys == old(wordinfo).Keys
        invariant forall w ::
                var r := RecordOf(old(wordinfo), w);
                RecordOf(wordinfo, w) == Record(r.tree, r.length + if w in wids && w !in todo then delta else 0)
        decreases todo
      {
        var w :| w in todo;
        wordinfo := wordinfo[w := wordinfo[w].(length := wordinfo[w].length + delta)];
        todo := todo - {w};
      }
    }

    /** weights[w].remove(old_docscores[w]); a missing pair is only logged. */
    method RemovePairs(docid: Doc, was: seq<Wid>) returns (lost: nat)
      requires forall w :: w in was ==> w in wordinfo
      modifies this`wordinfo
      ensures wordinfo.Keys == old(wordinfo).Keys
      ensures lost == 0 <==> forall w :: w in was ==> Pair(score, docid, was, w) in RecordOf(old(wordinfo), w).tree
      ensures forall w ::
                var r := RecordOf(old(wordinfo), w);
                RecordOf(wordinfo, w) == if w in was then r.(tree := r.tree - {Pair(score, docid, was, w)}) else r
    {
      lost := 0;
      var todo := Words(was);
      while todo != {}
        invariant todo <= Words(was) && wordinfo.Keys == old(wordinfo).Keys
        invariant lost == 0 <==> forall w :: w in was && w !in todo ==>
                    Pair(score, docid, was, w) in RecordOf(old(wordinfo), w).tree
        invariant forall w ::
                var r := RecordOf(old(wordinfo), w);
                RecordOf(wordinfo, w) ==
                  if w in was && w !in todo then r.(tree := r.tree - {Pair(score, docid, was, w)}) else r
        decreases todo
      {
        var w :| w in todo;
        assert wordinfo[w] == RecordOf(wordinfo, w) == RecordOf(old(wordinfo), w);
        var pair := Pair(score, docid, was, w);
        if pair in wordinfo[w].tree {
          wordinfo := wordinfo[w := wordinfo[w].(tree := wordinfo[w].tree - {pair})];
        } else {
          lost := lost + 1;
        }
        todo := todo - {w};
      }
    }

    /** weights[w].add(new_docscores[w]) */
    method InsertPairs(docid: Doc, wids: seq<Wid>)
      requires forall w :: w in wids ==> w in wordinfo
      modifies this`wordinfo
      ensures wordinfo.Keys == old(wordinfo).Keys
      ensures forall w ::
                var r := RecordOf(old(wordinfo), w);
                RecordOf(wordinfo, w) == if w in wids then r.(tree := r.tree + {Pair(score, docid, wids, w)}) else r
    {
      var todo := Words(wids);
      while todo != {}
        invariant todo <= Words(wids) && wordinfo.Keys == old(wordinfo).Keys
        invariant forall w ::
                var r := RecordOf(old(wordinfo), w);
                RecordOf(wordinfo, w) ==
                  if w in wids && w !in todo then r.(tree := r.tree + {Pair(score, docid, wids, w)}) else r
        decreases todo
      {
        var w :| w in todo;
        wordinfo := wordinfo[w := wordinfo[w].(tree := wordinfo[w].tree + {Pair(score, docid, wids, w)})];
        todo := todo - {w};
      }
    }

    /** _reindex_doc; the logged "should never happen" does not happen. */
    method ReindexDoc(docid: Doc, wids: seq<Wid>) returns (r: Report)
      requires Valid() && docid in docwords
      modifies this
      ensures Valid()
      ensures r.NoTrees? <==> wids == [] && old(docwords)[docid] == []
      ensures if r.NoTrees? then docwords == old(docwords) && wordinfo == old(wordinfo)
              else r == Count(|wids|) && docwords == old(docwords)[docid := wids]
      ensures !r.NoTrees? ==> wordinfo.Keys == old(wordinfo).Keys + Words(wids) + Words(old(docwords)[docid])
    {
      ghost var docs, info := docwords, wordinfo;
      var was := docwords[docid];
      if Words(was) + Words(wids) == {} {
        return NoTrees;
      }
      PairsPresent(score, docs, info, docid);
      GetDoctrees(Words(was) + Words(wids));
      var lost := SwapPairs(docid, was, wids);
      docwords := docwords[docid := wids];
      assert AllReplaced(score, info, wordinfo, docid, was, wids);
      ReplaceAgrees(score, docs, info, wordinfo, docid, wids);
      assert docwords.Keys == docs.Keys;
      r := Count(|wids|);
    }

    /** unindex_doc */
    method UnindexDoc(docid: Doc) returns (r: Report)
      requires Valid()
      modifies this
      ensures Valid()
      ensures r.Done? || r.NoTrees?
      ensures r.NoTrees? <==> docid in old(docwords) && old(docwords)[docid] == []
      ensures r.NoTrees? ==> docwords == old(docwords) && wordinfo == old(wordinfo)
      ensures r.Done? ==> docwords == old(docwords) - {docid}
      ensures r.Done? ==>
                wordinfo.Keys == old(wordinfo).Keys -
                                 if docid in old(docwords) then Orphans(old(docwords)[docid], docwords) else {}
    {
      if docid !in docwords {
        assert docwords - {docid} == docwords;
        return Done;
      }
      if Words(docwords[docid]) == {} {
        return NoTrees;
      }
      r := UnindexKnown(docid);
    }

    /** unindex_doc for a document with at least one word; no pair is lost. */
    method UnindexKnown(docid: Doc) returns (r: Report)
      requires Valid() && docid in docwords
      modifies this
      ensures Valid() && r == Done && docwords == old(docwords) - {docid}
      ensures wordinfo.Keys == old(wordinfo).Keys - Orphans(old(docwords)[docid], docwords)
    {
      ghost var docs, info := docwords, wordinfo;
      var ok := TakeOut(docid, docwords[docid]);
      if !ok { return LostPair; }
      UnindexDone(score, docs, info, wordinfo, docid);
      docwords := docwords - {docid};
      documentCount := documentCount - 1;
      r := Done;
    }

    /** Every pair of an indexed document is found and taken out. */
    method TakeOut(docid: Doc, was: seq<Wid>) returns (ok: bool)
      requires Agrees(score, docwords, wordinfo) && docid in docwords && was == docwords[docid]
      modifies this`wordinfo, this`wordCount
      ensures ok && AllRemoved(score, old(wordinfo), wordinfo, docid, was)
      ensures wordinfo.Keys == old(wordinfo).Keys - Zeroed(was, wordinfo)
    {
      ghost var info := wordinfo;
      PairsPresent(score, docwords, info, docid);
      GetDoctrees(Words(was));
      Absorbed(info.Keys, Words(was));
      ok := DropPairs(docid, was);
    }

    /** Counter down, pair out, and the record dropped when its counter reaches zero, for every word of a
        document; false on a lost pair. */
    method DropPairs(docid: Doc, was: seq<Wid>) returns (ok: bool)
      requires forall w :: w in was ==> w in wordinfo && RecordOf(wordinfo, w).length == |RecordOf(wordinfo, w).tree|
      modifies this`wordinfo
      ensures ok <==> forall w :: w in was ==> Pair(score, docid, was, w) in RecordOf(old(wordinfo), w).tree
      ensures ok ==> AllRemoved(score, old(wordinfo), wordinfo, docid, was)
      ensures ok ==> wordinfo.Keys == old(wordinfo).Keys - Zeroed(was, wordinfo)
    {
      var todo := Words(was);
      while todo != {}
        invariant todo <= Words(was) && forall w :: w in todo ==> w in wordinfo
        invariant forall w :: w in was && w !in todo ==> Pair(score, docid, was, w) in RecordOf(old(wordinfo), w).tree
        invariant forall w ::
                var r := RecordOf(old(wordinfo), w);
                RecordOf(wordinfo, w) == if w in was && w !in todo then Removed(r, Pair(score, docid, was, w)) else r
        invariant wordinfo.Keys ==
                  old(wordinfo).Keys - (set w | w in Words(was) - todo && RecordOf(wordinfo, w).length == 0)
        decreases todo
      {
        var w :| w in todo;
        var pair := Pair(score, docid, was, w);
        assert wordinfo[w] == RecordOf(wordinfo, w) == RecordOf(old(wordinfo), w) == old(wordinfo)[w];
        var length := wordinfo[w].length - 1;
        if pair !in wordinfo[w].tree { return false; }
        wordinfo := wordinfo[w := Removed(wordinfo[w], pair)];
        if length == 0 {
          EmptyWhenCounted(old(wordinfo)[w], pair);
          wordinfo := wordinfo - {w};
        }
        todo := todo - {w};
      }
      ok := true;
    }
  }

  lemma Absorbed<T>(a: set<T>, b: set<T>)
    requires b <= a
    ensures a + b == a
  {
  }

  /** When the counter agrees with the tree, a counter of zero after a removal means an empty record. */
  lemma EmptyWhenCounted(r: Record, e: Entry)
    requires r.length == |r.tree| && e in r.tree && r.length == 1
    ensures Removed(r, e) == EMPTY
  {
    assert |r.tree - {e}| == 0;
  }
}
