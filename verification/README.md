# Verified model of ZeroDB's indexing and storage core

ZeroDB stores Python objects encrypted on a server that cannot read them, so indexing, ranking and
query evaluation run on the client. This project models that client-side core in Dafny and proves
what it keeps over whole runs:

* the **incremental merge** of score-sorted lists (`mass_weightedUnion`), a lazy threshold algorithm
  over caches, lower and upper bounds and a window of 15 documents: its state and bounds
  (`Scores.dfy`, `MergePool.dfy`, `MergeCounts.dfy`, `MergeView.dfy`), whole runs (`MergeRun.dfy`,
  `MergeShort.dfy`, `MergeLimits.dfy`, `MergeWear.dfy`, `MergeSwap.dfy`), the generator itself
  (`LazyUnion.dfy`) and concrete merges (`MergeLoss.dfy`);
* the **inverted index** that feeds it, and search over that index (`Postings.dfy`,
  `LuceneIndex.dfy`, `LuceneSearch.dfy`);
* the **indexing queue**: compaction of queued operations, the transaction hook, savepoints and the
  lists they share (`QueueOps.dfy`, `IndexQueue.dfy`);
* **automatic re-indexing** across attribute writes, store, index and transactions
  (`AutoReindex.dfy`, `ReindexRuns.dfy`);
* the **field index** with its three posting representations (`FieldIndex.dfy`);
* **lazy cached lists** over a restartable iterator (`LazySequence.dfy`, `LazyRecency.dfy`);
* **users and certificates** with the concatenated certificate text (`CertText.dfy`,
  `Accounts.dfy`), **record ownership** (`Ownership.dfy`) and **parallel tree traversal**
  (`TreePrefetch.dfy`).

Classes carry the fields the Python classes update in place, with one method per operation. Each
method states its whole effect as a function of the old state, and the properties of runs are lemmas
about those functions. A run of the merge is a sequence of turns, each starting from the state the one
before it left; the generator returns it as a ghost value, and what runs deliver is proved about it.
`Wrappers.dfy`, `Sequences.dfy` and `SortedSets.dfy` hold shared vocabulary (optional values, slices,
ordered iteration of a set).

## Readings

* `/` on integers and `map` are read as in Python 2 (integer division, a list), and a
  `StopIteration` raised inside a generator ends it. A generator is a class whose `Pull` resumes it.
* Scores and weights are reals; `sqrt(f) / sqrt(n)` is a parameter `score` that is positive, and where the
  order of documents is compared rises in f and falls in n (`Postings.RootsRise`); `idf2` is a positive
  parameter. `keep_phrases` is true, so a document's stored words are its words.
* Documents are integers, objects and users are ids; a Model object and its uid are identified.
* `itertools.islice` read to its end consumes exactly `min(stop, length)` items; the cache of a lazy
  list is a least-recently-used cache of at least one item; `f()` yields a fresh iterator.
* A `RangeValue` query is a range with both ends included and either end optional.

## What the code does where its documentation suggests otherwise

* **The merge can lose one document.** The docstring promises all documents; when two documents are
  left in the window, three are pending and at most three scores are cached while every list is
  closed (`MergeView.Stranded`), no further window is computed and the last document is never
  yielded. A run to exhaustion leaves a read document behind if and only if one of its turns is
  stranded (`MergeRun.LeftBehindIff`). For lists that are all shorter than 40 the result is known
  exactly (`MergeShort.ShortRun`): all n documents by descending total and ascending id with exact
  weights, but for the last one when n > 15, n mod 13 = 3 and each of the three worst is in one list
  only. Any two words with fewer than 40 documents each and none in common lose one when they have 16,
  29, 42, 55 or 68 together (`MergeLoss.TwoWordSearch`). For lists of any length, no run is stranded
  unless three documents or more are in one list only (`MergeLimits.LeftBehindHasLone`): with all lists
  shorter than 610 and fewer such documents nothing is lost (`MergeLimits.NothingLost`).
* **The merge can stop early or raise.** A list is read on at each resumption while its cache is
  short, but what is read may all have been yielded through other lists already. When 650 elements of
  an open list have been used up that way and nothing is pending, the merge stops as if it were
  complete, and what no list has produced by then is lost (`MergeRun.RanLoses`); when one cached
  document is left after 610 and sits on the list's cap, `max` of the emptied cache raises. Both
  happen, at every length from there on: a word in n documents merged with one in the same n and
  len - n others yields n of len documents (`MergeLoss.EarlyStop`, 650 <= n <= len) or, when the longer word's
  scores are all equal, raises after
  n - 1 (`MergeLoss.Raise`, 610 <= n <= len), as `MergeWear.WearRun` shows for all lists of that kind.
  Below those lengths neither happens: with all lists shorter than 610 a merge never raises and yields
  all documents but at most one (`MergeRun.ShorterNeverRaises`), and in general the first 650
  documents of every list come out but for one and the same (`MergeRun.RanComplete`).
* **Results can come out of order.** The docstring promises descending totals. That holds as long as no
  list is longer than 40 (`MergeLimits.OneCacheRun`), and for every length from 41 on a list of that
  length and one of two come out with the first two results swapped (`MergeLoss.OutOfOrder`, for all
  such pairs `MergeSwap.SwapRun`). What holds for all lists: two results of one window three or more
  places apart are in order, the last four of the window aside; and a result popped while a window of
  15 holds three or more is at least as good as everything not read by then and at least half as good
  as everything that has not come out by then (`MergeRun.RanInOrder`).
* **A multi-word search can raise on a word that is in no document.** `_reindex_doc` leaves the empty
  record of a lost word behind, and `minKey` of an empty tree raises; this happens exactly when one
  of two or more known words is in no document (`LuceneSearch.Search`, `LuceneSearch.StaleWord`).
* **A value written over None is not re-indexed** (`AutoReindex.NoneGoesStale`), and **an object
  removed with a write still queued is back in the index after the commit**
  (`AutoReindex.RemovedComesBack`). The exact conditions are `AutoReindex.Safe`.
* **A queue savepoint survives one rollback only.** The rollback installs the savepoint's own list,
  so what is queued afterwards, up to the next compaction, is written into the savepoint
  (`IndexQueues.Rollbacks`, `IndexQueues.RestoredIff`).
* **A slice of a lazy list can file items under wrong indexes.** The slice itself is always right, but
  a partly cached one files what it reads from the start of the slice on, and a fully cached one moves
  `stop` without moving the iterator (`LazySequences.SlicedIff`, `LazySequences.WrongFirst`). For a list
  without repeated items `LazySequences.SafeIffByIndex` says which slices do, by what is cached, `stop`
  and the length.
* **Plain item reads of a prefetching list go wrong.** An item read that moved `stop` slices the twenty
  items after it; when those are all cached, `stop` runs ahead of the iterator
  (`LazySequences.CachedAheadBreaks`). Reading items 5, 3, 2 and then 26 of a fresh list of 27 items
  or more answers item 6 (`LazySequences.WrongAhead`); the exact condition is
  `LazySequences.GotAheadIff`.
* **Removing one certificate text can damage another** that begins with it, or that precedes another
  text and is it but for a newline at the end (`CertTexts.RemovedIff`, with `CertTexts.PrefixDamaged`
  and `CertTexts.NewlineDamaged`), and **a second user with the same name** detaches the first
  (`Accounts.UserAdded`).
* **Compaction can revive a stale attribute.** Of an object that is taken out of the index and put back,
  the compacted queue leaves the attributes it no longer has (`QueueOps.CompactionPreserves`,
  `QueueOps.StaleRevived`), unless a flush found it away (`IndexQueues.RunKeepsMeaning`).

## Model

| member | source | states |
|---|---|---|
| MergePool.ReadKeeps | zerodb/catalog/indexes/text_lucene.py:379-399 | reading one more element of any list keeps the whole invariant: caches, caps, lower bounds and their sorted image agree with how far each list was read and what was yielded |
| MergePool.ReadManyKeeps | zerodb/catalog/indexes/text_lucene.py:379-402 | so does reading any number of elements, including running off the end of the list |
| MergePool.YieldKeeps | zerodb/catalog/indexes/text_lucene.py:463-473 | withdrawing a yielded document from all caches keeps it too, with the caps reset as on line 467 |
| MergePool.BoundsSound | zerodb/catalog/indexes/text_lucene.py:428-432 | for every pending document the lower bound is at most its true total, which is at most that bound plus the caps of the lists it has not been read from |
| MergePool.PendingEstimated | zerodb/catalog/indexes/text_lucene.py:424-432 | those bounds are made list by list: the exact score where the document was read (in at least one list), at most the list's best score elsewhere |
| MergePool.UnreadBelowCaps | zerodb/catalog/indexes/text_lucene.py:443-446 | a document not read from any list has a true total of at most the sum of the caps |
| MergePool.UpperBoundComputed | zerodb/catalog/indexes/text_lucene.py:427-432 | the fast formula through the cache ids gives the same upper bound as the list-by-list sum |
| MergePool.AcceptedWindow | zerodb/catalog/indexes/text_lucene.py:433-448 | in an accepted window, position i (before the last four) is at least as good as every position from i+3 on, and with 15 documents each of the first 13 is at least as good as every unread document, in true totals |
| MergePool.ExhaustedWindowOk | zerodb/catalog/indexes/text_lucene.py:433-448 | once every cap is zero no window is rejected |
| MergePool.RejectedHasUnread | zerodb/catalog/indexes/text_lucene.py:433-455 | a rejected window means some list still has a positive cap |
| MergeCounts.AdvanceKeeps | zerodb/catalog/indexes/text_lucene.py:449-456 | reading on after a rejection keeps the invariant and strictly lowers unread elements plus open iterators |
| MergeCounts.ReadIsUsedOrPending | zerodb/catalog/indexes/text_lucene.py:386-399 | the documents read so far are the yielded ones and the pending ones, and none is both |
| MergeCounts.PendingAtMostCached | zerodb/catalog/indexes/text_lucene.py:418 | there are never more pending documents than cached scores |
| MergeCounts.ExhaustedCount | zerodb/catalog/indexes/text_lucene.py:404-416 | once every list has been read to its end, the yielded and the pending documents together number all documents |
| LazyUnion.Merge.constructor | zerodb/catalog/indexes/text_lucene.py:363-377 | the merge of two or more non-empty ranked lists starts in a sound state |
| LazyUnion.Merge.ReadNext | zerodb/catalog/indexes/text_lucene.py:382-399 | one pass of the reading loop is exactly the specified step |
| LazyUnion.Merge.Precache | zerodb/catalog/indexes/text_lucene.py:379-402 | the reading loop is exactly the specified number of steps, or fewer and the list closed |
| LazyUnion.Merge.Refill | zerodb/catalog/indexes/text_lucene.py:410-416 | all open lists with a short cache are read on, and the cache size is recounted exactly then |
| LazyUnion.Merge.LookAhead | zerodb/catalog/indexes/text_lucene.py:420-432 | the window is the first 15 pending documents with their two bounds |
| LazyUnion.Merge.Violated | zerodb/catalog/indexes/text_lucene.py:433-446 | the nested loops find a violation exactly when the window can be out of order |
| LazyUnion.Merge.MostPromising | zerodb/catalog/indexes/text_lucene.py:453-455 | the list read next has the greatest cap per element not cached |
| LazyUnion.Merge.Retry | zerodb/catalog/indexes/text_lucene.py:449-456 | after a rejected window the chosen list is open, and the work left strictly falls |
| LazyUnion.Merge.Settle | zerodb/catalog/indexes/text_lucene.py:419-456 | the inner loop ends, with a window that cannot be out of order, and reads nothing when the first one could not be |
| LazyUnion.Merge.Prepare | zerodb/catalog/indexes/text_lucene.py:404-456 | a resumption renews its window exactly when a cache was refilled or the window ran low with more than three scores cached; a renewed window is the accepted one, an old one stays as it was |
| LazyUnion.Merge.Withdraw | zerodb/catalog/indexes/text_lucene.py:463-470 | the popped document leaves every cache, caps are reset, and it fails exactly on the first list where the document is all that is cached and on the cap |
| LazyUnion.Merge.Pull | zerodb/catalog/indexes/text_lucene.py:404-474 | one resumption is one turn of a run: it yields a document never yielded before with the midpoint of an interval around its true total; or it ends with at most one read document left, exactly when it was stranded; or it raises on a list of which the first 610 documents came out but for the popped one |
| LazyUnion.Merge.Drain | zerodb/catalog/indexes/text_lucene.py:404-474 | the merge terminates, and its output is that of a run of such turns from the start state: no repeats, accurate weights, the order of its windows; at exhaustion a read document is left behind exactly when one of the turns was stranded |
| MergeView.CrashNeedsWear | zerodb/catalog/indexes/text_lucene.py:465-467 | the generator raises only on an open list of which at least 610 elements were read and all but the popped one yielded |
| MergeView.StopIsSpent | zerodb/catalog/indexes/text_lucene.py:458-459 | when the merge stops, either every list is closed and at most one document is pending, or nothing is pending and at least 650 elements were read from every open list |
| MergeView.SpentComplete | zerodb/catalog/indexes/text_lucene.py:413-414 | then the first 650 documents of every list, or all of a shorter one, were yielded but for one and the same document |
| MergeView.StrandedKeeps | zerodb/catalog/indexes/text_lucene.py:418 | in a stranded state no new window is computed |
| LazyUnion.AloneOutcome | zerodb/catalog/indexes/text_lucene.py:353-358 | the single-list branch yields every document once with its exact total |
| LazyUnion.AloneInWords | zerodb/catalog/indexes/text_lucene.py:353-358 | of the single list every entry comes out as its document with minus its first element times the weight, nothing else does, the greater first and of equal ones the smaller id |
| LazyUnion.TotalIsSum | zerodb/catalog/indexes/text_lucene.py:358-396 | the total of a document is the sum over the lists of minus its entry times the list's weight, and nothing for a list without it |
| LazyUnion.PromiseInWords | zerodb/catalog/indexes/text_lucene.py:453-455 | one list promises less than another exactly when its cap times the uncached elements of the other, at least one, is less than the other way round |
| LazyUnion.MassWeightedUnion | zerodb/catalog/indexes/text_lucene.py:339-474 | all three branches: nothing for no list; for one the list itself, every entry with minus its first element times the weight; the merge for more, with its order, its completeness to depth 650, the condition for raising, for short lists the exact result, and what the lengths of the lists and their shared documents guarantee of order and completeness; it raises on an empty tree exactly with two or more lists of which one is empty |
| MergeRun.RanOutcome | zerodb/catalog/indexes/text_lucene.py:404-474 | the results of any run are exactly the documents yielded, each once, each with the midpoint of an interval around its true total |
| MergeRun.LeftBehindIff | zerodb/catalog/indexes/text_lucene.py:418-459 | a run to exhaustion leaves a read document behind, and then one, if and only if it passes a stranded turn |
| MergeRun.RanComplete | zerodb/catalog/indexes/text_lucene.py:410-459 | a run to exhaustion yields the first 650 documents of every list, or all of a shorter one, but for one and the same document |
| MergeRun.RanLoses | zerodb/catalog/indexes/text_lucene.py:410-459 | what a run to exhaustion loses: with a list still open exactly the documents no list has produced, otherwise at most the one pending |
| MergeRun.RanRaises | zerodb/catalog/indexes/text_lucene.py:463-467 | a run that raises does so on a list of 610 elements or more, of whose first 610 documents all but one came out |
| MergeRun.ShorterNeverRaises | zerodb/catalog/indexes/text_lucene.py:410-467 | with every list shorter than 610 no run raises and all documents come out but at most one |
| MergeRun.RanInOrder | zerodb/catalog/indexes/text_lucene.py:433-474 | over a whole run: results of one window three or more apart are in order of true totals, its last four aside; a result popped with three or more in a window of 15 is at least as good as everything not read by then, and at least half as good as everything that comes out later or never |
| MergeShort.ShortRun | zerodb/catalog/indexes/text_lucene.py:404-474 | for lists all shorter than 40 the output is exactly all documents by descending true total and ascending id, with exact weights, without the last one if and only if n > 15, n mod 13 = 3 and each of the three worst is in one list only |
| MergeShort.ShortInWords | zerodb/catalog/indexes/text_lucene.py:404-474 | that output is of documents with their true totals, any earlier one with the greater total or the same and the smaller id, and a document that is missing comes after all of them |
| MergeLimits.LeftBehindHasLone | zerodb/catalog/indexes/text_lucene.py:418-459 | whatever the lengths of the lists, a run to exhaustion leaves a read document behind only when three documents or more are in one list only |
| MergeLimits.NothingLost | zerodb/catalog/indexes/text_lucene.py:339-474 | with all lists shorter than 610 and fewer than three documents in one list only, the merge ends normally with all documents |
| MergeLimits.OneCacheRun | zerodb/catalog/indexes/text_lucene.py:339-474 | with no list longer than 40 the merge ends normally, and the documents come out by descending true total and ascending id, all or all but the last |
| MergeLimits.FullOrderInWords | zerodb/catalog/indexes/text_lucene.py:339-474 | of two results in that order the earlier one has the greater total, or the same and the smaller id |
| MergeView.AcceptedHalved | zerodb/catalog/indexes/text_lucene.py:433-448 | each of the first 13 documents of an accepted window of 15 has at least half the true total of any document, pending or unread, that comes after it |
| MergeSwap.SwapRun | zerodb/catalog/indexes/text_lucene.py:404-474 | every merge of a list of two with a list of 41 or more that starts with forty others of equal score and then the second of the two: the worse of the two comes out first, the better one next |
| MergeWear.AlwaysAccepts | zerodb/catalog/indexes/text_lucene.py:433-448 | for two lists of which one outweighs the other throughout, no window is ever rejected, so nothing is read beyond the refills |
| MergeWear.WearRun | zerodb/catalog/indexes/text_lucene.py:404-474 | for all such lists, the lighter one starting with the last 40 and then the other documents of the heavier: with distinct scores exactly the documents of the heavier come out, with equal scores the merge raises one short of them |
| MergeLoss.TwoWordSearch | zerodb/catalog/indexes/text_lucene.py:418-458 | any two words with fewer than 40 documents each and none in common give all of them in exact order, but the last one is missing exactly when there are 16, 29, 42, 55 or 68 |
| MergeLoss.EqualWords | zerodb/catalog/indexes/text_lucene.py:418-458 | for instance the words in the documents 1 to n and n + 1 to 2n, for every n below 40, lose their last result for n = 8, 21 and 34 |
| MergeLoss.OutOfOrder | zerodb/catalog/indexes/text_lucene.py:404-474 | for every len from 41 on there are two words, in two and in len documents, whose first two results are in the wrong order of true totals |
| MergeLoss.EarlyStop | zerodb/catalog/indexes/text_lucene.py:410-459 | for every 650 <= n <= len there are two words, in n and in len documents, of whose len documents the merge yields n and ends as complete |
| MergeLoss.Raise | zerodb/catalog/indexes/text_lucene.py:463-467 | for every 610 <= n <= len there are two such words for which it raises after n - 1 results |
| Postings.TreeSize | zerodb/catalog/indexes/text_lucene.py:148-158 | a word's counter equals the number of documents that hold it |
| Postings.AddAgrees | zerodb/catalog/indexes/text_lucene.py:192-202 | adding a document's pairs makes every tree right for the documents with it |
| Postings.ReplaceAgrees | zerodb/catalog/indexes/text_lucene.py:220-240 | replacing a document's words leaves every tree right |
| Postings.UnindexDone | zerodb/catalog/indexes/text_lucene.py:255-261 | removing a document's pairs leaves every tree right, the count one lower, and exactly the words no document holds with a zero counter |
| Postings.PairsPresent | zerodb/catalog/indexes/text_lucene.py:232-238 | the pair to be removed is always found |
| Postings.EntryInWords | zerodb/catalog/indexes/text_lucene.py:176-177 | of a document that holds a word the tree has one entry, minus the score of the number of places the word has in it and the number of its distinct words |
| Postings.RootsRise | zerodb/catalog/indexes/text_lucene.py:165-177 | a score whose square times the number of words is the frequency, as that of sqrt(f) / sqrt(n) is, is positive, rises with the frequency and falls with the number of words |
| LuceneIndex.Index.GetDoctrees | zerodb/catalog/indexes/text_lucene.py:138-160 | missing records are created empty and no other record changes |
| LuceneIndex.Index.IndexDoc | zerodb/catalog/indexes/text_lucene.py:179-204 | indexing a document, new or known, keeps each word's tree exactly the pairs of the documents holding it, minus the score of frequency and number of distinct words, and the document count |
| LuceneIndex.Index.ReindexDoc | zerodb/catalog/indexes/text_lucene.py:206-244 | re-indexing replaces the document's words, loses no pair, and raises exactly when old and new text have no word |
| LuceneIndex.Index.UnindexDoc | zerodb/catalog/indexes/text_lucene.py:246-261 | unindexing removes the document and exactly the records of words no document holds any more; it raises exactly for a known document without words |
| LuceneSearch.TotalIsRelevance | zerodb/catalog/indexes/text_lucene.py:292-304 | the total the merge ranks by is the sum, over the query words the document holds, of the score of its frequency there and its number of distinct words times idf2 of the documents and the holders |
| LuceneSearch.OutcomeIsRelevant | zerodb/catalog/indexes/text_lucene.py:292-304 | a multi-word search yields only documents holding a query word, each with a weight whose interval holds its relevance |
| LuceneSearch.AloneIsOneWord | zerodb/catalog/indexes/text_lucene.py:292-304 | a one-word search yields exactly the documents holding the word, once, best first, with exact weights |
| LuceneSearch.OftenerComesFirst | zerodb/catalog/indexes/text_lucene.py:165-177 | of two documents the one that holds the word more often, among no more distinct words, comes out of a search for it first |
| LuceneSearch.OftenerFirst | zerodb/catalog/indexes/text_lucene.py:206-244 | so it does after both were indexed and one of them indexed again with other words |
| LuceneSearch.RarerWeighsMore | zerodb/catalog/indexes/text_lucene.py:292-298 | with an idf that falls in the number of holders, of two words held equally often among equally many words the rarer one makes the document more relevant |
| LuceneSearch.FewAllFound | zerodb/catalog/indexes/text_lucene.py:292-304 | a word in at most 650 documents is found in all of them but for the one document missing |
| LuceneSearch.ShortIsAnswer | zerodb/catalog/indexes/text_lucene.py:292-304 | the exact result of merging short lists, said of documents: all holders of a query word by relevance, but for the last one under a condition on the documents |
| LuceneSearch.DeliveredIsFound | zerodb/catalog/indexes/text_lucene.py:292-304 | what the merge promises of lists, said of words: order by relevance, the best 650 holders of every word, 610 holders or more of a word it raises on; the full order when no word is in more than 40 documents, and all holders when every word is in fewer than 610 and fewer than three documents hold one query word only |
| LuceneSearch.KnownByParts | zerodb/catalog/indexes/text_lucene.py:272-274 | unknown words are dropped and no other, the rest keep order and repetitions: dropping works part by part and word by word |
| LuceneSearch.Search | zerodb/catalog/indexes/text_lucene.py:311-326 | the whole search: which results, in which order, how complete, what the numbers of holders tell beforehand, the exact conditions for the domain error and for the empty tree, and for the empty cache a word in 610 documents or more |
| LuceneSearch.StaleWord | zerodb/catalog/indexes/text_lucene.py:220-242 | index a document, re-index it without one word, search for that word and another: the search raises |
| QueueOps.FoldLookup | zerodb/collective/indexing/queue.py:87-109 | the compacted entry of a key depends on the operations of that key alone |
| QueueOps.OptimizedShape | zerodb/collective/indexing/queue.py:101-113 | the compacted queue holds one valid operation per key, so none is ever refused as invalid, and exactly the entries of the table, in order |
| QueueOps.UnindexFirst | zerodb/collective/indexing/queue.py:112-113 | no other operation stands before an unindex operation and none but indexing after an index operation; operations of one kind are in order of their objects |
| QueueOps.OptimizedComposes | zerodb/collective/indexing/queue.py:87-113 | compacting a prefix first makes no difference to compacting the whole queue |
| QueueOps.OptimizedIdempotent | zerodb/collective/indexing/queue.py:87-113 | compacting twice is compacting once |
| QueueOps.CompactionPreserves | zerodb/collective/indexing/queue.py:87-138 | for every catalog and every history well-formed per object, with no two objects sharing a key, replaying the compacted queue gives the same catalog as replaying the queue if and only if the catalog knows no stale attribute of an object the queue takes out and puts back |
| QueueOps.ReplayInWords | zerodb/collective/indexing/queue.py:115-138 | what the single operations come to: an absent object comes in with all its attributes, a present one takes the attributes asked for that it has and keeps the others, or goes, and other objects stay as they are |
| QueueOps.StaleRevived | zerodb/collective/indexing/queue.py:87-109 | for instance an attribute an object no longer has stays in the catalog when the object is taken out and put back in one batch |
| QueueOps.MeaningKeptIff | zerodb/collective/indexing/queue.py:90-94 | that it gives the same for all such catalogs and histories is the case if and only if no two objects share a key |
| IndexQueues.RunKeepsMeaning | zerodb/collective/indexing/queue.py:30-41 | however often the queue is compacted and processed on the way, the processor's calls together do what the operations would have done one by one, if and only if the catalog knows no stale attribute of an object that is put back last without any flush having found it away |
| IndexQueues.IndexQueue.Optimize | zerodb/collective/indexing/queue.py:87-113 | the loop computes the compacted queue, in a new list |
| IndexQueues.IndexQueue.Process | zerodb/collective/indexing/queue.py:115-138 | every compacted operation is handed over in order and the queue is empty in a new list |
| IndexQueues.IndexQueue.EnsureHook | zerodb/collective/indexing/queue.py:51-58 | a queue with operations always has a hook in the current transaction |
| IndexQueues.IndexQueue.Work | zerodb/collective/indexing/queue.py:60-113 | any run of queue operations leaves and delivers what the specification says, and writes into the list held before only up to the first compaction |
| IndexQueues.QueueTM.BeforeCommit | zerodb/collective/indexing/transactions.py:51-53 | the hook delivers the compacted queue and leaves it empty |
| IndexQueues.QueueTM.TpcAbort | zerodb/collective/indexing/transactions.py:62-67 | an abort empties the queue in place, delivers nothing and allows a new registration |
| IndexQueues.QueueSavepoint.Rollback | zerodb/collective/indexing/transactions.py:10-18 | a rollback installs the savepoint's own list |
| IndexQueues.Rollbacks | zerodb/collective/indexing/transactions.py:10-18 | after any rounds of work each followed by a rollback, the queue is the saved one plus what every round but the first queued before compacting; one rollback restores exactly |
| IndexQueues.RestoredIff | zerodb/collective/indexing/transactions.py:10-18 | the saved state is restored exactly when no later round queued anything before compacting |
| IndexQueues.SameCompaction | zerodb/collective/indexing/queue.py:87-113 | two queues compact alike exactly when they fold into the same table |
| IndexQueues.Transact | zerodb/collective/indexing/transactions.py:31-60 | any work in a transaction followed by its commit delivers all of it and leaves queue and hooks empty |
| AutoReindex.StepSane | zerodb/db.py:119-198 | every step keeps stored objects complete and indexed and queues only re-indexing of objects with a uid |
| AutoReindex.WriteIff | zerodb/models/__init__.py:76-81 | a write keeps every difference between index and objects queued if and only if it is reported for a stored object, changes nothing, is covered by a queued request, or is to an unstored object or unindexed attribute unreported |
| AutoReindex.RemoveIff | zerodb/db.py:179-198 | a removal does so if and only if nothing is queued for the object |
| AutoReindex.ReindexIff | zerodb/db.py:134-162 | re-indexing by hand does so if and only if the object is stored or no indexed attribute is named |
| AutoReindex.CoveredOptimized | zerodb/collective/indexing/queue.py:103-109 | compaction keeps every requested attribute of every object and adds none |
| AutoReindex.CommitExactIff | zerodb/db.py:32-40 | with re-indexing enabled the commit makes the index exact if and only if every difference was queued |
| AutoReindex.SettledIffSafe | zerodb/db.py:32-198 | over all steps: differences stay queued and committed indexes exact if and only if the step is safe, which for a commit with re-indexing disabled means that no queued attribute differs |
| AutoReindex.RunSettled | zerodb/collective/indexing/transactions.py:51-67 | after any run of safe steps ending in a commit or abort every index entry equals the object's attribute, and no others exist |
| AutoReindex.NoneGoesStale | zerodb/models/__init__.py:77-81 | a value written over None leaves the old entry in the index after the commit |
| AutoReindex.RemovedComesBack | zerodb/db.py:195-198 | an object removed with a queued write has its entry in the index after the commit |
| ReindexRuns.WriteIsQueued | zerodb/models/__init__.py:76-81 | whatever is queued, while reports are listened to a write over a value of an indexed attribute of a stored object with its uid keeps every difference queued and adds exactly that attribute to what is |
| ReindexRuns.WritesAreShown | zerodb/models/__init__.py:76-81 | any run of such writes, to any objects, is safe, and after its commit the index shows the last value of every attribute |
| ReindexRuns.AddedIsIndexed | zerodb/db.py:119-132 | an added object is stored, has its uid and all its indexed attributes in the index; no other entry changes |
| ReindexRuns.CreatedAndAdded | zerodb/db.py:119-132 | a created object can be added, and the index shows the values it was created with |
| ReindexRuns.AddWriteCommit | zerodb/db.py:129-131 | after adding an object, writing over its values in any way and committing, the index is exact |
| ReindexRuns.FetchWriteCommit | zerodb/db.py:91-95 | so it is after fetching an object and writing over its values |
| ReindexRuns.AddedCanGo | zerodb/db.py:119-198 | right after it was added an object can be indexed again and removed, and then it has no entry |
| ReindexRuns.FetchedCanGo | zerodb/db.py:84-198 | so it can right after it was fetched |
| ReindexRuns.RemovedIsGone | zerodb/db.py:179-198 | a removal takes the object and all its entries and nothing else |
| ReindexRuns.ReindexedByHand | zerodb/db.py:134-162 | indexing by hand brings the named attributes up to date, all of them when none are named, and touches no other entry |
| ReindexRuns.SwitchedOff | zerodb/db.py:32-40 | switched off, the next commit leaves the index as it is |
| ReindexRuns.SwitchedOn | zerodb/db.py:32-40 | switched on, the next commit makes the index exact if every difference is queued, and writes are listened to from then on |
| ReindexRuns.AbortRestores | zerodb/collective/indexing/transactions.py:62-67 | whatever was done since the last commit, an abort gives back its stored objects with their attributes and its index, and leaves nothing queued |
| AutoReindex.Database.Create | zerodb/models/__init__.py:62-74 | creation fails exactly when a field has neither default nor value |
| AutoReindex.Database.SetAttr | zerodb/models/__init__.py:76-81 | a write queues a request exactly when it replaces a value other than None of an indexed field of an object with its uid and reports are listened to, whatever is queued already |
| AutoReindex.Database.ReindexOne | zerodb/db.py:134-162 | the named indexes take the object's present values; an object without uid is refused |
| AutoReindex.Database.Remove | zerodb/db.py:179-198 | the object and all its entries go, with both ways of failing |
| AutoReindex.Database.Commit | zerodb/collective/indexing/transactions.py:51-60 | the hook compacts the queue, the requests are served from the objects, the state is kept |
| AutoReindex.Database.PlayAll | zerodb/db.py:32-198 | running any safe steps on the database object ends in the specified state, with every committed index exact |
| FieldIndexes.InsertKeeps | zerodb/catalog/indexes/field.py:151-174 | filing a document keeps forward and reverse map inverse, and postings well-formed |
| FieldIndexes.RemoveKeeps | zerodb/catalog/indexes/field.py:210-241 | taking one out does too, and the posting goes with its last document |
| FieldIndexes.ManyInTree | zerodb/catalog/indexes/field.py:158-168 | ten documents or more of one value are always in a tree set |
| FieldIndexes.GatheredKind | zerodb/catalog/indexes/field.py:151-168 | of documents that come in one by one the posting is a number for one, the tuple in their order for up to nine, a tree set from ten on |
| FieldIndexes.FieldIndex.InnerIndexDoc | zerodb/catalog/indexes/field.py:137-174 | the document's value is exactly the new one, all others unchanged, maps inverse, count right |
| FieldIndexes.FieldIndex.IndexDoc | zerodb/catalog/indexes/field.py:101-135 | the same through the attribute, with the missing value and both refusals |
| FieldIndexes.FieldIndex.UnindexDoc | zerodb/catalog/indexes/field.py:202-243 | the document leaves both maps and the set of unindexed documents, nothing else changes |
| FieldIndexes.FieldIndex.ScanForward | zerodb/catalog/indexes/field.py:80-99 | the nested loops with their early exit give what the limit leaves of the whole scan |
| FieldIndexes.ScanRight | zerodb/catalog/indexes/field.py:80-99 | the whole scan is the requested indexed documents, once each, in order of value; a positive limit leaves that many of the first, or all when there are fewer, zero and None leave all and a negative one leaves one |
| FieldIndexes.FieldIndex.ApplyEq | zerodb/catalog/indexes/field.py:68-78 | exactly the documents with that value, whatever the posting's form |
| FieldIndexes.FieldIndex.Spread | zerodb/catalog/indexes/field.py:18-24 | the union of postings is exactly the documents whose value lies in the range |
| FieldIndexes.FieldIndex.Search | zerodb/catalog/indexes/field.py:176-200 | exactly the documents whose value lies in the union or the intersection of the queries; an intersection of none is None |
| FieldIndexes.FindValue | zerodb/catalog/indexes/field.py:68-200 | a value asked for as such, as the range of itself alone and through `apply_eq`: each time exactly the documents of that value |
| FieldIndexes.FindRange | zerodb/catalog/indexes/field.py:181-187 | a range finds exactly the documents whose values lie in it, its ends included; an open end excludes nothing, and with both open every indexed document is found |
| FieldIndexes.FindInRanges | zerodb/catalog/indexes/field.py:176-200 | several ranges find the documents with a value in one of them, or in all of them |
| LazySequences.PutAllAt | zerodb/util/iter.py:75-91 | after filing items into the cache, an item is cached exactly when fewer items followed than the cache holds |
| LazySequences.GotRight | zerodb/util/iter.py:47-58 | an item read answers like the plain list, StopIteration past the end, and keeps the cache and the iterator's place true |
| LazySequences.SlicedRight | zerodb/util/iter.py:60-92 | a slice read answers like the slice of the plain list in every true state |
| LazySequences.PickedAt | zerodb/util/iter.py:60-85 | the items of a slice are those at its start and every step from there, as long as they lie below its end and the end of the list |
| LazyRecency.PutLatest | zerodb/util/iter.py:53-57 | storing an item pushes out the one used least recently, and only when the cache is full |
| LazyRecency.CachedIff | zerodb/util/iter.py:47-57 | an index is cached if and only if it was used and fewer others were used since than the cache has room for |
| LazyRecency.ReadsCache | zerodb/util/iter.py:47-58 | after any item reads of a fresh list that are in range, an item is cached if and only if it was read and fewer others were read since than the cache has room for |
| LazyRecency.SlicedLatest | zerodb/util/iter.py:67-91 | a slice read uses the cached indexes up to the first that is not, then those it files, in that order, and the cache holds what was used last |
| LazySequences.SlicedIff | zerodb/util/iter.py:67-92 | it keeps the state true if and only if it restarts, or the items it files are right where it files them, or all is cached and `stop` stays where the iterator is |
| LazySequences.SafeIffByIndex | zerodb/util/iter.py:67-92 | for a list without repeated items that is the case exactly when the slice starts over, or its first index is not cached, or what it reads is past the end, or all is cached and `stop` stays where the iterator is |
| LazySequences.FirstUncachedIsSafe | zerodb/util/iter.py:67-92 | a slice whose first index is not cached always does |
| LazySequences.RunRight | zerodb/util/iter.py:45-101 | any interleaving of item reads and safe slices answers like the plain list throughout, under any evictions |
| LazySequences.Sliceable.GetItem | zerodb/util/iter.py:47-58 | the method is the specified read: a cached item leaves the iterator alone, one read puts `stop` behind it, and one past the end resets `stop` and iterator and leaves the cache |
| LazySequences.Sliceable.GetSlice | zerodb/util/iter.py:60-92 | the method is the specified slice read, and leaves `stop` at the end of the slice |
| LazySequences.Sliceable.GetItemAhead | zerodb/util/iter.py:154-176 | the method is the specified read followed, when `stop` moved, by a slice of the next twenty items |
| LazySequences.Sliceable.GetSliceAhead | zerodb/util/iter.py:154-176 | the method is the specified slice read followed, when `stop` moved, by a slice of twenty items from the second index after it on |
| LazySequences.GotAheadIff | zerodb/util/iter.py:154-176 | an item read of a prefetching list answers like the plain list in every true state and keeps the state true if and only if the slice it reads ahead is safe |
| LazySequences.CachedAheadBreaks | zerodb/util/iter.py:154-176 | reading ahead twenty items that are all cached never does |
| LazySequences.SlicedAheadIff | zerodb/util/iter.py:154-176 | a slice read of a prefetching list answers like the plain list in every true state; after a safe slice it keeps the state true if and only if the slice read ahead is safe too |
| LazySequences.SlicedAheadExactly | zerodb/util/iter.py:154-176 | for a list without repeated items and a cache of more than twenty: the exact condition in all cases, also when the slice read ahead puts right what a cached slice left wrong |
| LazySequences.RunAheadRight | zerodb/util/iter.py:154-176 | any interleaving of safe reads of a prefetching list answers like the plain list throughout, under any evictions |
| LazySequences.Sliceable.Iterate | zerodb/util/iter.py:21-25 | iterating a fresh prefetching list with room for 21 items yields the list; all items are pulled once, and once more when the end is probed unless the length is a multiple of 21 |
| LazySequences.WrongFirst | zerodb/util/iter.py:81-92 | after the slices [:1] and [:2] of a fresh list, item 0 is the second item |
| LazySequences.WrongAhead | zerodb/util/iter.py:154-176 | items 5, 3, 2 and then 26 of a fresh prefetching list of 27 items or more: the last answer is item 6 |
| CertTexts.ReplacedPieces | zerodb/permissions/base.py:98-99 | what str.replace leaves of joined clean texts, text by text: one that begins with the removed text loses it with its separator, one that is it but for a newline is swallowed when another follows, the rest stay |
| CertTexts.RemovedIff | zerodb/permissions/base.py:95-99 | removing a clean text leaves the other texts joined if and only if no other text begins with it and none before the last is it but for a newline at the end |
| CertTexts.PrefixDamaged | zerodb/permissions/base.py:98-99 | removing "A" from the texts "A", "AB" damages the second |
| CertTexts.NewlineDamaged | zerodb/permissions/base.py:98-99 | removing "A" with a newline damages an "A" that stands before another text |
| Accounts.UidsExactly | zerodb/permissions/base.py:102-119 | the index maps exactly the certificates users hold to their holders, and the placeholder to nobody |
| Accounts.RegisterKeeps | zerodb/permissions/base.py:140-147 | registering an unused certificate, whatever its text, keeps index and users in agreement and appends to the text; the texts can be told apart afterwards exactly when they could before and the new one fits |
| Accounts.UnregisterKeeps | zerodb/permissions/base.py:149-152 | taking one away keeps index and users in agreement; of clean texts the text loses exactly that certificate if and only if no other begins with it and none but the last is it but for a newline |
| Accounts.UserAdded | zerodb/permissions/base.py:131-133 | a new user leaves both user maps in agreement if and only if they were and the name is new |
| Accounts.Admin.constructor | zerodb/permissions/base.py:104-119 | a new administration holds the placeholder certificate alone |
| Accounts.Admin.AddUserCert | zerodb/permissions/base.py:140-147 | a certificate is registered unless it is in use or not a single certificate, and then nothing changes; a right text stays right exactly when the new text can be told apart |
| Accounts.Admin.DelUserCerts | zerodb/permissions/base.py:149-152 | all certificates of a user leave the index, in whatever order the loop meets them; of clean joined texts the text loses the only certificate of a user rightly if and only if no other begins with it and none but the last is it but for a newline |
| Accounts.Admin.AddUser | zerodb/permissions/base.py:121-138 | the user is added even when the certificate is refused; both user maps agree afterwards exactly when they did and the name is new |
| Accounts.Admin.DelUser | zerodb/permissions/base.py:154-157 | the user found under the name goes with the name and the certificates, an unknown name changes nothing, both user maps agree exactly when they did, and of clean joined texts those left are joined exactly under the condition of `Accounts.UnregisterKeeps` |
| Accounts.Admin.ChangeCert | zerodb/permissions/base.py:159-167 | the old certificates go before the new one is tried, so a refused one leaves the user with none; of clean joined texts those left are joined exactly under the condition of `Accounts.UnregisterKeeps`, whatever becomes of the new one |
| Ownership.StoreKeeps | zerodb/permissions/ownerstorage.py:61-68 | a permitted store keeps every record with its first writer until it passes, for good, to the user whose id it has |
| Ownership.StoredInWords | zerodb/permissions/ownerstorage.py:61-68 | a store adds one revision with the payload, the user and the next serial at the end of its own record and leaves all other records alone |
| Ownership.OneAttempt | zerodb/permissions/ownerstorage.py:61-68 | one attempt does that for a new record, the last writer's, the user's own root and object zero, and nothing otherwise |
| Ownership.AttemptedMore | zerodb/permissions/ownerstorage.py:61-68 | attempts are made one after the other: a run of them is its first part and then the rest |
| Ownership.OwnerChangesOnce | zerodb/permissions/ownerstorage.py:23-30 | between any two revisions of an object other than zero the owner changes only to the user of that id, and never away from that user |
| Ownership.AttemptsKeep | zerodb/permissions/ownerstorage.py:61-68 | over any interleaving of users' writes that holds, and no revision is lost |
| Ownership.TakenForGood | zerodb/permissions/ownerstorage.py:23-30 | once the user of an object's id owns it, every later revision is that user's |
| Ownership.OwnerStorage.LoadBefore | zerodb/permissions/ownerstorage.py:46-53 | a load succeeds exactly on a revision the user wrote, the user's own root or object zero, and strips the owner |
| Ownership.OwnerStorage.Store | zerodb/permissions/ownerstorage.py:61-68 | a store succeeds exactly on a new record, one the user wrote last, the user's own root or object zero, appends one revision and leaves the other records alone |
| Ownership.StoreThenLoad | zerodb/permissions/ownerstorage.py:46-68 | what one user stores another reads back unchanged, exactly when permitted |
| TreePrefetch.StateSearch | zerodb/storage/__init__.py:75-98 | the binary search returns the child whose key interval holds the key, or nothing for an empty tree |
| TreePrefetch.CoversOnce | zerodb/storage/__init__.py:85-98 | there is only one such child |
| TreePrefetch.PathShort | zerodb/storage/__init__.py:101-126 | a lookup visits at most one node more than the tree is high |
| TreePrefetch.WayInWords | zerodb/storage/__init__.py:101-126 | the way of a lookup is the node, then that of the child whose key interval holds the key if that is an object of its own, and ends with a bucket, an empty tree or a bucket stored inside its tree |
| TreePrefetch.OnPathStep | zerodb/storage/__init__.py:116-123 | the objects on the lookups' ways are those looked at now and those on the ways from the next level |
| TreePrefetch.Connection.ParallelTraversal | zerodb/storage/__init__.py:101-126 | exactly the stored nodes on the way of some lookup are fetched, in at most as many requests as the longest lookup visits nodes, and at most height + 1 |
| TreePrefetch.Connection.TraverseOne | zerodb/storage/__init__.py:105-126 | the same for one tree with many keys, whose root is always fetched |

## Left out

- LazyUnion.Merge: `maxscores` and the prefetching of trees, buckets and counters have no effect on the result and are not modelled; a tree is the set of its pairs, iterated in order.
- LazyUnion.Merge.Drain: for lists longer than 40 the order claimed is that of one window and the factor of two towards everything later; which merges of longer lists come out in order, and which ones of 40 elements or more lose a document, depends on the interleaving of the lists.
- MergeRun.RanRaises: the lengths 610 and 650 are the least possible; which merges of longer lists raise or stop early depends on the whole interleaving of the lists, and is settled here for the lists of `MergeWear.WearRun`.
- LazyUnion.Merge.constructor: an empty tree among two or more makes `minKey` raise before the first resumption; `LazyUnion.MassWeightedUnion` has that outcome.
- LuceneIndex.Index: `wordCount` is never lowered by unindexing, so nothing is claimed of it but its growth in `LuceneIndex.Index.GetDoctrees`; records are values, so a tree held by a running search does not change under it.
- LuceneSearch.Search: the lexicon, tokenising and glob patterns are replaced by the list of word ids they give; `query_weight` is left out.
- QueueOps.CompactionPreserves: the attribute values are those at replay time; a history that indexes a present object or re-indexes an absent one has no meaning here.
- IndexQueues.IndexQueue.Process: one registered processor; an exception from it, and `processQueue`'s guard against recursion, are not modelled.
- IndexQueues.Transact: joining a transaction does not fail; the transaction package's own savepoint bookkeeping is not part of this model.
- AutoReindex.Database: one model class; adding an object that is already stored, and virtual fields, are left out; an object and its uid are one; the storage restores committed state on abort.
- AutoReindex.Database.Deliver: the served requests are played after the hook returns instead of one by one within it; no other step comes between.
- FieldIndexes.FieldIndex.IndexDoc: the missing value is for documents that are not indexed; for indexed ones the code calls a base class that is not part of this model.
- FieldIndexes.FieldIndex.ScanForward: the generator is run to its end; values are integers standing for any ordered type; the sort of the sets before intersection is omitted, as it does not change the intersection.
- FieldIndexes.FieldIndex.Search: returns a set where the code may return a set, a lazy list or None.
- LazySequences.Sliceable: negative indexes, slices open at one end, `__len__`, `__repr__` and the object fetching of `DBList` are left out; a slice step of zero counts as one in the code and is not modelled.
- LazySequences.SlicedAheadIff: when a slice read ahead repairs an unsafe one is characterised by `LazySequences.SlicedAheadExactly`, which leaves out caches of twenty items or fewer and lists with repeated items.
- Accounts.Admin.AddUser: passwords and key derivation are opaque; the object id is new.
- Accounts.Admin.DelUserCerts: for a user with several certificates, which no public operation gives, the text is described only when all texts can be told apart, as what is left of it depends on the order of the loop.
- CertTexts.RemovedIff: clean texts have no blank line and start with something else than a newline, as PEM texts do.
- Ownership.OwnerStorage.Store: the storage's own conflict detection and the `loadSerial` method, which refers to an undefined name, are left out.
- TreePrefetch.Connection: `prefetch_trees` and unloaded object states are left out; every object belongs to one connection.
- Encryption, compression, the server, sockets, connection pooling and the component registry are libraries or input and output.
- Other indexes (Okapi, path, facet, keyword), the catalog's query language and the id store would only add easy members.
