/** The indexing queue, its transaction hook and its savepoints, as the mutable objects they are. */
module IndexQueues {
  import opened Wrappers
  import opened QueueOps
  import opened Sequences

  // ---- what a run of queue operations leaves and delivers ----------------------------------------

  datatype Action =
    | Index(obj: Obj, attrs: Option<set<Attr>>)
    | Reindex(obj: Obj, attrs: Option<set<Attr>>)
    | Unindex(obj: Obj)
    | Compact
    | Flush

  predicate Queues(s: Action) { s.Index? || s.Reindex? || s.Unindex? }

  /** The operation a step puts into the queue. */
  function OpOf(s: Action): Op
    requires Queues(s)
  {
    match s
    case Index(o, a) => Op(INDEX, o, a)
    case Reindex(o, a) => Op(REINDEX, o, a)
    case Unindex(o) => Op(UNINDEX, o, None)
  }

  /** What an action puts into the queue. */
  function Queued(s: Action): seq<Op> { if Queues(s) then [OpOf(s)] else [] }

  /** Everything the steps put into the queue, as if it were never compacted or processed. */
  function Raw(steps: seq<Action>): seq<Op>
    decreases |steps|
  {
    if steps == [] then [] else Queued(steps[0]) + Raw(steps[1..])
  }

  datatype Result = Result(left: seq<Op>, delivered: seq<Op>)

  /** The queue after one action. */
  function Next(key: Obj -> Key, q: seq<Op>, s: Action): seq<Op> {
    if s.Compact? then Optimized(key, q) else if s.Flush? then [] else q + Queued(s)
  }

  /** What one action hands to the processor. */
  function Sent(key: Obj -> Key, q: seq<Op>, s: Action): seq<Op> {
    if s.Flush? then Optimized(key, q) else []
  }

  /** The queue after the steps, and the operations handed to the processor on the way. */
  function Run(key: Obj -> Key, q: seq<Op>, steps: seq<Action>): Result
    decreases |steps|
  {
    if steps == [] then Result(q, [])
    else
      var r := Run(key, Next(key, q, steps[0]), steps[1..]);
      Result(r.left, Sent(key, q, steps[0]) + r.delivered)
  }

  /** The steps up to the first compaction. */
  function Leading(steps: seq<Action>): seq<Action>
    decreases |steps|
  {
    if steps == [] || !Queues(steps[0]) then [] else [steps[0]] + Leading(steps[1..])
  }

  /** What each round of steps queues before it first compacts. */
  function Leaks(rounds: seq<seq<Action>>): seq<Op> {
    if rounds == [] then [] else Raw(Leading(rounds[0])) + Leaks(rounds[1..])
  }

  lemma {:induction false} NoLeaks(rounds: seq<seq<Action>>)
    ensures Leaks(rounds) == [] <==> forall i :: 0 <= i < |rounds| ==> Raw(Leading(rounds[i])) == []
    decreases |rounds|
  {
    if rounds != [] {
      NoLeaks(rounds[1..]);
      assert forall i :: 0 <= i < |rounds| - 1 ==> rounds[1..][i] == rounds[i + 1];
    }
  }

  /** Rolled back after every round, the savepoint gives its state back exactly when none leaked. */
  lemma RestoredIff(q: seq<Op>, rounds: seq<seq<Action>>)
    ensures q + Leaks(rounds) == q <==> forall i :: 0 <= i < |rounds| ==> Raw(Leading(rounds[i])) == []
  {
    NoLeaks(rounds);
    if Leaks(rounds) != [] { assert |q + Leaks(rounds)| > |q|; }
  }

  /** Two queues compact to the same result exactly when they fold into the same table. */
  lemma SameCompaction(key: Obj -> Key, a: seq<Op>, b: seq<Op>)
    ensures Optimized(key, a) == Optimized(key, b) <==> Fold(key, map[], a) == Fold(key, map[], b)
  {
    RefoldOptimized(key, a);
    RefoldOptimized(key, b);
    SortedTable(key, a);
    SortedTable(key, b);
  }

  lemma EmptyCompacts(key: Obj -> Key)
    ensures Optimized(key, []) == []
  {
    var t := Fold(key, map[], []);
    assert t.Values == {};
  }

  // ---- what the processor is handed means --------------------------------------------------------

  /** Everything the processor is handed, with a last flush at the end. */
  function Handed(key: Obj -> Key, q: seq<Op>, steps: seq<Action>): seq<Op> {
    var r := Run(key, q, steps);
    r.delivered + Optimized(key, r.left)
  }

  /** Queues that fold into one table deliver the same. */
  lemma {:induction false} SameHanded(key: Obj -> Key, a: seq<Op>, b: seq<Op>, steps: seq<Action>)
    requires Fold(key, map[], a) == Fold(key, map[], b)
    ensures Handed(key, a, steps) == Handed(key, b, steps)
    decreases |steps|
  {
    SameCompaction(key, a, b);
    if steps != [] {
      var s := steps[0];
      FoldConcat(key, map[], a, Queued(s));
      FoldConcat(key, map[], b, Queued(s));
      SameHanded(key, Next(key, a, s), Next(key, b, s), steps[1..]);
      HandedStep(key, a, steps);
      HandedStep(key, b, steps);
    }
  }

  /** What one action hands over, and then the rest. */
  lemma HandedStep(key: Obj -> Key, q: seq<Op>, steps: seq<Action>)
    requires steps != []
    ensures Handed(key, q, steps) == Sent(key, q, steps[0]) + Handed(key, Next(key, q, steps[0]), steps[1..])
  {
    var r := Run(key, Next(key, q, steps[0]), steps[1..]);
    Assoc(Sent(key, q, steps[0]), r.delivered, Optimized(key, r.left));
  }

  /** A flush found the object away; `last` is its last move before the steps. */
  predicate AwayAtFlush(o: Obj, last: int, steps: seq<Action>)
    decreases |steps|
  {
    && steps != []
    && ((steps[0].Flush? && last == UNINDEX) || AwayAtFlush(o, LastMove(o, Queued(steps[0]), last), steps[1..]))
  }

  /** The object was there, is put back last, and no flush found it away. */
  predicate Lingers(o: Obj, x: Cell, q: seq<Op>, steps: seq<Action>) {
    && x.Holds? && LastMove(o, q + Raw(steps), REINDEX) == INDEX
    && !AwayAtFlush(o, LastMove(o, q, REINDEX), steps)
  }

  /** To a flush an object put in last is as good as one not moved. */
  lemma {:induction false} InOrUnmoved(o: Obj, steps: seq<Action>)
    ensures AwayAtFlush(o, INDEX, steps) == AwayAtFlush(o, REINDEX, steps)
    decreases |steps|
  {
    if steps != [] {
      LastFromUnmoved(o, Queued(steps[0]), INDEX);
      InOrUnmoved(o, steps[1..]);
    }
  }

  lemma {:induction false} UnmovedNotAway(o: Obj, steps: seq<Action>)
    requires LastMove(o, Raw(steps), REINDEX) == REINDEX
    ensures !AwayAtFlush(o, REINDEX, steps)
    decreases |steps|
  {
    if steps != [] {
      LastMoveConcat(o, Queued(steps[0]), Raw(steps[1..]), REINDEX);
      MovedStays(o, Raw(steps[1..]), LastMove(o, Queued(steps[0]), REINDEX));
      UnmovedNotAway(o, steps[1..]);
    }
  }

  /** Queueing one more operation. */
  lemma QueuedLingers(o: Obj, x: Cell, q: seq<Op>, steps: seq<Action>)
    requires steps != [] && !steps[0].Flush?
    ensures q + Raw(steps) == q + Queued(steps[0]) + Raw(steps[1..])
    ensures Lingers(o, x, q, steps) <==> Lingers(o, x, q + Queued(steps[0]), steps[1..])
  {
    Assoc(q, Queued(steps[0]), Raw(steps[1..]));
    LastMoveConcat(o, q, Queued(steps[0]), REINDEX);
  }

  /** What the object is at the end, by whether it lingers. */
  ghost function Left(o: Obj, x: Cell, q: seq<Op>, steps: seq<Action>, now: Entry): Cell {
    if Lingers(o, x, q, steps) then Holds(x.entry + now) else ReplayOne(o, x, q + Raw(steps), now)
  }

  /** After a flush that found the object unmoved. */
  lemma FlushUnmoved(o: Obj, x: Cell, q: seq<Op>, steps: seq<Action>, now: Entry)
    requires steps != [] && steps[0].Flush? && ReplayOne(o, x, q + Raw(steps[1..]), now) != Broken
    requires x.Holds? && LastMove(o, q, REINDEX) == REINDEX
    ensures Left(o, ReplayOne(o, x, q, now), [], steps[1..], now) == Left(o, x, q, steps, now)
  {
    var y := ReplayOne(o, x, q, now);
    ReplayOneConcat(o, x, q, Raw(steps[1..]), now);
    LastMoveConcat(o, q, Raw(steps[1..]), REINDEX);
    if y == Broken { BrokenStays(o, Raw(steps[1..]), now); }
    UnmovedHolds(o, q, x, now);
    Empty(Raw(steps[1..]));
  }

  /** After a flush that found it put back. */
  lemma FlushReturned(o: Obj, x: Cell, q: seq<Op>, steps: seq<Action>, now: Entry)
    requires steps != [] && steps[0].Flush? && ReplayOne(o, x, q + Raw(steps[1..]), now) != Broken
    requires Returns(o, q, x)
    ensures Left(o, Holds(x.entry + now), [], steps[1..], now) == Left(o, x, q, steps, now)
    ensures ReplayOne(o, Holds(x.entry + now), Raw(steps[1..]), now) != Broken
  {
    var rest := steps[1..];
    var later := LastMove(o, Raw(rest), REINDEX);
    ReplayOneConcat(o, x, q, Raw(rest), now);
    LastMoveConcat(o, q, Raw(rest), REINDEX);
    if ReplayOne(o, x, q, now) == Broken { BrokenStays(o, Raw(rest), now); }
    EndsAsMoved(o, q, x, REINDEX, now);
    SuitsAlike(o, Raw(rest), now, x.entry + now, now);
    Empty(Raw(rest));
    InOrUnmoved(o, rest);
    LastFromUnmoved(o, Raw(rest), INDEX);
    assert x.entry + now + now == x.entry + now;
    if later == REINDEX {
      UnmovedNotAway(o, rest);
      UnmovedHolds(o, Raw(rest), Holds(x.entry + now), now);
    } else {
      EndsAsMoved(o, Raw(rest), Holds(now), REINDEX, now);
      EndsAsMoved(o, Raw(rest), Holds(x.entry + now), REINDEX, now);
    }
  }

  lemma {:induction false} LastFromUnmoved(o: Obj, q: seq<Op>, last: int)
    ensures LastMove(o, q, last) == if LastMove(o, q, REINDEX) == REINDEX then last else LastMove(o, q, REINDEX)
    decreases |q|
  {
    if q != [] {
      if q[0].obj == o && q[0].kind != REINDEX {
        MovedStays(o, q[1..], q[0].kind);
      } else {
        LastFromUnmoved(o, q[1..], last);
      }
    }
  }

  /** After a flush that found it away, or that it had not seen there before. */
  lemma FlushFresh(o: Obj, x: Cell, q: seq<Op>, steps: seq<Action>, now: Entry)
    requires steps != [] && steps[0].Flush? && ReplayOne(o, x, q + Raw(steps[1..]), now) != Broken && x != Broken
    requires x.Absent? || LastMove(o, q, REINDEX) == UNINDEX
    ensures Left(o, ReplayOne(o, x, q, now), [], steps[1..], now) == Left(o, x, q, steps, now)
  {
    var rest, y := steps[1..], ReplayOne(o, x, q, now);
    ReplayOneConcat(o, x, q, Raw(rest), now);
    if y == Broken { BrokenStays(o, Raw(rest), now); }
    EndsAsMoved(o, q, x, REINDEX, now);
    Empty(Raw(rest));
    if y.Holds? && LastMove(o, Raw(rest), REINDEX) == INDEX {
      EndsAsMoved(o, Raw(rest), y, REINDEX, now);
      AbsentThenNow(o, q, x, now);
      assert now + now == now;
    }
  }

  /** An object that was not there and is now has its attributes and no others. */
  lemma {:induction false} AbsentThenNow(o: Obj, q: seq<Op>, x: Cell, now: Entry)
    requires x.Absent? || x == Holds(now)
    requires ReplayOne(o, x, q, now) != Broken
    ensures ReplayOne(o, x, q, now).Absent? || ReplayOne(o, x, q, now) == Holds(now)
    decreases |q|
  {
    if q != [] {
      if q[0].obj == o {
        if Play(x, q[0], now) == Broken { BrokenStays(o, q[1..], now); }
        assert now + Select(now, q[0].attrs) == now;
        AbsentThenNow(o, q[1..], Play(x, q[0], now), now);
      } else {
        AbsentThenNow(o, q[1..], x, now);
      }
    }
  }

  /** One flush: what it delivers, and where that leaves the object. */
  lemma FlushPlays(key: Obj -> Key, o: Obj, x: Cell, q: seq<Op>, steps: seq<Action>, now: Entry)
    requires Injective(key) && steps != [] && steps[0].Flush? && x != Broken
    requires ReplayOne(o, x, q + Raw(steps), now) != Broken
    ensures var y := ReplayOne(o, x, Optimized(key, q), now);
            && y != Broken && ReplayOne(o, y, [] + Raw(steps[1..]), now) != Broken
            && Left(o, y, [], steps[1..], now) == Left(o, x, q, steps, now)
  {
    var rest := steps[1..];
    Empty(Raw(rest));
    ReplayOneConcat(o, x, q, Raw(rest), now);
    if ReplayOne(o, x, q, now) == Broken { BrokenStays(o, Raw(rest), now); }
    CompactedEnds(key, o, q, x, now);
    EndsAsMoved(o, q, x, REINDEX, now);
    if Returns(o, q, x) {
      FlushReturned(o, x, q, steps, now);
    } else if x.Holds? && LastMove(o, q, REINDEX) == REINDEX {
      FlushUnmoved(o, x, q, steps, now);
    } else {
      FlushFresh(o, x, q, steps, now);
    }
  }

  lemma LeftQueued(o: Obj, x: Cell, q: seq<Op>, steps: seq<Action>, now: Entry)
    requires steps != [] && !steps[0].Flush?
    ensures q + Raw(steps) == q + Queued(steps[0]) + Raw(steps[1..])
    ensures Left(o, x, q, steps, now) == Left(o, x, q + Queued(steps[0]), steps[1..], now)
  {
    QueuedLingers(o, x, q, steps);
  }

  /** Compacting on the way makes no difference to what is handed over. */
  lemma HandedCompact(key: Obj -> Key, q: seq<Op>, steps: seq<Action>)
    requires steps != [] && !steps[0].Flush?
    ensures Handed(key, q, steps) == Handed(key, q + Queued(steps[0]), steps[1..])
  {
    HandedStep(key, q, steps);
    Empty(Handed(key, Next(key, q, steps[0]), steps[1..]));
    Empty(q);
    if steps[0].Compact? {
      RefoldOptimized(key, q);
      SameHanded(key, Optimized(key, q), q, steps[1..]);
    }
  }

  /** What is handed over leaves an object as the operations one by one would, but for one that lingers. */
  lemma {:induction false} HandedPlays(key: Obj -> Key, o: Obj, x: Cell, q: seq<Op>, steps: seq<Action>, now: Entry)
    requires Injective(key) && x != Broken && ReplayOne(o, x, q + Raw(steps), now) != Broken
    ensures ReplayOne(o, x, Handed(key, q, steps), now) == Left(o, x, q, steps, now)
    decreases |steps|
  {
    if steps == [] {
      Empty(q);
      Empty(Optimized(key, q));
      CompactedEnds(key, o, q, x, now);
    } else if steps[0].Flush? {
      var s := Optimized(key, q);
      FlushPlays(key, o, x, q, steps, now);
      HandedPlays(key, o, ReplayOne(o, x, s, now), [], steps[1..], now);
      HandedStep(key, q, steps);
      ReplayOneConcat(o, x, s, Handed(key, [], steps[1..]), now);
    } else {
      LeftQueued(o, x, q, steps, now);
      HandedCompact(key, q, steps);
      HandedPlays(key, o, x, q + Queued(steps[0]), steps[1..], now);
    }
  }

  ghost predicate FitsLater(c: Catalog, q: seq<Op>, steps: seq<Action>, now: Obj -> Entry, o: Obj) {
    Lingers(o, CellOf(c, o), q, steps) ==> CellOf(c, o).entry.Keys <= now(o).Keys
  }

  /** The catalog knows no attribute that the object does not have of an object that is put back in the end
      without a flush having found it away. */
  ghost predicate FitsLingering(c: Catalog, q: seq<Op>, steps: seq<Action>, now: Obj -> Entry) {
    forall o {:trigger FitsLater(c, q, steps, now, o)} :: FitsLater(c, q, steps, now, o)
  }

  lemma HandedCell(key: Obj -> Key, c: Catalog, q: seq<Op>, steps: seq<Action>, now: Obj -> Entry, o: Obj)
    requires Injective(key) && Replay(c, q + Raw(steps), now).Some?
    ensures var d := Replay(c, q + Raw(steps), now).value;
            && ReplayOne(o, CellOf(c, o), Handed(key, q, steps), now(o)) != Broken
            && (FitsLater(c, q, steps, now, o) <==>
                ReplayOne(o, CellOf(c, o), Handed(key, q, steps), now(o)) == CellOf(d, o))
  {
    var x := CellOf(c, o);
    ReplayLookup(c, q + Raw(steps), now, o);
    HandedPlays(key, o, x, q, steps, now(o));
    if Lingers(o, x, q, steps) {
      EndsAsMoved(o, q + Raw(steps), x, REINDEX, now(o));
      KeysIff(x.entry, now(o));
    }
  }

  /**
   * However often the queue is compacted and processed on the way, what the processor is handed in
   * the end does to the catalog what the operations would have done one by one, if and only if the
   * catalog fits every object that lingers.
   */
  lemma RunKeepsMeaning(key: Obj -> Key, c: Catalog, q: seq<Op>, steps: seq<Action>, now: Obj -> Entry)
    requires Injective(key) && Replay(c, q + Raw(steps), now).Some?
    ensures Replay(c, Handed(key, q, steps), now) == Replay(c, q + Raw(steps), now) <==>
            FitsLingering(c, q, steps, now)
  {
    var s := Handed(key, q, steps);
    forall o
      ensures Sound(c, s, now, o)
    {
      HandedCell(key, c, q, steps, now, o);
    }
    ReplayRuns(c, s, now);
    var d, e := Replay(c, q + Raw(steps), now).value, Replay(c, s, now).value;
    forall o
      ensures FitsLater(c, q, steps, now, o) <==> CellOf(d, o) == CellOf(e, o)
    {
      HandedCell(key, c, q, steps, now, o);
      ReplayLookup(c, s, now, o);
    }
    if FitsLingering(c, q, steps, now) {
      SameCells(d, e, c, q, steps, now);
    }
  }

  lemma SameCells(d: Catalog, e: Catalog, c: Catalog, q: seq<Op>, steps: seq<Action>, now: Obj -> Entry)
    requires FitsLingering(c, q, steps, now)
    requires forall o {:trigger FitsLater(c, q, steps, now, o)} ::
               FitsLater(c, q, steps, now, o) <==> CellOf(d, o) == CellOf(e, o)
    ensures d == e
  {
    forall o
      ensures o in d <==> o in e
      ensures o in d ==> d[o] == e[o]
    {
      assert FitsLater(c, q, steps, now, o);
    }
  }

  /** The queue went from `q` to `left`, and the processor's calls from `calls` to `done`, by these steps. */
  ghost predicate Ran(key: Obj -> Key, q: seq<Op>, steps: seq<Action>, left: seq<Op>, calls: seq<Op>, done: seq<Op>) {
    var r := Run(key, q, steps);
    left == r.left && done == calls + r.delivered
  }

  /** One action and what came after it. */
  lemma RanStep(key: Obj -> Key, q: seq<Op>, steps: seq<Action>, mid: seq<Op>, left: seq<Op>,
                calls: seq<Op>, handed: seq<Op>, done: seq<Op>)
    requires steps != [] && mid == Next(key, q, steps[0]) && handed == calls + Sent(key, q, steps[0])
    requires Ran(key, mid, steps[1..], left, handed, done)
    ensures Ran(key, q, steps, left, calls, done)
  {
    Assoc(calls, Sent(key, q, steps[0]), Run(key, mid, steps[1..]).delivered);
  }

  /** A list that held `q` holds `after` once these steps were taken on the queue that held it. */
  ghost predicate Leaked(q: seq<Op>, steps: seq<Action>, after: seq<Op>) {
    after == q + Raw(Leading(steps))
  }

  lemma RawCons(s: Action, rest: seq<Action>)
    ensures Raw([s] + rest) == Queued(s) + Raw(rest)
  {
    assert ([s] + rest)[1..] == rest;
  }

  lemma LeakedStep(q: seq<Op>, steps: seq<Action>, after: seq<Op>)
    requires steps != []
    requires if Queues(steps[0]) then Leaked(q + Queued(steps[0]), steps[1..], after) else after == q
    ensures Leaked(q, steps, after)
  {
    if Queues(steps[0]) {
      var rest := Leading(steps[1..]);
      RawCons(steps[0], rest);
      Assoc(q, Queued(steps[0]), Raw(rest));
    } else {
      Empty(q);
    }
  }

  /** Both together. */
  lemma WorkStep(key: Obj -> Key, q: seq<Op>, steps: seq<Action>, mid: seq<Op>, left: seq<Op>,
                 calls: seq<Op>, handed: seq<Op>, done: seq<Op>, after: seq<Op>)
    requires steps != [] && mid == Next(key, q, steps[0]) && handed == calls + Sent(key, q, steps[0])
    requires Ran(key, mid, steps[1..], left, handed, done)
    requires if Queues(steps[0]) then Leaked(q + Queued(steps[0]), steps[1..], after) else after == q
    ensures Ran(key, q, steps, left, calls, done) && Leaked(q, steps, after)
  {
    RanStep(key, q, steps, mid, left, calls, handed, done);
    LeakedStep(q, steps, after);
  }

  // ---- the objects -------------------------------------------------------------------------------

  /** A Python list of operations: shared by whoever holds it. */
  class OpList {
    var items: seq<Op>

    constructor (s: seq<Op>)
      ensures items == s
    {
      items := s;
    }
  }

  /** A queue processor, known by the calls it received. */
  class Processor {
    var calls: seq<Op>

    constructor ()
      ensures calls == []
    {
      calls := [];
    }
  }

  /** The current transaction: the managers that joined it, each with its before-commit hook. */
  class Transaction {
    var hooks: seq<QueueTM>

    constructor ()
      ensures hooks == []
    {
      hooks := [];
    }
  }

  class QueueTM {
    const queue: IndexQueue
    var registered: bool

    constructor (q: IndexQueue)
      ensures queue == q && !registered
    {
      queue := q;
      registered := false;
    }

    method Register(tx: Transaction)
      requires registered ==> this in tx.hooks
      modifies this, tx
      ensures registered && this in tx.hooks
      ensures tx.hooks == if old(registered) then old(tx.hooks) else old(tx.hooks) + [this]
    {
      if !registered {
        tx.hooks := tx.hooks + [this];
        registered := true;
      }
    }

    /** The hook run just before the transaction commits. */
    method BeforeCommit(p: Processor)
      modifies queue, queue.queue, p
      ensures p.calls == old(p.calls) + Optimized(queue.key, old(queue.queue.items))
      ensures queue.queue.items == [] && fresh(queue.queue) && queue.tmhook == null
      ensures old(queue.queue).items == old(queue.queue.items)
    {
      var _ := queue.Process(p);
      queue.Clear();
    }

    method TpcAbort()
      modifies this, queue, queue.queue
      ensures queue.queue == old(queue.queue) && queue.queue.items == [] && queue.tmhook == null && !registered
    {
      queue.Abort();
      queue.Clear();
      registered := false;
    }
  }

  class IndexQueue {
    const key: Obj -> Key
    var queue: OpList
    var tmhook: QueueTM?

    constructor (k: Obj -> Key)
      ensures key == k && queue.items == [] && fresh(queue) && tmhook == null
    {
      key := k;
      queue := new OpList([]);
      tmhook := null;
    }

    ghost function Hook(): set<object>
      reads this
    {
      if tmhook == null then {} else {tmhook}
    }

    /** The hook and the hooks of the transaction. */
    ghost function Reach(tx: Transaction): set<object>
      reads this, tx
    {
      Hook() + set h | h in tx.hooks
    }

    /** Queued operations will be processed: a hook of this queue is in the current transaction. */
    ghost predicate Hooked(tx: Transaction)
      reads this, queue, tx, Hook()
    {
      && (forall i :: 0 <= i < |tx.hooks| ==> tx.hooks[i].queue == this)
      && (tmhook != null ==> tmhook.queue == this && (tmhook.registered ==> tmhook in tx.hooks))
      && (queue.items != [] ==> tx.hooks != [])
    }

    /** Makes sure processing is called back before the transaction commits. */
    method EnsureHook(tx: Transaction)
      requires forall i :: 0 <= i < |tx.hooks| ==> tx.hooks[i].queue == this
      requires tmhook != null ==> tmhook.queue == this && (tmhook.registered ==> tmhook in tx.hooks)
      modifies `tmhook, Hook(), tx
      ensures Hooked(tx) && fresh(Reach(tx) - old(Reach(tx)))
      ensures old(tx.hooks) <= tx.hooks && tmhook != null && tmhook.registered
      ensures old(tmhook) != null ==> tmhook == old(tmhook)
      ensures old(tmhook) == null ==> fresh(tmhook)
    {
      if tmhook == null {
        tmhook := new QueueTM(this);
      }
      tmhook.Register(tx);
    }

    method Index(obj: Obj, attrs: Option<set<Attr>>, tx: Transaction)
      requires Hooked(tx)
      modifies `tmhook, queue, Reach(tx), tx
      ensures Hooked(tx) && queue.items == old(queue.items) + [Op(INDEX, obj, attrs)]
      ensures fresh(Reach(tx) - old(Reach(tx))) && old(tx.hooks) <= tx.hooks
    {
      queue.items := queue.items + [Op(INDEX, obj, attrs)];
      EnsureHook(tx);
    }

    method Reindex(obj: Obj, attrs: Option<set<Attr>>, tx: Transaction)
      requires Hooked(tx)
      modifies `tmhook, queue, Reach(tx), tx
      ensures Hooked(tx) && queue.items == old(queue.items) + [Op(REINDEX, obj, attrs)]
      ensures fresh(Reach(tx) - old(Reach(tx))) && old(tx.hooks) <= tx.hooks
    {
      queue.items := queue.items + [Op(REINDEX, obj, attrs)];
      EnsureHook(tx);
    }

    method Unindex(obj: Obj, tx: Transaction)
      requires Hooked(tx)
      modifies `tmhook, queue, Reach(tx), tx
      ensures Hooked(tx) && queue.items == old(queue.items) + [Op(UNINDEX, obj, None)]
      ensures fresh(Reach(tx) - old(Reach(tx))) && old(tx.hooks) <= tx.hooks
    {
      queue.items := queue.items + [Op(UNINDEX, obj, None)];
      EnsureHook(tx);
    }

    /** A copy of the queued operations. */
    method GetState() returns (copy: OpList)
      ensures fresh(copy) && copy.items == queue.items
    {
      copy := new OpList(queue.items);
    }

    /** Installs the list itself, not a copy of it. */
    method SetState(state: OpList)
      modifies `queue
      ensures queue == state
    {
      queue := state;
    }

    /** Compacts the queue into a new list. */
    method Optimize()
      modifies `queue
      ensures fresh(queue) && queue.items == Optimized(key, old(queue.items))
    {
      var res: Table := map[];
      var state := GetState();
      var i := 0;
      while i < |state.items|
        invariant 0 <= i <= |state.items| && state.items == old(queue.items)
        invariant Fold(key, res, state.items[i..]) == Fold(key, map[], state.items)
      {
        var e := state.items[i];
        var oid := key(e.obj);
        var op, attr := REINDEX, e.attrs;
        if oid in res {
          op, attr := res[oid].kind, res[oid].attrs;
        }
        ghost var next := FoldStep(key, res, e);
        if op == INDEX && e.kind == UNINDEX {
          res := res - {oid};
        } else {
          op := op + e.kind;
          if op < UNINDEX { op := UNINDEX; }
          if op > INDEX { op := INDEX; }
          if attr.Some? && e.attrs.Some? {
            attr := Some(attr.value + e.attrs.value);
          } else {
            attr := None;
          }
          res := res[oid := Op(op, e.obj, attr)];
        }
        assert res == next;
        assert state.items[i..][1..] == state.items[i + 1..];
        i := i + 1;
      }
      SortedTable(key, state.items);
      var sorted := new OpList(SortOps(res.Values));
      SetState(sorted);
    }

    /** Compacts the queue, hands every operation to the processor and empties the queue. */
    method Process(p: Processor) returns (processed: nat)
      modifies this, p
      ensures p.calls == old(p.calls) + Optimized(key, old(queue.items))
      ensures processed == |Optimized(key, old(queue.items))|
      ensures queue.items == [] && fresh(queue)
      ensures tmhook == old(tmhook) || tmhook == null
    {
      Optimize();
      if queue.items == [] { return 0; }
      processed := 0;
      ghost var list, ops := queue, queue.items;
      while processed < |queue.items|
        invariant queue == list && fresh(queue) && queue.items == ops
        invariant 0 <= processed <= |queue.items| && tmhook == old(tmhook)
        invariant p.calls == old(p.calls) + queue.items[..processed]
      {
        p.calls := p.calls + [queue.items[processed]];
        assert ops[..processed + 1] == ops[..processed] + [ops[processed]];
        processed := processed + 1;
      }
      assert ops[..processed] == ops;
      Clear();
    }

    /** An action that queues an operation. */
    method Enqueue(s: Action, tx: Transaction)
      requires Hooked(tx) && Queues(s)
      modifies `tmhook, queue, Reach(tx), tx
      ensures Hooked(tx) && fresh(Reach(tx) - old(Reach(tx))) && old(tx.hooks) <= tx.hooks
      ensures queue.items == old(queue.items) + [OpOf(s)]
    {
      match s
      case Index(o, a) => Index(o, a, tx);
      case Reindex(o, a) => Reindex(o, a, tx);
      case Unindex(o) => Unindex(o, tx);
    }

    /** An action that compacts, and perhaps processes, the queue. */
    method Settle(s: Action, p: Processor, tx: Transaction)
      requires Hooked(tx) && !Queues(s)
      modifies this, p
      ensures Hooked(tx) && fresh(Reach(tx) - old(Reach(tx)))
      ensures fresh(queue) && queue.items == Next(key, old(queue.items), s)
      ensures p.calls == old(p.calls) + Sent(key, old(queue.items), s)
    {
      if s.Compact? {
        EmptyCompacts(key);
        Optimize();
        Empty(p.calls);
      } else {
        var _ := Process(p);
      }
    }

    /** One action of the application. */
    method Act(s: Action, p: Processor, tx: Transaction)
      requires Hooked(tx)
      modifies this, queue, Reach(tx), tx, p
      ensures Hooked(tx) && fresh(Reach(tx) - old(Reach(tx))) && old(tx.hooks) <= tx.hooks
      ensures queue.items == Next(key, old(queue.items), s)
      ensures p.calls == old(p.calls) + Sent(key, old(queue.items), s)
      ensures if Queues(s) then queue == old(queue) else fresh(queue) && old(queue).items == old(queue.items)
    {
      if Queues(s) {
        Enqueue(s, tx);
        Empty(p.calls);
      } else {
        Settle(s, p, tx);
      }
    }

    /** Any run of actions; the list the queue had at the start keeps what came before compaction. */
    method Work(steps: seq<Action>, p: Processor, tx: Transaction)
      requires Hooked(tx)
      modifies this, queue, Reach(tx), tx, p
      ensures Hooked(tx) && fresh(Reach(tx) - old(Reach(tx))) && old(tx.hooks) <= tx.hooks
      ensures Ran(key, old(queue.items), steps, queue.items, old(p.calls), p.calls)
      ensures Leaked(old(queue.items), steps, old(queue).items)
      ensures queue == old(queue) || fresh(queue)
      ensures old(queue).items != [] ==> tx.hooks != []
      decreases |steps|
    {
      if steps != [] {
        ghost var list, q, calls := queue, queue.items, p.calls;
        Act(steps[0], p, tx);
        ghost var mid, handed := queue.items, p.calls;
        Work(steps[1..], p, tx);
        WorkStep(key, q, steps, mid, queue.items, calls, handed, p.calls, list.items);
      }
    }

    method Abort()
      modifies this, queue
      ensures queue == old(queue) && queue.items == [] && tmhook == null
    {
      Clear();
    }

    /** Empties the list in place and lets go of the hook. */
    method Clear()
      modifies this, queue
      ensures queue == old(queue) && queue.items == [] && tmhook == null
    {
      queue.items := [];
      tmhook := null;
    }
  }

  class QueueSavepoint {
    const queue: IndexQueue
    const state: OpList

    constructor (q: IndexQueue)
      ensures queue == q && fresh(state) && state.items == q.queue.items
    {
      queue := q;
      var s := q.GetState();
      state := s;
    }

    method Rollback()
      modifies queue`queue
      ensures queue.queue == state
    {
      queue.SetState(state);
    }
  }

  /** A savepoint rolled back once after each round of work. */
  method Rollbacks(q: IndexQueue, rounds: seq<seq<Action>>, p: Processor, tx: Transaction)
    requires q.Hooked(tx) && rounds != []
    modifies q, q.queue, q.Reach(tx), tx, p
    ensures q.Hooked(tx)
    ensures q.queue.items == old(q.queue.items) + Leaks(rounds[1..])
  {
    var sp := new QueueSavepoint(q);
    q.Work(rounds[0], p, tx);
    sp.Rollback();
    RollbacksAgain(q, sp, rounds[1..], p, tx);
  }

  /** Once rolled back, the queue writes into the list the savepoint holds. */
  method RollbacksAgain(q: IndexQueue, sp: QueueSavepoint, rounds: seq<seq<Action>>, p: Processor, tx: Transaction)
    requires sp.queue == q && q.queue == sp.state && q.Hooked(tx)
    modifies q, q.queue, q.Reach(tx), tx, p
    ensures q.Hooked(tx) && q.queue == sp.state
    ensures sp.state.items == old(sp.state.items) + Leaks(rounds)
    decreases |rounds|
  {
    if rounds != [] {
      q.Work(rounds[0], p, tx);
      sp.Rollback();
      assert q.Hooked(tx);
      RollbacksAgain(q, sp, rounds[1..], p, tx);
      Assoc(old(sp.state.items), Raw(Leading(rounds[0])), Leaks(rounds[1..]));
    } else {
      Empty(q.queue.items);
    }
  }

  /** Commits: every joined hook processes and empties the queue, then a new transaction begins. */
  method Commit(q: IndexQueue, p: Processor, tx: Transaction)
    requires q.Hooked(tx)
    modifies q, q.queue, tx.hooks, tx, p
    ensures p.calls == old(p.calls) + Optimized(q.key, old(q.queue.items))
    ensures q.Hooked(tx) && q.queue.items == [] && tx.hooks == [] && q.Reach(tx) <= old(q.Reach(tx))
    ensures q.queue == old(q.queue) || fresh(q.queue)
    ensures forall tm :: tm in old(tx.hooks) ==> !tm.registered
  {
    EmptyCompacts(q.key);
    var i := 0;
    while i < |tx.hooks|
      invariant 0 <= i <= |tx.hooks| && tx.hooks == old(tx.hooks)
      invariant q.queue == old(q.queue) || fresh(q.queue)
      invariant if i == 0 then q.queue.items == old(q.queue.items) && q.tmhook == old(q.tmhook)
                else q.queue.items == [] && q.tmhook == null
      invariant p.calls == old(p.calls) + if i == 0 then [] else Optimized(q.key, old(q.queue.items))
    {
      tx.hooks[i].BeforeCommit(p);
      i := i + 1;
    }
    Finish(tx);
  }

  /** tpc_finish of every joined manager. */
  method Finish(tx: Transaction)
    modifies tx, tx.hooks
    ensures tx.hooks == [] && forall tm :: tm in old(tx.hooks) ==> !tm.registered
  {
    var i := 0;
    while i < |tx.hooks|
      invariant 0 <= i <= |tx.hooks| && tx.hooks == old(tx.hooks)
      invariant forall j :: 0 <= j < i ==> !tx.hooks[j].registered
    {
      tx.hooks[i].registered := false;
      i := i + 1;
    }
    tx.hooks := [];
  }

  /** A whole transaction: any actions, then the commit. */
  method Transact(q: IndexQueue, steps: seq<Action>, p: Processor, tx: Transaction)
    requires q.Hooked(tx) && q.queue.items == [] && tx.hooks == []
    modifies q, q.queue, q.Reach(tx), tx, p
    ensures var r := Run(q.key, [], steps); p.calls == old(p.calls) + (r.delivered + Optimized(q.key, r.left))
    ensures q.Hooked(tx) && q.queue.items == [] && tx.hooks == []
  {
    q.Work(steps, p, tx);
    Commit(q, p, tx);
    ghost var r := Run(q.key, [], steps);
    Assoc(old(p.calls), r.delivered, Optimized(q.key, r.left));
  }

  /** Aborts: every joined manager empties the queue, nothing is processed. */
  method Abort(q: IndexQueue, tx: Transaction)
    requires q.Hooked(tx)
    modifies q, q.queue, tx.hooks, tx
    ensures q.Hooked(tx) && q.queue == old(q.queue) && q.queue.items == [] && tx.hooks == []
    ensures q.Reach(tx) <= old(q.Reach(tx))
  {
    var i := 0;
    while i < |tx.hooks|
      invariant 0 <= i <= |tx.hooks| && tx.hooks == old(tx.hooks) && q.queue == old(q.queue)
      invariant if i == 0 then q.queue.items == old(q.queue.items) && q.tmhook == old(q.tmhook)
                else q.queue.items == [] && q.tmhook == null
      invariant i == 0 && q.tmhook != null ==> q.tmhook.registered == old(q.tmhook.registered)
    {
      tx.hooks[i].TpcAbort();
      i := i + 1;
    }
    tx.hooks := [];
  }
}
