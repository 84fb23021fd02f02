/** The indexing queue as data: operations, their compaction, and what replaying them does to a catalog. */
module QueueOps {
  import opened Wrappers

  datatype Obj = Obj(id: nat)
  type Key = nat
  type Attr = string

  const UNINDEX := -1
  const REINDEX := 0
  const INDEX := 1

  /** One queued operation; `None` stands for all attributes. */
  datatype Op = Op(kind: int, obj: Obj, attrs: Option<set<Attr>>)

  predicate ValidOp(e: Op) { UNINDEX <= e.kind <= INDEX }

  predicate ValidQueue(q: seq<Op>) { forall i :: 0 <= i < |q| ==> ValidOp(q[i]) }

  type Table = map<Key, Op>

  function Clamp(k: int): int { if k < UNINDEX then UNINDEX else if k > INDEX then INDEX else k }

  /** The union of two attribute lists; all attributes take precedence. */
  function MergeAttrs(a: Option<set<Attr>>, b: Option<set<Attr>>): Option<set<Attr>> {
    if a.Some? && b.Some? then Some(a.value + b.value) else None
  }

  /** One round of the loop in optimize. */
  function FoldStep(key: Obj -> Key, t: Table, e: Op): Table {
    var k := key(e.obj);
    var prior := if k in t then t[k] else Op(REINDEX, e.obj, e.attrs);
    if prior.kind == INDEX && e.kind == UNINDEX then t - {k}
    else t[k := Op(Clamp(prior.kind + e.kind), e.obj, MergeAttrs(prior.attrs, e.attrs))]
  }

  function Fold(key: Obj -> Key, t: Table, q: seq<Op>): Table
    decreases |q|
  {
    if q == [] then t else Fold(key, FoldStep(key, t, q[0]), q[1..])
  }

  lemma {:induction false} FoldConcat(key: Obj -> Key, t: Table, a: seq<Op>, b: seq<Op>)
    ensures Fold(key, t, a + b) == Fold(key, Fold(key, t, a), b)
    decreases |a|
  {
    if a == [] {
      assert a + b == b;
    } else {
      assert (a + b)[1..] == a[1..] + b;
      FoldConcat(key, FoldStep(key, t, a[0]), a[1..], b);
    }
  }

  predicate DistinctKeys(key: Obj -> Key, s: seq<Op>) {
    forall i, j :: 0 <= i < j < |s| ==> key(s[i].obj) != key(s[j].obj)
  }

  // ---- sorting the compacted operations --------------------------------------------------------

  /** Tuple order of operations: kind first, then the object. */
  predicate OpBelow(a: Op, b: Op) {
    a.kind < b.kind || (a.kind == b.kind && a.obj.id < b.obj.id)
  }

  predicate OpsSorted(s: seq<Op>) {
    forall i, j :: 0 <= i < j < |s| ==> OpBelow(s[i], s[j])
  }

  predicate OnePerObject(s: set<Op>) {
    forall a, b :: a in s && b in s && a.obj == b.obj ==> a == b
  }

  lemma {:induction false} FirstExists(s: set<Op>)
    requires s != {} && OnePerObject(s)
    ensures exists m :: m in s && forall x :: x in s && x != m ==> OpBelow(m, x)
    decreases |s|
  {
    var y :| y in s;
    var rest := s - {y};
    if rest == {} {
      assert forall x :: x in s ==> x == y || x in rest;
    } else {
      FirstExists(rest);
      var m :| m in rest && forall x :: x in rest && x != m ==> OpBelow(m, x);
      var first := if OpBelow(y, m) then y else m;
      forall x | x in s && x != first
        ensures OpBelow(first, x)
      {
        assert x == y || x in rest;
      }
    }
  }

  function First(s: set<Op>): (m: Op)
    requires s != {} && OnePerObject(s)
    ensures m in s && forall x :: x in s && x != m ==> OpBelow(m, x)
  {
    FirstExists(s);
    var m :| m in s && forall x :: x in s && x != m ==> OpBelow(m, x);
    m
  }

  /** sorted() of operations on distinct objects. */
  function SortOps(s: set<Op>): (r: seq<Op>)
    requires OnePerObject(s)
    ensures OpsSorted(r) && |r| == |s| && forall e :: e in r <==> e in s
    decreases |s|
  {
    if s == {} then []
    else
      var m := First(s);
      [m] + SortOps(s - {m})
  }

  // ---- compaction ------------------------------------------------------------------------------

  /** Each entry sits under the key of its own object and is a valid operation. */
  ghost predicate Keyed(key: Obj -> Key, t: Table) {
    forall k :: k in t ==> key(t[k].obj) == k && ValidOp(t[k])
  }

  lemma StepKeyed(key: Obj -> Key, t: Table, e: Op)
    requires Keyed(key, t)
    ensures Keyed(key, FoldStep(key, t, e))
  {
  }

  lemma {:induction false} FoldKeyed(key: Obj -> Key, t: Table, q: seq<Op>)
    requires Keyed(key, t)
    ensures Keyed(key, Fold(key, t, q))
    decreases |q|
  {
    if q != [] {
      StepKeyed(key, t, q[0]);
      FoldKeyed(key, FoldStep(key, t, q[0]), q[1..]);
    }
  }

  lemma KeyedOnePerObject(key: Obj -> Key, t: Table)
    requires Keyed(key, t)
    ensures OnePerObject(t.Values)
  {
  }

  /** The queue that optimize leaves. */
  function Optimized(key: Obj -> Key, q: seq<Op>): seq<Op> {
    var t := Fold(key, map[], q);
    FoldKeyed(key, map[], q);
    KeyedOnePerObject(key, t);
    SortOps(t.Values)
  }

  /** One valid operation per key, in order of kind and object: exactly what the table holds. */
  lemma OptimizedShape(key: Obj -> Key, q: seq<Op>)
    ensures var r := Optimized(key, q); ValidQueue(r) && DistinctKeys(key, r) && OpsSorted(r)
    ensures forall e :: e in Optimized(key, q) <==> e in Fold(key, map[], q).Values
  {
    var t, r := Fold(key, map[], q), Optimized(key, q);
    FoldKeyed(key, map[], q);
    KeyedOnePerObject(key, t);
    assert forall i :: 0 <= i < |r| ==> r[i] in r;
  }

  /** Unindexing comes first, then re-indexing, then indexing, each in the order of the objects: no other
      operation stands before an unindex operation. */
  lemma UnindexFirst(key: Obj -> Key, q: seq<Op>, i: nat, j: nat)
    requires i < j < |Optimized(key, q)|
    ensures var a, b := Optimized(key, q)[i], Optimized(key, q)[j];
            && (b.kind == -1 ==> a.kind == -1) && (a.kind == 1 ==> b.kind == 1)
            && (a.kind == b.kind ==> a.obj.id < b.obj.id)
  {
    OptimizedShape(key, q);
    assert ValidOp(Optimized(key, q)[i]) && ValidOp(Optimized(key, q)[j]);
  }

  lemma SortedTable(key: Obj -> Key, q: seq<Op>)
    ensures var t := Fold(key, map[], q); OnePerObject(t.Values) && SortOps(t.Values) == Optimized(key, q)
  {
    FoldKeyed(key, map[], q);
    KeyedOnePerObject(key, Fold(key, map[], q));
  }

  // ---- compaction seen from one key ------------------------------------------------------------

  function Lookup(t: Table, k: Key): Option<Op> { if k in t then Some(t[k]) else None }

  /** What one queued operation does to the entry of its own key. */
  function StepOne(p: Option<Op>, e: Op): Option<Op> {
    var prior := if p.Some? then p.value else Op(REINDEX, e.obj, e.attrs);
    if prior.kind == INDEX && e.kind == UNINDEX then None
    else Some(Op(Clamp(prior.kind + e.kind), e.obj, MergeAttrs(prior.attrs, e.attrs)))
  }

  function FoldOne(key: Obj -> Key, k: Key, p: Option<Op>, q: seq<Op>): Option<Op>
    decreases |q|
  {
    if q == [] then p
    else FoldOne(key, k, if key(q[0].obj) == k then StepOne(p, q[0]) else p, q[1..])
  }

  /** The table of optimize treats every key on its own. */
  lemma {:induction false} FoldLookup(key: Obj -> Key, t: Table, q: seq<Op>, k: Key)
    ensures Lookup(Fold(key, t, q), k) == FoldOne(key, k, Lookup(t, k), q)
    decreases |q|
  {
    if q != [] { FoldLookup(key, FoldStep(key, t, q[0]), q[1..], k); }
  }

  lemma {:induction false} FoldAbsent(key: Obj -> Key, k: Key, p: Option<Op>, s: seq<Op>)
    requires forall i :: 0 <= i < |s| ==> key(s[i].obj) != k
    ensures FoldOne(key, k, p, s) == p
    decreases |s|
  {
    if s != [] { FoldAbsent(key, k, p, s[1..]); }
  }

  /** A key met once folds into its one operation unchanged. */
  lemma {:induction false} FoldOnce(key: Obj -> Key, s: seq<Op>, i: nat)
    requires ValidQueue(s) && DistinctKeys(key, s) && i < |s|
    ensures FoldOne(key, key(s[i].obj), None, s) == Some(s[i])
    decreases |s|
  {
    if i == 0 {
      assert ValidOp(s[0]);
      assert MergeAttrs(s[0].attrs, s[0].attrs) == s[0].attrs by {
        if s[0].attrs.Some? { assert s[0].attrs.value + s[0].attrs.value == s[0].attrs.value; }
      }
      FoldAbsent(key, key(s[0].obj), Some(s[0]), s[1..]);
    } else {
      FoldOnce(key, s[1..], i - 1);
    }
  }

  /** Compaction keeps, under each key, exactly what the fold of the whole queue says. */
  lemma OptimizedLookup(key: Obj -> Key, q: seq<Op>, k: Key)
    ensures FoldOne(key, k, None, Optimized(key, q)) == FoldOne(key, k, None, q)
  {
    var t, s := Fold(key, map[], q), Optimized(key, q);
    FoldLookup(key, map[], q, k);
    FoldKeyed(key, map[], q);
    OptimizedShape(key, q);
    if k in t {
      assert t[k] in s;
      var i :| 0 <= i < |s| && s[i] == t[k];
      FoldOnce(key, s, i);
    } else {
      forall i | 0 <= i < |s|
        ensures key(s[i].obj) != k
      {
        assert s[i] in s && s[i] in t.Values;
      }
      FoldAbsent(key, k, None, s);
    }
  }

  /** Folding the compacted queue gives back the table it came from. */
  lemma RefoldOptimized(key: Obj -> Key, q: seq<Op>)
    ensures Fold(key, map[], Optimized(key, q)) == Fold(key, map[], q)
  {
    var t, r := Fold(key, map[], q), Fold(key, map[], Optimized(key, q));
    forall k
      ensures Lookup(r, k) == Lookup(t, k)
    {
      OptimizedLookup(key, q, k);
      FoldLookup(key, map[], q, k);
      FoldLookup(key, map[], Optimized(key, q), k);
    }
    SameTable(r, t);
  }

  lemma SameTable(r: Table, t: Table)
    requires forall k :: Lookup(r, k) == Lookup(t, k)
    ensures r == t
  {
    forall k
      ensures k in r <==> k in t
      ensures k in r ==> r[k] == t[k]
    {
      assert Lookup(r, k) == Lookup(t, k);
    }
  }

  /** Compaction is compositional: compacting a prefix first makes no difference. */
  lemma OptimizedComposes(key: Obj -> Key, a: seq<Op>, b: seq<Op>)
    ensures Fold(key, map[], Optimized(key, a) + b) == Fold(key, map[], a + b)
    ensures Optimized(key, Optimized(key, a) + b) == Optimized(key, a + b)
  {
    FoldConcat(key, map[], Optimized(key, a), b);
    FoldConcat(key, map[], a, b);
    RefoldOptimized(key, a);
  }

  /** Compaction is idempotent. */
  lemma OptimizedIdempotent(key: Obj -> Key, q: seq<Op>)
    ensures Optimized(key, Optimized(key, q)) == Optimized(key, q)
  {
    RefoldOptimized(key, q);
  }

  // ---- what replaying a queue does to a catalog --------------------------------------------------

  type Entry = map<Attr, int>
  type Catalog = map<Obj, Entry>

  /** One object's place in the catalog; Broken when an operation met a state it is not meant for. */
  datatype Cell = Broken | Absent | Holds(entry: Entry)

  function Select(now: Entry, attrs: Option<set<Attr>>): Entry {
    if attrs.None? then now else map a | a in now && a in attrs.value :: now[a]
  }

  /**
   * One operation on one object whose attributes are `now`. Indexing is for an absent object and
   * all its attributes; re-indexing and unindexing are for a present one.
   */
  function Play(cell: Cell, e: Op, now: Entry): Cell {
    if e.kind == INDEX && cell.Absent? && Select(now, e.attrs) == now then Holds(now)
    else if e.kind == REINDEX && cell.Holds? then Holds(cell.entry + Select(now, e.attrs))
    else if e.kind == UNINDEX && cell.Holds? then Absent
    else Broken
  }

  function CellOf(c: Catalog, o: Obj): Cell { if o in c then Holds(c[o]) else Absent }

  function PlayOn(c: Catalog, e: Op, now: Obj -> Entry): Option<Catalog> {
    match Play(CellOf(c, e.obj), e, now(e.obj))
    case Broken => None
    case Absent => Some(c - {e.obj})
    case Holds(x) => Some(c[e.obj := x])
  }

  /** All operations in order; None when the history is not well-formed for this catalog. */
  function Replay(c: Catalog, q: seq<Op>, now: Obj -> Entry): Option<Catalog>
    decreases |q|
  {
    if q == [] then Some(c)
    else
      var d := PlayOn(c, q[0], now);
      if d.None? then None else Replay(d.value, q[1..], now)
  }

  /** One attribute of one object in a catalog. */
  ghost predicate Knows(c: Catalog, o: Obj, a: Attr, v: int) { o in c && a in c[o] && c[o][a] == v }

  /** What the operations come to, one by one: an absent object comes in with all it has, a present one gets the
      attributes asked for that it has and keeps its others, or goes; and other objects stay as they are. */
  lemma ReplayInWords(c: Catalog, o: Obj, attrs: Option<set<Attr>>, now: Obj -> Entry, a: Attr, v: int)
    ensures Replay(c, [Op(1, o, None)], now).Some? <==> o !in c
    ensures o !in c ==> Replay(c, [Op(1, o, None)], now).value == c[o := now(o)]
    ensures Replay(c, [Op(-1, o, attrs)], now).Some? <==> o in c
    ensures o in c ==> Replay(c, [Op(-1, o, attrs)], now).value == c - {o}
    ensures Replay(c, [Op(0, o, attrs)], now).Some? <==> o in c
    ensures o in c ==> Replay(c, [Op(0, o, attrs)], now).value - {o} == c - {o}
    ensures o in c ==>
              var d := Replay(c, [Op(0, o, attrs)], now).value;
              && (attrs.None? || a in attrs.value) && a in now(o) ==> (Knows(d, o, a, v) <==> now(o)[a] == v)
    ensures o in c && !((attrs.None? || a in attrs.value) && a in now(o)) ==>
              (Knows(Replay(c, [Op(0, o, attrs)], now).value, o, a, v) <==> Knows(c, o, a, v))
  {
    assert forall e: Op :: [e][1..] == [];
  }

  function ReplayOne(o: Obj, cell: Cell, q: seq<Op>, now: Entry): Cell
    decreases |q|
  {
    if q == [] then cell
    else ReplayOne(o, if q[0].obj == o then Play(cell, q[0], now) else cell, q[1..], now)
  }

  lemma {:induction false} BrokenStays(o: Obj, q: seq<Op>, now: Entry)
    ensures ReplayOne(o, Broken, q, now) == Broken
    decreases |q|
  {
    if q != [] { BrokenStays(o, q[1..], now); }
  }

  /** Replaying treats every object on its own. */
  lemma {:induction false} ReplayLookup(c: Catalog, q: seq<Op>, now: Obj -> Entry, o: Obj)
    requires Replay(c, q, now).Some?
    ensures ReplayOne(o, CellOf(c, o), q, now(o)) == CellOf(Replay(c, q, now).value, o)
    decreases |q|
  {
    if q != [] {
      var d := PlayOn(c, q[0], now).value;
      ReplayLookup(d, q[1..], now, o);
      assert CellOf(d, o) == if q[0].obj == o then Play(CellOf(c, o), q[0], now(o)) else CellOf(c, o);
    }
  }

  ghost predicate Sound(c: Catalog, q: seq<Op>, now: Obj -> Entry, o: Obj) {
    ReplayOne(o, CellOf(c, o), q, now(o)) != Broken
  }

  /** A queue that suits every object can be replayed. */
  lemma {:induction false} ReplayRuns(c: Catalog, q: seq<Op>, now: Obj -> Entry)
    requires forall o :: Sound(c, q, now, o)
    ensures Replay(c, q, now).Some?
    decreases |q|
  {
    if q != [] {
      var o := q[0].obj;
      assert Sound(c, q, now, o);
      if Play(CellOf(c, o), q[0], now(o)) == Broken { BrokenStays(o, q[1..], now(o)); }
      var d := PlayOn(c, q[0], now).value;
      forall p
        ensures Sound(d, q[1..], now, p)
      {
        assert Sound(c, q, now, p);
        assert CellOf(d, p) == if q[0].obj == p then Play(CellOf(c, p), q[0], now(p)) else CellOf(c, p);
      }
      ReplayRuns(d, q[1..], now);
    }
  }

  /** The last operation on object o that put it in or took it out, REINDEX for none. */
  function LastMove(o: Obj, q: seq<Op>, last: int): int
    decreases |q|
  {
    if q == [] then last
    else LastMove(o, q[1..], if q[0].obj == o && q[0].kind != REINDEX then q[0].kind else last)
  }

  /** What a compacted entry stands for, when the object started at `x0`, last moved by `last` and ended at
      `x`. An object that was taken out and put back counts as re-indexed. */
  ghost predicate Means(p: Option<Op>, x0: Cell, last: int, x: Cell, now: Entry) {
    match p
    case None => x == x0 && (x0.Holds? ==> last == REINDEX)
    case Some(e) =>
      if e.kind == INDEX then x0.Absent? && x == Holds(now) && Select(now, e.attrs) == now
      else if e.kind == REINDEX then
        x0.Holds? && if last == INDEX then x == Holds(now) && Select(now, e.attrs) == now
                     else last == REINDEX && x == Holds(x0.entry + Select(now, e.attrs))
      else e.kind == UNINDEX && x0.Holds? && x.Absent? && last == UNINDEX
  }

  lemma SelectMerge(x: Entry, now: Entry, a: Option<set<Attr>>, b: Option<set<Attr>>)
    ensures x + Select(now, a) + Select(now, b) == x + Select(now, MergeAttrs(a, b))
  {
    assert now + Select(now, b) == now;
    assert x + Select(now, a) + now == x + now;
    if a.Some? && b.Some? {
      assert Select(now, a) + Select(now, b) == Select(now, MergeAttrs(a, b));
    }
    assert x + Select(now, a) + Select(now, b) == x + (Select(now, a) + Select(now, b));
  }

  lemma SelectCovers(now: Entry, a: Option<set<Attr>>, b: Option<set<Attr>>)
    requires Select(now, a) == now || Select(now, b) == now
    ensures Select(now, MergeAttrs(a, b)) == now
  {
    if a.Some? && b.Some? {
      forall k | k in now
        ensures k in a.value + b.value
      {
        assert k in Select(now, a) || k in Select(now, b);
      }
    }
  }

  /** One more operation keeps the meaning of the entry. */
  lemma StepMeans(p: Option<Op>, e: Op, x0: Cell, last: int, x: Cell, now: Entry)
    requires Means(p, x0, last, x, now) && Play(x, e, now) != Broken
    ensures Means(StepOne(p, e), x0, if e.kind != REINDEX then e.kind else last, Play(x, e, now), now)
  {
    if p.None? {
      SelectMerge(map[], now, e.attrs, e.attrs);
      assert MergeAttrs(e.attrs, e.attrs) == e.attrs by {
        if e.attrs.Some? { assert e.attrs.value + e.attrs.value == e.attrs.value; }
      }
    } else {
      var f := p.value;
      if e.kind == INDEX {
        SelectCovers(now, f.attrs, e.attrs);
      } else if e.kind == REINDEX {
        assert now + Select(now, e.attrs) == now;
        if f.kind == INDEX || last == INDEX {
          SelectCovers(now, f.attrs, e.attrs);
        } else {
          SelectMerge(x0.entry, now, f.attrs, e.attrs);
        }
      }
    }
  }

  lemma {:induction false} FoldMeans(key: Obj -> Key, o: Obj, p: Option<Op>, q: seq<Op>, x0: Cell, last: int, x: Cell,
                                     now: Entry)
    requires Injective(key)
    requires Means(p, x0, last, x, now) && ReplayOne(o, x, q, now) != Broken
    ensures Means(FoldOne(key, key(o), p, q), x0, LastMove(o, q, last), ReplayOne(o, x, q, now), now)
    decreases |q|
  {
    if q != [] {
      if q[0].obj == o {
        if Play(x, q[0], now) == Broken { BrokenStays(o, q[1..], now); }
        StepMeans(p, q[0], x0, last, x, now);
        var moved := if q[0].kind != REINDEX then q[0].kind else last;
        FoldMeans(key, o, StepOne(p, q[0]), q[1..], x0, moved, Play(x, q[0], now), now);
      } else {
        assert key(q[0].obj) != key(o);
        FoldMeans(key, o, p, q[1..], x0, last, x, now);
      }
    }
  }

  /** No two objects share a key. */
  ghost predicate Injective(key: Obj -> Key) {
    forall a, b :: a != b ==> key(a) != key(b)
  }

  lemma {:induction false} ReplayOthers(o: Obj, cell: Cell, s: seq<Op>, now: Entry)
    requires forall i :: 0 <= i < |s| ==> s[i].obj != o
    ensures ReplayOne(o, cell, s, now) == cell
    decreases |s|
  {
    if s != [] { ReplayOthers(o, cell, s[1..], now); }
  }

  /** Replaying a queue with one operation per object plays just that operation. */
  lemma {:induction false} ReplayOnce(s: seq<Op>, i: nat, cell: Cell, now: Entry)
    requires forall a, b :: 0 <= a < b < |s| ==> s[a].obj != s[b].obj
    requires i < |s|
    ensures ReplayOne(s[i].obj, cell, s, now) == Play(cell, s[i], now)
    decreases |s|
  {
    if i == 0 {
      ReplayOthers(s[0].obj, Play(cell, s[0], now), s[1..], now);
    } else {
      ReplayOnce(s[1..], i - 1, cell, now);
    }
  }

  /** The object was there, was taken out, and is back at the end. */
  predicate Returns(o: Obj, q: seq<Op>, x0: Cell) {
    x0.Holds? && LastMove(o, q, REINDEX) == INDEX
  }

  /** What playing the compacted entry comes to. */
  lemma CompactedPlay(key: Obj -> Key, o: Obj, q: seq<Op>, x0: Cell, now: Entry)
    requires Injective(key)
    ensures var p := FoldOne(key, key(o), None, q);
            ReplayOne(o, x0, Optimized(key, q), now) ==
            if p.Some? && p.value.obj == o then Play(x0, p.value, now) else x0
  {
    var s, k := Optimized(key, q), key(o);
    OptimizedShape(key, q);
    OptimizedLookup(key, q, k);
    if i :| 0 <= i < |s| && s[i].obj == o {
      FoldOnce(key, s, i);
      forall a, b | 0 <= a < b < |s|
        ensures s[a].obj != s[b].obj
      {
        assert key(s[a].obj) != key(s[b].obj);
      }
      ReplayOnce(s, i, x0, now);
    } else {
      forall i | 0 <= i < |s|
        ensures key(s[i].obj) != k
      {
        assert s[i].obj != o;
      }
      FoldAbsent(key, k, None, s);
      ReplayOthers(o, x0, s, now);
    }
  }

  lemma {:induction false} FoldsOwn(key: Obj -> Key, o: Obj, p: Option<Op>, q: seq<Op>)
    requires Injective(key) && (p.Some? ==> p.value.obj == o)
    ensures var r := FoldOne(key, key(o), p, q); r.Some? ==> r.value.obj == o
    decreases |q|
  {
    if q != [] {
      if q[0].obj != o { assert key(q[0].obj) != key(o); }
      FoldsOwn(key, o, if key(q[0].obj) == key(o) then StepOne(p, q[0]) else p, q[1..]);
    }
  }

  lemma KeysIff(x: Entry, now: Entry)
    ensures x + now == now <==> x.Keys <= now.Keys
  {
    if x + now == now { assert (x + now).Keys == x.Keys + now.Keys; }
  }

  /** Playing the compacted entry does what the queue does, but an object that returns keeps what the
      catalog had of it beside its attributes. */
  lemma CompactedEnds(key: Obj -> Key, o: Obj, q: seq<Op>, x0: Cell, now: Entry)
    requires Injective(key) && x0 != Broken && ReplayOne(o, x0, q, now) != Broken
    ensures ReplayOne(o, x0, Optimized(key, q), now) ==
            if Returns(o, q, x0) then Holds(x0.entry + now) else ReplayOne(o, x0, q, now)
    ensures Returns(o, q, x0) ==> ReplayOne(o, x0, q, now) == Holds(now)
  {
    FoldMeans(key, o, None, q, x0, REINDEX, x0, now);
    FoldsOwn(key, o, None, q);
    CompactedPlay(key, o, q, x0, now);
  }

  // ---- where an object stands after a queue ------------------------------------------------------

  lemma {:induction false} ReplayOneConcat(o: Obj, x: Cell, a: seq<Op>, b: seq<Op>, now: Entry)
    ensures ReplayOne(o, x, a + b, now) == ReplayOne(o, ReplayOne(o, x, a, now), b, now)
    decreases |a|
  {
    if a == [] {
      assert a + b == b;
    } else {
      assert (a + b)[1..] == a[1..] + b;
      ReplayOneConcat(o, if a[0].obj == o then Play(x, a[0], now) else x, a[1..], b, now);
    }
  }

  lemma {:induction false} LastMoveConcat(o: Obj, a: seq<Op>, b: seq<Op>, last: int)
    ensures LastMove(o, a + b, last) == LastMove(o, b, LastMove(o, a, last))
    decreases |a|
  {
    if a == [] {
      assert a + b == b;
    } else {
      assert (a + b)[1..] == a[1..] + b;
      LastMoveConcat(o, a[1..], b, if a[0].obj == o && a[0].kind != REINDEX then a[0].kind else last);
    }
  }

  /** The last move tells where the object is. */
  lemma {:induction false} EndsAsMoved(o: Obj, q: seq<Op>, x: Cell, last: int, now: Entry)
    requires (last == INDEX ==> x == Holds(now)) && (last == UNINDEX ==> x == Absent)
    requires ReplayOne(o, x, q, now) != Broken
    ensures LastMove(o, q, last) == INDEX ==> ReplayOne(o, x, q, now) == Holds(now)
    ensures LastMove(o, q, last) == UNINDEX ==> ReplayOne(o, x, q, now) == Absent
    ensures UNINDEX <= last <= INDEX ==> UNINDEX <= LastMove(o, q, last) <= INDEX
    decreases |q|
  {
    if q != [] {
      if q[0].obj == o {
        if Play(x, q[0], now) == Broken { BrokenStays(o, q[1..], now); }
        assert now + Select(now, q[0].attrs) == now;
        EndsAsMoved(o, q[1..], Play(x, q[0], now), if q[0].kind != REINDEX then q[0].kind else last, now);
      } else {
        EndsAsMoved(o, q[1..], x, last, now);
      }
    }
  }

  /** What has moved never counts as unmoved again. */
  lemma {:induction false} MovedStays(o: Obj, q: seq<Op>, last: int)
    ensures LastMove(o, q, last) == REINDEX ==> last == REINDEX
    decreases |q|
  {
    if q != [] { MovedStays(o, q[1..], if q[0].obj == o && q[0].kind != REINDEX then q[0].kind else last); }
  }

  /** An object that is not moved is there afterwards, with nothing but its attributes added. */
  lemma {:induction false} UnmovedHolds(o: Obj, q: seq<Op>, x: Cell, now: Entry)
    requires x.Holds? && LastMove(o, q, REINDEX) == REINDEX && ReplayOne(o, x, q, now) != Broken
    ensures var y := ReplayOne(o, x, q, now); y.Holds? && y.entry + now == x.entry + now
    ensures x.entry + now == x.entry ==> ReplayOne(o, x, q, now) == x
    decreases |q|
  {
    if q != [] {
      if q[0].obj == o {
        if Play(x, q[0], now) == Broken { BrokenStays(o, q[1..], now); }
        MovedStays(o, q[1..], if q[0].kind != REINDEX then q[0].kind else REINDEX);
        var part := Select(now, q[0].attrs);
        assert x.entry + part + now == x.entry + now;
        assert x.entry + now + part == x.entry + now;
        UnmovedHolds(o, q[1..], Holds(x.entry + part), now);
      } else {
        UnmovedHolds(o, q[1..], x, now);
      }
    }
  }

  /** Whether a history suits an object that is there does not depend on what the catalog has of it. */
  lemma {:induction false} SuitsAlike(o: Obj, q: seq<Op>, a: Entry, b: Entry, now: Entry)
    requires ReplayOne(o, Holds(a), q, now) != Broken
    ensures ReplayOne(o, Holds(b), q, now) != Broken
    decreases |q|
  {
    if q != [] {
      if q[0].obj == o {
        if Play(Holds(a), q[0], now) == Broken { BrokenStays(o, q[1..], now); }
        if q[0].kind == REINDEX {
          SuitsAlike(o, q[1..], a + Select(now, q[0].attrs), b + Select(now, q[0].attrs), now);
        }
      } else {
        SuitsAlike(o, q[1..], a, b, now);
      }
    }
  }

  /** The catalog knows no attribute the objects do not have. */
  ghost predicate Fits(c: Catalog, now: Obj -> Entry) {
    forall o :: o in c ==> c[o].Keys <= now(o).Keys
  }

  ghost predicate FitsOne(c: Catalog, q: seq<Op>, now: Obj -> Entry, o: Obj) {
    Returns(o, q, CellOf(c, o)) ==> CellOf(c, o).entry.Keys <= now(o).Keys
  }

  /** The catalog knows no attribute of an object taken out and put back that the object does not have. */
  ghost predicate FitsReturning(c: Catalog, q: seq<Op>, now: Obj -> Entry) {
    forall o {:trigger FitsOne(c, q, now, o)} :: FitsOne(c, q, now, o)
  }

  lemma FitsAll(c: Catalog, q: seq<Op>, now: Obj -> Entry)
    requires Fits(c, now)
    ensures FitsReturning(c, q, now)
  {
  }

  /** The compacted queue suits every object the queue suits. */
  lemma CompactedRuns(key: Obj -> Key, c: Catalog, q: seq<Op>, now: Obj -> Entry)
    requires Injective(key) && Replay(c, q, now).Some?
    ensures Replay(c, Optimized(key, q), now).Some?
  {
    forall o
      ensures Sound(c, Optimized(key, q), now, o)
    {
      ReplayLookup(c, q, now, o);
      CompactedEnds(key, o, q, CellOf(c, o), now(o));
    }
    ReplayRuns(c, Optimized(key, q), now);
  }

  /** Replaying the compacted queue gives the same catalog as replaying the queue itself if and only if the
      catalog fits every object that the queue takes out and puts back. */
  lemma CompactionPreserves(key: Obj -> Key, c: Catalog, q: seq<Op>, now: Obj -> Entry)
    requires Injective(key) && Replay(c, q, now).Some?
    ensures Replay(c, Optimized(key, q), now) == Replay(c, q, now) <==> FitsReturning(c, q, now)
  {
    var s := Optimized(key, q);
    CompactedRuns(key, c, q, now);
    var d, e := Replay(c, q, now).value, Replay(c, s, now).value;
    forall o
      ensures FitsOne(c, q, now, o) <==> CellOf(d, o) == CellOf(e, o)
    {
      ReplayLookup(c, q, now, o);
      ReplayLookup(c, s, now, o);
      CompactedEnds(key, o, q, CellOf(c, o), now(o));
      if o in c { KeysIff(c[o], now(o)); }
    }
    if FitsReturning(c, q, now) {
      forall o
        ensures o in d <==> o in e
        ensures o in d ==> d[o] == e[o]
      {
        assert FitsOne(c, q, now, o) && CellOf(d, o) == CellOf(e, o);
      }
      assert d == e;
    }
  }

  ghost predicate Kept(key: Obj -> Key, c: Catalog, q: seq<Op>, now: Obj -> Entry) {
    FitsReturning(c, q, now) && Replay(c, q, now).Some? ==> Replay(c, Optimized(key, q), now) == Replay(c, q, now)
  }

  /** Of two removals under one key the compacted queue keeps only the later one. */
  lemma RemovalForgotten(key: Obj -> Key, q: seq<Op>)
    requires |q| == 2 && q[0].kind == UNINDEX && q[1].kind == UNINDEX
    requires q[0].obj != q[1].obj && key(q[0].obj) == key(q[1].obj)
    ensures forall i :: 0 <= i < |Optimized(key, q)| ==> Optimized(key, q)[i].obj != q[0].obj
  {
    var s, t := Optimized(key, q), Fold(key, map[], q);
    OptimizedShape(key, q);
    var t1 := FoldStep(key, map[], q[0]);
    var t2 := FoldStep(key, t1, q[1]);
    assert q[1..][1..] == [];
    assert Fold(key, t1, q[1..]) == t2;
    assert t == t2 && forall k :: k in t2 ==> t2[k].obj == q[1].obj;
    forall i | 0 <= i < |s|
      ensures s[i].obj != q[0].obj
    {
      assert s[i] in s && s[i] in t.Values;
    }
  }

  /** Removing two objects one after the other leaves neither. */
  lemma BothRemoved(c: Catalog, q: seq<Op>, now: Obj -> Entry)
    requires |q| == 2 && q[0].kind == UNINDEX && q[1].kind == UNINDEX
    requires q[0].obj in c && q[1].obj in c && q[0].obj != q[1].obj
    ensures Replay(c, q, now) == Some(c - {q[0].obj} - {q[1].obj})
  {
    var c1 := c - {q[0].obj};
    assert PlayOn(c, q[0], now) == Some(c1);
    assert PlayOn(c1, q[1], now) == Some(c1 - {q[1].obj});
    assert q[1..][1..] == [];
    assert Replay(c1, q[1..], now) == Some(c1 - {q[1].obj});
  }

  /** Two objects with one key: a queue that removes both from a catalog is not kept. */
  lemma CollisionLoses(key: Obj -> Key, c: Catalog, q: seq<Op>, now: Obj -> Entry)
    requires |q| == 2 && q[0].kind == UNINDEX && q[1].kind == UNINDEX && q[0].obj in c && q[1].obj in c
    requires q[0].obj != q[1].obj && key(q[0].obj) == key(q[1].obj) && Fits(c, now)
    ensures !Kept(key, c, q, now)
  {
    var a, s := q[0].obj, Optimized(key, q);
    RemovalForgotten(key, q);
    BothRemoved(c, q, now);
    FitsAll(c, q, now);
    ReplayOthers(a, CellOf(c, a), s, now(a));
    if Replay(c, s, now).Some? {
      ReplayLookup(c, s, now, a);
      assert a in Replay(c, s, now).value;
    }
  }

  /** For every catalog and every well-formed history, the compacted queue means what the queue means. */
  ghost predicate KeepsMeaning(key: Obj -> Key) {
    forall c, q, now {:trigger Kept(key, c, q, now)} :: Kept(key, c, q, now)
  }

  /** Compaction keeps the meaning of queues exactly when no two objects share a key. */
  lemma MeaningKeptIff(key: Obj -> Key)
    ensures KeepsMeaning(key) <==> Injective(key)
  {
    if Injective(key) {
      forall c, q, now
        ensures Kept(key, c, q, now)
      {
        if Replay(c, q, now).Some? { CompactionPreserves(key, c, q, now); }
      }
    } else {
      var a, b :| a != b && key(a) == key(b);
      var c, q := TwoBare(a, b), [Op(UNINDEX, a, None), Op(UNINDEX, b, None)];
      CollisionLoses(key, c, q, Bare);
      assert !Kept(key, c, q, Bare);
    }
  }

  /** An object without attributes. */
  function Bare(o: Obj): Entry { map[] }

  function TwoBare(a: Obj, b: Obj): (c: Catalog)
    ensures a in c && b in c && Fits(c, Bare)
  {
    map[a := Bare(a), b := Bare(b)]
  }

  /** For instance, an attribute an object no longer has outlives its removal when the object comes back. */
  lemma StaleRevived(key: Obj -> Key, o: Obj, a: Attr, v: int)
    requires Injective(key)
    ensures var c, q := map[o := map[a := v]], [Op(UNINDEX, o, None), Op(INDEX, o, None)];
            Replay(c, q, Bare) == Some(map[o := map[]]) && Replay(c, Optimized(key, q), Bare) != Replay(c, q, Bare)
  {
    var c: Catalog, q := map[o := map[a := v]], [Op(UNINDEX, o, None), Op(INDEX, o, None)];
    assert q[1..] == [Op(INDEX, o, None)] && q[1..][1..] == [];
    assert Select(map[], None) == map[];
    assert Replay(c - {o}, q[1..], Bare) == Some((c - {o})[o := map[]]);
    assert LastMove(o, q[1..], UNINDEX) == INDEX;
    assert a in CellOf(c, o).entry.Keys && !FitsOne(c, q, Bare, o);
    CompactionPreserves(key, c, q, Bare);
  }
}
