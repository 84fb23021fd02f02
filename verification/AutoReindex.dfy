/** Automatic re-indexing: attribute writes, the store, the index and the transaction around them. */
module AutoReindex {
  import opened Wrappers
  import opened QueueOps
  import IndexQueues

  /** An attribute value; Nothing is Python's None. */
  datatype PyVal = Nothing | Val(v: int)

  /** The place in the index of one attribute of one object. */
  datatype Slot = Slot(obj: Obj, attr: Attr)

  type Attrs = map<Attr, PyVal>

  /** What the storage keeps of a committed transaction. */
  datatype Store = Store(attrs: map<Obj, Attrs>, stored: set<Obj>, index: map<Slot, PyVal>)

  /**
   * The objects in memory, the stored ones, those that carry their uid, the index, the queued
   * operations, the last committed state, whether writes are reported and reports acted on.
   */
  datatype State = State(
    attrs: map<Obj, Attrs>, stored: set<Obj>, marked: set<Obj>, index: map<Slot, PyVal>,
    pending: seq<Op>, committed: Store, listening: bool, enabled: bool)

  datatype Move =
    | Create(obj: Obj, values: Attrs)
    | Fetch(obj: Obj)
    | Add(obj: Obj)
    | Write(obj: Obj, attr: Attr, value: PyVal)
    | Remove(obj: Obj)
    | Reindex(obj: Obj, attributes: Option<set<Attr>>)
    | Enable(on: bool)
    | Commit
    | Abort

  predicate Touches(e: Op, o: Obj, a: Attr) { e.obj == o && (e.attrs.None? || a in e.attrs.value) }

  /** A queued operation will look at this attribute of this object. */
  ghost predicate Covered(q: seq<Op>, o: Obj, a: Attr) { exists i :: 0 <= i < |q| && Touches(q[i], o, a) }

  /** A write to this attribute is reported: it replaces a value, is indexed, and the object has its uid. */
  predicate Marks(indexed: set<Attr>, s: State, o: Obj, a: Attr) {
    s.listening && a in indexed && o in s.marked && o in s.attrs && a in s.attrs[o] && s.attrs[o][a].Val?
  }

  /** The index with these attributes of one object as they are now. */
  function Indexed(index: map<Slot, PyVal>, o: Obj, now: Attrs, wanted: set<Attr>): map<Slot, PyVal> {
    index + map a | a in wanted && a in now :: Slot(o, a) := now[a]
  }

  function Wanted(indexed: set<Attr>, attributes: Option<set<Attr>>): set<Attr> {
    if attributes.None? then indexed else indexed * attributes.value
  }

  /** The index after one object was indexed again. */
  function Reindexed(indexed: set<Attr>, attrs: map<Obj, Attrs>, index: map<Slot, PyVal>, e: Op): map<Slot, PyVal> {
    Indexed(index, e.obj, if e.obj in attrs then attrs[e.obj] else map[], Wanted(indexed, e.attrs))
  }

  /** Operations the processor acts on, for objects that have their indexed fields. */
  ghost predicate Indexable(indexed: set<Attr>, attrs: map<Obj, Attrs>, ops: seq<Op>) {
    forall i :: 0 <= i < |ops| ==> ops[i].kind == REINDEX && ops[i].obj in attrs && indexed <= attrs[ops[i].obj].Keys
  }

  /** The index after the processor received these operations. */
  function Played(indexed: set<Attr>, attrs: map<Obj, Attrs>, index: map<Slot, PyVal>, ops: seq<Op>): map<Slot, PyVal>
    decreases |ops|
  {
    if ops == [] then index
    else if ops[0].kind != REINDEX then Played(indexed, attrs, index, ops[1..])
    else Played(indexed, attrs, Reindexed(indexed, attrs, index, ops[0]), ops[1..])
  }

  // ---- what always holds -----------------------------------------------------------------------

  ghost predicate SaneStore(indexed: set<Attr>, attrs: map<Obj, Attrs>, stored: set<Obj>, index: map<Slot, PyVal>) {
    && (forall o :: o in attrs ==> indexed <= attrs[o].Keys)
    && (forall o :: o in stored ==> o in attrs)
    && (forall o, a :: o in stored && a in indexed ==> Slot(o, a) in index)
    && (forall x :: x in index ==> x.attr in indexed)
  }

  /** Objects have their indexed fields; stored objects have index entries; only re-indexing is queued. */
  ghost predicate Sane(indexed: set<Attr>, s: State) {
    && SaneStore(indexed, s.attrs, s.stored, s.index)
    && SaneStore(indexed, s.committed.attrs, s.committed.stored, s.committed.index)
    && (forall o :: o in s.marked ==> o in s.attrs)
    && (forall i :: 0 <= i < |s.pending| ==> s.pending[i].kind == REINDEX && s.pending[i].obj in s.marked)
  }

  predicate Possible(indexed: set<Attr>, s: State, m: Move) {
    match m
    case Create(o, values) => o !in s.attrs && indexed <= values.Keys
    case Fetch(o) => o in s.stored
    case Add(o) => o in s.attrs && o !in s.stored
    case Write(o, a, v) => o in s.attrs
    case Remove(o) => o in s.stored && o in s.marked
    case Reindex(o, attributes) => o in s.marked
    case _ => true
  }

  /** The attributes the storage keeps: those of stored objects. */
  function StoredOnly(attrs: map<Obj, Attrs>, stored: set<Obj>): map<Obj, Attrs> {
    map o | o in stored && o in attrs :: attrs[o]
  }

  /** One step of the application or of the transaction. */
  function After(indexed: set<Attr>, key: Obj -> Key, s: State, m: Move): State
    requires Possible(indexed, s, m)
  {
    match m
    case Create(o, values) => s.(attrs := s.attrs[o := values])
    case Fetch(o) => s.(marked := s.marked + {o})
    case Add(o) =>
      s.(stored := s.stored + {o}, marked := s.marked + {o},
         index := Reindexed(indexed, s.attrs, s.index, Op(INDEX, o, None)))
    case Write(o, a, v) =>
      s.(attrs := s.attrs[o := s.attrs[o][a := v]],
         pending := if Marks(indexed, s, o, a) then s.pending + [Op(REINDEX, o, Some({a}))] else s.pending)
    case Remove(o) =>
      s.(stored := s.stored - {o}, index := map x | x in s.index && x.obj != o :: s.index[x])
    case Reindex(o, attributes) => s.(index := Reindexed(indexed, s.attrs, s.index, Op(REINDEX, o, attributes)))
    case Enable(on) => s.(listening := s.listening || on, enabled := on)
    case Commit =>
      var index := if s.enabled then Played(indexed, s.attrs, s.index, Optimized(key, s.pending)) else s.index;
      s.(index := index, pending := [], committed := Store(StoredOnly(s.attrs, s.stored), s.stored, index))
    case Abort =>
      s.(attrs := s.attrs + s.committed.attrs, stored := s.committed.stored, index := s.committed.index, pending := [])
  }

  // ---- re-indexing requests through the compaction ----------------------------------------------

  ghost predicate AllReindex(q: seq<Op>) { forall i :: 0 <= i < |q| ==> q[i].kind == REINDEX }

  ghost predicate Asks(p: Option<Op>, a: Attr) { p.Some? && (p.value.attrs.None? || a in p.value.attrs.value) }

  /** The compacted entry of an object asks for what any of its operations asks for. */
  lemma {:induction false} FoldAsks(key: Obj -> Key, o: Obj, a: Attr, p: Option<Op>, q: seq<Op>)
    requires Injective(key) && AllReindex(q) && (p.Some? ==> p.value.kind == REINDEX && p.value.obj == o)
    ensures Asks(FoldOne(key, key(o), p, q), a) <==> Asks(p, a) || Covered(q, o, a)
    ensures var r := FoldOne(key, key(o), p, q); r.Some? ==> r.value.kind == REINDEX && r.value.obj == o
    decreases |q|
  {
    if q != [] {
      assert q[0].obj != o ==> key(q[0].obj) != key(o);
      var next := if q[0].obj == o then StepOne(p, q[0]) else p;
      FoldAsks(key, o, a, next, q[1..]);
      CoveredCons(q, o, a);
      assert Asks(next, a) <==> Asks(p, a) || Touches(q[0], o, a);
    }
  }

  lemma CoveredCons(q: seq<Op>, o: Obj, a: Attr)
    requires q != []
    ensures Covered(q, o, a) <==> Touches(q[0], o, a) || Covered(q[1..], o, a)
  {
    if i :| 0 <= i < |q| && Touches(q[i], o, a) {
      if i > 0 { assert q[1..][i - 1] == q[i]; }
    }
    if i :| 0 <= i < |q[1..]| && Touches(q[1..][i], o, a) { assert q[i + 1] == q[1..][i]; }
  }

  /** Compaction keeps every requested attribute and adds none. */
  lemma CoveredOptimized(key: Obj -> Key, q: seq<Op>, o: Obj, a: Attr)
    requires Injective(key) && AllReindex(q)
    ensures AllReindex(Optimized(key, q))
    ensures Covered(Optimized(key, q), o, a) <==> Covered(q, o, a)
  {
    var r := Optimized(key, q);
    OptimizedShape(key, q);
    forall i | 0 <= i < |r|
      ensures r[i].kind == REINDEX
    {
      FoldOnce(key, r, i);
      OptimizedLookup(key, q, key(r[i].obj));
      FoldAsks(key, r[i].obj, a, None, q);
    }
    OptimizedLookup(key, q, key(o));
    FoldAsks(key, o, a, None, q);
    FoldAsks(key, o, a, None, r);
  }

  lemma OptimizedFrom(key: Obj -> Key, q: seq<Op>, i: nat)
    requires i < |Optimized(key, q)|
    ensures exists j :: 0 <= j < |q| && key(q[j].obj) == key(Optimized(key, q)[i].obj)
  {
    var r := Optimized(key, q);
    OptimizedShape(key, q);
    FoldOnce(key, r, i);
    OptimizedLookup(key, q, key(r[i].obj));
    if forall j :: 0 <= j < |q| ==> key(q[j].obj) != key(r[i].obj) {
      FoldAbsent(key, key(r[i].obj), None, q);
    }
  }

  /** The compacted queue asks only for objects that carry their uid and have their indexed fields. */
  ghost predicate Deliverable(indexed: set<Attr>, attrs: map<Obj, Attrs>, marked: set<Obj>, ops: seq<Op>) {
    Indexable(indexed, attrs, ops) && forall i :: 0 <= i < |ops| ==> ops[i].obj in marked
  }

  lemma OptimizedReindexes(indexed: set<Attr>, key: Obj -> Key, s: State)
    requires Sane(indexed, s) && Injective(key)
    ensures Deliverable(indexed, s.attrs, s.marked, Optimized(key, s.pending))
  {
    var r := Optimized(key, s.pending);
    forall i | 0 <= i < |r|
      ensures r[i].kind == REINDEX && r[i].obj in s.attrs && indexed <= s.attrs[r[i].obj].Keys && r[i].obj in s.marked
    {
      CoveredOptimized(key, s.pending, r[i].obj, "");
      OptimizedFrom(key, s.pending, i);
      var j :| 0 <= j < |s.pending| && key(s.pending[j].obj) == key(r[i].obj);
      assert s.pending[j].obj == r[i].obj;
    }
  }

  /** Each slot ends with the object's value if some operation asked for it, else as it was. */
  lemma {:induction false} PlayedAt(indexed: set<Attr>, attrs: map<Obj, Attrs>, index: map<Slot, PyVal>, ops: seq<Op>,
                                    o: Obj, a: Attr)
    requires Indexable(indexed, attrs, ops) && a in indexed
    ensures var r := Played(indexed, attrs, index, ops);
            if Covered(ops, o, a) then o in attrs && a in attrs[o] && Slot(o, a) in r && r[Slot(o, a)] == attrs[o][a]
            else (Slot(o, a) in r <==> Slot(o, a) in index) && (Slot(o, a) in r ==> r[Slot(o, a)] == index[Slot(o, a)])
    decreases |ops|
  {
    if ops != [] {
      assert forall i :: 0 <= i < |ops| - 1 ==> ops[1..][i] == ops[i + 1];
      PlayedAt(indexed, attrs, Reindexed(indexed, attrs, index, ops[0]), ops[1..], o, a);
      CoveredCons(ops, o, a);
    }
  }

  lemma {:induction false} PlayedSlots(indexed: set<Attr>, attrs: map<Obj, Attrs>, index: map<Slot, PyVal>,
                                       ops: seq<Op>)
    requires Indexable(indexed, attrs, ops) && forall x :: x in index ==> x.attr in indexed
    ensures forall x :: x in Played(indexed, attrs, index, ops) ==> x.attr in indexed
    decreases |ops|
  {
    if ops != [] {
      assert forall i :: 0 <= i < |ops| - 1 ==> ops[1..][i] == ops[i + 1];
      PlayedSlots(indexed, attrs, Reindexed(indexed, attrs, index, ops[0]), ops[1..]);
    }
  }

  /** The commit brings every slot asked for to the object's value. */
  lemma CommitServes(indexed: set<Attr>, key: Obj -> Key, s: State, o: Obj, a: Attr)
    requires Sane(indexed, s) && Injective(key) && a in indexed
    ensures var x, r := Slot(o, a), Played(indexed, s.attrs, s.index, Optimized(key, s.pending));
            if Covered(s.pending, o, a) then o in s.attrs && a in s.attrs[o] && x in r && r[x] == s.attrs[o][a]
            else (x in r <==> x in s.index) && (x in r ==> r[x] == s.index[x])
  {
    OptimizedReindexes(indexed, key, s);
    CoveredOptimized(key, s.pending, o, a);
    PlayedAt(indexed, s.attrs, s.index, Optimized(key, s.pending), o, a);
  }

  // ---- the index against the objects -------------------------------------------------------------

  /** The slot holds the value of a stored object, and nothing else. */
  ghost predicate UpToDate(attrs: map<Obj, Attrs>, stored: set<Obj>, index: map<Slot, PyVal>, o: Obj, a: Attr) {
    var x := Slot(o, a);
    if o in stored then x in index && o in attrs && a in attrs[o] && index[x] == attrs[o][a]
    else x !in index
  }

  /** The slot is up to date, or will be once the queue is processed. */
  ghost predicate Right(s: State, o: Obj, a: Attr) {
    if o in s.stored then UpToDate(s.attrs, s.stored, s.index, o, a) || Covered(s.pending, o, a)
    else UpToDate(s.attrs, s.stored, s.index, o, a) && !Covered(s.pending, o, a)
  }

  /** The index says exactly what the stored objects say. */
  ghost predicate Exact(indexed: set<Attr>, attrs: map<Obj, Attrs>, stored: set<Obj>, index: map<Slot, PyVal>) {
    forall o, a {:trigger UpToDate(attrs, stored, index, o, a)} :: a in indexed ==> UpToDate(attrs, stored, index, o, a)
  }

  ghost predicate Tracked(indexed: set<Attr>, s: State) {
    forall o, a {:trigger Right(s, o, a)} :: a in indexed ==> Right(s, o, a)
  }

  /** Every difference is queued, and the last committed index was exact. */
  ghost predicate Settled(indexed: set<Attr>, s: State) {
    Tracked(indexed, s) && Exact(indexed, s.committed.attrs, s.committed.stored, s.committed.index)
  }

  ghost predicate PendingFor(indexed: set<Attr>, s: State, o: Obj) {
    exists a :: a in indexed && Covered(s.pending, o, a)
  }

  /** What is queued makes no difference: every attribute asked for is up to date. */
  ghost predicate QueuedUpToDate(indexed: set<Attr>, s: State) {
    forall o, a {:trigger Covered(s.pending, o, a)} ::
      a in indexed && Covered(s.pending, o, a) ==> UpToDate(s.attrs, s.stored, s.index, o, a)
  }

  /** With every difference queued, the index is exact when what is queued makes none. */
  lemma QueuedIsExact(indexed: set<Attr>, s: State)
    requires Tracked(indexed, s)
    ensures Exact(indexed, s.attrs, s.stored, s.index) <==> QueuedUpToDate(indexed, s)
  {
    if QueuedUpToDate(indexed, s) {
      forall o, a | a in indexed
        ensures UpToDate(s.attrs, s.stored, s.index, o, a)
      {
        assert Right(s, o, a);
      }
    }
  }

  /** What the application has to see to. */
  ghost predicate Safe(indexed: set<Attr>, s: State, m: Move)
    requires Possible(indexed, s, m)
  {
    match m
    case Write(o, a, v) =>
      a in indexed ==>
        if s.listening && o in s.marked && a in s.attrs[o] && s.attrs[o][a] != Nothing then o in s.stored
        else o !in s.stored || (a in s.attrs[o] && s.attrs[o][a] == v) || Covered(s.pending, o, a)
    case Remove(o) => !PendingFor(indexed, s, o)
    case Reindex(o, attributes) =>
      o in s.stored || forall a :: a in indexed ==> attributes.Some? && a !in attributes.value
    case Commit => s.enabled || QueuedUpToDate(indexed, s)
    case _ => true
  }

  /** Every step keeps the objects, the store and the queue in order. */
  lemma StepSane(indexed: set<Attr>, key: Obj -> Key, s: State, m: Move)
    requires Sane(indexed, s) && Possible(indexed, s, m) && Injective(key)
    ensures Sane(indexed, After(indexed, key, s, m))
  {
    if m.Commit? {
      CommitSane(indexed, key, s);
    } else {
      var t := After(indexed, key, s, m);
      assert SaneStore(indexed, t.attrs, t.stored, t.index);
    }
  }

  lemma CommitSane(indexed: set<Attr>, key: Obj -> Key, s: State)
    requires Sane(indexed, s) && Injective(key)
    ensures Sane(indexed, After(indexed, key, s, Commit))
  {
    OptimizedReindexes(indexed, key, s);
    var r := Optimized(key, s.pending);
    PlayedSlots(indexed, s.attrs, s.index, r);
    var t := After(indexed, key, s, Commit);
    forall o, a | o in t.stored && a in indexed
      ensures Slot(o, a) in t.index
    {
      CommitServes(indexed, key, s, o, a);
    }
  }

  /** Writing keeps track of the index exactly when the write is safe. */
  lemma WriteIff(indexed: set<Attr>, key: Obj -> Key, s: State, o: Obj, a: Attr, v: PyVal)
    requires Sane(indexed, s) && o in s.attrs && Injective(key) && Tracked(indexed, s)
    ensures Tracked(indexed, After(indexed, key, s, Write(o, a, v))) <==> Safe(indexed, s, Write(o, a, v))
  {
    var t := After(indexed, key, s, Write(o, a, v));
    forall p, b | b in indexed && (p != o || b != a)
      ensures Right(t, p, b)
    {
      assert Right(s, p, b);
      CoveredSnoc(s.pending, Op(REINDEX, o, Some({a})), p, b);
    }
    if a in indexed {
      assert Right(s, o, a);
      CoveredSnoc(s.pending, Op(REINDEX, o, Some({a})), o, a);
      assert Right(t, o, a) <==> Safe(indexed, s, Write(o, a, v));
    }
  }

  lemma CoveredSnoc(q: seq<Op>, e: Op, o: Obj, a: Attr)
    ensures Covered(q + [e], o, a) <==> Covered(q, o, a) || Touches(e, o, a)
  {
    if i :| 0 <= i < |q| && Touches(q[i], o, a) { assert (q + [e])[i] == q[i]; }
    if Touches(e, o, a) { assert (q + [e])[|q|] == e; }
    if i :| 0 <= i < |q + [e]| && Touches((q + [e])[i], o, a) {
      if i < |q| { assert q[i] == (q + [e])[i]; }
    }
  }

  /** Removing keeps track of the index exactly when nothing is queued for the object. */
  lemma RemoveIff(indexed: set<Attr>, key: Obj -> Key, s: State, o: Obj)
    requires Sane(indexed, s) && o in s.stored && o in s.marked && Injective(key) && Tracked(indexed, s)
    ensures Tracked(indexed, After(indexed, key, s, Remove(o))) <==> Safe(indexed, s, Remove(o))
  {
    var t := After(indexed, key, s, Remove(o));
    forall p, b | b in indexed && p != o
      ensures Right(t, p, b)
    {
      assert Right(s, p, b);
    }
    forall b | b in indexed
      ensures Right(t, o, b) <==> !Covered(s.pending, o, b)
    {
      assert Right(s, o, b);
    }
  }

  /** Indexing by hand keeps track of the index exactly when the object is stored or nothing is indexed. */
  lemma ReindexIff(indexed: set<Attr>, key: Obj -> Key, s: State, o: Obj, attributes: Option<set<Attr>>)
    requires Sane(indexed, s) && o in s.marked && Injective(key) && Tracked(indexed, s)
    ensures Tracked(indexed, After(indexed, key, s, Reindex(o, attributes))) <==>
            Safe(indexed, s, Reindex(o, attributes))
  {
    var t := After(indexed, key, s, Reindex(o, attributes));
    forall p, b | b in indexed
      ensures Right(t, p, b) <==> p != o || o in s.stored || (attributes.Some? && b !in attributes.value)
    {
      assert Right(s, p, b);
    }
    if Tracked(indexed, t) && o !in s.stored {
      forall a | a in indexed
        ensures attributes.Some? && a !in attributes.value
      {
        assert Right(t, o, a);
      }
    }
  }

  /** With re-indexing enabled, the commit makes the index exact if and only if every difference was queued. */
  lemma CommitExactIff(indexed: set<Attr>, key: Obj -> Key, s: State)
    requires Sane(indexed, s) && Injective(key) && s.enabled
    ensures var t := After(indexed, key, s, Commit);
            Exact(indexed, t.attrs, t.stored, t.index) <==> Tracked(indexed, s)
  {
    var t := After(indexed, key, s, Commit);
    forall o, a | a in indexed
      ensures UpToDate(t.attrs, t.stored, t.index, o, a) <==> Right(s, o, a)
    {
      CommitServes(indexed, key, s, o, a);
    }
  }

  /** With an empty queue, keeping track and being exact are the same. */
  lemma NothingPending(indexed: set<Attr>, s: State)
    requires s.pending == []
    ensures Tracked(indexed, s) <==> Exact(indexed, s.attrs, s.stored, s.index)
  {
    forall o, a | a in indexed
      ensures Right(s, o, a) <==> UpToDate(s.attrs, s.stored, s.index, o, a)
    {
    }
  }

  /** The storage keeps all that exactness looks at. */
  lemma StoredIsEnough(indexed: set<Attr>, attrs: map<Obj, Attrs>, stored: set<Obj>, index: map<Slot, PyVal>)
    ensures Exact(indexed, StoredOnly(attrs, stored), stored, index) <==> Exact(indexed, attrs, stored, index)
  {
    forall o, a
      ensures UpToDate(StoredOnly(attrs, stored), stored, index, o, a) <==> UpToDate(attrs, stored, index, o, a)
    {
    }
  }

  lemma AbortSettles(indexed: set<Attr>, key: Obj -> Key, s: State)
    requires Sane(indexed, s) && Injective(key) && Settled(indexed, s)
    ensures var t := After(indexed, key, s, Abort); Settled(indexed, t) && Exact(indexed, t.attrs, t.stored, t.index)
  {
    var t, c := After(indexed, key, s, Abort), s.committed;
    forall o, a | a in indexed
      ensures UpToDate(t.attrs, t.stored, t.index, o, a)
    {
      assert UpToDate(c.attrs, c.stored, c.index, o, a);
    }
    NothingPending(indexed, t);
  }

  lemma QuietMoves(indexed: set<Attr>, key: Obj -> Key, s: State, m: Move)
    requires Sane(indexed, s) && Possible(indexed, s, m) && Injective(key) && Tracked(indexed, s)
    requires m.Create? || m.Fetch? || m.Add? || m.Enable?
    ensures Tracked(indexed, After(indexed, key, s, m))
  {
    var t := After(indexed, key, s, m);
    forall o, a | a in indexed
      ensures Right(t, o, a)
    {
      assert Right(s, o, a);
    }
  }

  /**
   * Over any run: a step keeps every difference between index and objects queued, and every committed
   * index exact, if and only if it is safe.
   */
  lemma SettledIffSafe(indexed: set<Attr>, key: Obj -> Key, s: State, m: Move)
    requires Sane(indexed, s) && Possible(indexed, s, m) && Injective(key) && Settled(indexed, s)
    ensures Settled(indexed, After(indexed, key, s, m)) <==> Safe(indexed, s, m)
  {
    match m
    case Write(o, a, v) => WriteIff(indexed, key, s, o, a, v);
    case Remove(o) => RemoveIff(indexed, key, s, o);
    case Reindex(o, attributes) => ReindexIff(indexed, key, s, o, attributes);
    case Commit =>
      var t := After(indexed, key, s, m);
      NothingPending(indexed, t);
      StoredIsEnough(indexed, t.attrs, t.stored, t.index);
      QueuedIsExact(indexed, s);
      if s.enabled { CommitExactIff(indexed, key, s); }
    case Abort => AbortSettles(indexed, key, s);
    case _ => QuietMoves(indexed, key, s, m);
  }

  ghost function Run(indexed: set<Attr>, key: Obj -> Key, s: State, moves: seq<Move>): Option<State>
    requires Sane(indexed, s) && Injective(key)
    decreases |moves|
  {
    if moves == [] then Some(s)
    else if !Possible(indexed, s, moves[0]) || !Safe(indexed, s, moves[0]) then None
    else
      StepSane(indexed, key, s, moves[0]);
      Run(indexed, key, After(indexed, key, s, moves[0]), moves[1..])
  }

  /** After any run of safe steps, differences are queued, and a last commit or abort leaves the index exact. */
  lemma {:induction false} RunSettled(indexed: set<Attr>, key: Obj -> Key, s: State, moves: seq<Move>)
    requires Sane(indexed, s) && Injective(key) && Settled(indexed, s) && Run(indexed, key, s, moves).Some?
    ensures var t := Run(indexed, key, s, moves).value;
            Sane(indexed, t) && Settled(indexed, t)
            && (moves != [] && (moves[|moves| - 1].Commit? || moves[|moves| - 1].Abort?) ==>
                  Exact(indexed, t.attrs, t.stored, t.index))
    decreases |moves|
  {
    if moves != [] {
      StepSane(indexed, key, s, moves[0]);
      SettledIffSafe(indexed, key, s, moves[0]);
      var t := After(indexed, key, s, moves[0]);
      RunSettled(indexed, key, t, moves[1..]);
      if |moves| == 1 && (moves[0].Commit? || moves[0].Abort?) { NothingPending(indexed, t); }
    }
  }

  /** A value written over None is not reported: the next commit leaves the old entry in the index. */
  lemma NoneGoesStale(indexed: set<Attr>, key: Obj -> Key, s: State, o: Obj, a: Attr, v: PyVal)
    requires Sane(indexed, s) && Injective(key) && Settled(indexed, s) && s.enabled
    requires o in s.stored && a in indexed && s.attrs[o][a] == Nothing && v != Nothing && !Covered(s.pending, o, a)
    ensures var t := After(indexed, key, After(indexed, key, s, Write(o, a, v)), Commit);
            t.attrs[o][a] == v && Slot(o, a) in t.index && t.index[Slot(o, a)] == Nothing
  {
    var w := After(indexed, key, s, Write(o, a, v));
    StepSane(indexed, key, s, Write(o, a, v));
    CommitServes(indexed, key, w, o, a);
    assert Right(s, o, a);
  }

  /** An object removed with a write still queued is back in the index after the commit. */
  lemma RemovedComesBack(indexed: set<Attr>, key: Obj -> Key, s: State, o: Obj, a: Attr)
    requires Sane(indexed, s) && Injective(key) && s.enabled
    requires o in s.stored && o in s.marked && a in indexed && Covered(s.pending, o, a)
    ensures var t := After(indexed, key, After(indexed, key, s, Remove(o)), Commit);
            o !in t.stored && Slot(o, a) in t.index && t.index[Slot(o, a)] == s.attrs[o][a]
  {
    StepSane(indexed, key, s, Remove(o));
    CommitServes(indexed, key, After(indexed, key, s, Remove(o)), o, a);
  }

  // ---- the database object -----------------------------------------------------------------------

  datatype Outcome = Done | NoUid | KeyMissing

  class Database {
    const fields: set<Attr>
    const indexed: set<Attr>
    const key: Obj -> Key
    const queue: IndexQueues.IndexQueue
    const tx: IndexQueues.Transaction
    const processor: IndexQueues.Processor
    var attrs: map<Obj, Attrs>
    var stored: set<Obj>
    var marked: set<Obj>
    var index: map<Slot, PyVal>
    var committed: Store
    var listening: bool
    var enabled: bool

    constructor (fields: set<Attr>, indexed: set<Attr>, key: Obj -> Key, autoreindex: bool)
      requires indexed <= fields
      ensures Valid() && Sane(indexed, Image()) && Settled(indexed, Image())
      ensures this.fields == fields && this.indexed == indexed && this.key == key
      ensures attrs == map[] && enabled == autoreindex
      ensures fresh(queue) && fresh(queue.queue) && fresh(tx) && fresh(processor) && fresh(queue.Reach(tx))
    {
      this.fields, this.indexed, this.key := fields, indexed, key;
      queue := new IndexQueues.IndexQueue(key);
      tx := new IndexQueues.Transaction();
      processor := new IndexQueues.Processor();
      attrs, stored, marked, index := map[], {}, {}, map[];
      committed := Store(map[], {}, map[]);
      listening, enabled := autoreindex, autoreindex;
    }

    ghost function Image(): State
      reads this, queue, queue.queue
    {
      State(attrs, stored, marked, index, queue.queue.items, committed, listening, enabled)
    }

    ghost predicate Valid()
      reads queue, queue.queue, tx, queue.Reach(tx)
    {
      queue.key == key && queue.Hooked(tx) && indexed <= fields
    }

    /** Model.__init__: fails when a field has neither a default nor a value. */
    method Create(o: Obj, defaults: Attrs, kw: Attrs) returns (ok: bool)
      requires Valid() && o !in attrs
      modifies `attrs
      ensures Valid() && (ok <==> fields <= defaults.Keys + kw.Keys)
      ensures ok ==> indexed <= (defaults + kw).Keys
      ensures ok ==> Image() == After(indexed, key, old(Image()), Move.Create(o, defaults + kw))
      ensures !ok ==> Image() == old(Image())
    {
      var missed := fields - defaults.Keys - kw.Keys;
      ok := missed == {};
      if ok {
        assert forall a :: a in fields ==> a !in missed;
        attrs := attrs[o := defaults + kw];
      }
    }

    /** Tells the subscribers, if there are any, that an attribute is about to change. */
    method Modified(o: Obj, a: Attr)
      requires Valid()
      modifies queue`tmhook, queue.queue, queue.Reach(tx), tx
      ensures Valid() && queue.queue == old(queue.queue) && fresh(queue.Reach(tx) - old(queue.Reach(tx)))
      ensures queue.queue.items == old(queue.queue.items) + if listening then [Op(REINDEX, o, Some({a}))] else []
    {
      if listening { queue.Reindex(o, Some({a}), tx); }
    }

    /** Model.__setattr__: a write over a value of an indexed field of an object with its uid is reported. */
    method SetAttr(o: Obj, a: Attr, v: PyVal)
      requires Valid() && o in attrs
      modifies `attrs, queue`tmhook, queue.queue, queue.Reach(tx), tx
      ensures Valid() && Image() == After(indexed, key, old(Image()), Write(o, a, v))
      ensures attrs == old(attrs)[o := old(attrs)[o][a := v]]
      ensures queue.queue.items ==
              if listening && a in indexed && o in marked && a in old(attrs)[o] && old(attrs)[o][a] != Nothing
              then old(queue.queue.items) + [Op(REINDEX, o, Some({a}))] else old(queue.queue.items)
      ensures queue.queue == old(queue.queue) && fresh(queue.Reach(tx) - old(queue.Reach(tx)))
    {
      if a in attrs[o] && attrs[o][a].Val? && a in indexed && o in marked {
        Modified(o, a);
      }
      attrs := attrs[o := attrs[o][a := v]];
    }

    /** DbModel.__getitem__: the object of a uid, marked with it. */
    method Fetch(o: Obj) returns (r: Outcome)
      requires Valid()
      modifies `marked
      ensures Valid() && r == if o in stored then Done else KeyMissing
      ensures r == Done ==> marked == old(marked) + {o}
      ensures r == Done ==> Image() == After(indexed, key, old(Image()), Move.Fetch(o))
      ensures r == KeyMissing ==> Image() == old(Image())
    {
      if o !in stored { return KeyMissing; }
      marked := marked + {o};
      r := Done;
    }

    method Add(o: Obj)
      requires Valid() && o in attrs && indexed <= attrs[o].Keys && o !in stored
      modifies `stored, `index, `marked
      ensures Valid() && Image() == After(indexed, key, old(Image()), Move.Add(o))
      ensures stored == old(stored) + {o} && marked == old(marked) + {o}
      ensures forall a :: a in indexed ==> Slot(o, a) in index && index[Slot(o, a)] == attrs[o][a]
    {
      stored := stored + {o};
      IndexAttributes(o, None);
      marked := marked + {o};
    }

    /** Indexes the attributes of one object, index by index. */
    method IndexAttributes(o: Obj, attributes: Option<set<Attr>>)
      requires o in attrs && indexed <= attrs[o].Keys
      modifies `index
      ensures index == Reindexed(indexed, attrs, old(index), Op(REINDEX, o, attributes))
    {
      var wanted := Wanted(indexed, attributes);
      var todo := wanted;
      ghost var done: set<Attr> := {};
      IndexedNone(index, o, attrs[o]);
      while todo != {}
        invariant wanted <= attrs[o].Keys && Split(wanted, todo, done)
        invariant index == Indexed(old(index), o, attrs[o], done)
        decreases |todo|
      {
        var a :| a in todo;
        IndexedMore(old(index), o, attrs[o], done, a);
        index := index[Slot(o, a) := attrs[o][a]];
        todo, done := todo - {a}, done + {a};
      }
      assert forall a :: a in wanted <==> a in done;
      SameWanted(wanted, done);
    }

    method ReindexOne(o: Obj, attributes: Option<set<Attr>>) returns (r: Outcome)
      requires o in marked ==> o in attrs && indexed <= attrs[o].Keys
      modifies `index
      ensures r == if o in marked then Done else NoUid
      ensures o in marked ==> index == Reindexed(indexed, attrs, old(index), Op(REINDEX, o, attributes))
      ensures o !in marked ==> index == old(index)
    {
      if o !in marked { return NoUid; }
      IndexAttributes(o, attributes);
      r := Done;
    }

    method Remove(o: Obj) returns (r: Outcome)
      requires Valid()
      modifies `stored, `index
      ensures Valid() && r == if o !in marked then NoUid else if o !in old(stored) then KeyMissing else Done
      ensures r == Done ==> Image() == After(indexed, key, old(Image()), Move.Remove(o))
      ensures r == KeyMissing ==>
                stored == old(stored) && index == map x | x in old(index) && x.obj != o :: old(index)[x]
      ensures r == NoUid ==> Image() == old(Image())
    {
      if o !in marked { return NoUid; }
      index := map x | x in index && x.obj != o :: index[x];
      if o !in stored { return KeyMissing; }
      stored := stored - {o};
      r := Done;
    }

    method EnableAutoReindex(on: bool)
      requires Valid()
      modifies `listening, `enabled
      ensures Valid() && Image() == After(indexed, key, old(Image()), Enable(on))
      ensures enabled == on && listening == (old(listening) || on)
    {
      if on { listening := true; }
      enabled := on;
    }

    /** Hands the processed operations to the database, which indexes the objects again. */
    method Deliver(ops: seq<Op>)
      requires Deliverable(indexed, attrs, marked, ops)
      modifies `index
      ensures index == if enabled then Played(indexed, attrs, old(index), ops) else old(index)
      decreases |ops|
    {
      if ops != [] {
        if enabled {
          var _ := ReindexOne(ops[0].obj, ops[0].attrs);
          assert index == Reindexed(indexed, attrs, old(index), ops[0]);
        }
        Deliver(ops[1..]);
      }
    }

    /** The before-commit hook: what the processor received from the queue. */
    method ProcessQueue() returns (ops: seq<Op>)
      requires Valid()
      modifies queue, queue.queue, tx.hooks, tx, processor
      ensures Valid() && ops == Optimized(key, old(queue.queue.items)) && queue.queue.items == []
      ensures (queue.queue == old(queue.queue) || fresh(queue.queue)) && queue.Reach(tx) <= old(queue.Reach(tx))
    {
      var calls := processor.calls;
      Suffix(calls, Optimized(key, queue.queue.items));
      IndexQueues.Commit(queue, processor, tx);
      ops := processor.calls[|calls|..];
    }

    /** Commits: the hook compacts the queue and indexes what it asks for, then the state is kept. */
    method Commit()
      requires Valid() && Deliverable(indexed, attrs, marked, Optimized(key, queue.queue.items))
      modifies `index, `committed, queue, queue.queue, tx.hooks, tx, processor
      ensures Valid() && Image() == After(indexed, key, old(Image()), Move.Commit)
      ensures queue.queue.items == [] && committed == Store(StoredOnly(attrs, stored), stored, index)
      ensures (queue.queue == old(queue.queue) || fresh(queue.queue)) && queue.Reach(tx) <= old(queue.Reach(tx))
    {
      ghost var s := Image();
      var ops := ProcessQueue();
      Deliver(ops);
      committed := Store(StoredOnly(attrs, stored), stored, index);
      CommittedState(indexed, key, s, Image(), ops);
    }

    /** Aborts: the queue is emptied and the storage gives back the committed state. */
    method Abort()
      requires Valid()
      modifies this, queue, queue.queue, tx.hooks, tx
      ensures Valid() && Image() == After(indexed, key, old(Image()), Move.Abort)
      ensures queue.queue.items == [] && stored == old(committed).stored && index == old(committed).index
      ensures forall o :: o in old(committed).attrs ==> o in attrs && attrs[o] == old(committed).attrs[o]
      ensures queue.queue == old(queue.queue) && queue.Reach(tx) <= old(queue.Reach(tx))
    {
      IndexQueues.Abort(queue, tx);
      attrs := attrs + committed.attrs;
      stored, index := committed.stored, committed.index;
    }

    /** One step of a run. */
    method Play(m: Move)
      requires Valid() && Sane(indexed, Image()) && Injective(key) && Possible(indexed, Image(), m)
      requires m.Create? ==> fields <= m.values.Keys
      modifies this, queue, queue.queue, queue.Reach(tx), tx, processor
      ensures Valid() && Image() == After(indexed, key, old(Image()), m)
      ensures (queue.queue == old(queue.queue) || fresh(queue.queue)) && fresh(queue.Reach(tx) - old(queue.Reach(tx)))
    {
      match m
      case Create(o, values) => var _ := Create(o, map[], values); assert map[] + values == values;
      case Fetch(o) => var _ := Fetch(o);
      case Add(o) => Add(o);
      case Write(o, a, v) => SetAttr(o, a, v);
      case Remove(o) => var _ := Remove(o);
      case Reindex(o, attributes) => var _ := ReindexOne(o, attributes);
      case Enable(on) => EnableAutoReindex(on);
      case Commit => OptimizedReindexes(indexed, key, Image()); Commit();
      case Abort => Abort();
    }

    /** Any run of safe steps ends where the specification says: every committed index was exact. */
    method PlayAll(moves: seq<Move>)
      requires Valid() && Sane(indexed, Image()) && Injective(key) && Settled(indexed, Image())
      requires Run(indexed, key, Image(), moves).Some?
      requires forall i :: 0 <= i < |moves| && moves[i].Create? ==> fields <= moves[i].values.Keys
      modifies this, queue, queue.queue, queue.Reach(tx), tx, processor
      ensures Valid() && Sane(indexed, Image()) && Settled(indexed, Image())
      ensures Image() == Run(indexed, key, old(Image()), moves).value
      decreases |moves|
    {
      if moves != [] {
        StepSane(indexed, key, Image(), moves[0]);
        SettledIffSafe(indexed, key, Image(), moves[0]);
        Play(moves[0]);
        PlayAll(moves[1..]);
      }
    }
  }

  /** The state a commit leaves, field by field. */
  lemma CommittedState(indexed: set<Attr>, key: Obj -> Key, s: State, t: State, ops: seq<Op>)
    requires ops == Optimized(key, s.pending) && t.pending == []
    requires t.attrs == s.attrs && t.stored == s.stored && t.marked == s.marked
    requires t.listening == s.listening && t.enabled == s.enabled
    requires t.index == if s.enabled then Played(indexed, s.attrs, s.index, ops) else s.index
    requires t.committed == Store(StoredOnly(s.attrs, s.stored), s.stored, t.index)
    ensures t == After(indexed, key, s, Commit)
  {
  }

  lemma Suffix<T>(a: seq<T>, b: seq<T>)
    ensures (a + b)[|a|..] == b
  {
  }

  ghost predicate Split(whole: set<Attr>, todo: set<Attr>, done: set<Attr>) {
    forall a :: a in whole <==> a in todo || a in done
  }

  lemma SameWanted(a: set<Attr>, b: set<Attr>)
    requires forall x :: x in a <==> x in b
    ensures a == b
  {
  }

  lemma IndexedNone(index: map<Slot, PyVal>, o: Obj, now: Attrs)
    ensures Indexed(index, o, now, {}) == index
  {
  }

  lemma IndexedMore(index: map<Slot, PyVal>, o: Obj, now: Attrs, done: set<Attr>, a: Attr)
    requires a in now
    ensures Indexed(index, o, now, done)[Slot(o, a) := now[a]] == Indexed(index, o, now, done + {a})
  {
  }
}
