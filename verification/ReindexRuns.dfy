/** What the steps of automatic re-indexing come to, in terms of objects, attributes and index entries. */
module ReindexRuns {
  import opened Wrappers
  import opened QueueOps
  import opened AutoReindex
  import IndexQueues

  /** The index entry of one attribute of one object. */
  ghost predicate Entered(s: State, o: Obj, a: Attr, v: PyVal) {
    Slot(o, a) in s.index && s.index[Slot(o, a)] == v
  }

  /** The entries of all other objects are as before. */
  ghost predicate OthersSame(s: State, t: State, o: Obj) {
    forall x: Slot :: x.obj != o ==> (x in t.index <==> x in s.index) && (x in t.index ==> t.index[x] == s.index[x])
  }

  // ---- writes ------------------------------------------------------------------------------------

  datatype Assignment = Assignment(obj: Obj, attr: Attr, value: PyVal)

  /** A write that replaces a value of an indexed attribute of a stored object with its uid. */
  ghost predicate Ordinary(indexed: set<Attr>, s: State, o: Obj, a: Attr) {
    && o in s.stored && o in s.marked && a in indexed
    && o in s.attrs && a in s.attrs[o] && s.attrs[o][a] != Nothing
  }

  /** Whatever is queued already, such a write is queued: it keeps track of the index, and exactly its slot is
      covered in addition. */
  lemma WriteIsQueued(indexed: set<Attr>, key: Obj -> Key, s: State, o: Obj, a: Attr, v: PyVal)
    requires Sane(indexed, s) && Injective(key) && Tracked(indexed, s) && s.listening && Ordinary(indexed, s, o, a)
    ensures var t := After(indexed, key, s, Write(o, a, v));
            && Tracked(indexed, t) && t.attrs == s.attrs[o := s.attrs[o][a := v]]
            && t == s.(attrs := t.attrs, pending := t.pending)
            && forall p, b {:trigger Covered(t.pending, p, b)} ::
                 Covered(t.pending, p, b) <==> Covered(s.pending, p, b) || (p == o && b == a)
  {
    var t := After(indexed, key, s, Write(o, a, v));
    WriteIff(indexed, key, s, o, a, v);
    forall p, b
      ensures Covered(t.pending, p, b) <==> Covered(s.pending, p, b) || (p == o && b == a)
    {
      CoveredSnoc(s.pending, Op(REINDEX, o, Some({a})), p, b);
    }
  }

  /** The attributes after a run of writes. */
  function Written(attrs: map<Obj, Attrs>, writes: seq<Assignment>): map<Obj, Attrs>
    decreases |writes|
  {
    if writes == [] then attrs
    else
      var w := writes[0];
      Written(if w.obj in attrs then attrs[w.obj := attrs[w.obj][w.attr := w.value]] else attrs, writes[1..])
  }

  /** Every write of the run replaces a value of an indexed attribute of one of these objects. */
  ghost predicate AllOrdinary(indexed: set<Attr>, objects: set<Obj>, attrs: map<Obj, Attrs>, writes: seq<Assignment>)
    decreases |writes|
  {
    writes != [] ==>
      var w := writes[0];
      && w.obj in objects && w.attr in indexed && w.obj in attrs
      && w.attr in attrs[w.obj] && attrs[w.obj][w.attr] != Nothing
      && AllOrdinary(indexed, objects, attrs[w.obj := attrs[w.obj][w.attr := w.value]], writes[1..])
  }

  function WriteMoves(writes: seq<Assignment>): seq<Move>
    decreases |writes|
  {
    if writes == [] then [] else [Write(writes[0].obj, writes[0].attr, writes[0].value)] + WriteMoves(writes[1..])
  }

  /** The index shows the objects after these writes: every indexed attribute of every stored object. */
  ghost predicate Shows(indexed: set<Attr>, attrs: map<Obj, Attrs>, stored: set<Obj>, t: State) {
    && t.stored == stored && t.attrs == attrs && t.pending == []
    && forall o, a {:trigger Entered(t, o, a, attrs[o][a])} ::
         o in stored && a in indexed ==> o in attrs && a in attrs[o] && Entered(t, o, a, attrs[o][a])
  }

  lemma CommitShows(indexed: set<Attr>, key: Obj -> Key, s: State)
    requires Sane(indexed, s) && Injective(key) && Settled(indexed, s) && s.enabled
    ensures Run(indexed, key, s, [Commit]).Some?
    ensures var t := Run(indexed, key, s, [Commit]).value;
            Shows(indexed, s.attrs, s.stored, t) && Exact(indexed, t.attrs, t.stored, t.index)
  {
    var t := After(indexed, key, s, Commit);
    assert Run(indexed, key, s, [Commit]) == Some(t) by {
      assert [Commit][1..] == [];
    }
    CommitExactIff(indexed, key, s);
    forall o, a | o in s.stored && a in indexed
      ensures o in s.attrs && a in s.attrs[o] && Entered(t, o, a, s.attrs[o][a])
    {
      assert UpToDate(t.attrs, t.stored, t.index, o, a);
    }
  }

  lemma RunCons(indexed: set<Attr>, key: Obj -> Key, s: State, m: Move, rest: seq<Move>)
    requires Sane(indexed, s) && Injective(key) && Possible(indexed, s, m) && Safe(indexed, s, m)
    ensures Sane(indexed, After(indexed, key, s, m))
    ensures Run(indexed, key, s, [m] + rest) == Run(indexed, key, After(indexed, key, s, m), rest)
  {
    StepSane(indexed, key, s, m);
    assert ([m] + rest)[1..] == rest;
  }

  /** One write of a run: it is safe, and what follows starts from a state of the same kind. */
  lemma WriteGoesOn(indexed: set<Attr>, key: Obj -> Key, s: State, w: Assignment, rest: seq<Move>)
    requires Sane(indexed, s) && Injective(key) && Settled(indexed, s) && s.listening
    requires Ordinary(indexed, s, w.obj, w.attr)
    ensures var m := Write(w.obj, w.attr, w.value);
            var t := After(indexed, key, s, m);
            && Sane(indexed, t) && Settled(indexed, t)
            && t == s.(attrs := s.attrs[w.obj := s.attrs[w.obj][w.attr := w.value]], pending := t.pending)
            && Run(indexed, key, s, [m] + rest) == Run(indexed, key, t, rest)
  {
    var m := Write(w.obj, w.attr, w.value);
    WriteIsQueued(indexed, key, s, w.obj, w.attr, w.value);
    SettledIffSafe(indexed, key, s, m);
    RunCons(indexed, key, s, m, rest);
  }

  lemma WriteMovesCons(writes: seq<Assignment>)
    requires writes != []
    ensures WriteMoves(writes) + [Commit] ==
            [Write(writes[0].obj, writes[0].attr, writes[0].value)] + (WriteMoves(writes[1..]) + [Commit])
  {
  }

  /** A run of such writes, however long and to whichever objects, is safe, and its commit leaves the index
      showing the last value of every attribute. */
  lemma {:induction false} WritesAreShown(indexed: set<Attr>, key: Obj -> Key, s: State, writes: seq<Assignment>)
    requires Sane(indexed, s) && Injective(key) && Settled(indexed, s) && s.listening && s.enabled
    requires AllOrdinary(indexed, s.stored * s.marked, s.attrs, writes)
    ensures var r := Run(indexed, key, s, WriteMoves(writes) + [Commit]);
            && r.Some? && Shows(indexed, Written(s.attrs, writes), s.stored, r.value)
            && Exact(indexed, r.value.attrs, r.value.stored, r.value.index)
    decreases |writes|
  {
    if writes == [] {
      assert WriteMoves(writes) + [Commit] == [Commit];
      CommitShows(indexed, key, s);
    } else {
      var w := writes[0];
      WriteMovesCons(writes);
      WriteGoesOn(indexed, key, s, w, WriteMoves(writes[1..]) + [Commit]);
      var t := After(indexed, key, s, Write(w.obj, w.attr, w.value));
      assert t.stored == s.stored && Written(s.attrs, writes) == Written(t.attrs, writes[1..]);
      WritesAreShown(indexed, key, t, writes[1..]);
    }
  }

  // ---- adding and fetching -----------------------------------------------------------------------

  /** An added object is stored, has its uid, and its indexed attributes are in the index. */
  lemma AddedIsIndexed(indexed: set<Attr>, key: Obj -> Key, s: State, o: Obj)
    requires Sane(indexed, s) && o in s.attrs && o !in s.stored
    ensures var t := After(indexed, key, s, Add(o));
            && t.stored == s.stored + {o} && t.marked == s.marked + {o} && t.attrs == s.attrs && OthersSame(s, t, o)
            && forall a :: a in indexed ==> Entered(t, o, a, s.attrs[o][a])
  {
  }

  /** An object just created and added shows the values it was created with. */
  lemma CreatedAndAdded(indexed: set<Attr>, key: Obj -> Key, s: State, o: Obj, values: Attrs)
    requires Sane(indexed, s) && Injective(key) && o !in s.attrs && indexed <= values.Keys
    ensures var c := After(indexed, key, s, Create(o, values));
            Possible(indexed, c, Add(o))
            && (forall a :: a in indexed ==> Entered(After(indexed, key, c, Add(o)), o, a, values[a]))
            && c.attrs - {o} == s.attrs && c.attrs[o] == values
  {
    StepSane(indexed, key, s, Create(o, values));
    var c := After(indexed, key, s, Create(o, values));
    AddedIsIndexed(indexed, key, c, o);
    assert c.attrs - {o} == s.attrs;
  }

  /** Writes right after an object was added are queued like any others: the commit shows them. */
  lemma AddWriteCommit(indexed: set<Attr>, key: Obj -> Key, s: State, o: Obj, writes: seq<Assignment>)
    requires Sane(indexed, s) && Injective(key) && Settled(indexed, s) && s.listening && s.enabled
    requires o in s.attrs && o !in s.stored
    requires AllOrdinary(indexed, (s.stored + {o}) * (s.marked + {o}), s.attrs, writes)
    ensures var r := Run(indexed, key, s, [Add(o)] + (WriteMoves(writes) + [Commit]));
            && r.Some? && o in r.value.stored && r.value.attrs == Written(s.attrs, writes)
            && Exact(indexed, r.value.attrs, r.value.stored, r.value.index)
  {
    AddedIsIndexed(indexed, key, s, o);
    SettledIffSafe(indexed, key, s, Add(o));
    RunCons(indexed, key, s, Add(o), WriteMoves(writes) + [Commit]);
    WritesAreShown(indexed, key, After(indexed, key, s, Add(o)), writes);
  }

  /** So are writes right after an object was fetched. */
  lemma FetchWriteCommit(indexed: set<Attr>, key: Obj -> Key, s: State, o: Obj, writes: seq<Assignment>)
    requires Sane(indexed, s) && Injective(key) && Settled(indexed, s) && s.listening && s.enabled && o in s.stored
    requires AllOrdinary(indexed, s.stored * (s.marked + {o}), s.attrs, writes)
    ensures var r := Run(indexed, key, s, [Fetch(o)] + (WriteMoves(writes) + [Commit]));
            && r.Some? && Shows(indexed, Written(s.attrs, writes), s.stored, r.value)
            && Exact(indexed, r.value.attrs, r.value.stored, r.value.index)
  {
    SettledIffSafe(indexed, key, s, Fetch(o));
    RunCons(indexed, key, s, Fetch(o), WriteMoves(writes) + [Commit]);
    WritesAreShown(indexed, key, After(indexed, key, s, Fetch(o)), writes);
  }

  /** Right after it was added, an object can be indexed again and removed. */
  method AddedCanGo(db: Database, o: Obj, attributes: Option<set<Attr>>) returns (r: Outcome, q: Outcome)
    requires db.Valid() && o in db.attrs && db.indexed <= db.attrs[o].Keys && o !in db.stored
    modifies db`stored, db`index, db`marked
    ensures db.Valid() && r == Done && q == Done && o !in db.stored && forall x: Slot :: x in db.index ==> x.obj != o
  {
    db.Add(o);
    r := db.ReindexOne(o, attributes);
    q := db.Remove(o);
  }

  /** And right after it was fetched. */
  method FetchedCanGo(db: Database, o: Obj, attributes: Option<set<Attr>>) returns (r: Outcome, q: Outcome)
    requires db.Valid() && o in db.attrs && db.indexed <= db.attrs[o].Keys && o in db.stored
    modifies db`stored, db`index, db`marked
    ensures db.Valid() && r == Done && q == Done && o !in db.stored && forall x: Slot :: x in db.index ==> x.obj != o
  {
    var f := db.Fetch(o);
    r := db.ReindexOne(o, attributes);
    q := db.Remove(o);
  }

  // ---- removing and re-indexing by hand ----------------------------------------------------------

  /** A removed object is gone from store and index, and nothing else changes. */
  lemma RemovedIsGone(indexed: set<Attr>, key: Obj -> Key, s: State, o: Obj)
    requires Sane(indexed, s) && o in s.stored && o in s.marked
    ensures var t := After(indexed, key, s, Remove(o));
            && t.stored == s.stored - {o} && t.attrs == s.attrs && t.pending == s.pending && OthersSame(s, t, o)
            && forall a :: Slot(o, a) !in t.index
  {
  }

  /** Indexing by hand brings the named attributes up to date and touches no others. */
  lemma ReindexedByHand(indexed: set<Attr>, key: Obj -> Key, s: State, o: Obj, attributes: Option<set<Attr>>, a: Attr)
    requires Sane(indexed, s) && o in s.marked && a in indexed
    ensures var t := After(indexed, key, s, Reindex(o, attributes));
            && OthersSame(s, t, o) && t.attrs == s.attrs && t.stored == s.stored && t.pending == s.pending
            && if attributes.None? || a in attributes.value then Entered(t, o, a, s.attrs[o][a])
               else (Slot(o, a) in t.index <==> Slot(o, a) in s.index)
                    && (Slot(o, a) in t.index ==> t.index[Slot(o, a)] == s.index[Slot(o, a)])
  {
  }

  // ---- switching on and off ----------------------------------------------------------------------

  /** Switched off, a commit leaves the index as it is; what was listened to before still is. */
  lemma SwitchedOff(indexed: set<Attr>, key: Obj -> Key, s: State)
    requires Sane(indexed, s) && Injective(key)
    ensures var off := After(indexed, key, s, Enable(false));
            && After(indexed, key, off, Commit).index == s.index
            && off.listening == s.listening && off.pending == s.pending
  {
  }

  /** Switched on, the next commit makes the index exact when every difference is queued, and writes are
      queued from then on. */
  lemma SwitchedOn(indexed: set<Attr>, key: Obj -> Key, s: State)
    requires Sane(indexed, s) && Injective(key) && Tracked(indexed, s)
    ensures var on := After(indexed, key, s, Enable(true));
            var t := After(indexed, key, on, Commit);
            Exact(indexed, t.attrs, t.stored, t.index) && on.listening && on.enabled && t.listening && t.enabled
  {
    var on := After(indexed, key, s, Enable(true));
    StepSane(indexed, key, s, Enable(true));
    QuietMoves(indexed, key, s, Enable(true));
    CommitExactIff(indexed, key, on);
  }

  // ---- aborting ----------------------------------------------------------------------------------

  /** The state after possible steps, safe or not. */
  ghost function Moved(indexed: set<Attr>, key: Obj -> Key, s: State, moves: seq<Move>): Option<State>
    decreases |moves|
  {
    if moves == [] then Some(s)
    else if !Possible(indexed, s, moves[0]) then None
    else Moved(indexed, key, After(indexed, key, s, moves[0]), moves[1..])
  }

  lemma {:induction false} CommittedStands(indexed: set<Attr>, key: Obj -> Key, s: State, moves: seq<Move>)
    requires Moved(indexed, key, s, moves).Some? && forall i :: 0 <= i < |moves| ==> !moves[i].Commit?
    ensures Moved(indexed, key, s, moves).value.committed == s.committed
    decreases |moves|
  {
    if moves != [] { CommittedStands(indexed, key, After(indexed, key, s, moves[0]), moves[1..]); }
  }

  /** Whatever is done after a commit, an abort gives back what was committed: the stored objects with their
      attributes, and the index; and nothing stays queued. */
  lemma AbortRestores(indexed: set<Attr>, key: Obj -> Key, s: State, moves: seq<Move>)
    requires Sane(indexed, s) && Moved(indexed, key, After(indexed, key, s, Commit), moves).Some?
    requires forall i :: 0 <= i < |moves| ==> !moves[i].Commit?
    ensures var c := After(indexed, key, s, Commit);
            var t := After(indexed, key, Moved(indexed, key, c, moves).value, Abort);
            && t.stored == s.stored && t.index == c.index && t.pending == []
            && forall o :: o in s.stored ==> o in t.attrs && t.attrs[o] == s.attrs[o]
  {
    CommittedStands(indexed, key, After(indexed, key, s, Commit), moves);
  }
}
