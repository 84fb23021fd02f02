/** The field index: postings that grow from a number to a tuple to a tree, beside the map of documents to values. */
module FieldIndexes {
  import opened Sequences
  import opened Wrappers
  import opened SortedSets

  type Doc = int
  type Value = int

  const THRESHOLD := 10

  /** The documents of one value: a plain number, a tuple, or a tree set. */
  datatype Posting = One(doc: Doc) | Few(docs: seq<Doc>) | Many(tree: set<Doc>)

  /** What an object shows under the name the index looks at. */
  datatype Attribute = Missing | Persistent | Broken | Is(value: Value)

  datatype Outcome = Indexed | NotIndexed | CannotIndexPersistent | CannotIndexBroken

  predicate InPosting(p: Posting, d: Doc) {
    match p
    case One(x) => x == d
    case Few(s) => d in s
    case Many(t) => d in t
  }

  predicate Distinct(s: seq<Doc>) { forall i, j :: 0 <= i < j < |s| ==> s[i] != s[j] }

  /** Tuples are short and free of duplicates; no posting is empty. */
  predicate WellFormed(p: Posting) {
    match p
    case One(x) => true
    case Few(s) => 0 < |s| < THRESHOLD && Distinct(s)
    case Many(t) => t != {}
  }

  type Forward = map<Value, Posting>
  type Reverse = map<Doc, Value>

  /** The posting of `v` lists `d` exactly when `v` is the value of `d`. */
  ghost predicate Filed(fwd: Forward, rev: Reverse, v: Value, d: Doc) {
    (v in fwd && InPosting(fwd[v], d)) <==> (d in rev && rev[d] == v)
  }

  ghost predicate Formed(fwd: Forward, v: Value) { v in fwd ==> WellFormed(fwd[v]) }

  /** The forward and the reverse map are inverse to each other. */
  ghost predicate Inverse(fwd: Forward, rev: Reverse) {
    && (forall v, d {:trigger Filed(fwd, rev, v, d)} :: Filed(fwd, rev, v, d))
    && (forall v {:trigger Formed(fwd, v)} :: Formed(fwd, v))
  }

  // ---- one posting -------------------------------------------------------------------------------

  /** The documents of a posting in the order a scan meets them. */
  function Listed(p: Posting): (s: seq<Doc>) {
    match p
    case One(x) => [x]
    case Few(s) => s
    case Many(t) => Ascending(t)
  }

  lemma ListedRight(p: Posting)
    requires WellFormed(p)
    ensures Distinct(Listed(p)) && Listed(p) != []
    ensures forall d :: d in Listed(p) <==> InPosting(p, d)
  {
    if p.Many? {
      var t := p.tree;
      var x := Pick(t);
      assert x in Ascending(t);
    }
  }

  /** A document added to the posting of its value. */
  function Extended(p: Option<Posting>, d: Doc): Posting {
    match p
    case None => One(d)
    case Some(One(x)) => Few([x] + [d])
    case Some(Few(s)) => if |s| >= THRESHOLD - 1 then Many((set x | x in s) + {d}) else Few(s + [d])
    case Some(Many(t)) => Many(t + {d})
  }

  lemma ExtendedRight(p: Option<Posting>, d: Doc)
    requires p.Some? ==> WellFormed(p.value) && !InPosting(p.value, d)
    ensures WellFormed(Extended(p, d))
    ensures forall x :: InPosting(Extended(p, d), x) <==> x == d || (p.Some? && InPosting(p.value, x))
  {
  }

  function Without(s: seq<Doc>, d: Doc): seq<Doc> {
    if s == [] then []
    else if s[|s| - 1] == d then Without(s[..|s| - 1], d)
    else Without(s[..|s| - 1], d) + [s[|s| - 1]]
  }

  lemma {:induction false} WithoutRight(s: seq<Doc>, d: Doc)
    requires Distinct(s)
    ensures Distinct(Without(s, d)) && |Without(s, d)| <= |s|
    ensures forall x :: x in Without(s, d) <==> x in s && x != d
    decreases |s|
  {
    if s != [] {
      var t := s[..|s| - 1];
      WithoutRight(t, d);
      assert forall x :: x in s <==> x in t || x == s[|s| - 1];
      assert s[|s| - 1] !in t;
      assert Without(s, d) == if s[|s| - 1] == d then Without(t, d) else Without(t, d) + [s[|s| - 1]];
    }
  }

  /** The posting without one of its documents; None when that was the last. */
  function Shrunk(p: Posting, d: Doc): Option<Posting> {
    match p
    case One(x) => None
    case Few(s) => if Without(s, d) == [] then None else Some(Few(Without(s, d)))
    case Many(t) => if t - {d} == {} then None else Some(Many(t - {d}))
  }

  lemma ShrunkRight(p: Posting, d: Doc)
    requires WellFormed(p) && InPosting(p, d)
    ensures Shrunk(p, d).Some? ==> WellFormed(Shrunk(p, d).value)
    ensures forall x :: (InPosting(p, x) && x != d) <==> (Shrunk(p, d).Some? && InPosting(Shrunk(p, d).value, x))
  {
    if p.Few? { WithoutRight(p.docs, d); }
    if p.Many? && p.tree - {d} == {} {
      forall x | x in p.tree
        ensures x == d
      {
        assert x !in p.tree - {d};
      }
    }
  }

  // ---- both maps ---------------------------------------------------------------------------------

  function Posted(fwd: Forward, v: Value): Option<Posting> { if v in fwd then Some(fwd[v]) else None }

  /** Filing a new document keeps the maps inverse. */
  lemma InsertKeeps(fwd: Forward, rev: Reverse, d: Doc, v: Value)
    requires Inverse(fwd, rev) && d !in rev
    ensures Inverse(fwd[v := Extended(Posted(fwd, v), d)], rev[d := v])
  {
    assert Formed(fwd, v) && Filed(fwd, rev, v, d);
    ExtendedRight(Posted(fwd, v), d);
    var fwd1, rev1 := fwd[v := Extended(Posted(fwd, v), d)], rev[d := v];
    forall w, x
      ensures Filed(fwd1, rev1, w, x)
    {
      assert Filed(fwd, rev, w, x);
    }
    forall w
      ensures Formed(fwd1, w)
    {
      assert Formed(fwd, w);
    }
  }

  /** The posting of a value lists its documents. */
  lemma FiledUnder(fwd: Forward, rev: Reverse, v: Value)
    requires Inverse(fwd, rev)
    ensures forall d :: (v in fwd && InPosting(fwd[v], d)) <==> (d in rev && rev[d] == v)
  {
    forall d
      ensures (v in fwd && InPosting(fwd[v], d)) <==> (d in rev && rev[d] == v)
    {
      assert Filed(fwd, rev, v, d);
    }
  }

  lemma {:induction false} AtMostListed(docs: set<Doc>, s: seq<Doc>)
    requires forall d :: d in docs ==> d in s
    ensures |docs| <= |s|
    decreases |s|
  {
    if s == [] {
      assert docs == {} by {
        if docs != {} { var d := Pick(docs); }
      }
    } else {
      AtMostListed(docs - {s[0]}, s[1..]);
    }
  }

  /** Ten documents or more of one value are always in a tree set. */
  lemma ManyInTree(fwd: Forward, rev: Reverse, v: Value, docs: set<Doc>)
    requires Inverse(fwd, rev) && forall d :: d in docs ==> d in rev && rev[d] == v
    ensures |docs| >= 10 ==> v in fwd && fwd[v].Many?
  {
    FiledUnder(fwd, rev, v);
    if docs != {} {
      var d := Pick(docs);
      assert v in fwd && Formed(fwd, v);
      if !fwd[v].Many? {
        ListedRight(fwd[v]);
        AtMostListed(docs, Listed(fwd[v]));
      }
    }
  }

  /** The posting of a value after its documents came in one by one. */
  function Gathered(docs: seq<Doc>): Option<Posting> {
    if docs == [] then None else Some(Extended(Gathered(docs[..|docs| - 1]), docs[|docs| - 1]))
  }

  /** One document is a number, up to nine are a tuple in the order they came, from ten on they are a tree set. */
  lemma {:induction false} GatheredKind(docs: seq<Doc>)
    requires docs != []
    ensures Gathered(docs) == Some(if |docs| == 1 then One(docs[0])
                                   else if |docs| <= 9 then Few(docs) else Many(set d | d in docs))
    decreases |docs|
  {
    if |docs| > 1 {
      var before, d := docs[..|docs| - 1], docs[|docs| - 1];
      GatheredKind(before);
      assert before + [d] == docs;
      assert (set x | x in before) + {d} == set x | x in docs;
      assert |docs| == 2 ==> before == [docs[0]];
    }
  }

  /** The forward map without one document of one value. */
  function Unposted(fwd: Forward, v: Value, d: Doc): Forward
    requires v in fwd
  {
    var p := Shrunk(fwd[v], d);
    if p.None? then fwd - {v} else fwd[v := p.value]
  }

  /** Taking a document out keeps the maps inverse. */
  lemma RemoveKeeps(fwd: Forward, rev: Reverse, d: Doc)
    requires Inverse(fwd, rev) && d in rev
    ensures rev[d] in fwd && Inverse(Unposted(fwd, rev[d], d), rev - {d})
  {
    var v := rev[d];
    assert Filed(fwd, rev, v, d) && Formed(fwd, v);
    ShrunkRight(fwd[v], d);
    var fwd1, rev1 := Unposted(fwd, v, d), rev - {d};
    forall w, x
      ensures Filed(fwd1, rev1, w, x)
    {
      assert Filed(fwd, rev, w, x);
    }
    forall w
      ensures Formed(fwd1, w)
    {
      assert Formed(fwd, w);
    }
  }

  // ---- scanning ----------------------------------------------------------------------------------

  /** The values in the order of the forward tree. */
  function Keys(fwd: Forward): (s: seq<Value>)
    ensures Increasing(s) && forall i :: 0 <= i < |s| ==> s[i] in fwd
  {
    var s := Ascending(fwd.Keys);
    assert forall i :: 0 <= i < |s| ==> s[i] in s;
    s
  }

  lemma KeysAll(fwd: Forward, v: Value)
    requires v in fwd
    ensures v in Keys(fwd)
  {
  }

  function Chosen(s: seq<Doc>, docids: set<Doc>): seq<Doc> {
    if s == [] then [] else Chosen(s[..|s| - 1], docids) + if s[|s| - 1] in docids then [s[|s| - 1]] else []
  }

  /** The requested documents of these values, posting by posting. */
  function Scanned(fwd: Forward, values: seq<Value>, docids: set<Doc>): seq<Doc>
    requires forall i :: 0 <= i < |values| ==> values[i] in fwd
  {
    if values == [] then []
    else Scanned(fwd, values[..|values| - 1], docids) + Chosen(Listed(fwd[values[|values| - 1]]), docids)
  }

  /** What a limit leaves of a listing: None and 0 mean no limit. */
  function Limited(s: seq<Doc>, limit: Option<int>): seq<Doc> {
    if limit.None? || limit.value == 0 || |s| <= limit.value then s
    else if limit.value < 0 then (if s == [] then [] else s[..1])
    else s[..limit.value]
  }

  lemma {:induction false} ChosenRight(s: seq<Doc>, docids: set<Doc>)
    requires Distinct(s)
    ensures Distinct(Chosen(s, docids))
    ensures forall x :: x in Chosen(s, docids) <==> x in s && x in docids
    decreases |s|
  {
    if s != [] {
      var t := s[..|s| - 1];
      ChosenRight(t, docids);
      assert forall x :: x in s <==> x in t || x == s[|s| - 1];
    }
  }

  /** A listing in order of value, each document once. */
  ghost predicate InValueOrder(s: seq<Doc>, rev: Reverse) {
    && Distinct(s) && (forall i :: 0 <= i < |s| ==> s[i] in rev)
    && forall i, j :: 0 <= i < j < |s| ==> rev[s[i]] <= rev[s[j]]
  }

  /** The scan meets exactly the requested documents of these values, once each, by value. */
  lemma {:induction false} ScannedRight(fwd: Forward, rev: Reverse, values: seq<Value>, docids: set<Doc>)
    requires Inverse(fwd, rev) && Increasing(values) && forall i :: 0 <= i < |values| ==> values[i] in fwd
    ensures InValueOrder(Scanned(fwd, values, docids), rev)
    ensures forall d :: d in Scanned(fwd, values, docids) <==> d in docids && d in rev && rev[d] in values
    decreases |values|
  {
    if values != [] {
      var n := |values| - 1;
      var before, v := values[..n], values[n];
      ScannedRight(fwd, rev, before, docids);
      assert Formed(fwd, v);
      ListedRight(fwd[v]);
      ChosenRight(Listed(fwd[v]), docids);
      var a, b := Scanned(fwd, before, docids), Chosen(Listed(fwd[v]), docids);
      forall d
        ensures d in b <==> d in docids && d in rev && rev[d] == v
      {
        assert Filed(fwd, rev, v, d);
      }
      assert forall w :: w in values <==> w in before || w == v;
      assert forall w :: w in before ==> w < v;
      JoinOrdered(a, b, rev, v);
    }
  }

  lemma JoinOrdered(a: seq<Doc>, b: seq<Doc>, rev: Reverse, v: Value)
    requires InValueOrder(a, rev) && Distinct(b)
    requires forall d :: d in a ==> d in rev && rev[d] < v
    requires forall d :: d in b ==> d in rev && rev[d] == v
    ensures InValueOrder(a + b, rev)
  {
    var s := a + b;
    forall i | 0 <= i < |s|
      ensures s[i] in rev && if i < |a| then s[i] in a && rev[s[i]] < v else s[i] in b && rev[s[i]] == v
    {
      if i < |a| { assert s[i] == a[i]; } else { assert s[i] == b[i - |a|]; }
    }
    forall i, j | 0 <= i < j < |s|
      ensures s[i] != s[j] && rev[s[i]] <= rev[s[j]]
    {
      if j < |a| {
        assert s[i] == a[i] && s[j] == a[j];
      } else if i >= |a| {
        assert s[i] == b[i - |a|] && s[j] == b[j - |a|];
      }
    }
  }

  // ---- searching ---------------------------------------------------------------------------------

  /** A query is one value or a range whose missing ends are open; both ends are included. */
  datatype Query = Exactly(value: Value) | Range(low: Option<Value>, high: Option<Value>)

  predicate Matches(q: Query, v: Value) {
    match q
    case Exactly(x) => v == x
    case Range(low, high) => (low.Some? ==> low.value <= v) && (high.Some? ==> v <= high.value)
  }

  datatype Operator = Or | And

  /** What a search means, on the map of documents to values alone. */
  ghost predicate Wants(queries: seq<Query>, operator: Operator, v: Value) {
    if operator == Or then exists i :: 0 <= i < |queries| && Matches(queries[i], v)
    else forall i :: 0 <= i < |queries| ==> Matches(queries[i], v)
  }

  /** The keys of the forward map that a query spans, in order. */
  function Spanned(fwd: Forward, q: Query): (s: seq<Value>)
    ensures Increasing(s) && forall v :: v in s <==> v in fwd && Matches(q, v)
  {
    Ascending(set v | v in fwd && Matches(q, v))
  }

  /** A set holds exactly the documents whose value passes the query. */
  ghost predicate Answers(found: set<Doc>, rev: Reverse, q: Query) {
    forall d :: d in found <==> d in rev && Matches(q, rev[d])
  }

  class FieldIndex {
    var fwd: Forward
    var rev: Reverse
    var notIndexed: set<Doc>
    var numDocs: int

    constructor ()
      ensures Valid() && rev == map[] && notIndexed == {}
    {
      fwd, rev, notIndexed, numDocs := map[], map[], {}, 0;
    }

    ghost predicate Valid()
      reads this
    {
      Inverse(fwd, rev) && numDocs == |rev| && forall d :: d in notIndexed ==> d !in rev
    }

    /** Files a document under its value, in the posting's next form. */
    method Post(d: Doc, v: Value)
      modifies `fwd
      ensures fwd == old(fwd)[v := Extended(Posted(old(fwd), v), d)]
    {
      ghost var base, more := fwd, Extended(Posted(fwd, v), d);
      if v !in fwd {
        fwd := fwd[v := One(d)];
      } else {
        var docs := fwd[v];
        if docs.One? {
          docs := Few([docs.doc]);
        } else if docs.Few? && |docs.docs| >= THRESHOLD - 1 {
          docs := Many(set x | x in docs.docs);
          fwd := fwd[v := docs];
          Overwritten(base, v, docs, Many(docs.tree + {d}));
        }
        if docs.Few? {
          fwd := fwd[v := Few(docs.docs + [d])];
        } else {
          fwd := fwd[v := Many(docs.tree + {d})];
        }
      }
      assert fwd == base[v := more];
    }

    method InnerIndexDoc(d: Doc, v: Value)
      requires Valid() && d !in notIndexed
      modifies this
      ensures Valid() && rev == old(rev)[d := v] && notIndexed == old(notIndexed)
    {
      if d in rev {
        assert Filed(fwd, rev, v, d);
        if v in fwd {
          match fwd[v] {
            case One(x) => if x == d { SameEntry(rev, d); return; }
            case Few(s) => if d in s { SameEntry(rev, d); return; }
            case Many(t) => if d in t { SameEntry(rev, d); return; }
          }
        }
        UnindexDoc(d);
      }
      InsertKeeps(fwd, rev, d, v);
      Post(d, v);
      numDocs := numDocs + 1;
      rev := rev[d := v];
    }

    /** Indexes what the object shows; the missing attribute is for documents that are not indexed. */
    method IndexDoc(d: Doc, a: Attribute) returns (r: Outcome)
      requires Valid() && (a.Missing? ==> d !in rev)
      modifies this
      ensures Valid()
      ensures a.Is? ==> r == Indexed && rev == old(rev)[d := a.value] && notIndexed == old(notIndexed) - {d}
      ensures a.Missing? ==> r == NotIndexed && rev == old(rev) && notIndexed == old(notIndexed) + {d}
      ensures a.Persistent? ==> r == CannotIndexPersistent && rev == old(rev) && notIndexed == old(notIndexed)
      ensures a.Broken? ==> r == CannotIndexBroken && rev == old(rev) && notIndexed == old(notIndexed)
    {
      match a
      case Missing =>
        notIndexed := notIndexed + {d};
        return NotIndexed;
      case Persistent => return CannotIndexPersistent;
      case Broken => return CannotIndexBroken;
      case Is(v) =>
        if d in notIndexed { notIndexed := notIndexed - {d}; } else { RemovedNothing(notIndexed, d); }
        InnerIndexDoc(d, v);
        return Indexed;
    }

    /** Takes a document out of the posting of its value, and the posting out when nothing is left. */
    method Unpost(d: Doc, v: Value)
      requires v in fwd
      modifies `fwd
      ensures fwd == Unposted(old(fwd), v, d)
    {
      var delvalue := false;
      match fwd[v] {
        case One(x) => delvalue := true;
        case Few(s) =>
          var left := FilterTuple(s, d);
          if |left| == 0 { delvalue := true; } else { fwd := fwd[v := Few(left)]; }
        case Many(t) =>
          fwd := fwd[v := Many(t - {d})];
          if t - {d} == {} { delvalue := true; }
      }
      if delvalue { fwd := fwd - {v}; }
      assert fwd == Unposted(old(fwd), v, d);
    }

    method UnindexDoc(d: Doc)
      requires Valid()
      modifies this
      ensures Valid() && rev == old(rev) - {d} && notIndexed == old(notIndexed) - {d}
    {
      if d in notIndexed { notIndexed := notIndexed - {d}; } else { RemovedNothing(notIndexed, d); }
      if d !in rev { RemovedNoKey(rev, d); return; }
      RemoveKeeps(fwd, rev, d);
      var v := rev[d];
      rev := rev - {d};
      Unpost(d, v);
      numDocs := numDocs - 1;
    }

    method FilterTuple(s: seq<Doc>, d: Doc) returns (left: seq<Doc>)
      ensures left == Without(s, d)
    {
      left := [];
      for i := 0 to |s|
        invariant left == Without(s[..i], d)
      {
        assert s[..i + 1][..i] == s[..i];
        if s[i] != d { left := left + [s[i]]; }
      }
      assert s[..|s|] == s;
    }

    /** The requested documents by value; a limit stops the scan after that many. */
    method ScanForward(docids: set<Doc>, limit: Option<int>) returns (out: seq<Doc>)
      requires Valid()
      ensures out == Limited(Scanned(fwd, Keys(fwd), docids), limit)
    {
      var values := Keys(fwd);
      out := [];
      var i := 0;
      while i < |values|
        invariant 0 <= i <= |values|
        invariant out == Scanned(fwd, values[..i], docids) && UnderLimit(out, limit)
      {
        var cut;
        ghost var before := out;
        ghost var met;
        out, cut, met := ScanPosting(Listed(fwd[values[i]]), docids, limit, out);
        if cut {
          CutScan(fwd, values, docids, i, met, before, out, limit);
          return;
        }
        ScannedMore(fwd, values, docids, i);
        i := i + 1;
      }
      Whole(values);
      NotCut(out, limit);
    }

    /** The documents of one posting; `cut` when the limit was reached at the `met`-th. */
    method ScanPosting(listed: seq<Doc>, docids: set<Doc>, limit: Option<int>, before: seq<Doc>)
      returns (out: seq<Doc>, cut: bool, ghost met: nat)
      requires UnderLimit(before, limit)
      ensures met <= |listed| && out == before + Chosen(listed[..met], docids)
      ensures cut ==> AtLimit(out, limit)
      ensures !cut ==> out == before + Chosen(listed, docids) && UnderLimit(out, limit)
    {
      out := before;
      var j := 0;
      while j < |listed|
        invariant 0 <= j <= |listed| && UnderLimit(out, limit)
        invariant out == before + Chosen(listed[..j], docids)
      {
        ChosenMore(listed, docids, j);
        if listed[j] in docids {
          out := out + [listed[j]];
          Assoc(before, Chosen(listed[..j], docids), [listed[j]]);
          if limit.Some? && limit.value != 0 && |out| >= limit.value {
            return out, true, j + 1;
          }
        }
        j := j + 1;
      }
      Whole(listed);
      return out, false, j;
    }

    /** The documents of one value. */
    method ApplyEq(v: Value) returns (found: set<Doc>)
      requires Valid()
      ensures forall d :: d in found <==> d in rev && rev[d] == v
    {
      FiledUnder(fwd, rev, v);
      if v !in fwd { return {}; }
      match fwd[v]
      case One(x) => found := {x};
      case Few(s) => found := set x | x in s;
      case Many(t) => found := t;
    }

    /** multiunion1 over the postings of one query. */
    method Spread(q: Query) returns (found: set<Doc>)
      requires Valid()
      ensures Answers(found, rev, q)
    {
      var values := Spanned(fwd, q);
      found := {};
      for i := 0 to |values|
        invariant forall d :: d in found <==> d in rev && rev[d] in values[..i]
      {
        var v := values[i];
        FiledUnder(fwd, rev, v);
        assert forall w :: w in values[..i + 1] <==> w in values[..i] || w == v;
        match fwd[v] {
          case One(x) => found := found + {x};
          case Few(s) => found := found + set x | x in s;
          case Many(t) => found := found + t;
        }
      }
      forall d
        ensures d in found <==> d in rev && Matches(q, rev[d])
      {
        if d in rev {
          assert Filed(fwd, rev, rev[d], d);
          assert values[..|values|] == values;
        }
      }
    }

    /** All queries, joined; an intersection of no queries is None. */
    method Search(queries: seq<Query>, operator: Operator) returns (result: Option<set<Doc>>)
      requires Valid()
      ensures result.None? <==> operator == And && queries == []
      ensures result.Some? ==> forall d :: d in result.value <==> d in rev && Wants(queries, operator, rev[d])
    {
      var sets: seq<set<Doc>> := [];
      for i := 0 to |queries|
        invariant |sets| == i && forall j :: 0 <= j < i ==> Answers(sets[j], rev, queries[j])
      {
        var found := Spread(queries[i]);
        sets := sets + [found];
      }
      if |sets| == 1 {
        result := Some(sets[0]);
        assert Answers(sets[0], rev, queries[0]);
        return;
      }
      if operator == And {
        result := None;
        for i := 0 to |sets|
          invariant result.None? <==> i == 0
          invariant result.Some? ==> forall d :: d in result.value <==> d in rev && Wants(queries[..i], And, rev[d])
        {
          assert Answers(sets[i], rev, queries[i]);
          ghost var before := result;
          result := Some(if result.None? then sets[i] else sets[i] * result.value);
          forall d | d in rev
            ensures Wants(queries[..i + 1], And, rev[d]) <==>
                      Wants(queries[..i], And, rev[d]) && Matches(queries[i], rev[d])
          {
            WantsMore(queries, i, And, rev[d]);
          }
        }
      } else {
        var union: set<Doc> := {};
        for i := 0 to |sets|
          invariant forall d :: d in union <==> d in rev && Wants(queries[..i], Or, rev[d])
        {
          assert Answers(sets[i], rev, queries[i]);
          union := union + sets[i];
          forall d | d in rev
            ensures Wants(queries[..i + 1], Or, rev[d]) <==>
                      Wants(queries[..i], Or, rev[d]) || Matches(queries[i], rev[d])
          {
            WantsMore(queries, i, Or, rev[d]);
          }
        }
        result := Some(union);
      }
      assert queries[..|sets|] == queries;
    }
  }

  // ---- what ranges and operators mean, on the documents' values alone ----------------------------

  /** One value asked for in three ways: the same documents, those of that value. */
  method FindValue(index: FieldIndex, x: Value, operator: Operator)
    returns (exactly: Option<set<Doc>>, within: Option<set<Doc>>, equal: set<Doc>)
    requires index.Valid()
    ensures exactly.Some? && forall d :: d in exactly.value <==> d in index.rev && index.rev[d] == x
    ensures within.Some? && forall d :: d in within.value <==> d in index.rev && index.rev[d] == x
    ensures forall d :: d in equal <==> d in index.rev && index.rev[d] == x
  {
    exactly := FindOne(index, Exactly(x), operator);
    within := FindOne(index, Range(Some(x), Some(x)), operator);
    equal := index.ApplyEq(x);
  }

  /** A range finds the documents whose values lie in it, both ends among them; an open end excludes nothing. */
  method FindRange(index: FieldIndex, low: Value, high: Value, operator: Operator)
    returns (within: Option<set<Doc>>, from: Option<set<Doc>>, upto: Option<set<Doc>>, all: Option<set<Doc>>)
    requires index.Valid()
    ensures within.Some? && forall d :: d in within.value <==> d in index.rev && low <= index.rev[d] <= high
    ensures from.Some? && forall d :: d in from.value <==> d in index.rev && low <= index.rev[d]
    ensures upto.Some? && forall d :: d in upto.value <==> d in index.rev && index.rev[d] <= high
    ensures all.Some? && forall d :: d in all.value <==> d in index.rev
  {
    within := FindOne(index, Range(Some(low), Some(high)), operator);
    from := FindOne(index, Range(Some(low), None), operator);
    upto := FindOne(index, Range(None, Some(high)), operator);
    all := FindOne(index, Range(None, None), operator);
  }

  method FindOne(index: FieldIndex, q: Query, operator: Operator) returns (found: Option<set<Doc>>)
    requires index.Valid()
    ensures found.Some? && Answers(found.value, index.rev, q)
  {
    found := index.Search([q], operator);
    forall d | d in index.rev
      ensures Wants([q], operator, index.rev[d]) <==> Matches(q, index.rev[d])
    {
      WantsOne(q, operator, index.rev[d]);
    }
  }

  datatype Ends = Ends(low: Value, high: Value)

  /** Several ranges: the documents with a value in one of them, or in all of them. */
  method FindInRanges(index: FieldIndex, ends: seq<Ends>) returns (some: Option<set<Doc>>, all: Option<set<Doc>>)
    requires index.Valid()
    ensures some.Some? && (all.None? <==> ends == [])
    ensures forall d :: d in some.value <==>
              d in index.rev && exists i :: 0 <= i < |ends| && ends[i].low <= index.rev[d] <= ends[i].high
    ensures all.Some? ==> forall d :: d in all.value <==>
              d in index.rev && forall i :: 0 <= i < |ends| ==> ends[i].low <= index.rev[d] <= ends[i].high
  {
    var queries := seq(|ends|, i requires 0 <= i < |ends| => Range(Some(ends[i].low), Some(ends[i].high)));
    some := index.Search(queries, Or);
    all := index.Search(queries, And);
    forall d | d in index.rev
      ensures Wants(queries, Or, index.rev[d]) <==>
                exists i :: 0 <= i < |ends| && ends[i].low <= index.rev[d] <= ends[i].high
      ensures Wants(queries, And, index.rev[d]) <==>
                forall i :: 0 <= i < |ends| ==> ends[i].low <= index.rev[d] <= ends[i].high
    {
      WantsInRanges(queries, ends, index.rev[d]);
    }
  }

  lemma WantsInRanges(queries: seq<Query>, ends: seq<Ends>, v: Value)
    requires |queries| == |ends|
    requires forall i :: 0 <= i < |ends| ==> queries[i] == Range(Some(ends[i].low), Some(ends[i].high))
    ensures Wants(queries, Or, v) <==> exists i :: 0 <= i < |ends| && ends[i].low <= v <= ends[i].high
    ensures Wants(queries, And, v) <==> forall i :: 0 <= i < |ends| ==> ends[i].low <= v <= ends[i].high
  {
    assert forall i :: 0 <= i < |ends| ==> (Matches(queries[i], v) <==> ends[i].low <= v <= ends[i].high);
    if i :| 0 <= i < |ends| && ends[i].low <= v <= ends[i].high { assert Matches(queries[i], v); }
  }

  lemma WantsOne(q: Query, operator: Operator, v: Value)
    ensures Wants([q], operator, v) <==> Matches(q, v)
  {
    assert [q][0] == q;
  }

  lemma WantsMore(queries: seq<Query>, i: nat, operator: Operator, v: Value)
    requires i < |queries|
    ensures Wants(queries[..i + 1], operator, v) <==>
            if operator == Or then Wants(queries[..i], Or, v) || Matches(queries[i], v)
            else Wants(queries[..i], And, v) && Matches(queries[i], v)
  {
    var a, b := queries[..i], queries[..i + 1];
    assert b[i] == queries[i] && forall j :: 0 <= j < i ==> a[j] == b[j];
    if operator == Or && Wants(b, Or, v) {
      var j :| 0 <= j < |b| && Matches(b[j], v);
      if j < i { assert Matches(a[j], v); }
    }
    if operator == Or && Wants(a, Or, v) {
      var j :| 0 <= j < |a| && Matches(a[j], v);
      assert Matches(b[j], v);
    }
  }

  lemma Overwritten<K, V>(m: map<K, V>, k: K, a: V, b: V)
    ensures m[k := a][k := b] == m[k := b]
  {
  }

  lemma SameEntry(rev: Reverse, d: Doc)
    requires d in rev
    ensures rev[d := rev[d]] == rev
  {
  }

  lemma RemovedNothing(s: set<Doc>, d: Doc)
    requires d !in s
    ensures s - {d} == s
  {
  }

  lemma RemovedNoKey(rev: Reverse, d: Doc)
    requires d !in rev
    ensures rev - {d} == rev
  {
  }

  /** The limit has not been reached. */
  predicate UnderLimit(out: seq<Doc>, limit: Option<int>) {
    out == [] || limit.None? || limit.value == 0 || |out| < limit.value
  }

  lemma ChosenMore(s: seq<Doc>, docids: set<Doc>, j: nat)
    requires j < |s|
    ensures Chosen(s[..j + 1], docids) ==
            if s[j] in docids then Chosen(s[..j], docids) + [s[j]] else Chosen(s[..j], docids)
  {
    assert s[..j + 1][..j] == s[..j];
  }

  lemma ScannedMore(fwd: Forward, values: seq<Value>, docids: set<Doc>, i: nat)
    requires i < |values| && forall k :: 0 <= k < |values| ==> values[k] in fwd
    ensures Scanned(fwd, values[..i + 1], docids) ==
            Scanned(fwd, values[..i], docids) + Chosen(Listed(fwd[values[i]]), docids)
  {
    assert values[..i + 1][..i] == values[..i];
  }

  /** The limit has just been reached. */
  predicate AtLimit(out: seq<Doc>, limit: Option<int>) {
    limit.Some? && limit.value != 0 && out != [] && |out| >= limit.value && (|out| == 1 || |out| == limit.value)
  }

  /** The limit leaves a prefix: once it is reached, the rest of the scan does not matter. */
  lemma CutPrefix(all: seq<Doc>, out: seq<Doc>, limit: Option<int>)
    requires out <= all && AtLimit(out, limit)
    ensures Limited(all, limit) == out
  {
  }

  lemma NotCut(all: seq<Doc>, limit: Option<int>)
    requires UnderLimit(all, limit)
    ensures Limited(all, limit) == all
  {
  }

  lemma {:induction false} ScannedPrefix(fwd: Forward, values: seq<Value>, docids: set<Doc>, n: nat)
    requires n <= |values| && forall i :: 0 <= i < |values| ==> values[i] in fwd
    ensures Scanned(fwd, values[..n], docids) <= Scanned(fwd, values, docids)
    decreases |values|
  {
    if n < |values| {
      ScannedPrefix(fwd, values[..|values| - 1], docids, n);
      assert values[..|values| - 1][..n] == values[..n];
    } else {
      Whole(values);
    }
  }

  lemma {:induction false} ChosenPrefix(s: seq<Doc>, docids: set<Doc>, n: nat)
    requires n <= |s|
    ensures Chosen(s[..n], docids) <= Chosen(s, docids)
    decreases |s|
  {
    if n < |s| {
      ChosenPrefix(s[..|s| - 1], docids, n);
      assert s[..|s| - 1][..n] == s[..n];
    } else {
      Whole(s);
    }
  }

  lemma Longer<T>(a: seq<T>, b: seq<T>, c: seq<T>, all: seq<T>)
    requires b <= c && a + c <= all
    ensures a + b <= all
  {
    assert forall i :: 0 <= i < |a + b| ==> (a + b)[i] == (a + c)[i] == all[i];
  }

  /** What was met so far is a prefix of the whole scan. */
  lemma CutHere(fwd: Forward, values: seq<Value>, docids: set<Doc>, i: nat, met: nat, before: seq<Doc>)
    requires i < |values| && forall k :: 0 <= k < |values| ==> values[k] in fwd
    requires met <= |Listed(fwd[values[i]])| && before == Scanned(fwd, values[..i], docids)
    ensures before + Chosen(Listed(fwd[values[i]])[..met], docids) <= Scanned(fwd, values, docids)
  {
    var listed := Listed(fwd[values[i]]);
    ChosenPrefix(listed, docids, met);
    ScannedMore(fwd, values, docids, i);
    ScannedPrefix(fwd, values, docids, i + 1);
    Longer(before, Chosen(listed[..met], docids), Chosen(listed, docids), Scanned(fwd, values, docids));
  }

  /** So a scan that reaches the limit there is what the limit leaves. */
  lemma CutScan(fwd: Forward, values: seq<Value>, docids: set<Doc>, i: nat, met: nat, before: seq<Doc>,
                out: seq<Doc>, limit: Option<int>)
    requires i < |values| && forall k :: 0 <= k < |values| ==> values[k] in fwd
    requires met <= |Listed(fwd[values[i]])| && before == Scanned(fwd, values[..i], docids)
    requires out == before + Chosen(Listed(fwd[values[i]])[..met], docids) && AtLimit(out, limit)
    ensures out == Limited(Scanned(fwd, values, docids), limit)
  {
    CutHere(fwd, values, docids, i, met, before);
    CutPrefix(Scanned(fwd, values, docids), out, limit);
  }

  lemma LimitedPrefix(all: seq<Doc>, limit: Option<int>)
    ensures Limited(all, limit) <= all
  {
  }

  /** The scan as its readers see it: the requested indexed documents, once each, in order of value. */
  lemma ScanRight(fwd: Forward, rev: Reverse, docids: set<Doc>, limit: Option<int>)
    requires Inverse(fwd, rev)
    ensures var all := Scanned(fwd, Keys(fwd), docids);
            && InValueOrder(all, rev) && (forall d :: d in all <==> d in docids && d in rev)
            && Limited(all, limit) <= all
            && |Limited(all, limit)| == match limit {
                 case None => |all|
                 case Some(n) => if n == 0 || |all| < n then |all| else if n > 0 then n else if all == [] then 0 else 1
               }
  {
    var values := Keys(fwd);
    ScannedRight(fwd, rev, values, docids);
    LimitedPrefix(Scanned(fwd, values, docids), limit);
    forall d | d in rev
      ensures rev[d] in values
    {
      assert Filed(fwd, rev, rev[d], d);
      KeysAll(fwd, rev[d]);
    }
  }
}
