/** Looking up keys in many trees at once, fetching one level of all of them per round. */
module TreePrefetch {
  import opened Wrappers

  type Key = int

  /** An object id; objects that were never stored have none. */
  datatype Id = Id(number: nat)

  /**
   * A tree of `keys` between `children`; a tree without children is empty. A leaf is a bucket of its
   * own or, in a tree of one bucket, stored inside the tree.
   */
  datatype Node =
    | Tree(oid: Option<Id>, keys: seq<Key>, children: seq<Node>)
    | Bucket(oid: Option<Id>)
    | Inline

  predicate Increasing(s: seq<Key>) { forall i, j :: 0 <= i < j < |s| ==> s[i] < s[j] }

  /** One separating key between any two children, in order, down to the leaves. */
  predicate WellFormed(n: Node) {
    n.Tree? ==>
      Increasing(n.keys) && ((n.children == [] && n.keys == []) || |n.children| == |n.keys| + 1)
      && forall c :: c in n.children ==> WellFormed(c)
  }

  /** The i-th child is the one whose keys include `key`: from the separator before it up to the one after it. */
  predicate Covers(keys: seq<Key>, i: nat, key: Key) {
    i <= |keys| && (i > 0 ==> keys[i - 1] <= key) && (i < |keys| ==> key < keys[i])
  }

  lemma CoversOnce(keys: seq<Key>, i: nat, j: nat, key: Key)
    requires Increasing(keys) && Covers(keys, i, key) && Covers(keys, j, key)
    ensures i == j
  {
    assert forall a, b :: 0 <= a <= b < |keys| ==> keys[a] <= keys[b];
  }

  /** btree_state_search: binary search among the separators; None for the state of an empty tree. */
  method StateSearch(keys: seq<Key>, children: seq<Node>, key: Key) returns (r: Option<(nat, Node)>)
    requires Increasing(keys) && ((children == [] && keys == []) || |children| == |keys| + 1)
    ensures r.None? <==> children == []
    ensures r.Some? ==> Covers(keys, r.value.0, key) && r.value.1 == children[r.value.0]
  {
    if children == [] { return None; }
    var lo, hi := 0, |children|;
    var i := hi / 2;
    while i > lo
      invariant 0 <= lo <= i < hi <= |children| && i == (lo + hi) / 2
      invariant (lo > 0 ==> keys[lo - 1] < key) && (hi < |children| ==> key < keys[hi - 1])
      decreases hi - lo
    {
      var ikey := keys[i - 1];
      if ikey < key {
        lo := i;
      } else if ikey > key {
        hi := i;
      } else {
        assert i < |keys| ==> keys[i - 1] < keys[i];
        return Some((i, children[i]));
      }
      i := (lo + hi) / 2;
    }
    return Some((i, children[i]));
  }

  /** The child a lookup goes to, found by going through the separators one by one. */
  function Rank(keys: seq<Key>, key: Key): (i: nat)
    ensures i <= |keys|
  {
    if keys == [] || key < keys[0] then 0 else 1 + Rank(keys[1..], key)
  }

  lemma {:induction false} RankCovers(keys: seq<Key>, key: Key)
    requires Increasing(keys)
    ensures Covers(keys, Rank(keys, key), key)
    decreases |keys|
  {
    if keys != [] && keys[0] <= key { RankCovers(keys[1..], key); }
  }

  /** What the lookup of `key` visits after a node, if that is an object of its own. */
  function NextNode(n: Node, key: Key): (c: Option<Node>)
    requires WellFormed(n)
    ensures c.Some? ==> n.Tree? && c.value in n.children && !c.value.Inline? && WellFormed(c.value)
  {
    if n.Tree? && n.children != [] && !n.children[Rank(n.keys, key)].Inline? then
      Some(n.children[Rank(n.keys, key)])
    else None
  }

  /** The nodes on the way from the root to the bucket of `key`. */
  function Path(n: Node, key: Key): (p: seq<Node>)
    requires WellFormed(n)
    ensures p != [] && p[0] == n
    decreases n
  {
    var c := NextNode(n, key);
    [n] + if c.None? then [] else Path(c.value, key)
  }

  function Height(n: Node): nat
    decreases n
  {
    if n.Tree? then 1 + Highest(n.children) else 0
  }

  function Highest(s: seq<Node>): nat
    decreases s
  {
    if s == [] then 0 else var a, b := Height(s[0]), Highest(s[1..]); if a < b then b else a
  }

  lemma {:induction false} HighestAt(s: seq<Node>, c: Node)
    requires c in s
    ensures Height(c) <= Highest(s)
    decreases |s|
  {
    if c != s[0] { HighestAt(s[1..], c); }
  }

  /** A lookup visits at most one node more than the tree is high. */
  lemma {:induction false} PathShort(n: Node, key: Key)
    requires WellFormed(n)
    ensures |Path(n, key)| <= Height(n) + 1
    decreases n
  {
    var c := NextNode(n, key);
    if c.Some? {
      HighestAt(n.children, c.value);
      PathShort(c.value, key);
    }
  }

  function OidOf(n: Node): Option<Id> { if n.Inline? then None else n.oid }

  // ---- the traversal -----------------------------------------------------------------------------

  predicate AllWellFormed(trees: seq<Node>) { forall i :: 0 <= i < |trees| ==> WellFormed(trees[i]) }

  /** The object is on the way of this lookup. */
  ghost predicate OnWay(n: Node, key: Key, x: Id)
    requires WellFormed(n)
  {
    exists m :: m in Path(n, key) && OidOf(m) == Some(x)
  }

  /** No lookup visits more than `d` nodes. */
  ghost predicate PathsWithin(trees: seq<Node>, keys: seq<Key>, d: nat)
    requires |trees| == |keys| && AllWellFormed(trees)
  {
    forall i :: 0 <= i < |trees| ==> |Path(trees[i], keys[i])| <= d
  }

  /** The object is on the way of one of the lookups. */
  ghost predicate OnPath(trees: seq<Node>, keys: seq<Key>, x: Id)
    requires |trees| == |keys| && AllWellFormed(trees)
  {
    exists i :: 0 <= i < |trees| && OnWay(trees[i], keys[i], x)
  }

  ghost predicate Among(objs: seq<Node>, x: Id) { exists i :: 0 <= i < |objs| && OidOf(objs[i]) == Some(x) }

  lemma OnWayStep(n: Node, key: Key, x: Id)
    requires WellFormed(n)
    ensures var c := NextNode(n, key);
            OnWay(n, key, x) <==> OidOf(n) == Some(x) || (c.Some? && OnWay(c.value, key, x))
  {
    var c := NextNode(n, key);
    if c.None? {
      assert Path(n, key) == [n];
    } else {
      assert forall m :: m in Path(n, key) <==> m == n || m in Path(c.value, key);
    }
    assert n in Path(n, key);
  }

  /** The way in words: it starts at the node, goes on to the child whose key interval holds the key, as far as
      children are objects of their own, and ends there. */
  lemma WayInWords(n: Node, key: Key, i: nat, x: Id)
    requires WellFormed(n) && (n.Tree? && i < |n.children| ==> Covers(n.keys, i, key))
    ensures n.Inline? ==> !OnWay(n, key, x)
    ensures n.Bucket? || (n.Tree? && n.children == []) ==> (OnWay(n, key, x) <==> n.oid == Some(x))
    ensures n.Tree? && i < |n.children| ==>
              (OnWay(n, key, x) <==> n.oid == Some(x) || OnWay(n.children[i], key, x))
  {
    OnWayStep(n, key, x);
    if n.Tree? && i < |n.children| {
      RankCovers(n.keys, key);
      CoversOnce(n.keys, i, Rank(n.keys, key), key);
      OnWayStep(n.children[i], key, x);
    }
  }

  /** The object is on the way of the lookup of one of the keys. */
  ghost predicate OnAnyWay(tree: Node, keys: seq<Key>, x: Id)
    requires WellFormed(tree)
  {
    exists i :: 0 <= i < |keys| && OnWay(tree, keys[i], x)
  }

  /** No lookup in the tree visits more than `d` nodes. */
  ghost predicate WaysWithin(tree: Node, keys: seq<Key>, d: nat)
    requires WellFormed(tree)
  {
    forall i :: 0 <= i < |keys| ==> |Path(tree, keys[i])| <= d
  }

  /** Objects fetched so far, and the number of bulk requests that took. */
  class Connection {
    var fetched: set<Id>
    var rounds: nat

    constructor ()
      ensures fetched == {} && rounds == 0
    {
      fetched, rounds := {}, 0;
    }

    /** Fetches the objects that have an id, all in one request. */
    method Prefetch(objs: seq<Node>)
      modifies this
      ensures forall x :: x in fetched <==> x in old(fetched) || Among(objs, x)
      ensures rounds <= old(rounds) + if objs == [] then 0 else 1
    {
      var ids := set i | 0 <= i < |objs| && OidOf(objs[i]).Some? :: OidOf(objs[i]).value;
      forall x
        ensures x in ids <==> Among(objs, x)
      {
        if i :| 0 <= i < |objs| && OidOf(objs[i]) == Some(x) { assert OidOf(objs[i]).value in ids; }
      }
      if ids != {} {
        fetched := fetched + ids;
        rounds := rounds + 1;
      }
    }

    /** parallel_traversal of a list of trees, each with its key. */
    method ParallelTraversal(trees: seq<Node>, keys: seq<Key>)
      requires |trees| == |keys| && AllWellFormed(trees)
      modifies this
      ensures forall x :: x in fetched <==> x in old(fetched) || OnPath(trees, keys, x)
      ensures rounds <= old(rounds) + Highest(trees) + 1
      ensures forall d: nat :: PathsWithin(trees, keys, d) ==> rounds <= old(rounds) + d
      decreases Highest(trees)
    {
      Prefetch(trees);
      var nextTrees, nextKeys := NextLevel(trees, keys);
      forall x
        ensures OnPath(trees, keys, x) <==> Among(trees, x) || OnPath(nextTrees, nextKeys, x)
      {
        OnPathStep(trees, keys, x);
      }
      if nextKeys != [] {
        LevelLower(trees, keys);
        ParallelTraversal(nextTrees, nextKeys);
      }
      forall d: nat | PathsWithin(trees, keys, d)
        ensures rounds <= old(rounds) + d
      {
        LevelShorter(trees, keys, d);
      }
    }

    /** parallel_traversal of one tree with several keys. */
    method TraverseOne(tree: Node, keys: seq<Key>)
      requires WellFormed(tree)
      modifies this
      ensures forall x :: x in fetched <==> x in old(fetched) || OidOf(tree) == Some(x) || OnAnyWay(tree, keys, x)
      ensures rounds <= old(rounds) + Height(tree) + 1
      ensures forall d: nat :: d > 0 && WaysWithin(tree, keys, d) ==> rounds <= old(rounds) + d
    {
      var trees := seq(|keys|, i => tree);
      Prefetch([tree]);
      var nextTrees, nextKeys := NextLevel(trees, keys);
      forall x
        ensures Among([tree], x) || OnPath(nextTrees, nextKeys, x) <==>
                  OidOf(tree) == Some(x) || OnAnyWay(tree, keys, x)
      {
        OneTreeStep(tree, keys, trees, x);
      }
      if nextKeys != [] {
        LevelLower(trees, keys);
        HighestSame(trees, tree);
        ParallelTraversal(nextTrees, nextKeys);
      }
      forall d: nat | d > 0 && WaysWithin(tree, keys, d)
        ensures rounds <= old(rounds) + d
      {
        assert PathsWithin(trees, keys, d);
        LevelShorter(trees, keys, d);
      }
    }
  }

  /** The next tree or bucket of every lookup that goes on. */
  method NextLevel(trees: seq<Node>, keys: seq<Key>) returns (nextTrees: seq<Node>, nextKeys: seq<Key>)
    requires |trees| == |keys| && AllWellFormed(trees)
    ensures (nextTrees, nextKeys) == Level(trees, keys)
  {
    nextTrees, nextKeys := [], [];
    for i := 0 to |trees|
      invariant (nextTrees, nextKeys) == Level(trees[..i], keys[..i])
    {
      assert trees[..i + 1][..i] == trees[..i] && keys[..i + 1][..i] == keys[..i];
      if trees[i].Tree? {
        var found := StateSearch(trees[i].keys, trees[i].children, keys[i]);
        RankCovers(trees[i].keys, keys[i]);
        if found.Some? {
          CoversOnce(trees[i].keys, found.value.0, Rank(trees[i].keys, keys[i]), keys[i]);
          if !found.value.1.Inline? {
            nextTrees, nextKeys := nextTrees + [found.value.1], nextKeys + [keys[i]];
          }
        }
      }
    }
    assert trees[..|trees|] == trees && keys[..|keys|] == keys;
  }

  function Level(trees: seq<Node>, keys: seq<Key>): (r: (seq<Node>, seq<Key>))
    requires |trees| == |keys| && AllWellFormed(trees)
    ensures |r.0| == |r.1| && AllWellFormed(r.0)
    decreases |trees|
  {
    if trees == [] then ([], [])
    else
      var n := |trees| - 1;
      var r := Level(trees[..n], keys[..n]);
      var c := NextNode(trees[n], keys[n]);
      if c.None? then r else (r.0 + [c.value], r.1 + [keys[n]])
  }

  ghost predicate StepsTo(n: Node, key: Key, c: Node, k: Key)
    requires WellFormed(n)
  {
    NextNode(n, key) == Some(c) && key == k
  }

  /** Every entry of the next level continues a lookup. */
  lemma {:induction false} LevelComes(trees: seq<Node>, keys: seq<Key>, j: nat) returns (i: nat)
    requires |trees| == |keys| && AllWellFormed(trees) && j < |Level(trees, keys).0|
    ensures i < |trees| && StepsTo(trees[i], keys[i], Level(trees, keys).0[j], Level(trees, keys).1[j])
    decreases |trees|
  {
    var n := |trees| - 1;
    var r := Level(trees[..n], keys[..n]);
    if j < |r.0| { i := LevelComes(trees[..n], keys[..n], j); } else { i := n; }
  }

  /** Every lookup that goes on is in the next level. */
  lemma {:induction false} LevelHas(trees: seq<Node>, keys: seq<Key>, i: nat) returns (j: nat)
    requires |trees| == |keys| && AllWellFormed(trees) && i < |trees| && NextNode(trees[i], keys[i]).Some?
    ensures j < |Level(trees, keys).0| && StepsTo(trees[i], keys[i], Level(trees, keys).0[j], Level(trees, keys).1[j])
    decreases |trees|
  {
    var n := |trees| - 1;
    var r := Level(trees[..n], keys[..n]);
    if i < n { j := LevelHas(trees[..n], keys[..n], i); } else { j := |r.0|; }
  }

  /** What lies on the lookups' ways: where they are, and what lies on the ways from the next level. */
  lemma OnPathStep(trees: seq<Node>, keys: seq<Key>, x: Id)
    requires |trees| == |keys| && AllWellFormed(trees)
    ensures var r := Level(trees, keys); OnPath(trees, keys, x) <==> Among(trees, x) || OnPath(r.0, r.1, x)
  {
    var r := Level(trees, keys);
    if i :| 0 <= i < |trees| && OnWay(trees[i], keys[i], x) {
      OnWayStep(trees[i], keys[i], x);
      if OidOf(trees[i]) != Some(x) {
        var j := LevelHas(trees, keys, i);
        assert OnWay(r.0[j], r.1[j], x);
      }
    }
    if i :| 0 <= i < |trees| && OidOf(trees[i]) == Some(x) { OnWayStep(trees[i], keys[i], x); }
    if j :| 0 <= j < |r.0| && OnWay(r.0[j], r.1[j], x) {
      var i := LevelComes(trees, keys, j);
      OnWayStep(trees[i], keys[i], x);
    }
  }

  /** From the next level on, every lookup has one node less to visit. */
  lemma LevelShorter(trees: seq<Node>, keys: seq<Key>, d: nat)
    requires |trees| == |keys| && AllWellFormed(trees) && PathsWithin(trees, keys, d)
    ensures trees != [] ==> d > 0
    ensures var r := Level(trees, keys); d > 0 ==> PathsWithin(r.0, r.1, d - 1)
    ensures trees == [] ==> Level(trees, keys).1 == []
  {
    var r := Level(trees, keys);
    if trees != [] { assert Path(trees[0], keys[0]) != []; }
    forall j | 0 <= j < |r.0|
      ensures |Path(r.0[j], r.1[j])| + 1 <= d
    {
      var i := LevelComes(trees, keys, j);
      assert |Path(trees[i], keys[i])| == 1 + |Path(r.0[j], r.1[j])|;
    }
  }

  lemma OneTreeStep(tree: Node, keys: seq<Key>, trees: seq<Node>, x: Id)
    requires WellFormed(tree) && |trees| == |keys| && forall i :: 0 <= i < |trees| ==> trees[i] == tree
    ensures var r := Level(trees, keys);
            Among([tree], x) || OnPath(r.0, r.1, x) <==> OidOf(tree) == Some(x) || OnAnyWay(tree, keys, x)
  {
    OnPathStep(trees, keys, x);
    assert Among([tree], x) <==> OidOf(tree) == Some(x) by {
      assert OidOf([tree][0]) == OidOf(tree);
    }
    if i :| 0 <= i < |keys| && OnWay(tree, keys[i], x) { assert OnWay(trees[i], keys[i], x); }
    if i :| 0 <= i < |trees| && OnWay(trees[i], keys[i], x) { assert OnWay(tree, keys[i], x); }
  }

  lemma {:induction false} HighestReached(s: seq<Node>) returns (c: Node)
    requires s != []
    ensures c in s && Height(c) == Highest(s)
    decreases |s|
  {
    c := s[0];
    if Highest(s[1..]) > Height(s[0]) { c := HighestReached(s[1..]); }
  }

  lemma HighestSame(s: seq<Node>, n: Node)
    requires s != [] && forall i :: 0 <= i < |s| ==> s[i] == n
    ensures Highest(s) == Height(n)
  {
    var c := HighestReached(s);
  }

  /** The next level is lower. */
  lemma LevelLower(trees: seq<Node>, keys: seq<Key>)
    requires |trees| == |keys| && AllWellFormed(trees) && Level(trees, keys).0 != []
    ensures Highest(Level(trees, keys).0) < Highest(trees)
  {
    var r := Level(trees, keys).0;
    var c := HighestReached(r);
    var j :| 0 <= j < |r| && r[j] == c;
    var i := LevelComes(trees, keys, j);
    HighestAt(trees[i].children, c);
    HighestAt(trees, trees[i]);
  }
}
