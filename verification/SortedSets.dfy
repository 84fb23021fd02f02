/** Ordered sets, as the BTrees library provides them: a finite set whose iteration is ascending.
    A tree is modelled by the set of its members; `InOrder` and `Ascending` are what iterating it yields. */
module SortedSets {

  /** A pair (-score, docid), the element type of the scored trees. */
  datatype Entry = Entry(neg: real, doc: int)

  /** Python's tuple order on (-score, docid). */
  predicate Below(a: Entry, b: Entry) {
    a.neg < b.neg || (a.neg == b.neg && a.doc < b.doc)
  }

  predicate Sorted(s: seq<Entry>) {
    forall i, j :: 0 <= i < j < |s| ==> Below(s[i], s[j])
  }

  /** Every non-empty tree has a least member. */
  lemma {:induction false} LeastExists(s: set<Entry>)
    requires s != {}
    ensures exists m :: m in s && forall x :: x in s && x != m ==> Below(m, x)
    decreases |s|
  {
    var y :| y in s;
    var rest := s - {y};
    if rest == {} {
      assert forall x :: x in s ==> x == y || x in rest;
    } else {
      LeastExists(rest);
      var m :| m in rest && forall x :: x in rest && x != m ==> Below(m, x);
      var least := if Below(y, m) then y else m;
      forall x | x in s && x != least
        ensures Below(least, x)
      {
        assert x == y || x in rest;
      }
    }
  }

  function Least(s: set<Entry>): (m: Entry)
    requires s != {}
    ensures m in s && forall x :: x in s && x != m ==> Below(m, x)
  {
    LeastExists(s);
    var m :| m in s && forall x :: x in s && x != m ==> Below(m, x);
    m
  }

  /** Iteration order of a scored tree. */
  function InOrder(s: set<Entry>): (r: seq<Entry>)
    ensures Sorted(r) && |r| == |s|
    ensures forall e :: e in r <==> e in s
    decreases |s|
  {
    if s == {} then []
    else
      var m := Least(s);
      [m] + InOrder(s - {m})
  }

  lemma HasFirst<T>(s: seq<T>)
    ensures s != [] ==> s[0] in s
  {
  }

  /** A sorted sequence is determined by its members. */
  lemma {:induction false} SortedUnique(a: seq<Entry>, b: seq<Entry>)
    requires Sorted(a) && Sorted(b)
    requires forall e :: e in a <==> e in b
    ensures a == b
  {
    HasFirst(a);
    HasFirst(b);
    if a != [] {
      assert a[0] in b;
      assert b[0] in a;
      assert a[0] == b[0];
      forall e | true
        ensures e in a[1..] <==> e in b[1..]
      {
        MemberOfTail(a, e);
        MemberOfTail(b, e);
      }
      SortedUnique(a[1..], b[1..]);
    }
  }

  lemma MemberOfTail(a: seq<Entry>, e: Entry)
    requires Sorted(a) && a != []
    ensures e in a[1..] <==> e in a && e != a[0]
  {
    if e in a && e != a[0] {
      var i :| 0 <= i < |a| && a[i] == e;
      assert a[1..][i - 1] == e;
    }
  }

  /** Removing the first element of the iteration leaves the rest of it. */
  lemma InOrderTail(s: set<Entry>)
    requires s != {}
    ensures InOrder(s)[0] in s
    ensures InOrder(s - {InOrder(s)[0]}) == InOrder(s)[1..]
  {
  }

  lemma OrderFromLeast(s: set<Entry>, m: Entry)
    requires m in s && forall e :: e in s && e != m ==> Below(m, e)
    ensures InOrder(s) == [m] + InOrder(s - {m})
  {
    var l := Least(s);
    assert l == m;
  }

  /** e comes after all of the entries given. */
  predicate After(front: seq<Entry>, e: Entry) {
    forall f :: f in front ==> Below(f, e)
  }

  lemma HeadBelow(front: seq<Entry>, e: Entry)
    requires Sorted(front) && front != [] && e != front[0]
    requires e in front || After(front, e)
    ensures Below(front[0], e) && (e in front[1..] || After(front[1..], e))
  {
    HasFirst(front);
    if e in front {
      MemberOfTail(front, e);
    } else {
      forall f | f in front[1..]
        ensures Below(f, e)
      {
        MemberOfTail(front, f);
      }
    }
  }

  lemma TailInRest(s: set<Entry>, front: seq<Entry>)
    requires Sorted(front) && front != [] && forall e :: e in front ==> e in s
    ensures Sorted(front[1..]) && forall e :: e in front[1..] ==> e in s - {front[0]}
  {
    forall e | e in front[1..]
      ensures e in s - {front[0]}
    {
      MemberOfTail(front, e);
    }
  }

  lemma PrefixCons<T>(m: T, tail: seq<T>, front: seq<T>)
    requires front != [] && front[0] == m && |front| - 1 <= |tail| && tail[..|front| - 1] == front[1..]
    ensures ([m] + tail)[..|front|] == front
  {
  }

  /** Sorted entries of a set that come before all its others are the first ones in iteration order. */
  lemma {:induction false} FrontOrder(s: set<Entry>, front: seq<Entry>)
    requires Sorted(front) && forall e :: e in front ==> e in s
    requires forall e {:trigger After(front, e)} :: e in s ==> e in front || After(front, e)
    ensures |front| <= |s| && InOrder(s)[..|front|] == front
    decreases |front|
  {
    if front != [] {
      var m, rest := front[0], s - {front[0]};
      HasFirst(front);
      TailInRest(s, front);
      forall e | e in rest
        ensures Below(m, e) && (e in front[1..] || After(front[1..], e))
      {
        assert e in front || After(front, e);
        HeadBelow(front, e);
      }
      OrderFromLeast(s, m);
      FrontOrder(rest, front[1..]);
      PrefixCons(m, InOrder(rest), front);
    }
  }

  lemma {:induction false} SubsetSize<T>(a: set<T>, b: set<T>)
    requires a <= b
    ensures |a| <= |b|
    decreases |a|
  {
    if a != {} {
      var x :| x in a;
      SubsetSize(a - {x}, b - {x});
    }
  }

  /** The indices below n. */
  function Upto(n: nat): (s: set<nat>)
    ensures |s| == n && forall i :: i in s <==> 0 <= i < n
  {
    if n == 0 then {} else Upto(n - 1) + {n - 1}
  }

  predicate Increasing(s: seq<int>) {
    forall i, j :: 0 <= i < j < |s| ==> s[i] < s[j]
  }

  ghost function Pick<T>(s: set<T>): (x: T)
    requires s != {}
    ensures x in s
  {
    var x :| x in s; x
  }

  lemma {:induction false} SmallestExists(s: set<int>)
    requires s != {}
    ensures exists m :: m in s && forall x :: x in s ==> m <= x
    decreases |s|
  {
    var y := Pick(s);
    var rest := s - {y};
    if rest == {} {
      assert forall x :: x in s ==> x == y || x in rest;
    } else {
      SmallestExists(rest);
      var m :| m in rest && forall x :: x in rest ==> m <= x;
      var least := if y < m then y else m;
      assert forall x :: x in s ==> x == y || x in rest;
      assert least in s && forall x :: x in s ==> least <= x;
    }
  }

  function Smallest(s: set<int>): (m: int)
    requires s != {}
    ensures m in s && forall x :: x in s ==> m <= x
  {
    SmallestExists(s);
    var m :| m in s && forall x :: x in s ==> m <= x;
    m
  }

  /** Iteration order of a set of integers, and of the keys of a tree map. */
  function Ascending(s: set<int>): (r: seq<int>)
    ensures Increasing(r) && |r| == |s|
    ensures forall x :: x in r <==> x in s
    decreases |s|
  {
    if s == {} then []
    else
      var m := Smallest(s);
      [m] + Ascending(s - {m})
  }
}
