/** Users and their certificates: three indexes over the same users and one concatenated text. */
module Accounts {
  import opened Wrappers
  import opened CertTexts

  datatype Uid = Oid(number: nat)
  datatype Der = Der(digest: nat)

  /** A certificate in the order of registration; the placeholder belongs to nobody. */
  datatype Entry = Entry(der: Der, pem: Text, owner: Option<Uid>)

  type Held = map<Uid, map<Der, Text>>
  type Uids = map<Der, Option<Uid>>

  function Pems(log: seq<Entry>): seq<Text> {
    if log == [] then [] else [log[0].pem] + Pems(log[1..])
  }

  function Drop(log: seq<Entry>, d: Der): seq<Entry> {
    if log == [] then [] else if log[0].der == d then Drop(log[1..], d) else [log[0]] + Drop(log[1..], d)
  }

  ghost predicate Logged(log: seq<Entry>, d: Der) { exists i :: 0 <= i < |log| && log[i].der == d }

  /** A registered certificate is in the index and, if it has an owner, with its owner. */
  ghost predicate Backed(held: Held, uids: Uids, e: Entry) {
    && e.der in uids && uids[e.der] == e.owner
    && (e.owner.Some? ==> e.owner.value in held && e.der in held[e.owner.value] && held[e.owner.value][e.der] == e.pem)
  }

  /** A certificate someone holds is in the index under its holder. */
  ghost predicate Claimed(held: Held, uids: Uids, id: Uid, d: Der) {
    id in held && d in held[id] ==> d in uids && uids[d] == Some(id)
  }

  ghost predicate Known(uids: Uids, log: seq<Entry>, d: Der) { d in uids ==> Logged(log, d) }

  ghost predicate DistinctDers(log: seq<Entry>) { forall i, j :: 0 <= i < j < |log| ==> log[i].der != log[j].der }

  ghost predicate NobodyFirst(log: seq<Entry>) {
    log != [] && log[0].owner.None? && forall i :: 0 < i < |log| ==> log[i].owner.Some?
  }

  /** The index, the users and the registration order tell the same story. */
  ghost predicate Live(held: Held, uids: Uids, log: seq<Entry>) {
    && DistinctDers(log) && NobodyFirst(log)
    && (forall i {:trigger Backed(held, uids, log[i])} :: 0 <= i < |log| ==> Backed(held, uids, log[i]))
    && (forall d {:trigger Known(uids, log, d)} :: Known(uids, log, d))
    && (forall id, d {:trigger Claimed(held, uids, id, d)} :: Claimed(held, uids, id, d))
  }

  /** Neither text begins the other. */
  predicate Separate(a: Text, b: Text) { !(a <= b) && !(b <= a) }

  /** A text that can be told apart from all registered ones. */
  predicate Fits(log: seq<Entry>, pem: Text) {
    Clean(pem) && forall i :: 0 <= i < |log| ==> Separate(pem, log[i].pem)
  }

  /** All registered texts can be told apart. */
  ghost predicate Tellable(log: seq<Entry>) {
    && (forall i :: 0 <= i < |log| ==> Clean(log[i].pem))
    && forall i, j :: 0 <= i < j < |log| ==> Separate(log[i].pem, log[j].pem)
  }

  /** The index maps exactly the certificates users hold to their holders, and the placeholder to nobody. */
  lemma UidsExactly(held: Held, uids: Uids, log: seq<Entry>, d: Der, id: Uid)
    requires Live(held, uids, log)
    ensures d in uids && uids[d] == Some(id) <==> id in held && d in held[id]
    ensures d in uids && uids[d] == None <==> d == log[0].der
  {
    assert Claimed(held, uids, id, d) && Known(uids, log, d) && Backed(held, uids, log[0]);
    if d in uids {
      var i :| 0 <= i < |log| && log[i].der == d;
      assert Backed(held, uids, log[i]);
    }
  }

  lemma {:induction false} PemsAt(log: seq<Entry>)
    ensures |Pems(log)| == |log| && forall i :: 0 <= i < |log| ==> Pems(log)[i] == log[i].pem
    decreases |log|
  {
    if log != [] { PemsAt(log[1..]); }
  }

  lemma {:induction false} DropAbsent(log: seq<Entry>, d: Der)
    requires forall i :: 0 <= i < |log| ==> log[i].der != d
    ensures Drop(log, d) == log
    decreases |log|
  {
    if log != [] { DropAbsent(log[1..], d); }
  }

  /** A certificate registered once is dropped from its place. */
  lemma {:induction false} DropAt(log: seq<Entry>, d: Der, k: nat)
    requires DistinctDers(log) && k < |log| && log[k].der == d
    ensures Drop(log, d) == log[..k] + log[k + 1..]
    decreases |log|
  {
    if k == 0 {
      DropAbsent(log[1..], d);
    } else {
      DropAt(log[1..], d, k - 1);
      assert log[..k] == [log[0]] + log[1..][..k - 1];
      assert log[1..][k..] == log[k + 1..];
    }
  }

  /** What is left was there before, in the same order. */
  lemma LessAt(log: seq<Entry>, k: nat, i: nat)
    requires k < |log| && i < |log| - 1
    ensures (log[..k] + log[k + 1..])[i] == log[if i < k then i else i + 1]
  {
  }

  /** Without one certificate, the texts are those of the others. */
  lemma {:induction false} DropPems(log: seq<Entry>, d: Der, pem: Text)
    requires forall i :: 0 <= i < |log| ==> (log[i].der == d <==> log[i].pem == pem)
    ensures Pems(Drop(log, d)) == Without(Pems(log), pem)
    decreases |log|
  {
    if log != [] {
      DropPems(log[1..], d, pem);
      assert Pems(log)[1..] == Pems(log[1..]);
      if log[0].der != d { assert Drop(log, d)[1..] == Drop(log[1..], d); }
    }
  }

  lemma {:induction false} JoinedMore(texts: seq<Text>, t: Text)
    ensures Joined(texts + [t]) == Joined(texts) + BLANK + t
    decreases |texts|
  {
    if texts == [] {
      assert [t][1..] == [] && texts + [t] == [t];
      assert Joined([t]) == BLANK + t + "";
    } else {
      assert (texts + [t])[1..] == texts[1..] + [t];
      JoinedMore(texts[1..], t);
    }
  }

  lemma {:induction false} PemsMore(log: seq<Entry>, e: Entry)
    ensures Pems(log + [e]) == Pems(log) + [e.pem]
    decreases |log|
  {
    if log != [] {
      assert (log + [e])[1..] == log[1..] + [e];
      PemsMore(log[1..], e);
    } else {
      assert [e][1..] == [];
    }
  }

  lemma TellableMore(log: seq<Entry>, e: Entry)
    ensures Tellable(log + [e]) <==> Tellable(log) && Fits(log, e.pem)
  {
    var more, n := log + [e], |log|;
    assert more[n] == e && forall i :: 0 <= i < n ==> more[i] == log[i];
    if Tellable(more) {
      forall i | 0 <= i < n
        ensures Separate(e.pem, log[i].pem)
      {
        assert Separate(more[i].pem, more[n].pem);
      }
      forall i, j | 0 <= i < j < n
        ensures Separate(log[i].pem, log[j].pem)
      {
        assert Separate(more[i].pem, more[j].pem);
      }
    }
  }

  /** Registering a certificate that is not in use. */
  lemma RegisterKeeps(held: Held, uids: Uids, log: seq<Entry>, id: Uid, d: Der, pem: Text)
    requires Live(held, uids, log) && id in held && d !in uids
    ensures var more := log + [Entry(d, pem, Some(id))];
            && Live(held[id := held[id][d := pem]], uids[d := Some(id)], more)
            && Joined(Pems(more)) == Joined(Pems(log)) + (BLANK + pem)
            && (Tellable(more) <==> Tellable(log) && Fits(log, pem))
  {
    TellableMore(log, Entry(d, pem, Some(id)));
    var e := Entry(d, pem, Some(id));
    var held1, uids1, more := held[id := held[id][d := pem]], uids[d := Some(id)], log + [e];
    PemsMore(log, e);
    JoinedMore(Pems(log), pem);
    forall x
      ensures Known(uids1, more, x)
    {
      assert Known(uids, log, x);
      if x == d { assert more[|log|].der == d; }
      if x in uids {
        var i :| 0 <= i < |log| && log[i].der == x;
        assert more[i].der == x;
      }
    }
    forall y, x
      ensures Claimed(held1, uids1, y, x)
    {
      assert Claimed(held, uids, y, x);
    }
    forall i | 0 <= i < |more|
      ensures Backed(held1, uids1, more[i]) && (i < |log| ==> more[i].der != d)
    {
      if i < |log| { assert more[i] == log[i] && Backed(held, uids, log[i]); }
    }
  }

  /** The index without one certificate of its holder. */
  lemma LiveWithout(held: Held, uids: Uids, log: seq<Entry>, id: Uid, k: nat)
    requires Live(held, uids, log) && k < |log| && log[k].owner == Some(id)
    requires id in held && log[k].der in held[id]
    ensures var d := log[k].der; Live(held[id := held[id] - {d}], uids - {d}, log[..k] + log[k + 1..])
  {
    var d, less := log[k].der, log[..k] + log[k + 1..];
    var held1, uids1 := held[id := held[id] - {d}], uids - {d};
    forall x
      ensures Known(uids1, less, x)
    {
      assert Known(uids, log, x);
      if x in uids1 {
        var i :| 0 <= i < |log| && log[i].der == x;
        LessAt(log, k, if i < k then i else i - 1);
        assert less[if i < k then i else i - 1].der == x;
      }
    }
    forall y, x
      ensures Claimed(held1, uids1, y, x)
    {
      assert Claimed(held, uids, y, x) && Claimed(held, uids, id, d);
    }
    forall i | 0 <= i < |less|
      ensures Backed(held1, uids1, less[i])
    {
      LessAt(log, k, i);
      assert Backed(held, uids, log[if i < k then i else i + 1]);
    }
    LessAt(log, k, 0);
    forall i | 0 < i < |less|
      ensures less[i].owner.Some?
    {
      LessAt(log, k, i);
    }
    forall i, j | 0 <= i < j < |less|
      ensures less[i].der != less[j].der
    {
      LessAt(log, k, i);
      LessAt(log, k, j);
    }
  }

  lemma TellableWithout(log: seq<Entry>, k: nat)
    requires Tellable(log) && k < |log|
    ensures Tellable(log[..k] + log[k + 1..])
  {
    var less := log[..k] + log[k + 1..];
    forall i | 0 <= i < |less|
      ensures Clean(less[i].pem)
    {
      LessAt(log, k, i);
    }
    forall i, j | 0 <= i < j < |less|
      ensures Separate(less[i].pem, less[j].pem)
    {
      LessAt(log, k, i);
      LessAt(log, k, j);
    }
  }

  /** A registered text is told apart from every other one. */
  lemma ToldApart(log: seq<Entry>, k: nat, i: nat)
    requires Tellable(log) && k < |log| && i < |log| && i != k
    ensures Separate(log[k].pem, log[i].pem)
  {
    if i < k { assert Separate(log[i].pem, log[k].pem); }
  }

  lemma TextsApart(log: seq<Entry>, k: nat)
    requires Tellable(log) && k < |log|
    ensures AllClean(Pems(log)) && OwnText(log, k) && Apart(Pems(log), log[k].pem) && Alone(Pems(log), log[k].pem)
  {
    PemsAt(log);
    forall i | 0 <= i < |log|
      ensures log[i].pem == log[k].pem ==> i == k
      ensures log[k].pem != log[i].pem + "\n" && (log[k].pem <= log[i].pem ==> log[i].pem == log[k].pem)
    {
      if i != k {
        ToldApart(log, k, i);
        assert log[i].pem <= log[i].pem + "\n";
      }
    }
  }

  /** No other certificate has the text of certificate k. */
  ghost predicate OwnText(log: seq<Entry>, k: nat)
    requires k < |log|
  {
    forall i :: 0 <= i < |log| && log[i].pem == log[k].pem ==> i == k
  }

  /** The text without one registered certificate. */
  lemma TextWithout(log: seq<Entry>, k: nat)
    requires AllClean(Pems(log)) && DistinctDers(log) && k < |log| && OwnText(log, k)
    ensures var pem := log[k].pem;
            Replaced(Joined(Pems(log)), BLANK + pem) == Joined(Pems(Drop(log, log[k].der))) <==>
            Alone(Pems(log), pem) && Apart(Pems(log), pem)
  {
    var d, pem := log[k].der, log[k].pem;
    PemsAt(log);
    assert Clean(Pems(log)[k]);
    forall i | 0 <= i < |log|
      ensures log[i].der == d <==> log[i].pem == pem
    {
    }
    DropPems(log, d, pem);
    RemovedIff(Pems(log), pem);
  }

  /** Taking a certificate away from its holder keeps index and users in agreement. When the texts are clean
      and no other certificate has its text, the text is right afterwards if and only if none of the others
      begins with it and none but the last is it but for a newline at the end. */
  lemma UnregisterKeeps(held: Held, uids: Uids, log: seq<Entry>, id: Uid, d: Der)
    requires Live(held, uids, log) && id in held && d in held[id]
    ensures d in uids && Live(held[id := held[id] - {d}], uids - {d}, Drop(log, d))
    ensures AllClean(Pems(log)) && (forall i :: 0 <= i < |log| && log[i].pem == held[id][d] ==> log[i].der == d) ==>
              (Replaced(Joined(Pems(log)), BLANK + held[id][d]) == Joined(Pems(Drop(log, d))) <==>
               Alone(Pems(log), held[id][d]) && Apart(Pems(log), held[id][d]))
    ensures Tellable(log) ==>
              Tellable(Drop(log, d)) && Joined(Pems(Drop(log, d))) == Replaced(Joined(Pems(log)), BLANK + held[id][d])
  {
    assert Claimed(held, uids, id, d) && Known(uids, log, d);
    var k :| 0 <= k < |log| && log[k].der == d;
    assert Backed(held, uids, log[k]);
    DropAt(log, d, k);
    LiveWithout(held, uids, log, id, k);
    if AllClean(Pems(log)) && forall i :: 0 <= i < |log| && log[i].pem == held[id][d] ==> log[i].der == d {
      TextWithout(log, k);
    }
    if Tellable(log) {
      TellableWithout(log, k);
      TextsApart(log, k);
      TextWithout(log, k);
    }
  }

  /** The text is the registered texts joined. */
  ghost predicate Joins(log: seq<Entry>, data: Text) {
    data == Joined(Pems(log))
  }

  /** The text is the registered texts joined, and they can be told apart. */
  ghost predicate Texts(log: seq<Entry>, data: Text) {
    Tellable(log) && data == Joined(Pems(log))
  }

  // ---- several certificates at once ---------------------------------------------------------------

  function DropSet(log: seq<Entry>, gone: set<Der>): seq<Entry> {
    if log == [] then [] else if log[0].der in gone then DropSet(log[1..], gone) else [log[0]] + DropSet(log[1..], gone)
  }

  lemma {:induction false} DropNext(log: seq<Entry>, gone: set<Der>, d: Der)
    ensures Drop(DropSet(log, gone), d) == DropSet(log, gone + {d})
    decreases |log|
  {
    if log != [] {
      DropNext(log[1..], gone, d);
      if log[0].der !in gone { assert DropSet(log, gone)[1..] == DropSet(log[1..], gone); }
    }
  }

  lemma {:induction false} DropNone(log: seq<Entry>)
    ensures DropSet(log, {}) == log
    decreases |log|
  {
    if log != [] { DropNone(log[1..]); }
  }

  /** A user without certificates can be forgotten. */
  lemma LiveForget(held: Held, uids: Uids, log: seq<Entry>, id: Uid)
    requires Live(held[id := map[]], uids, log)
    ensures Live(held - {id}, uids, log)
  {
    var bare := held[id := map[]];
    LiveBare(bare, uids, log, id);
    assert bare[id := map[]] == bare && bare - {id} == held - {id};
  }

  /** A user without certificates can come and go. */
  lemma LiveBare(held: Held, uids: Uids, log: seq<Entry>, id: Uid)
    requires id in held ==> held[id] == map[]
    ensures Live(held[id := map[]], uids, log) <==> Live(held - {id}, uids, log)
  {
    var with, bare := held[id := map[]], held - {id};
    forall e
      ensures Backed(with, uids, e) <==> Backed(bare, uids, e)
    {
    }
    forall y, d
      ensures Claimed(with, uids, y, d) <==> Claimed(bare, uids, y, d)
    {
    }
    if Live(with, uids, log) {
      forall y, d
        ensures Claimed(bare, uids, y, d)
      {
        assert Claimed(with, uids, y, d);
      }
      forall i | 0 <= i < |log|
        ensures Backed(bare, uids, log[i])
      {
        assert Backed(with, uids, log[i]);
      }
    }
    if Live(bare, uids, log) {
      forall y, d
        ensures Claimed(with, uids, y, d)
      {
        assert Claimed(bare, uids, y, d);
      }
      forall i | 0 <= i < |log|
        ensures Backed(with, uids, log[i])
      {
        assert Backed(bare, uids, log[i]);
      }
    }
  }

  // ---- the only certificate of a user -------------------------------------------------------------

  /** Every certificate is registered under the digest of its text. */
  ghost predicate Digested(der: Text -> Option<Der>, log: seq<Entry>) {
    forall i :: 0 <= i < |log| ==> der(log[i].pem) == Some(log[i].der)
  }

  lemma {:induction false} DigestedLess(der: Text -> Option<Der>, log: seq<Entry>, gone: set<Der>)
    requires Digested(der, log)
    ensures Digested(der, DropSet(log, gone))
    decreases |log|
  {
    if log != [] { DigestedLess(der, log[1..], gone); }
  }

  /** No user has more than one certificate. */
  ghost predicate OneEach(held: Held) {
    forall id :: id in held ==> |held[id]| <= 1
  }

  /** Taking this text out of the joined ones damages no other. */
  ghost predicate LeavesOthers(log: seq<Entry>, pem: Text) {
    Alone(Pems(log), pem) && Apart(Pems(log), pem)
  }

  /** Of a user's certificates those in `gone` were erased from the text: none yet, or the only one. */
  ghost predicate ErasedSome(certs: map<Der, Text>, gone: set<Der>, data: Text, data1: Text) {
    && (gone == {} ==> data1 == data)
    && forall d :: d in gone && d in certs && |certs| == 1 ==> data1 == Replaced(data, BLANK + certs[d])
  }

  /** Of clean joined texts those left are joined afterwards exactly when no other was damaged. */
  ghost predicate TextKept(log: seq<Entry>, certs: map<Der, Text>, data: Text, data1: Text) {
    AllClean(Pems(log)) && Joins(log, data) ==>
      (Joins(DropSet(log, certs.Keys), data1) <==> forall d :: d in certs ==> LeavesOthers(log, certs[d]))
  }

  lemma OnlyKey(certs: map<Der, Text>, d: Der)
    requires d in certs && |certs| <= 1
    ensures |certs| == 1 && certs.Keys == {d}
  {
    assert |certs.Keys| == |certs|;
    assert |certs.Keys - {d}| == |certs.Keys| - 1;
  }

  /** Erasing one certificate, the only one of its holder. */
  lemma OneErased(der: Text -> Option<Der>, held: Held, uids: Uids, log: seq<Entry>, id: Uid, d: Der, data: Text)
    requires Live(held, uids, log) && Digested(der, log) && id in held && d in held[id]
    requires AllClean(Pems(log)) && Joins(log, data)
    ensures Joins(DropSet(log, {d}), Replaced(data, BLANK + held[id][d])) <==> LeavesOthers(log, held[id][d])
  {
    assert Claimed(held, uids, id, d) && Known(uids, log, d);
    var k :| 0 <= k < |log| && log[k].der == d;
    assert Backed(held, uids, log[k]);
    UnregisterKeeps(held, uids, log, id, d);
    DropNone(log);
    DropNext(log, {}, d);
    assert {} + {d} == {d};
  }

  lemma TextKeptBy(der: Text -> Option<Der>, held: Held, uids: Uids, log: seq<Entry>, id: Uid, data: Text, data1: Text)
    requires Live(held, uids, log) && Digested(der, log) && id in held && |held[id]| <= 1
    requires ErasedSome(held[id], held[id].Keys, data, data1)
    ensures TextKept(log, held[id], data, data1)
  {
    var certs := held[id];
    if AllClean(Pems(log)) && Joins(log, data) {
      if certs == map[] {
        DropNone(log);
      } else {
        var d :| d in certs;
        OnlyKey(certs, d);
        OneErased(der, held, uids, log, id, d, data);
      }
    }
  }

  /** What the certificates are recorded in: the index, the order of registration, the text. */
  datatype Books = Books(uids: Uids, log: seq<Entry>, data: Text)

  /** On the way from books a to books b: the certificates `gone` of user id were erased, `todo` are left. */
  ghost predicate Erasing(held: Held, id: Uid, a: Books, b: Books, todo: map<Der, Text>, gone: set<Der>) {
    && id in held && Live(held[id := todo], b.uids, b.log)
    && todo == held[id] - gone && gone <= held[id].Keys && b.uids == a.uids - gone && b.log == DropSet(a.log, gone)
    && (Texts(a.log, a.data) ==> Texts(b.log, b.data)) && ErasedSome(held[id], gone, a.data, b.data)
  }

  lemma BooksStart(held: Held, a: Books, id: Uid)
    requires id in held && Live(held, a.uids, a.log)
    ensures Erasing(held, id, a, a, held[id], {})
  {
    DropNone(a.log);
    assert held[id := held[id]] == held;
  }

  /** The books after erasing one certificate. */
  function Erase(b: Books, d: Der, pem: Text): Books {
    Books(b.uids - {d}, Drop(b.log, d), Replaced(b.data, BLANK + pem))
  }

  lemma BooksStep(held: Held, todo: map<Der, Text>, b: Books, id: Uid, d: Der)
    requires Live(held[id := todo], b.uids, b.log) && d in todo
    ensures var c := Erase(b, d, todo[d]);
            Live(held[id := todo - {d}], c.uids, c.log) && (Texts(b.log, b.data) ==> Texts(c.log, c.data))
  {
    var now := held[id := todo];
    UnregisterKeeps(now, b.uids, b.log, id, d);
    assert now[id := todo - {d}] == held[id := todo - {d}];
  }

  lemma SomeErased(certs: map<Der, Text>, todo: map<Der, Text>, gone: set<Der>, d: Der, data: Text, data1: Text)
    requires ErasedSome(certs, gone, data, data1) && gone <= certs.Keys && todo == certs - gone && d in todo
    ensures ErasedSome(certs, gone + {d}, data, Replaced(data1, BLANK + todo[d]))
  {
    if |certs| == 1 {
      OnlyKey(certs, d);
      assert gone == {};
    }
  }

  lemma ErasesNext(held: Held, id: Uid, a: Books, b: Books, todo: map<Der, Text>, gone: set<Der>, d: Der)
    requires Erasing(held, id, a, b, todo, gone) && d in todo
    ensures Erasing(held, id, a, Erase(b, d, todo[d]), todo - {d}, gone + {d})
  {
    BooksStep(held, todo, b, id, d);
    SomeErased(held[id], todo, gone, d, a.data, b.data);
    DropNext(a.log, gone, d);
  }

  lemma AllGone(certs: map<Der, Text>, todo: map<Der, Text>, gone: set<Der>)
    requires todo == certs - gone && gone <= certs.Keys && todo.Keys == {}
    ensures todo == map[] && gone == certs.Keys
  {
    forall d | d in certs
      ensures d in gone
    {
      assert d !in todo;
    }
  }

  /** All are erased. */
  lemma ErasedAll(der: Text -> Option<Der>, held: Held, id: Uid, a: Books, b: Books, todo: map<Der, Text>,
                  gone: set<Der>)
    requires Live(held, a.uids, a.log) && Digested(der, a.log)
    requires Erasing(held, id, a, b, todo, gone) && todo.Keys == {}
    ensures Live(held[id := map[]], b.uids, b.log) && Digested(der, b.log)
    ensures b.uids == a.uids - held[id].Keys && b.log == DropSet(a.log, held[id].Keys)
    ensures |held[id]| <= 1 ==> TextKept(a.log, held[id], a.data, b.data)
  {
    AllGone(held[id], todo, gone);
    DigestedLess(der, a.log, gone);
    if |held[id]| <= 1 { TextKeptBy(der, held, a.uids, a.log, id, a.data, b.data); }
  }

  /** A certificate more does not matter to what was joined before. */
  lemma JoinsMore(log: seq<Entry>, e: Entry, data: Text)
    ensures Joins(log + [e], data + (BLANK + e.pem)) <==> Joins(log, data)
  {
    var tail := BLANK + e.pem;
    PemsMore(log, e);
    JoinedMore(Pems(log), e.pem);
    assert Joined(Pems(log + [e])) == Joined(Pems(log)) + tail;
    SameFront(data, Joined(Pems(log)), tail);
  }

  lemma SameFront(a: Text, b: Text, tail: Text)
    ensures a + tail == b + tail <==> a == b
  {
    if a + tail == b + tail {
      assert |a| == |b|;
      assert a == (a + tail)[..|a|] && b == (b + tail)[..|b|];
    }
  }

  // ---- the objects -------------------------------------------------------------------------------

  datatype Outcome = Done | CertificateUsed | NotOneCertificate | NoSuchUser

  /** What becomes of registering a certificate. */
  function Registering(d: Option<Der>, uids: Uids): Outcome {
    if d.None? then NotOneCertificate else if d.value in uids then CertificateUsed else Done
  }

  /** A user's certificates after the old ones went and a new text was tried: none, or the new one. */
  ghost predicate Changed(r: Outcome, d: Option<Der>, pem: Text, id: Uid, uids: Uids, uids1: Uids,
                          log: seq<Entry>, log1: seq<Entry>, certs: map<Der, Text>)
  {
    && r == (if pem == "" then Done else Registering(d, uids))
    && if pem != "" && r == Done then
         certs == map[d.value := pem] && Added(uids, uids1, log, log1, Entry(d.value, pem, Some(id)))
       else
         certs == map[] && uids1 == uids && log1 == log
  }

  /** One certificate more in the index and at the end of the registration order. */
  ghost predicate Added(uids: Uids, uids1: Uids, log: seq<Entry>, log1: seq<Entry>, e: Entry) {
    uids1 == uids[e.der := e.owner] && log1 == log + [e]
  }

  class User {
    const name: string
    const id: Uid
    var certs: map<Der, Text>

    constructor (name: string, id: Uid)
      ensures this.name == name && this.id == id && certs == map[]
    {
      this.name, this.id, certs := name, id, map[];
    }
  }

  ghost predicate OwnId(users: map<Uid, User>, id: Uid) { id in users ==> users[id].id == id }

  ghost predicate OwnIds(users: map<Uid, User>) { forall id {:trigger OwnId(users, id)} :: OwnId(users, id) }

  ghost predicate HasName(users: map<Uid, User>, byName: map<string, User>, id: Uid) {
    id in users ==> users[id].name in byName && byName[users[id].name] == users[id]
  }

  ghost predicate HasUser(users: map<Uid, User>, byName: map<string, User>, n: string) {
    n in byName ==> byName[n].name == n && byName[n].id in users && users[byName[n].id] == byName[n]
  }

  /** What is found under a name is a user of that name. */
  ghost predicate NamesFound(users: map<Uid, User>, byName: map<string, User>) {
    forall n {:trigger HasUser(users, byName, n)} :: HasUser(users, byName, n)
  }

  /** Every user is found under its name, and only there. */
  ghost predicate SameUsers(users: map<Uid, User>, byName: map<string, User>) {
    && (forall id {:trigger HasName(users, byName, id)} :: HasName(users, byName, id))
    && NamesFound(users, byName)
  }

  /** A new user keeps the two maps together exactly when they were and the name is new. */
  lemma UserAdded(users: map<Uid, User>, byName: map<string, User>, user: User)
    requires OwnIds(users) && NamesFound(users, byName) && user.id !in users
    ensures OwnIds(users[user.id := user]) && NamesFound(users[user.id := user], byName[user.name := user])
    ensures SameUsers(users[user.id := user], byName[user.name := user]) <==>
            SameUsers(users, byName) && user.name !in byName
  {
    var u, b := users[user.id := user], byName[user.name := user];
    forall id
      ensures OwnId(u, id)
    {
      assert OwnId(users, id);
    }
    forall n
      ensures HasUser(u, b, n)
    {
      assert HasUser(users, byName, n);
    }
    if user.name in byName {
      var other := byName[user.name];
      assert HasUser(users, byName, user.name) && OwnId(users, other.id);
      assert !HasName(u, b, other.id);
    } else {
      forall id | id != user.id
        ensures HasName(u, b, id) <==> HasName(users, byName, id)
      {
        assert OwnId(users, id);
      }
      SameButOne(users, byName, u, b, user.id);
    }
  }

  lemma SameButOne(users: map<Uid, User>, byName: map<string, User>, u: map<Uid, User>, b: map<string, User>, x: Uid)
    requires forall id {:trigger HasName(u, b, id)} :: id != x ==> (HasName(u, b, id) <==> HasName(users, byName, id))
    requires HasName(u, b, x) && HasName(users, byName, x) && NamesFound(users, byName) && NamesFound(u, b)
    ensures SameUsers(u, b) <==> SameUsers(users, byName)
  {
    if SameUsers(users, byName) {
      forall id
        ensures HasName(u, b, id)
      {
        assert HasName(users, byName, id);
      }
    }
    if SameUsers(u, b) {
      forall id
        ensures HasName(users, byName, id)
      {
        assert HasName(u, b, id);
      }
    }
  }

  lemma OthersDiffer(users: map<Uid, User>, user: User)
    requires OwnIds(users)
    ensures forall id :: id in users && users[id] == user ==> id == user.id
  {
    forall id | id in users && users[id] == user
      ensures id == user.id
    {
      assert OwnId(users, id);
    }
  }

  /** Taking a user out under its name keeps the two maps together exactly when they were. */
  lemma UserGone(users: map<Uid, User>, byName: map<string, User>, n: string)
    requires OwnIds(users) && NamesFound(users, byName) && n in byName
    ensures var id := byName[n].id;
            && id in users && users[id] == byName[n] && OwnIds(users - {id}) && NamesFound(users - {id}, byName - {n})
            && (SameUsers(users - {id}, byName - {n}) <==> SameUsers(users, byName))
  {
    assert HasUser(users, byName, n);
    var user := byName[n];
    var u, b := users - {user.id}, byName - {n};
    forall id
      ensures OwnId(u, id)
      ensures id != user.id ==> (HasName(u, b, id) <==> HasName(users, byName, id))
    {
      assert OwnId(users, id);
    }
    forall m
      ensures HasUser(u, b, m)
    {
      assert HasUser(users, byName, m);
    }
    SameButOne(users, byName, u, b, user.id);
  }

  class Certs {
    var data: Text

    constructor ()
      ensures data == ""
    {
      data := "";
    }

    method Add(pem: Text)
      modifies this
      ensures data == old(data) + (BLANK + pem)
    {
      data := data + (BLANK + pem);
    }

    method Remove(pem: Text)
      modifies this
      ensures data == Replaced(old(data), BLANK + pem)
    {
      data := Replaced(data, BLANK + pem);
    }
  }

  class Admin {
    const certs: Certs
    const der: Text -> Option<Der>
    var users: map<Uid, User>
    var usersByName: map<string, User>
    var uids: Uids
    ghost var log: seq<Entry>

    ghost function Held(): Held
      reads this`users, users.Values
    {
      map id | id in users :: users[id].certs
    }

    ghost predicate Sound()
      reads this, users.Values
    {
      Live(Held(), uids, log) && Digested(der, log) && OwnIds(users) && NamesFound(users, usersByName)
    }

    /** Through the public operations a user never has more than one certificate. */
    ghost predicate Valid()
      reads this, users.Values
    {
      Sound() && OneEach(Held())
    }

    ghost predicate TextJoined()
      reads this, certs
    {
      Joins(log, certs.data)
    }

    /** The text is the registered texts joined, and they can be told apart. */
    ghost predicate TextRight()
      reads this, certs
    {
      Texts(log, certs.data)
    }

    /** Both user maps hold the same users. */
    ghost predicate Named()
      reads this
    {
      SameUsers(users, usersByName)
    }

    /** An administration with the placeholder certificate that belongs to nobody. */
    constructor (der: Text -> Option<Der>, nobody: Text)
      requires der(nobody).Some?
      ensures Valid() && Named() && fresh(certs) && this.der == der && users == map[]
      ensures uids == map[der(nobody).value := None] && log == [Entry(der(nobody).value, nobody, None)]
      ensures certs.data == BLANK + nobody && TextJoined() && (Clean(nobody) ==> TextRight())
    {
      this.der := der;
      users, usersByName := map[], map[];
      certs := new Certs();
      uids := map[der(nobody).value := None];
      log := [Entry(der(nobody).value, nobody, None)];
      new;
      certs.Add(nobody);
      assert Pems(log) == [nobody] && [nobody][1..] == [] && "" + (BLANK + nobody) == BLANK + nobody + "";
    }

    /** Enters a certificate in the index, with its holder, in the text and in the order of registration. */
    method Enter(user: User, d: Der, pem: Text)
      requires user.id in users && users[user.id] == user && OwnIds(users)
      modifies `uids, `log, user, certs
      ensures uids == old(uids)[d := Some(user.id)] && log == old(log) + [Entry(d, pem, Some(user.id))]
      ensures user.certs == old(user.certs)[d := pem] && certs.data == old(certs.data) + (BLANK + pem)
      ensures Held() == old(Held())[user.id := user.certs]
    {
      uids := uids[d := Some(user.id)];
      user.certs := user.certs[d := pem];
      certs.Add(pem);
      log := log + [Entry(d, pem, Some(user.id))];
      OthersDiffer(users, user);
    }

    /** Registers a certificate unless it is in use. */
    method AddUserCert(user: User, pem: Text) returns (r: Outcome)
      requires Sound() && user.id in users && users[user.id] == user
      modifies `uids, `log, user, certs
      ensures Sound() && (old(Valid()) && old(user.certs) == map[] ==> Valid())
      ensures r == Registering(der(pem), old(uids))
      ensures (r == NotOneCertificate <==> der(pem).None?) && r != NoSuchUser
      ensures r == CertificateUsed <==> der(pem).Some? && der(pem).value in old(uids)
      ensures r == Done ==> Added(old(uids), uids, old(log), log, Entry(der(pem).value, pem, Some(user.id)))
      ensures r == Done ==> user.certs == old(user.certs)[der(pem).value := pem]
      ensures r == Done ==> certs.data == old(certs.data) + (BLANK + pem)
      ensures r == Done && old(TextRight()) ==> (TextRight() <==> Fits(old(log), pem))
      ensures TextJoined() <==> old(TextJoined())
      ensures r != Done ==> uids == old(uids) && log == old(log) && user.certs == old(user.certs)
      ensures r != Done ==> certs.data == old(certs.data)
    {
      if der(pem).None? { return NotOneCertificate; }
      var d := der(pem).value;
      ghost var held := Held();
      assert Claimed(held, uids, user.id, d);
      if d in uids || d in user.certs { return CertificateUsed; }
      RegisterKeeps(held, uids, log, user.id, d, pem);
      JoinsMore(log, Entry(d, pem, Some(user.id)), certs.data);
      Enter(user, d, pem);
      return Done;
    }

    /** One pass of the loop that erases a user's certificates. */
    method EraseOne(d: Der, pem: Text)
      modifies `uids, `log, certs
      ensures Books(uids, log, certs.data) == Erase(old(Books(uids, log, certs.data)), d, pem)
    {
      uids := uids - {d};
      certs.Remove(pem);
      log := Drop(log, d);
    }

    /** Takes all certificates of a user out of the index and out of the text. */
    method DelUserCerts(user: User, ghost held: Held)
      requires Live(held, uids, log) && Digested(der, log) && user.id in held && held[user.id] == user.certs
      modifies `uids, `log, certs
      ensures Live(held[user.id := map[]], uids, log) && Digested(der, log)
      ensures uids == old(uids) - user.certs.Keys && log == DropSet(old(log), user.certs.Keys)
      ensures |user.certs| <= 1 ==> TextKept(old(log), user.certs, old(certs.data), certs.data)
      ensures old(TextRight()) ==> TextRight()
    {
      var todo := user.certs;
      ghost var books := Books(uids, log, certs.data);
      ghost var gone: set<Der> := {};
      BooksStart(held, books, user.id);
      while todo.Keys != {}
        invariant Erasing(held, user.id, books, Books(uids, log, certs.data), todo, gone)
        decreases |todo.Keys|
      {
        var d :| d in todo.Keys;
        ErasesNext(held, user.id, books, Books(uids, log, certs.data), todo, gone, d);
        EraseOne(d, todo[d]);
        todo := todo - {d};
        gone := gone + {d};
      }
      ErasedAll(der, held, user.id, books, Books(uids, log, certs.data), todo, gone);
    }

    /** Puts a user into both maps. */
    method Join(user: User)
      requires OwnIds(users) && NamesFound(users, usersByName) && user.id !in users
      modifies `users, `usersByName
      ensures users == old(users)[user.id := user] && usersByName == old(usersByName)[user.name := user]
      ensures OwnIds(users) && NamesFound(users, usersByName)
      ensures Named() <==> old(Named()) && user.name !in old(usersByName)
      ensures Held() == old(Held())[user.id := user.certs]
    {
      UserAdded(users, usersByName, user);
      users := users[user.id := user];
      usersByName := usersByName[user.name := user];
    }

    /** Enters a new user in both maps. */
    method Enroll(uname: string, id: Uid) returns (user: User)
      requires Valid() && id !in users
      modifies `users, `usersByName
      ensures Valid() && fresh(user) && user.name == uname && user.id == id && user.certs == map[]
      ensures users == old(users)[id := user] && usersByName == old(usersByName)[uname := user]
      ensures Named() <==> old(Named()) && uname !in old(usersByName)
    {
      ghost var held := Held();
      user := new User(uname, id);
      Join(user);
      LiveBare(held, uids, log, id);
      assert held - {id} == held;
    }

    /** A new user, with a certificate unless the text is empty; `id` is the new object's own. */
    method AddUser(uname: string, id: Uid, pem: Text) returns (r: Outcome, user: User)
      requires Valid() && id !in users
      modifies this, certs
      ensures Valid() && fresh(user) && user.name == uname && user.id == id
      ensures users == old(users)[id := user] && usersByName == old(usersByName)[uname := user]
      ensures Named() <==> old(Named()) && uname !in old(usersByName)
      ensures r == if pem == "" then Done else Registering(der(pem), old(uids))
      ensures pem != "" && r == Done ==>
                && Added(old(uids), uids, old(log), log, Entry(der(pem).value, pem, Some(id)))
                && user.certs == map[der(pem).value := pem] && certs.data == old(certs.data) + (BLANK + pem)
                && (old(TextRight()) ==> (TextRight() <==> Fits(old(log), pem)))
      ensures TextJoined() <==> old(TextJoined())
      ensures pem == "" || r != Done ==>
                uids == old(uids) && log == old(log) && user.certs == map[] && certs.data == old(certs.data)
    {
      user := Enroll(uname, id);
      r := Done;
      if pem != "" { r := AddUserCert(user, pem); }
    }

    /** Takes the user found under the name out of both maps. */
    method Leave(name: string) returns (user: User)
      requires OwnIds(users) && NamesFound(users, usersByName) && name in usersByName
      modifies `users, `usersByName
      ensures user == old(usersByName)[name] && user.id in old(users) && old(users)[user.id] == user
      ensures usersByName == old(usersByName) - {name} && users == old(users) - {user.id}
      ensures OwnIds(users) && NamesFound(users, usersByName) && (Named() <==> old(Named()))
      ensures Held() == old(Held()) - {user.id}
    {
      UserGone(users, usersByName, name);
      user := usersByName[name];
      usersByName := usersByName - {name};
      users := users - {user.id};
    }

    /** The same for the certificates of a user who has left both maps. */
    method Dismiss(user: User, ghost held: Held)
      requires Live(held, uids, log) && Digested(der, log) && user.id in held && held[user.id] == user.certs
      requires Held() == held - {user.id} && OwnIds(users) && NamesFound(users, usersByName)
      modifies `uids, `log, certs
      ensures Sound() && Held() == old(Held())
      ensures uids == old(uids) - user.certs.Keys && log == DropSet(old(log), user.certs.Keys)
      ensures |user.certs| <= 1 ==> TextKept(old(log), user.certs, old(certs.data), certs.data)
      ensures old(TextRight()) ==> TextRight()
    {
      DelUserCerts(user, held);
      LiveForget(held, uids, log, user.id);
    }

    method DelUser(name: string) returns (r: Outcome)
      requires Valid()
      modifies this, certs
      ensures Valid() && r == if name in old(usersByName) then Done else NoSuchUser
      ensures (Named() <==> old(Named())) && (old(TextRight()) ==> TextRight())
      ensures r == NoSuchUser ==>
                && users == old(users) && usersByName == old(usersByName)
                && uids == old(uids) && log == old(log) && certs.data == old(certs.data)
      ensures r == Done ==>
                var user := old(usersByName)[name];
                && usersByName == old(usersByName) - {name} && users == old(users) - {user.id}
                && uids == old(uids) - user.certs.Keys && log == DropSet(old(log), user.certs.Keys)
                && |user.certs| <= 1 && TextKept(old(log), user.certs, old(certs.data), certs.data)
    {
      if name !in usersByName { return NoSuchUser; }
      ghost var held := Held();
      var user := Leave(name);
      Dismiss(user, held);
      return Done;
    }

    /** Empties a user's own record of certificates. */
    method Bare(user: User)
      requires user.id in users && users[user.id] == user && OwnIds(users)
      modifies user
      ensures user.certs == map[] && Held() == old(Held())[user.id := map[]]
    {
      user.certs := map[];
      OthersDiffer(users, user);
    }

    /** Takes all certificates of a user away. */
    method Strip(user: User)
      requires Valid() && user.id in users && users[user.id] == user
      modifies `uids, `log, certs, user
      ensures Valid() && user.certs == map[]
      ensures uids == old(uids) - old(user.certs).Keys && log == DropSet(old(log), old(user.certs).Keys)
      ensures TextKept(old(log), old(user.certs), old(certs.data), certs.data)
      ensures old(TextRight()) ==> TextRight()
    {
      DelUserCerts(user, Held());
      Bare(user);
    }

    /** Replaces the certificates of a user; None leaves them, an empty text only takes them away. */
    method ChangeCert(name: string, pem: Option<Text>) returns (r: Outcome)
      requires Valid()
      modifies this, certs, usersByName.Values
      ensures Valid() && users == old(users) && usersByName == old(usersByName)
      ensures name !in usersByName ==> r == NoSuchUser
      ensures name in usersByName && pem.None? ==> r == Done
      ensures name !in usersByName || pem.None? ==>
                uids == old(uids) && log == old(log) && certs.data == old(certs.data)
      ensures name in usersByName && pem.Some? ==>
                var user := usersByName[name];
                var gone := old(user.certs.Keys);
                var left := DropSet(old(log), gone);
                && Changed(r, der(pem.value), pem.value, user.id, old(uids) - gone, uids, left, log, user.certs)
                && (old(TextRight()) && (r == Done && pem.value != "" ==> Fits(left, pem.value)) ==>
                      TextRight())
                && (AllClean(Pems(old(log))) && old(TextJoined()) ==>
                      (TextJoined() <==> forall d :: d in gone ==> LeavesOthers(old(log), old(user.certs)[d])))
    {
      if name !in usersByName { return NoSuchUser; }
      var user := usersByName[name];
      r := Done;
      if pem.Some? {
        assert HasUser(users, usersByName, name);
        Strip(user);
        if pem.value != "" { r := AddUserCert(user, pem.value); }
      }
    }
  }
}
