/** Records that carry the id of the user who wrote them, and who may read and write them. */
module Ownership {
  import opened Wrappers

  type Byte = b: int | 0 <= b < 256
  type Bytes = seq<Byte>

  const ID_LENGTH := 8

  /** Object ids, which are also the ids of users. */
  type Oid = s: Bytes | |s| == ID_LENGTH witness [0, 0, 0, 0, 0, 0, 0, 0]

  const ZERO: Oid := [0, 0, 0, 0, 0, 0, 0, 0]

  datatype Revision = Revision(data: Bytes, serial: nat)

  type History = map<Oid, seq<Revision>>

  predicate EndsWith(data: Bytes, suffix: Bytes) {
    |suffix| <= |data| && data[|data| - |suffix|..] == suffix
  }

  /** What _check_permissions lets pass. */
  predicate Permitted(user: Oid, data: Bytes, oid: Oid) {
    EndsWith(data, user) || oid == user || oid == ZERO
  }

  /** The user who wrote a record: its last eight bytes. */
  function OwnerOf(data: Bytes): (u: Bytes) { if |data| < ID_LENGTH then data else data[|data| - ID_LENGTH..] }

  function PayloadOf(data: Bytes): Bytes { if |data| < ID_LENGTH then [] else data[..|data| - ID_LENGTH] }

  lemma TaggedRight(payload: Bytes, user: Oid)
    ensures OwnerOf(payload + user) == user && PayloadOf(payload + user) == payload
  {
  }

  lemma PermittedIff(user: Oid, data: Bytes, oid: Oid)
    requires |data| >= ID_LENGTH
    ensures Permitted(user, data, oid) <==> OwnerOf(data) == user || oid == user || oid == ZERO
  {
  }

  // ---- what every history keeps ------------------------------------------------------------------

  /** Revisions are in order of serial and all carry an owner. */
  predicate Ordered(revs: seq<Revision>) {
    && (forall i :: 0 <= i < |revs| ==> |revs[i].data| >= ID_LENGTH)
    && forall i, j :: 0 <= i < j < |revs| ==> revs[i].serial < revs[j].serial
  }

  /** The record stayed with its first writer until, from revision `k` on, it belongs to the user of that id. */
  predicate HandedAt(revs: seq<Revision>, oid: Oid, k: nat) {
    && k <= |revs|
    && (forall i :: 0 <= i < k ==> OwnerOf(revs[i].data) == OwnerOf(revs[0].data))
    && forall i :: k <= i < |revs| ==> OwnerOf(revs[i].data) == oid
  }

  ghost predicate HandedOnce(revs: seq<Revision>, oid: Oid) { exists k: nat :: HandedAt(revs, oid, k) }

  ghost predicate ProperRevisions(revs: seq<Revision>, last: nat, oid: Oid) {
    revs != [] && Ordered(revs) && revs[|revs| - 1].serial <= last && (oid != ZERO ==> HandedOnce(revs, oid))
  }

  ghost predicate ProperRecord(h: History, last: nat, oid: Oid) {
    oid in h ==> ProperRevisions(h[oid], last, oid)
  }

  ghost predicate Proper(h: History, last: nat) {
    forall oid {:trigger ProperRecord(h, last, oid)} :: ProperRecord(h, last, oid)
  }

  /** The current data of an object. */
  function Current(h: History, oid: Oid): Bytes
    requires oid in h && h[oid] != []
  {
    h[oid][|h[oid]| - 1].data
  }

  /** A user may write what is new, what that user wrote last, the user's own root, and object zero. */
  predicate MayStore(h: History, user: Oid, oid: Oid) {
    oid in h && h[oid] != [] ==> Permitted(user, Current(h, oid), oid)
  }

  /** The same, in terms of the owner of the current revision. */
  predicate Writable(h: History, user: Oid, oid: Oid) {
    oid !in h || h[oid] == [] || OwnerOf(Current(h, oid)) == user || oid == user || oid == ZERO
  }

  lemma WritableIff(h: History, last: nat, user: Oid, oid: Oid)
    requires Proper(h, last)
    ensures MayStore(h, user, oid) <==> Writable(h, user, oid)
  {
    assert ProperRecord(h, last, oid);
    if oid in h { PermittedIff(user, Current(h, oid), oid); }
  }

  function Stored(h: History, last: nat, user: Oid, oid: Oid, payload: Bytes): History {
    h[oid := (if oid in h then h[oid] else []) + [Revision(payload + user, last + 1)]]
  }

  /** A store adds one revision at the end of its own record, and leaves all other records alone. */
  lemma StoredInWords(h: History, last: nat, user: Oid, oid: Oid, payload: Bytes, x: Oid)
    ensures var h1 := Stored(h, last, user, oid, payload);
            if x != oid then (x in h1 <==> x in h) && (x in h1 ==> h1[x] == h[x])
            else x in h1 && h1[x] != []
                 && h1[x][..|h1[x]| - 1] == (if x in h then h[x] else [])
                 && PayloadOf(Current(h1, x)) == payload && OwnerOf(Current(h1, x)) == user
                 && h1[x][|h1[x]| - 1].serial == last + 1
  {
    TaggedRight(payload, user);
  }

  /** One more revision by a permitted user keeps the record handed over at most once. */
  lemma HandedMore(revs: seq<Revision>, oid: Oid, user: Oid, payload: Bytes, serial: nat)
    requires Ordered(revs) && HandedOnce(revs, oid) && oid != ZERO
    requires revs != [] ==> Permitted(user, revs[|revs| - 1].data, oid)
    ensures HandedOnce(revs + [Revision(payload + user, serial)], oid)
  {
    var more := revs + [Revision(payload + user, serial)];
    TaggedRight(payload, user);
    var k: nat :| HandedAt(revs, oid, k);
    if revs == [] {
      assert HandedAt(more, oid, 1);
    } else {
      var n := |revs|;
      PermittedIff(user, revs[n - 1].data, oid);
      if k < n || user == oid {
        assert user == oid;
        assert HandedAt(more, oid, k);
      } else {
        assert HandedAt(more, oid, n + 1);
      }
    }
  }

  lemma RevisionAdded(revs: seq<Revision>, last: nat, oid: Oid, user: Oid, payload: Bytes)
    requires revs == [] || ProperRevisions(revs, last, oid)
    requires revs != [] ==> Permitted(user, revs[|revs| - 1].data, oid)
    ensures ProperRevisions(revs + [Revision(payload + user, last + 1)], last + 1, oid)
  {
    if revs == [] { assert HandedAt(revs, oid, 0); }
    if oid != ZERO { HandedMore(revs, oid, user, payload, last + 1); }
    OrderedMore(revs, payload + user, last);
  }

  /** A permitted store keeps every history proper. */
  lemma StoreKeeps(h: History, last: nat, user: Oid, oid: Oid, payload: Bytes)
    requires Proper(h, last) && MayStore(h, user, oid)
    ensures Proper(Stored(h, last, user, oid, payload), last + 1)
  {
    assert ProperRecord(h, last, oid);
    RevisionAdded(if oid in h then h[oid] else [], last, oid, user, payload);
    var h1, next := Stored(h, last, user, oid, payload), last + 1;
    forall x
      ensures ProperRecord(h1, next, x)
    {
      assert ProperRecord(h, last, x);
    }
  }

  lemma OrderedMore(revs: seq<Revision>, data: Bytes, last: nat)
    requires Ordered(revs) && |data| >= ID_LENGTH && (revs != [] ==> revs[|revs| - 1].serial <= last)
    ensures Ordered(revs + [Revision(data, last + 1)])
  {
  }

  /** The owner changes at most once, and only to the user whose id the object has. */
  lemma OwnerChangesOnce(h: History, last: nat, oid: Oid, i: nat, j: nat)
    requires Proper(h, last) && oid in h && oid != ZERO && i < j < |h[oid]|
    ensures OwnerOf(h[oid][i].data) != OwnerOf(h[oid][j].data) ==> OwnerOf(h[oid][j].data) == oid
    ensures OwnerOf(h[oid][i].data) == oid ==> OwnerOf(h[oid][j].data) == oid
  {
    assert ProperRecord(h, last, oid);
    var k: nat :| HandedAt(h[oid], oid, k);
  }

  // ---- loading -----------------------------------------------------------------------------------

  datatype Loaded =
    | Found(payload: Bytes, serial: nat, after: Option<nat>)
    | NothingBefore
    | KeyMissing
    | Refused

  /** The revision current just before `tid`, counted from the front; 0 when there is none. */
  function Before(revs: seq<Revision>, tid: nat): (n: nat)
    ensures n <= |revs| && (n > 0 ==> revs[n - 1].serial < tid) && forall i :: n <= i < |revs| ==> revs[i].serial >= tid
  {
    if revs == [] then 0
    else if revs[|revs| - 1].serial < tid then |revs|
    else Before(revs[..|revs| - 1], tid)
  }

  /** The shared storage: all revisions of all records, with a growing serial. */
  class Storage {
    var history: History
    var last: nat

    constructor ()
      ensures history == map[] && last == 0 && Proper(history, last)
    {
      history, last := map[], 0;
    }
  }

  /** One user's view of the storage. */
  class OwnerStorage {
    const user: Oid
    const storage: Storage

    constructor (storage: Storage, user: Oid)
      ensures this.user == user && this.storage == storage
    {
      this.user, this.storage := user, storage;
    }

    /** Strips the owner from the revision before `tid`, if the owner of that revision may be read. */
    method LoadBefore(oid: Oid, tid: nat) returns (r: Loaded)
      requires Proper(storage.history, storage.last)
      ensures r.KeyMissing? <==> oid !in storage.history
      ensures oid in storage.history ==>
                var revs := storage.history[oid];
                var n := Before(revs, tid);
                (r.NothingBefore? <==> n == 0)
                && (n > 0 ==>
                      var data := revs[n - 1].data;
                      (r.Found? <==> OwnerOf(data) == user || oid == user || oid == ZERO)
                      && (r.Found? ==> data == r.payload + OwnerOf(data) && r.serial == revs[n - 1].serial)
                      && (r.Found? ==> r.after == if n < |revs| then Some(revs[n].serial) else None))
    {
      if oid !in storage.history { return KeyMissing; }
      assert ProperRecord(storage.history, storage.last, oid);
      var revs := storage.history[oid];
      var n := Before(revs, tid);
      if n == 0 { return NothingBefore; }
      var data := revs[n - 1].data;
      PermittedIff(user, data, oid);
      if !Permitted(user, data, oid) { return Refused; }
      return Found(data[..|data| - |user|], revs[n - 1].serial, if n < |revs| then Some(revs[n].serial) else None);
    }

    /** Writes a record under the user's name if the current record may be written. */
    method Store(oid: Oid, payload: Bytes) returns (ok: bool)
      requires Proper(storage.history, storage.last)
      modifies storage
      ensures Proper(storage.history, storage.last)
      ensures ok <==> Writable(old(storage.history), user, oid)
      ensures storage.history ==
              if ok then Stored(old(storage.history), old(storage.last), user, oid, payload) else old(storage.history)
      ensures storage.last == if ok then old(storage.last) + 1 else old(storage.last)
      ensures forall x: Oid :: x != oid && x in old(storage.history) ==>
                x in storage.history && storage.history[x] == old(storage.history)[x]
      ensures ok ==>
                oid in storage.history
                && storage.history[oid] == (if oid in old(storage.history) then old(storage.history)[oid] else [])
                                           + [Revision(payload + user, storage.last)]
    {
      var h, last := storage.history, storage.last;
      WritableIff(h, last, user, oid);
      if oid in h && h[oid] != [] && !Permitted(user, Current(h, oid), oid) { return false; }
      StoreKeeps(h, last, user, oid, payload);
      storage.last := last + 1;
      storage.history := h[oid := (if oid in h then h[oid] else []) + [Revision(payload + user, last + 1)]];
      ok := true;
    }
  }

  /** What one user stores, another reads back exactly, if and only if it is that user, the owner of the root,
      or object zero. */
  method StoreThenLoad(a: OwnerStorage, b: OwnerStorage, oid: Oid, payload: Bytes) returns (ok: bool, r: Loaded)
    requires a.storage == b.storage && Proper(a.storage.history, a.storage.last)
    modifies a.storage
    ensures ok ==> (r.Found? <==> b.user == a.user || oid == b.user || oid == ZERO)
    ensures ok && r.Found? ==> r.payload == payload && r.after == None
  {
    ok := a.Store(oid, payload);
    r := b.LoadBefore(oid, a.storage.last + 1);
    if ok {
      TaggedRight(payload, a.user);
      ghost var revs := a.storage.history[oid];
      assert revs[|revs| - 1] == Revision(payload + a.user, a.storage.last);
      assert Before(revs, a.storage.last + 1) == |revs|;
      SamePayload(payload, r, a.user);
    }
  }

  lemma SamePayload(payload: Bytes, r: Loaded, user: Oid)
    ensures r.Found? && payload + user == r.payload + user ==> r.payload == payload
  {
    if r.Found? && payload + user == r.payload + user {
      assert PayloadOf(payload + user) == payload && PayloadOf(r.payload + user) == r.payload;
    }
  }

  // ---- any interleaving of users -----------------------------------------------------------------

  datatype Write = Write(user: Oid, oid: Oid, payload: Bytes)

  /** The history after attempts to write, in any order of users; refused attempts change nothing. */
  function Attempted(h: History, last: nat, writes: seq<Write>): (History, nat)
    decreases |writes|
  {
    if writes == [] then (h, last)
    else
      var w := writes[0];
      if MayStore(h, w.user, w.oid) then Attempted(Stored(h, last, w.user, w.oid, w.payload), last + 1, writes[1..])
      else Attempted(h, last, writes[1..])
  }

  /** One attempt succeeds for a new record, the last writer's, the user's own root and object zero alone. */
  lemma OneAttempt(h: History, last: nat, user: Oid, oid: Oid, payload: Bytes)
    requires Proper(h, last)
    ensures Attempted(h, last, [Write(user, oid, payload)]) ==
            if oid !in h || h[oid] == [] || OwnerOf(Current(h, oid)) == user || oid == user || oid == ZERO then
              (h[oid := (if oid in h then h[oid] else []) + [Revision(payload + user, last + 1)]], last + 1)
            else (h, last)
  {
    WritableIff(h, last, user, oid);
    assert ProperRecord(h, last, oid);
    assert [Write(user, oid, payload)][1..] == [];
  }

  /** Attempts are made one after the other. */
  lemma {:induction false} AttemptedMore(h: History, last: nat, a: seq<Write>, b: seq<Write>)
    ensures Attempted(h, last, a + b) == var r := Attempted(h, last, a); Attempted(r.0, r.1, b)
    decreases |a|
  {
    if a == [] {
      assert a + b == b;
    } else {
      assert (a + b)[1..] == a[1..] + b;
      var w := a[0];
      if MayStore(h, w.user, w.oid) {
        AttemptedMore(Stored(h, last, w.user, w.oid, w.payload), last + 1, a[1..], b);
      } else {
        AttemptedMore(h, last, a[1..], b);
      }
    }
  }

  /** Revisions are only ever added. */
  ghost predicate Grown(h: History, h1: History, oid: Oid) { oid in h ==> oid in h1 && h[oid] <= h1[oid] }

  /** Over any interleaving of the users' writes, no revision is lost and no record is handed over twice. */
  lemma {:induction false} AttemptsKeep(h: History, last: nat, writes: seq<Write>, oid: Oid)
    requires Proper(h, last)
    ensures var r := Attempted(h, last, writes); Proper(r.0, r.1) && Grown(h, r.0, oid) && r.1 >= last
    decreases |writes|
  {
    if writes != [] {
      var w := writes[0];
      if MayStore(h, w.user, w.oid) {
        var h1 := Stored(h, last, w.user, w.oid, w.payload);
        StoreKeeps(h, last, w.user, w.oid, w.payload);
        assert Grown(h, h1, oid);
        AttemptsKeep(h1, last + 1, writes[1..], oid);
      } else {
        AttemptsKeep(h, last, writes[1..], oid);
      }
    }
  }

  /** Once the user of an object's id has written it, every later revision is that user's. */
  lemma {:induction false} TakenForGood(h: History, last: nat, writes: seq<Write>, oid: Oid, i: nat)
    requires Proper(h, last) && oid in h && h[oid] != [] && oid != ZERO && OwnerOf(Current(h, oid)) == oid
    requires var r := Attempted(h, last, writes).0; oid in r && |h[oid]| <= i < |r[oid]|
    ensures OwnerOf(Attempted(h, last, writes).0[oid][i].data) == oid
  {
    AttemptsKeep(h, last, writes, oid);
    var r := Attempted(h, last, writes);
    assert Grown(h, r.0, oid);
    assert r.0[oid][|h[oid]| - 1] == h[oid][|h[oid]| - 1];
    OwnerChangesOnce(r.0, r.1, oid, |h[oid]| - 1, i);
  }
}
