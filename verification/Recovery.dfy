/** Crash recovery converges. A reconciliation may be interrupted anywhere, any number of times; once one runs to
    its end, the state reached is the one an uninterrupted reconciliation would have reached at that time.

    States are compared by their view, which forgets the random ids of file nodes (a file is known by its storage
    key) and the staging files no unfinished row needs. */
module Recovery {
  import opened Basics
  import opened Schema
  import opened Machine
  import opened Invariant

  /** A committed file without its node id. */
  datatype Entry = Entry(key: Key, parent: Option<Id>, name: Name, trashed: bool, size: nat, sha: Digest)

  datatype View = View(uploads: Uploads, slots: set<(Id, string)>, catalog: set<Entry>, folders: Nodes,
                       objects: map<Key, Bytes>, pending: map<Key, Bytes>)

  function Slots(ns: Nodes): set<(Id, string)> {
    set n | n in ns && !ns[n].trashed && ns[n].parent.Some? :: (ns[n].parent.value, ns[n].name.key)
  }

  function EntryOf(n: Node, f: FileObject): Entry {
    Entry(f.storageKey, n.parent, n.name, n.trashed, f.size, f.sha)
  }

  function Catalog(t: Tables): set<Entry> {
    set n | n in t.files && n in t.nodes :: EntryOf(t.nodes[n], t.files[n])
  }

  function FoldersOf(ns: Nodes): Nodes {
    map n | n in ns && ns[n].kind == Folder :: ns[n]
  }

  /** The staging keys that rows being finalised still need. */
  function Needed(us: Uploads): set<Key> {
    set u | u in us && us[u].state == Finalizing :: us[u].stagingKey
  }

  function Pending(us: Uploads, staging: map<Key, Bytes>): map<Key, Bytes> {
    map k | k in staging && k in Needed(us) :: staging[k]
  }

  function ViewOf(s: Sys): View {
    View(s.t.uploads, Slots(s.t.nodes), Catalog(s.t), FoldersOf(s.t.nodes), s.objects, Pending(s.t.uploads, s.staging))
  }

  /** Some active node, whatever its id, has this name key in the folder `p`. */
  ghost predicate Occupied(ns: Nodes, p: Id, key: string) {
    exists n | n in ns :: !ns[n].trashed && ns[n].parent == Some(p) && ns[n].name.key == key
  }

  /** Some node, whatever its id, has this file row, parent, name and trash flag. */
  ghost predicate Catalogued(t: Tables, f: FileObject, p: Option<Id>, name: Name, trashed: bool) {
    exists n | n in t.files && n in t.nodes :: t.files[n] == f && t.nodes[n].parent == p && t.nodes[n].name == name
      && t.nodes[n].trashed == trashed
  }

  /** What it means that two states have the same view: the same upload rows, objects and folders, the same names taken,
      the same files up to their node ids, and the same bytes staged for uploads that are being finalised. */
  lemma ViewsAgree(s: Sys, s2: Sys)
    ensures ViewOf(s) == ViewOf(s2) <==>
      && s.t.uploads == s2.t.uploads && s.objects == s2.objects
      && (forall n :: n in s.t.nodes && s.t.nodes[n].kind == Folder <==>
        n in s2.t.nodes && s2.t.nodes[n].kind == Folder)
      && (forall n | n in s.t.nodes && n in s2.t.nodes && s.t.nodes[n].kind == Folder :: s.t.nodes[n] == s2.t.nodes[n])
      && (forall p, key :: Occupied(s.t.nodes, p, key) <==> Occupied(s2.t.nodes, p, key))
      && (forall f, p, name, trashed :: Catalogued(s.t, f, p, name, trashed) <==> Catalogued(s2.t, f, p, name, trashed))
      && (forall u | u in s.t.uploads && s.t.uploads[u].state == Finalizing :: var k := s.t.uploads[u].stagingKey;
            (k in s.staging <==> k in s2.staging)
              && (k in s.staging && k in s2.staging ==> s.staging[k] == s2.staging[k]))
  {
    FoldersAgree(s.t.nodes, s2.t.nodes);
    SlotsAgree(s.t.nodes, s2.t.nodes);
    CatalogsAgree(s.t, s2.t);
    if s.t.uploads == s2.t.uploads { PendingAgree(s.t.uploads, s.staging, s2.staging); }
  }

  lemma FoldersAgree(ns: Nodes, ns2: Nodes)
    ensures FoldersOf(ns) == FoldersOf(ns2) <==>
      && (forall n :: n in ns && ns[n].kind == Folder <==> n in ns2 && ns2[n].kind == Folder)
      && (forall n | n in ns && n in ns2 && ns[n].kind == Folder :: ns[n] == ns2[n])
  {
    if FoldersOf(ns) == FoldersOf(ns2) {
      forall n ensures n in ns && ns[n].kind == Folder <==> n in ns2 && ns2[n].kind == Folder {
        assert n in FoldersOf(ns) <==> n in FoldersOf(ns2);
      }
      forall n | n in ns && n in ns2 && ns[n].kind == Folder ensures ns[n] == ns2[n] {
        assert FoldersOf(ns)[n] == FoldersOf(ns2)[n];
      }
    }
  }

  lemma SlotsAgree(ns: Nodes, ns2: Nodes)
    ensures Slots(ns) == Slots(ns2) <==> forall p, key :: Occupied(ns, p, key) <==> Occupied(ns2, p, key)
  {
    forall p, key ensures (p, key) in Slots(ns) <==> Occupied(ns, p, key) {}
    forall p, key ensures (p, key) in Slots(ns2) <==> Occupied(ns2, p, key) {}
    if forall p, key :: Occupied(ns, p, key) <==> Occupied(ns2, p, key) {
      forall e ensures e in Slots(ns) <==> e in Slots(ns2) { assert e == (e.0, e.1); }
    }
  }

  lemma CatalogsAgree(t: Tables, t2: Tables)
    ensures Catalog(t) == Catalog(t2) <==>
      forall f, p, name, trashed :: Catalogued(t, f, p, name, trashed) <==> Catalogued(t2, f, p, name, trashed)
  {
    forall f: FileObject, p, name, trashed
      ensures Entry(f.storageKey, p, name, trashed, f.size, f.sha) in Catalog(t) <==>
        Catalogued(t, f, p, name, trashed) {
      EntryMeans(t, f, p, name, trashed);
    }
    forall f: FileObject, p, name, trashed
      ensures Entry(f.storageKey, p, name, trashed, f.size, f.sha) in Catalog(t2) <==>
        Catalogued(t2, f, p, name, trashed) {
      EntryMeans(t2, f, p, name, trashed);
    }
    hide Catalogued, Catalog;
    if forall f, p, name, trashed :: Catalogued(t, f, p, name, trashed) <==> Catalogued(t2, f, p, name, trashed) {
      forall e ensures e in Catalog(t) <==> e in Catalog(t2) {
        var f := FileObject(e.key, e.size, e.sha);
        assert e == Entry(f.storageKey, e.parent, e.name, e.trashed, f.size, f.sha);
        assert Catalogued(t, f, e.parent, e.name, e.trashed) <==> Catalogued(t2, f, e.parent, e.name, e.trashed);
      }
    }
  }

  lemma EntryMeans(t: Tables, f: FileObject, p: Option<Id>, name: Name, trashed: bool)
    ensures Entry(f.storageKey, p, name, trashed, f.size, f.sha) in Catalog(t) <==> Catalogued(t, f, p, name, trashed)
  {
  }

  lemma PendingAgree(us: Uploads, st: map<Key, Bytes>, st2: map<Key, Bytes>)
    ensures Pending(us, st) == Pending(us, st2) <==>
      forall u | u in us && us[u].state == Finalizing :: var k := us[u].stagingKey;
        (k in st <==> k in st2) && (k in st && k in st2 ==> st[k] == st2[k])
  {
    if Pending(us, st) == Pending(us, st2) {
      forall u | u in us && us[u].state == Finalizing ensures var k := us[u].stagingKey;
        (k in st <==> k in st2) && (k in st && k in st2 ==> st[k] == st2[k]) {
        var k := us[u].stagingKey;
        assert k in Needed(us);
        assert k in Pending(us, st) <==> k in Pending(us, st2);
        if k in st && k in st2 { assert Pending(us, st)[k] == Pending(us, st2)[k]; }
      }
    }
  }

  // ---------------------------------------------------------------- reconciling a view in one go

  function Closed(u: Upload, st: UploadState): Upload {
    u.(state := st, reservation := 0)
  }

  /** Expire every stale row at once. */
  function ExpireAll(v: View, now: int): View {
    v.(uploads := map u | u in v.uploads ::
         if Accepting(v.uploads[u].state) && v.uploads[u].expiresAt < now then Closed(v.uploads[u], Expired)
           else v.uploads[u])
  }

  function MoveBytes(v: View, u: Upload): View {
    if u.finalKey !in v.objects && u.stagingKey in v.pending
    then v.(objects := v.objects[u.finalKey := v.pending[u.stagingKey]], pending := v.pending - {u.stagingKey})
    else v
  }

  function NewEntry(u: Upload): Entry {
    Entry(u.finalKey, Some(u.parent), u.name, false, u.expected, if u.sha.Some? then u.sha.value else "")
  }

  /** Complete a row whose object is in place: it gains its file exactly when its name is still free. */
  function CompleteRowIn(v: View, id: Id): View
    requires id in v.uploads
  {
    var u := v.uploads[id];
    var w := v.(uploads := v.uploads[id := Closed(u, Complete)]);
    if (u.parent, u.name.key) in v.slots then w
    else w.(slots := v.slots + {(u.parent, u.name.key)}, catalog := v.catalog + {NewEntry(u)})
  }

  function ResolveRow(v: View, id: Id): View {
    if id !in v.uploads || v.uploads[id].state != Finalizing then v
    else
      var w := MoveBytes(v, v.uploads[id]);
      if v.uploads[id].finalKey in w.objects then CompleteRowIn(w, id)
      else v.(uploads := v.uploads[id := Closed(v.uploads[id], Failed)])
  }

  function ResolveAll(v: View, order: seq<Id>): View
    decreases |order|
  {
    if order == [] then v else ResolveAll(ResolveRow(v, order[0]), order[1..])
  }

  /** What a reconciliation at time `now` that takes the rows in `order` aims at. */
  function Target(v: View, now: int, order: seq<Id>): View {
    ResolveAll(ExpireAll(v, now), order)
  }

  /** The rows of `S` in the order given. */
  function Select(order: seq<Id>, S: set<Id>): seq<Id> {
    if order == [] then [] else (if order[0] in S then [order[0]] else []) + Select(order[1..], S)
  }

  // ---------------------------------------------------------------- laws of the view functions

  lemma {:induction false} SelectFrom(order: seq<Id>, S: set<Id>)
    ensures forall x :: x in Select(order, S) <==> x in order && x in S
    ensures NoDup(order) ==> NoDup(Select(order, S))
  {
    if order != [] {
      SelectFrom(order[1..], S);
      assert order == [order[0]] + order[1..];
      if NoDup(order) {
        assert order[0] !in order[1..];
        NoDupConcat(if order[0] in S then [order[0]] else [], Select(order[1..], S));
      }
    }
  }

  /** Taking the first selected row out of the set takes it off the front of the list. */
  lemma {:induction false} SelectRest(order: seq<Id>, S: set<Id>)
    requires NoDup(order) && Select(order, S) != []
    ensures Select(order, S - {Select(order, S)[0]}) == Select(order, S)[1..]
  {
    var x := Select(order, S)[0];
    assert order == [order[0]] + order[1..];
    if order[0] in S {
      assert order[0] !in order[1..];
      SelectSame(order[1..], S, S - {x});
    } else {
      SelectRest(order[1..], S);
      assert Select(order, S) == Select(order[1..], S);
    }
  }

  lemma {:induction false} SelectSame(order: seq<Id>, S: set<Id>, S2: set<Id>)
    requires forall x | x in order :: x in S <==> x in S2
    ensures Select(order, S) == Select(order, S2)
  {
    if order != [] {
      assert order == [order[0]] + order[1..];
      SelectSame(order[1..], S, S2);
    }
  }

  /** Resolving the first finalising row early does not change where the whole pass ends. */
  lemma {:induction false} ResolveFirst(v: View, order: seq<Id>)
    requires Select(order, FinalizingIds(v.uploads)) != []
    ensures ResolveAll(ResolveRow(v, Select(order, FinalizingIds(v.uploads))[0]), order) == ResolveAll(v, order)
    decreases |order|
  {
    var x := Select(order, FinalizingIds(v.uploads))[0];
    SelectFrom(order, FinalizingIds(v.uploads));
    assert x in FinalizingIds(v.uploads);
    var w := ResolveRow(v, x);
    assert ResolveRow(w, x) == w;
    if order[0] !in FinalizingIds(v.uploads) {
      assert ResolveRow(v, order[0]) == v && ResolveRow(w, order[0]) == w;
      assert Select(order, FinalizingIds(v.uploads)) == Select(order[1..], FinalizingIds(v.uploads));
      ResolveFirst(v, order[1..]);
    }
  }

  /** The staging keys and final keys of a view's rows are distinct. */
  ghost predicate DistinctIn(v: View) {
    DistinctKeys(v.uploads)
  }

  lemma MovesCommute(v: View, u: Upload, w: Upload)
    requires u.finalKey != w.finalKey && u.stagingKey != w.stagingKey
    ensures MoveBytes(MoveBytes(v, u), w) == MoveBytes(MoveBytes(v, w), u)
  {
    var mu, mw := MoveBytes(v, u), MoveBytes(v, w);
    if u.finalKey !in v.objects && u.stagingKey in v.pending && w.finalKey !in v.objects && w.stagingKey in v.pending {
      var bu, bw := v.pending[u.stagingKey], v.pending[w.stagingKey];
      assert v.objects[u.finalKey := bu][w.finalKey := bw] == v.objects[w.finalKey := bw][u.finalKey := bu];
      assert v.pending - {u.stagingKey} - {w.stagingKey} == v.pending - {w.stagingKey} - {u.stagingKey};
      assert MoveBytes(mu, w) == v.(objects := v.objects[u.finalKey := bu][w.finalKey := bw],
        pending := v.pending - {u.stagingKey} - {w.stagingKey});
    } else if u.finalKey !in v.objects && u.stagingKey in v.pending {
      assert mw == v && MoveBytes(mu, w) == mu;
    } else {
      assert mu == v && MoveBytes(mw, u) == mw;
    }
  }

  lemma CompleteCommutes(v: View, x: Id, u: Upload)
    requires x in v.uploads
    ensures CompleteRowIn(MoveBytes(v, u), x) == MoveBytes(CompleteRowIn(v, x), u)
  {
  }

  lemma MoveCommutes(v: View, id: Id, x: Id)
    requires DistinctIn(v) && id in v.uploads && v.uploads[id].state == Finalizing && x != id
    ensures ResolveRow(MoveBytes(v, v.uploads[id]), x) == MoveBytes(ResolveRow(v, x), v.uploads[id])
    ensures id in ResolveRow(v, x).uploads && ResolveRow(v, x).uploads[id] == v.uploads[id]
  {
    if x in v.uploads && v.uploads[x].state == Finalizing {
      assert Apart(v.uploads, id, x);
      var u, w := v.uploads[id], v.uploads[x];
      MovesCommute(v, u, w);
      CompleteCommutes(MoveBytes(v, w), x, u);
      assert w.finalKey in MoveBytes(MoveBytes(v, u), w).objects <==> w.finalKey in MoveBytes(v, w).objects;
    }
  }

  lemma DistinctAfter(v: View, x: Id)
    requires DistinctIn(v)
    ensures DistinctIn(ResolveRow(v, x))
  {
    var w := ResolveRow(v, x);
    forall i, j | i in w.uploads && j in w.uploads && i != j ensures Apart(w.uploads, i, j) {
      assert Apart(v.uploads, i, j);
    }
  }

  /** Phase B may have happened before the crash or not: the end is the same, wherever the row stands in the order. */
  lemma {:induction false} MoveFirst(v: View, order: seq<Id>, id: Id)
    requires DistinctIn(v) && id in order && id in v.uploads && v.uploads[id].state == Finalizing
    ensures ResolveAll(MoveBytes(v, v.uploads[id]), order) == ResolveAll(v, order)
    decreases |order|
  {
    assert order == [order[0]] + order[1..];
    if order[0] == id {
      var u := v.uploads[id];
      assert MoveBytes(MoveBytes(v, u), u) == MoveBytes(v, u);
      assert ResolveRow(MoveBytes(v, u), id) == ResolveRow(v, id);
    } else {
      MoveCommutes(v, id, order[0]);
      DistinctAfter(v, order[0]);
      MoveFirst(ResolveRow(v, order[0]), order[1..], id);
    }
  }

  /** Expiring touches no row that is being finalised. */
  lemma ExpireKeepsFinalizing(v: View, now: int)
    ensures FinalizingIds(ExpireAll(v, now).uploads) == FinalizingIds(v.uploads)
    ensures DistinctIn(v) ==> DistinctIn(ExpireAll(v, now))
  {
    if DistinctIn(v) {
      var w := ExpireAll(v, now);
      forall i, j | i in w.uploads && j in w.uploads && i != j ensures Apart(w.uploads, i, j) {
        assert Apart(v.uploads, i, j);
      }
    }
  }

  lemma ExpireCommutesMove(v: View, u: Upload, now: int)
    ensures ExpireAll(MoveBytes(v, u), now) == MoveBytes(ExpireAll(v, now), u)
  {
  }

  lemma ExpireCommutesClose(v: View, id: Id, now: int, st: UploadState)
    requires id in v.uploads && !Accepting(v.uploads[id].state) && !Accepting(st)
    ensures ExpireAll(v.(uploads := v.uploads[id := Closed(v.uploads[id], st)]), now)
            == ExpireAll(v, now).(uploads := ExpireAll(v, now).uploads[id := Closed(v.uploads[id], st)])
  {
    var w := v.(uploads := v.uploads[id := Closed(v.uploads[id], st)]);
    assert ExpireAll(w, now).uploads == ExpireAll(v, now).uploads[id := Closed(v.uploads[id], st)];
  }

  lemma ExpireCommutes(v: View, id: Id, now: int)
    requires id in v.uploads && v.uploads[id].state == Finalizing
    ensures ExpireAll(ResolveRow(v, id), now) == ResolveRow(ExpireAll(v, now), id)
  {
    ExpireCommutesMove(v, v.uploads[id], now);
    var w := MoveBytes(v, v.uploads[id]);
    ExpireCommutesClose(w, id, now, Complete);
    ExpireCommutesClose(v, id, now, Failed);
  }

  // ---------------------------------------------------------------- the machine's steps, seen through the view

  lemma TargetAfterResolve(v: View, now: int, order: seq<Id>)
    requires Select(order, FinalizingIds(v.uploads)) != []
    ensures Target(ResolveRow(v, Select(order, FinalizingIds(v.uploads))[0]), now, order) == Target(v, now, order)
  {
    var x := Select(order, FinalizingIds(v.uploads))[0];
    SelectFrom(order, FinalizingIds(v.uploads));
    assert x in FinalizingIds(v.uploads);
    ExpireKeepsFinalizing(v, now);
    ExpireCommutes(v, x, now);
    ResolveFirst(ExpireAll(v, now), order);
  }

  lemma TargetAfterMove(v: View, now: int, order: seq<Id>, id: Id)
    requires DistinctIn(v) && id in order && id in v.uploads && v.uploads[id].state == Finalizing
    ensures Target(MoveBytes(v, v.uploads[id]), now, order) == Target(v, now, order)
  {
    ExpireKeepsFinalizing(v, now);
    ExpireCommutesMove(v, v.uploads[id], now);
    MoveFirst(ExpireAll(v, now), order, id);
  }

  /** A row expired by an earlier reconciliation would be expired by a later one. */
  lemma TargetAfterExpire(v: View, now: int, order: seq<Id>, id: Id)
    requires id in v.uploads && Accepting(v.uploads[id].state) && v.uploads[id].expiresAt < now
    ensures Target(v.(uploads := v.uploads[id := Closed(v.uploads[id], Expired)]), now, order) == Target(v, now, order)
  {
    var w := v.(uploads := v.uploads[id := Closed(v.uploads[id], Expired)]);
    assert ExpireAll(w, now).uploads == ExpireAll(v, now).uploads;
  }

  /** Nothing left to do. */
  lemma {:induction false} TargetOfDone(v: View, now: int, order: seq<Id>)
    requires FinalizingIds(v.uploads) == {} && ExpiredIds(v.uploads, now) == {}
    ensures Target(v, now, order) == v
    decreases |order|
  {
    forall u | u in v.uploads ensures ExpireAll(v, now).uploads[u] == v.uploads[u] {
      assert u !in ExpiredIds(v.uploads, now);
    }
    assert ExpireAll(v, now) == v;
    if order != [] {
      assert order[0] !in FinalizingIds(v.uploads);
      assert ResolveRow(v, order[0]) == v;
      TargetOfDone(v, now, order[1..]);
    }
  }
}
