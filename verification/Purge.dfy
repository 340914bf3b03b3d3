/** Purging: one DELETE over a subtree, row by row under immediate ON DELETE RESTRICT. */
module Purge {
  import opened Basics
  import opened Schema
  import opened Forest
  import opened Tree

  predicate SameKey(f: FileObject, g: FileObject) {
    f.storageKey == g.storageKey
  }

  /** Each file node has its file_objects row, storage keys are unique, and no table points at a missing node. */
  ghost predicate RefsSound(t: Tables) {
    && (forall x | x in t.files :: x in t.nodes && t.nodes[x].kind == File)
    && (forall x | x in t.nodes && t.nodes[x].kind == File :: x in t.files)
    && (forall x, y {:trigger SameKey(t.files[x], t.files[y])} | x in t.files && y in t.files && x != y ::
      !SameKey(t.files[x], t.files[y]))
    && (forall h | h in t.shares :: t.shares[h].target in t.nodes)
  }

  ghost predicate TablesInv(t: Tables) {
    TreeInv(t.nodes, UploadParents(t.uploads)) && RefsSound(t)
  }

  /** The tables without the nodes in `S`; file_objects and shares follow by ON DELETE CASCADE. */
  function Without(t: Tables, S: set<Id>): Tables {
    t.(nodes := t.nodes - S, files := t.files - S,
       shares := map h | h in t.shares && t.shares[h].target !in S :: t.shares[h])
  }

  predicate KeyStored(fs: FileObjects, key: Key) {
    exists x :: x in fs && fs[x].storageKey == key
  }

  predicate HasChild(ns: Nodes, x: Id) {
    exists y :: y in ns && ns[y].parent == Some(x)
  }

  /** Deleting one row: refused while a node or an upload still points at it. */
  function DeleteNode(t: Tables, x: Id): Result<Tables, Error> {
    if HasChild(t.nodes, x) || x in UploadParents(t.uploads) then Err(Internal) else Ok(Without(t, {x}))
  }

  /** The statement visits its rows in the engine's order; the first refusal rolls all of it back. */
  ghost function DeleteNodes(t: Tables, order: seq<Id>): Result<Tables, Error>
    decreases |order|
  {
    if order == [] then Ok(t)
    else
      var r := DeleteNode(t, order[0]);
      if r.Err? then r else DeleteNodes(r.value, order[1..])
  }

  ghost function PurgeNode(t: Tables, id: Id, order: seq<Id>): Result<Tables, Error> {
    if id !in t.nodes then Err(NotFound)
    else if t.nodes[id].system then Err(SystemProtected)
    else if !t.nodes[id].trashed then Err(InvalidOperation)
    else DeleteNodes(t, order)
  }

  /** The storage keys a purge hands back for removal. */
  ghost function SubtreeKeys(t: Tables, id: Id): set<Key> {
    set x | x in t.files && x in Subtree(t.nodes, id) :: t.files[x].storageKey
  }

  /** Every row comes after all its children. */
  ghost predicate ChildrenFirst(ns: Nodes, order: seq<Id>) {
    forall i, j | 0 <= i < |order| && 0 <= j < |order| && order[j] in ns && ns[order[j]].parent == Some(order[i]) ::
      j < i
  }

  ghost predicate Unreferenced(t: Tables, order: seq<Id>) {
    forall i | 0 <= i < |order| :: order[i] !in UploadParents(t.uploads)
  }

  /** The rows exist and contain all children of any of them. */
  ghost predicate ChildClosed(ns: Nodes, order: seq<Id>) {
    (forall i | 0 <= i < |order| :: order[i] in ns) &&
    (forall y | y in ns && ns[y].parent.Some? && ns[y].parent.value in order :: y in order)
  }

  lemma {:induction false} DeleteNodesExact(t: Tables, order: seq<Id>)
    requires NoDup(order) && ChildClosed(t.nodes, order)
    ensures DeleteNodes(t, order).Ok? <==> ChildrenFirst(t.nodes, order) && Unreferenced(t, order)
    ensures DeleteNodes(t, order).Ok? ==> DeleteNodes(t, order).value == Without(t, Elems(order))
    decreases |order|
  {
    if order == [] {
      assert t == Without(t, {});
    } else {
      var x, rest := order[0], order[1..];
      if HasChild(t.nodes, x) { HeadWithChild(t.nodes, order); }
      UnreferencedHead(t, order);
      if DeleteNode(t, x).Ok? {
        ClosedTail(t.nodes, order);
        DeleteNodesExact(Without(t, {x}), rest);
        OrderTail(t.nodes, order);
        WithoutTwice(t, order);
      }
    }
  }

  lemma UnreferencedHead(t: Tables, order: seq<Id>)
    requires order != []
    ensures Unreferenced(t, order) <==> order[0] !in UploadParents(t.uploads) && Unreferenced(t, order[1..])
  {
    assert order == [order[0]] + order[1..];
    forall i | 0 <= i < |order| - 1 ensures order[1..][i] == order[i + 1] {}
  }

  lemma HeadWithChild(ns: Nodes, order: seq<Id>)
    requires order != [] && ChildClosed(ns, order) && HasChild(ns, order[0])
    ensures !ChildrenFirst(ns, order)
  {
    var y :| y in ns && ns[y].parent == Some(order[0]);
    assert y in order;
    var j :| 0 <= j < |order| && order[j] == y;
  }

  lemma ClosedTail(ns: Nodes, order: seq<Id>)
    requires order != [] && NoDup(order) && ChildClosed(ns, order) && !HasChild(ns, order[0])
    ensures NoDup(order[1..]) && ChildClosed(ns - {order[0]}, order[1..])
  {
    var rest, ns1 := order[1..], ns - {order[0]};
    assert order == [order[0]] + rest;
    assert forall i | 0 <= i < |rest| :: rest[i] == order[i + 1];
  }

  lemma WithoutTwice(t: Tables, order: seq<Id>)
    requires order != []
    ensures Without(Without(t, {order[0]}), Elems(order[1..])) == Without(t, Elems(order))
  {
    assert order == [order[0]] + order[1..];
    assert Elems(order) == {order[0]} + Elems(order[1..]);
  }

  lemma OrderTail(ns: Nodes, order: seq<Id>)
    requires order != [] && NoDup(order) && !HasChild(ns, order[0])
    ensures ChildrenFirst(ns, order) <==> ChildrenFirst(ns - {order[0]}, order[1..])
  {
    var rest, ns1 := order[1..], ns - {order[0]};
    assert forall i | 0 <= i < |rest| :: rest[i] == order[i + 1] && rest[i] != order[0];
    if ChildrenFirst(ns1, rest) {
      forall i, j | 0 <= i < |order| && 0 <= j < |order| && order[j] in ns && ns[order[j]].parent == Some(order[i])
        ensures j < i
      {
        if j > 0 {
          assert i > 0;
          assert rest[j - 1] in ns1 && ns1[rest[j - 1]].parent == Some(rest[i - 1]);
        } else {
          assert i != 0;
        }
      }
    }
    if ChildrenFirst(ns, order) {
      forall i, j | 0 <= i < |rest| && 0 <= j < |rest| && rest[j] in ns1 && ns1[rest[j]].parent == Some(rest[i])
        ensures j < i
      {
        assert ns[order[j + 1]].parent == Some(order[i + 1]);
      }
    }
  }

  lemma TrashKeepsTables(t: Tables, id: Id)
    requires TablesInv(t) && Trash(t.nodes, id).Ok?
    ensures TablesInv(t.(nodes := Trash(t.nodes, id).value))
  {
    TrashKeeps(t.nodes, UploadParents(t.uploads), id);
    TrashRelocates(t.nodes, UploadParents(t.uploads), id);
  }

  lemma RestoreKeepsTables(t: Tables, id: Id, found: bool)
    requires TablesInv(t) && Restore(t.nodes, id, found).Ok?
    ensures TablesInv(t.(nodes := Restore(t.nodes, id, found).value))
  {
    hide TreeInv, Restore, Subtree;
    RestorableTrashed(t.nodes, id, found);
    RestoreKeeps(t.nodes, UploadParents(t.uploads), id, found);
    RestoreIsAllOrNothing(t.nodes, UploadParents(t.uploads), id, found);
  }

  lemma MoveKeepsTables(t: Tables, id: Id, target: Id)
    requires TablesInv(t) && Move(t.nodes, id, target).Ok?
    ensures TablesInv(t.(nodes := Move(t.nodes, id, target).value))
  {
    MoveKeeps(t.nodes, UploadParents(t.uploads), id, target);
  }

  lemma RenameKeepsTables(t: Tables, id: Id, name: Option<Name>)
    requires TablesInv(t) && Rename(t.nodes, id, name).Ok?
    ensures TablesInv(t.(nodes := Rename(t.nodes, id, name).value))
  {
    RenameKeeps(t.nodes, UploadParents(t.uploads), id, name);
  }

  lemma CreateFolderKeepsTables(t: Tables, parent: Option<Id>, name: Option<Name>, id: Id)
    requires TablesInv(t) && id != "" && CreateFolder(t.nodes, parent, name, id).Ok?
    ensures TablesInv(t.(nodes := CreateFolder(t.nodes, parent, name, id).value))
  {
    CreateFolderKeeps(t.nodes, UploadParents(t.uploads), parent, name, id);
  }

  /** A purge of a trashed node commits exactly when no upload names a folder of the subtree and children are visited
      first; it then removes exactly the subtree. */
  lemma PurgeCommits(t: Tables, id: Id, order: seq<Id>)
    requires TablesInv(t) && id in t.nodes && t.nodes[id].trashed && Enumerates(order, Subtree(t.nodes, id))
    ensures PurgeNode(t, id, order).Ok? <==>
            Subtree(t.nodes, id) !! UploadParents(t.uploads) && ChildrenFirst(t.nodes, order)
    ensures PurgeNode(t, id, order).Ok? ==> PurgeNode(t, id, order).value == Without(t, Subtree(t.nodes, id))
  {
    assert ParentOk(t.nodes, id);
    assert Elems(order) == Subtree(t.nodes, id);
    assert ChildClosed(t.nodes, order) by {
      forall i | 0 <= i < |order| ensures order[i] in t.nodes { assert order[i] in order; }
      forall y | y in t.nodes && t.nodes[y].parent.Some? && t.nodes[y].parent.value in order ensures y in order {
        if y == id { WithinSelf(t.nodes, id); } else { WithinStep(t.nodes, id, y); }
      }
    }
    DeleteNodesExact(t, order);
    assert Unreferenced(t, order) <==> Subtree(t.nodes, id) !! UploadParents(t.uploads) by {
      if Unreferenced(t, order) {
        forall x | x in Subtree(t.nodes, id) ensures x !in UploadParents(t.uploads) { assert x in order; }
      } else {
        var i :| 0 <= i < |order| && order[i] in UploadParents(t.uploads);
        assert order[i] in order;
      }
    }
  }

  /** The same in full. A purge of a trashed node commits exactly when no upload names a folder of the subtree and the
      engine happens to visit children before parents. Then a node, a file row or a share row is there if and only if
      it was there and it, or the share's target, lies outside the subtree; what is there is as before. */
  lemma PurgeDecided(t: Tables, id: Id, order: seq<Id>)
    requires TablesInv(t) && id in t.nodes && t.nodes[id].trashed && Enumerates(order, Subtree(t.nodes, id))
    ensures PurgeNode(t, id, order).Ok? <==>
      && (forall u | u in t.uploads :: !Within(t.nodes, id, t.uploads[u].parent))
      && forall i, j | 0 <= i < |order| && 0 <= j < |order| && order[j] in t.nodes
           && t.nodes[order[j]].parent == Some(order[i]) :: j < i
    ensures PurgeNode(t, id, order).Ok? ==>
      var t2 := PurgeNode(t, id, order).value;
      && t2.uploads == t.uploads
      && (forall x :: x in t2.nodes <==> x in t.nodes && !Within(t.nodes, id, x))
      && (forall x | x in t2.nodes :: t2.nodes[x] == t.nodes[x])
      && (forall x :: x in t2.files <==> x in t.files && !Within(t.nodes, id, x))
      && (forall x | x in t2.files :: t2.files[x] == t.files[x])
      && (forall h :: h in t2.shares <==> h in t.shares && !Within(t.nodes, id, t.shares[h].target))
      && (forall h | h in t2.shares :: t2.shares[h] == t.shares[h])
    ensures PurgeNode(t, id, order).Err? ==> PurgeNode(t, id, order).error == Internal
  {
    PurgeCommits(t, id, order);
    assert ParentOk(t.nodes, id);
    assert Subtree(t.nodes, id) !! UploadParents(t.uploads) <==>
      forall u | u in t.uploads :: !Within(t.nodes, id, t.uploads[u].parent) by {
      forall u | u in t.uploads ensures t.uploads[u].parent in UploadParents(t.uploads) {}
    }
    OnlyInternal(t, order);
  }

  lemma {:induction false} OnlyInternal(t: Tables, order: seq<Id>)
    ensures DeleteNodes(t, order).Err? ==> DeleteNodes(t, order).error == Internal
    decreases |order|
  {
    if order != [] && DeleteNode(t, order[0]).Ok? { OnlyInternal(DeleteNode(t, order[0]).value, order[1..]); }
  }

  /** A committed purge destroys only trash: every node it removes carries the trash flag, although uploads may
      have been finalised into the subtree after it was trashed. */
  lemma PurgeOnlyTrash(t: Tables, id: Id, order: seq<Id>, x: Id)
    requires TablesInv(t) && PurgeNode(t, id, order).Ok? && Enumerates(order, Subtree(t.nodes, id))
    requires x in t.nodes && x !in PurgeNode(t, id, order).value.nodes
    ensures t.nodes[x].trashed && Within(t.nodes, id, x)
  {
    PurgeCommits(t, id, order);
    if !t.nodes[x].trashed {
      UntrashedBelowTrashed(t.nodes, UploadParents(t.uploads), id, x);
    }
  }

  /** A committed purge leaves no reference to a removed node and keeps the whole invariant. */
  lemma PurgeKeeps(t: Tables, id: Id, order: seq<Id>)
    requires TablesInv(t) && PurgeNode(t, id, order).Ok? && Enumerates(order, Subtree(t.nodes, id))
    ensures TablesInv(PurgeNode(t, id, order).value)
  {
    PurgeCommits(t, id, order);
    var S := Subtree(t.nodes, id);
    var t2 := Without(t, S);
    assert id != ROOT && id != TRASH;
    SystemOutside(t.nodes, UploadParents(t.uploads), id);
    forall x | x in t2.nodes ensures ParentOk(t2.nodes, x) && TrashClosed(t2.nodes, UploadParents(t.uploads), x) {
      assert ParentOk(t.nodes, x) && TrashClosed(t.nodes, UploadParents(t.uploads), x);
      if x == id { WithinSelf(t.nodes, id); } else { WithinStep(t.nodes, id, x); }
    }
    forall x | x in t2.nodes && t2.nodes[x].parent.Some? ensures t2.nodes[x].parent.value in t2.nodes {
      assert ParentOk(t2.nodes, x);
    }
    ShrinkAcyclic(t.nodes, t2.nodes);
  }

  /** The keys handed back are exactly the storage keys whose file_objects row the purge removed. */
  lemma PurgeKeysExact(t: Tables, id: Id, order: seq<Id>, key: Key)
    requires TablesInv(t) && PurgeNode(t, id, order).Ok? && Enumerates(order, Subtree(t.nodes, id))
    ensures key in SubtreeKeys(t, id) <==>
      KeyStored(t.files, key) && !KeyStored(PurgeNode(t, id, order).value.files, key)
  {
    PurgeCommits(t, id, order);
    RemovedKeys(t, id, key);
  }

  lemma RemovedKeys(t: Tables, id: Id, key: Key)
    requires RefsSound(t)
    ensures key in SubtreeKeys(t, id) <==>
            KeyStored(t.files, key) && !KeyStored(Without(t, Subtree(t.nodes, id)).files, key)
  {
    var kept := Without(t, Subtree(t.nodes, id)).files;
    if key in SubtreeKeys(t, id) {
      var x :| x in t.files && x in Subtree(t.nodes, id) && t.files[x].storageKey == key;
      assert forall y | y in kept :: !SameKey(t.files[x], t.files[y]);
    } else if KeyStored(t.files, key) {
      var x :| x in t.files && t.files[x].storageKey == key;
      assert x in kept && kept[x].storageKey == key;
    }
  }
}
