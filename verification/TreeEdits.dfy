/** What creating, renaming and moving decide, and what a move does to the ancestry of every pair of nodes. */
module TreeEdits {
  import opened Basics
  import opened Schema
  import opened Forest
  import opened Tree

  /** A folder is created exactly when its parent is an active folder, its id is new and its name is free there; it is
      a leaf directly below that parent, and nothing else changes. */
  lemma CreateFolderDecided(ns: Nodes, refs: set<Id>, parent: Option<Id>, name: Option<Name>, id: Id)
    requires TreeInv(ns, refs) && id != ""
    ensures CreateFolder(ns, parent, name, id).Ok? <==>
            && name.Some? && id !in ns && ActiveFolder(ns, TargetOf(parent))
            && SlotFree(ns, id, TargetOf(parent), name.value.key)
    ensures CreateFolder(ns, parent, name, id).Ok? ==>
      var ns2 := CreateFolder(ns, parent, name, id).value;
      && ns2 - {id} == ns && ActiveFolder(ns2, id) && ns2[id].parent == Some(TargetOf(parent))
      && ns2[id].name == name.value
      && Subtree(ns2, id) == {id}
  {
    var target := TargetOf(parent);
    if name.Some? {
      var row := Node(Some(target), Folder, name.value, false, None, false);
      assert RowFits(ns, id, row) <==> SlotFree(ns, id, target, name.value.key) by { FitsIff(ns, id, row, target); }
    }
    if CreateFolder(ns, parent, name, id).Ok? {
      var ns2 := CreateFolder(ns, parent, name, id).value;
      assert ns2 - {id} == ns;
      WithinSelf(ns2, id);
      forall x | x in Subtree(ns2, id) ensures x == id {
        var n: nat :| Up(ns2, x, n) == Some(id);
        if x != id { NotBelowNew(ns, ns2, refs, id, x, n); }
      }
    }
  }

  lemma FitsIff(ns: Nodes, id: Id, row: Node, parent: Id)
    requires row.parent == Some(parent)
    ensures RowFits(ns, id, row) <==> row.trashed || SlotFree(ns, id, parent, row.name.key)
  {
    if RowFits(ns, id, row) && !row.trashed {
      forall y | y in ns && y != id && !ns[y].trashed && ns[y].parent == Some(parent)
        ensures ns[y].name.key != row.name.key {
        assert !Clash(row, ns[y]);
      }
    }
  }

  lemma {:induction false} NotBelowNew(ns: Nodes, ns2: Nodes, refs: set<Id>, id: Id, x: Id, n: nat)
    requires TreeInv(ns, refs) && id !in ns && id in ns2 && ns2 == ns[id := ns2[id]] && x in ns
    ensures Up(ns2, x, n) != Some(id)
    decreases n
  {
    assert ParentOk(ns, x);
    if n > 0 && ns[x].parent.Some? { NotBelowNew(ns, ns2, refs, id, ns[x].parent.value, n - 1); }
  }

  /** A rename succeeds exactly when the new name is free among the active siblings; it changes the name alone, so
      every node keeps its ancestors. */
  lemma RenameDecided(ns: Nodes, refs: set<Id>, id: Id, name: Option<Name>)
    requires TreeInv(ns, refs)
    ensures Rename(ns, id, name).Ok? <==>
            && id in ns && !ns[id].system && name.Some? && ns[id].parent.Some?
            && (ns[id].trashed || SlotFree(ns, id, ns[id].parent.value, name.value.key))
    ensures Rename(ns, id, name).Ok? ==>
      var ns2 := Rename(ns, id, name).value;
      ns2 - {id} == ns - {id} && ns2.Keys == ns.Keys && ns2[id] == ns[id].(name := name.value)
  {
    if id in ns && !ns[id].system && name.Some? {
      assert ParentOk(ns, id);
      FitsIff(ns, id, ns[id].(name := name.value), ns[id].parent.value);
    }
  }

  /** A move succeeds exactly when the target is an active folder outside the moved subtree and, unless the node is
      trashed, its name is free there. It changes the parent alone. */
  lemma MoveDecided(ns: Nodes, refs: set<Id>, id: Id, target: Id)
    requires TreeInv(ns, refs)
    ensures Move(ns, id, target).Ok? <==>
            && id in ns && !ns[id].system && ActiveFolder(ns, target) && target !in Subtree(ns, id)
            && (ns[id].trashed || SlotFree(ns, id, target, ns[id].name.key))
    ensures Move(ns, id, target).Ok? ==>
      var ns2 := Move(ns, id, target).value;
      ns2 - {id} == ns - {id} && ns2.Keys == ns.Keys && ns2[id] == ns[id].(parent := Some(target))
  {
    WithinSelf(ns, id);
    if id in ns { FitsIff(ns, id, ns[id].(parent := Some(target)), target); }
  }

  /** After a move the subtree hangs below the target and below whatever the target hung below, and below nothing
      else outside it; every other pair is related as before. */
  lemma MoveCarriesSubtree(ns: Nodes, refs: set<Id>, id: Id, target: Id, a: Id, x: Id)
    requires TreeInv(ns, refs) && Move(ns, id, target).Ok? && a in ns && x in ns
    ensures Within(Move(ns, id, target).value, a, x) <==>
            if x in Subtree(ns, id) && a !in Subtree(ns, id) then Within(ns, a, target) else Within(ns, a, x)
  {
    var ns2 := Move(ns, id, target).value;
    ReparentAcyclic(ns, ns2, id, target);
    WithinSelf(ns, id);
    if x !in Subtree(ns, id) {
      SameChain(ns, ns2, id, a, x);
    } else {
      var n: nat :| Up(ns, x, n) == Some(id);
      if a !in Subtree(ns, id) {
        InsideUp(ns, ns2, id, a, x, n);
        WithinStep(ns2, a, id);
        SameChain(ns, ns2, id, a, target);
      } else {
        InsidePair(ns, ns2, id, a, x, n);
      }
    }
  }

  /** A walk that never meets `id` does not notice the change. */
  lemma SameChain(ns: Nodes, ns2: Nodes, id: Id, a: Id, x: Id)
    requires !Within(ns, id, x) && forall y | y != id :: Parent(ns, y) == Parent(ns2, y)
    ensures Within(ns2, a, x) <==> Within(ns, a, x)
  {
    forall n: nat ensures Up(ns2, x, n) == Up(ns, x, n) { SameUp(ns, ns2, id, x, n); }
  }

  lemma {:induction false} SameUp(ns: Nodes, ns2: Nodes, id: Id, x: Id, n: nat)
    requires !Within(ns, id, x) && forall y | y != id :: Parent(ns, y) == Parent(ns2, y)
    ensures Up(ns2, x, n) == Up(ns, x, n)
    decreases n
  {
    WithinSelf(ns, id);
    WithinStep(ns, id, x);
    if n > 0 && Parent(ns, x).Some? { SameUp(ns, ns2, id, Parent(ns, x).value, n - 1); }
  }

  /** From inside the subtree the walk leaves it through its root. */
  lemma {:induction false} InsideUp(ns: Nodes, ns2: Nodes, id: Id, a: Id, x: Id, n: nat)
    requires forall y | y != id :: Parent(ns, y) == Parent(ns2, y)
    requires Up(ns, x, n) == Some(id) && !Within(ns, id, a)
    ensures Within(ns2, a, x) <==> Within(ns2, a, id)
    decreases n
  {
    if x != id {
      assert Within(ns, id, x);
      InsideUp(ns, ns2, id, a, Parent(ns, x).value, n - 1);
      WithinStep(ns2, a, x);
    }
  }

  /** Inside the subtree nothing changes. */
  lemma {:induction false} InsidePair(ns: Nodes, ns2: Nodes, id: Id, a: Id, x: Id, n: nat)
    requires Acyclic(ns) && Acyclic(ns2) && ns2.Keys == ns.Keys && a in Subtree(ns, id) && id in ns && x in ns
    requires forall y | y != id :: Parent(ns, y) == Parent(ns2, y)
    requires Up(ns, x, n) == Some(id)
    ensures Within(ns2, a, x) <==> Within(ns, a, x)
    decreases n
  {
    if x == a {
      WithinSelf(ns, a);
      WithinSelf(ns2, a);
    } else if x == id {
      SubtreeIgnoresOwnRow(ns, ns2, id);
      RootNotBelow(ns, id, a);
      RootNotBelow(ns2, id, a);
    } else {
      var rank :| Ranked(ns, rank);
      assert RankedAt(ns, rank, x);
      InsidePair(ns, ns2, id, a, Parent(ns, x).value, n - 1);
      WithinStep(ns, a, x);
      WithinStep(ns2, a, x);
    }
  }

  lemma RootNotBelow(ns: Nodes, id: Id, a: Id)
    requires Acyclic(ns) && id in ns && a in StrictBelow(ns, id)
    ensures !Within(ns, a, id)
  {
    var rank :| Ranked(ns, rank);
    WithinRank(ns, rank, id, a);
    if Within(ns, a, id) { WithinRank(ns, rank, a, id); }
  }
}
