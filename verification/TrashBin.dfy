/** When a restore succeeds, when it undoes a trash, and what untrashed nodes can remain inside the trash. */
module TrashBin {
  import opened Basics
  import opened Schema
  import opened Forest
  import opened Tree
  import TreeEdits

  /** No two children of one parent inside the subtree share a name key, whatever their trash flags. */
  ghost predicate DistinctInside(ns: Nodes, id: Id) {
    forall x, y | x in Subtree(ns, id) && y in Subtree(ns, id) && x != id && y != id && x != y
                  && ns[x].parent == ns[y].parent :: ns[x].name.key != ns[y].name.key
  }

  /** Restoring a trashed node succeeds exactly when both hold. */
  lemma RestoreDecided(ns: Nodes, refs: set<Id>, id: Id, found: bool)
    requires TreeInv(ns, refs) && id in ns && ns[id].trashed
    ensures Restore(ns, id, found).Ok? <==>
      SlotFree(ns, id, RestoreTarget(ns, id, found), ns[id].name.key) && DistinctInside(ns, id)
  {
    RestoreIsAllOrNothing(ns, refs, id, found);
    RestoreTargetOutside(ns, refs, id, found);
    var goal := Restored(ns, id, found);
    forall x | x in ns && x != id
      ensures x in Subtree(ns, id) <==> ns[x].parent.Some? && ns[x].parent.value in Subtree(ns, id)
    {
      WithinStep(ns, id, x);
      assert ParentOk(ns, x);
    }
    if UniqueActive(goal) {
      forall y | y in ns && y != id && !ns[y].trashed && ns[y].parent == Some(RestoreTarget(ns, id, found))
        ensures ns[y].name.key != ns[id].name.key
      {
        assert !Clash(goal[id], goal[y]);
      }
      forall x, y | x in Subtree(ns, id) && y in Subtree(ns, id) && x != id && y != id && x != y
                    && ns[x].parent == ns[y].parent
        ensures ns[x].name.key != ns[y].name.key
      {
        assert !Clash(goal[x], goal[y]);
      }
    } else {
      var x, y :| x in goal && y in goal && x != y && Clash(goal[x], goal[y]);
      assert !Clash(ns[x], ns[y]);
    }
  }

  /** Restoring in full: under which folder the node comes, when that succeeds, and what each row is afterwards. */
  lemma RestoreMeans(ns: Nodes, refs: set<Id>, id: Id, found: bool)
    requires TreeInv(ns, refs)
    ensures id in ns && ns[id].trashed ==>
      var to, r := ns[id].restoreTo, Restore(ns, id, found);
      var p := if found && to.Some? && to.value != "" && to.value in ns && ns[to.value].kind == Folder
                  && !ns[to.value].trashed then to.value else ROOT;
      var free := forall y | y in ns && y != id && !ns[y].trashed && ns[y].parent == Some(p) ::
                    ns[y].name.key != ns[id].name.key;
      && (r.Ok? <==> free && forall x, y | x in ns && y in ns && x != id && y != id && x != y && Within(ns, id, x)
                       && Within(ns, id, y) && ns[x].parent == ns[y].parent :: ns[x].name.key != ns[y].name.key)
      && (r.Ok? ==> r.value.Keys == ns.Keys && forall x | x in ns ::
            r.value[x] == if x == id then ns[id].(trashed := false, restoreTo := None, parent := Some(p))
                          else if Within(ns, id, x) then ns[x].(trashed := false) else ns[x])
      && (r.Err? ==> r.error == if !free then AlreadyExists else Internal)
    ensures !(id in ns && ns[id].trashed) ==>
      Restore(ns, id, found) == Err(if id !in ns then NotFound else InvalidOperation)
  {
    if id in ns && ns[id].trashed {
      RestoreDecided(ns, refs, id, found);
      RestoreIsAllOrNothing(ns, refs, id, found);
      if Restore(ns, id, found).Err? { RestoreFails(ns, id, found); }
      hide TreeInv, Restore, Within, UniqueActive;
    }
  }

  /** Which of its two statements fails. */
  lemma RestoreFails(ns: Nodes, id: Id, found: bool)
    requires id in ns && ns[id].trashed && Restore(ns, id, found).Err?
    ensures Restore(ns, id, found).error ==
      if SlotFree(ns, id, RestoreTarget(ns, id, found), ns[id].name.key) then Internal else AlreadyExists
  {
    var p := RestoreTarget(ns, id, found);
    TreeEdits.FitsIff(ns, id, ns[id].(parent := Some(p), trashed := false, restoreTo := None), p);
  }

  ghost predicate WhollyUntrashed(ns: Nodes, id: Id) {
    forall x | x in Subtree(ns, id) :: !ns[x].trashed
  }

  /** Trashing a node and restoring it at once changes nothing but the remembered parent exactly when its
      parent was untrashed and so was its whole subtree. */
  lemma TrashThenRestore(ns: Nodes, refs: set<Id>, id: Id)
    requires TreeInv(ns, refs) && Trash(ns, id).Ok?
    ensures Restore(Trash(ns, id).value, id, true) == Ok(ns[id := ns[id].(restoreTo := None)])
            <==> ns[id].parent.Some? && ActiveFolder(ns, ns[id].parent.value) && WhollyUntrashed(ns, id)
  {
    assert ParentOk(ns, id);
    TrashRelocates(ns, refs, id);
    TrashKeeps(ns, refs, id);
    RestoreIsAllOrNothing(Trash(ns, id).value, refs, id, true);
    if ActiveFolder(ns, ns[id].parent.value) && WhollyUntrashed(ns, id) {
      RoundTrip(ns, Trash(ns, id).value, refs, id);
    }
    if Restore(Trash(ns, id).value, id, true) == Ok(ns[id := ns[id].(restoreTo := None)]) {
      RoundTripOnly(ns, Trash(ns, id).value, refs, id);
    }
  }

  lemma RoundTrip(ns: Nodes, inBin: Nodes, refs: set<Id>, id: Id)
    requires TreeInv(ns, refs) && id in ns && Relocated(ns, inBin, id, TRASH, true)
    requires inBin[id].restoreTo == ns[id].parent && ns[id].parent.Some?
    requires ActiveFolder(ns, ns[id].parent.value) && WhollyUntrashed(ns, id)
    ensures Restored(inBin, id, true) == ns[id := ns[id].(restoreTo := None)] && UniqueActive(Restored(inBin, id, true))
  {
    hide UniqueActive;
    var back := ns[id := ns[id].(restoreTo := None)];
    RestoredRows(ns, inBin, refs, id);
    ParentOutside(ns, id);
    WithinSelf(ns, id);
    assert RestoreTarget(inBin, id, true) == ns[id].parent.value;
    hide TreeInv, ActiveFolder, RestoreTarget;
    forall x | x in ns ensures Restored(inBin, id, true)[x] == back[x] {}
    SameSlots(ns, refs, id);
  }

  /** The remembered parent is no part of the index. */
  lemma SameSlots(ns: Nodes, refs: set<Id>, id: Id)
    requires TreeInv(ns, refs) && id in ns
    ensures UniqueActive(ns[id := ns[id].(restoreTo := None)])
  {
    var back := ns[id := ns[id].(restoreTo := None)];
    forall x, y | x in back && y in back && x != y ensures !Clash(back[x], back[y]) {
      assert !Clash(ns[x], ns[y]);
    }
  }

  lemma RoundTripOnly(ns: Nodes, inBin: Nodes, refs: set<Id>, id: Id)
    requires TreeInv(ns, refs) && id in ns && Relocated(ns, inBin, id, TRASH, true) && TreeInv(inBin, refs)
    requires Restored(inBin, id, true) == ns[id := ns[id].(restoreTo := None)]
    ensures ns[id].parent.Some? && ActiveFolder(ns, ns[id].parent.value) && WhollyUntrashed(ns, id)
  {
    RestoredRows(ns, inBin, refs, id);
    RestoreTargetOutside(inBin, refs, id, true);
    SubtreeIgnoresOwnRow(ns, inBin, id);
    assert RestoreTarget(inBin, id, true) !in Subtree(inBin, id);
    SameTableSameFlags(ns, inBin, id);
  }

  /** If the round trip gave the old rows back, the parent was active and nothing in the subtree was trashed. */
  lemma SameTableSameFlags(ns: Nodes, inBin: Nodes, id: Id)
    requires id in ns && Relocated(ns, inBin, id, TRASH, true) && ActiveFolder(inBin, RestoreTarget(inBin, id, true))
    requires RestoreTarget(inBin, id, true) !in Subtree(ns, id)
    requires forall x | x in ns && x != id ::
      Restored(inBin, id, true)[x] == if x in Subtree(ns, id) then ns[x].(trashed := false) else ns[x]
    requires Restored(inBin, id, true) == ns[id := ns[id].(restoreTo := None)]
    ensures ns[id].parent.Some? && ActiveFolder(ns, ns[id].parent.value) && WhollyUntrashed(ns, id)
  {
    var goal := Restored(inBin, id, true);
    assert goal[id].parent == ns[id].parent && goal[id].trashed == ns[id].trashed;
    WithinSelf(ns, id);
    forall x | x in Subtree(ns, id) ensures !ns[x].trashed {
      if x != id { assert goal[x] == ns[x].(trashed := false) && goal[x] == ns[x]; }
    }
  }

  /** The rows after trashing and restoring: one subtree untrashed, everything else as before. */
  lemma RestoredRows(ns: Nodes, inBin: Nodes, refs: set<Id>, id: Id)
    requires TreeInv(ns, refs) && id in ns && Relocated(ns, inBin, id, TRASH, true)
    ensures forall x | x in ns && x != id ::
      Restored(inBin, id, true)[x] == if x in Subtree(ns, id) then ns[x].(trashed := false) else ns[x]
  {
    SubtreeIgnoresOwnRow(ns, inBin, id);
  }

  lemma ParentOutside(ns: Nodes, id: Id)
    requires Acyclic(ns) && id in ns && ns[id].parent.Some?
    ensures ns[id].parent.value in ns && !Within(ns, id, ns[id].parent.value)
  {
    var rank :| Ranked(ns, rank);
    assert RankedAt(ns, rank, id);
    if Within(ns, id, ns[id].parent.value) {
      WithinRank(ns, rank, id, ns[id].parent.value);
    }
  }
}
