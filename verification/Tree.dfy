/** The tree operations of the files service as functions on the nodes table, and what all of them keep. */
module Tree {
  import opened Basics
  import opened Schema
  import opened Forest

  // ---------------------------------------------------------------- operations

  /** An absent or empty parent argument means ROOT. */
  function TargetOf(arg: Option<Id>): Id {
    if arg.Some? && arg.value != "" then arg.value else ROOT
  }

  predicate ActiveFolder(ns: Nodes, p: Id) {
    p in ns && ns[p].kind == Folder && !ns[p].trashed
  }

  ghost function CreateFolder(ns: Nodes, parent: Option<Id>, name: Option<Name>, id: Id): Result<Nodes, Error> {
    var p := TargetOf(parent);
    if name.None? then Err(InvalidName)
    else if p !in ns then Err(NotFound)
    else if !ActiveFolder(ns, p) then Err(InvalidOperation)
    else InsertNode(ns, id, Node(Some(p), Folder, name.value, false, None, false))
  }

  ghost function Rename(ns: Nodes, id: Id, name: Option<Name>): Result<Nodes, Error> {
    if id !in ns then Err(NotFound)
    else if ns[id].system then Err(SystemProtected)
    else if name.None? then Err(InvalidName)
    else UpdateNode(ns, id, ns[id].(name := name.value))
  }

  ghost function Move(ns: Nodes, id: Id, target: Id): Result<Nodes, Error> {
    if id !in ns then Err(NotFound)
    else if ns[id].system then Err(SystemProtected)
    else if id == target then Err(CycleDetected)
    else if target !in ns then Err(NotFound)
    else if !ActiveFolder(ns, target) then Err(InvalidOperation)
    else if Within(ns, id, target) then Err(CycleDetected)
    else UpdateNode(ns, id, ns[id].(parent := Some(target)))
  }

  /** UPDATE nodes SET trashed_at = ... WHERE id IN S. */
  function SetTrashed(ns: Nodes, S: set<Id>, flag: bool): Nodes {
    map x | x in ns :: if x in S then ns[x].(trashed := flag) else ns[x]
  }

  ghost function Trash(ns: Nodes, id: Id): Result<Nodes, Error> {
    if id !in ns then Err(NotFound)
    else if ns[id].system then Err(SystemProtected)
    else
      var moved := ns[id := ns[id].(trashed := true, restoreTo := ns[id].parent, parent := Some(TRASH))];
      Ok(if ns[id].kind == Folder then SetTrashed(moved, StrictBelow(moved, id), true) else moved)
  }

  /** `found` says whether the read of the remembered parent succeeds; its error is dropped. */
  function RestoreTarget(ns: Nodes, id: Id, found: bool): Id
    requires id in ns
  {
    var to := ns[id].restoreTo;
    if found && to.Some? && to.value != "" && ActiveFolder(ns, to.value) then to.value else ROOT
  }

  ghost function Restore(ns: Nodes, id: Id, found: bool): Result<Nodes, Error> {
    if id !in ns then Err(NotFound)
    else if !ns[id].trashed then Err(InvalidOperation)
    else
      var first := UpdateNode(ns, id,
        ns[id].(parent := Some(RestoreTarget(ns, id, found)), trashed := false, restoreTo := None));
      if first.Err? || ns[id].kind == File then first
      else
        var below := StrictBelow(first.value, id);
        var second := SetTrashed(first.value, below, false);
        if AllFit(second, below) then Ok(second) else Err(Internal)
  }

  ghost predicate AllFit(ns: Nodes, S: set<Id>) {
    forall x | x in S && x in ns :: RowFits(ns, x, ns[x])
  }

  // ---------------------------------------------------------------- invariant

  ghost predicate UniqueActive(ns: Nodes) {
    forall x, y {:trigger Clash(ns[x], ns[y])} | x in ns && y in ns && x != y :: !Clash(ns[x], ns[y])
  }

  /** What holds of the nodes table in every reachable state; `refs` are the parents that upload rows name. */
  ghost predicate TreeInv(ns: Nodes, refs: set<Id>) {
    && "" !in ns
    && ROOT in ns && ns[ROOT] == ROOT_ROW
    && TRASH in ns && ns[TRASH] == TRASH_ROW
    && (forall x {:trigger ParentOk(ns, x)} | x in ns :: ParentOk(ns, x))
    && Acyclic(ns)
    && (forall x {:trigger TrashClosed(ns, refs, x)} | x in ns :: TrashClosed(ns, refs, x))
    && UniqueActive(ns)
    && (forall p | p in refs :: p in ns && ns[p].kind == Folder)
  }

  /** Only the two system folders lack a parent; every parent is an existing folder. */
  ghost predicate ParentOk(ns: Nodes, x: Id)
    requires x in ns
  {
    var p := ns[x].parent;
    (p.Some? ==> p.value in ns && ns[p.value].kind == Folder) &&
    (x != ROOT && x != TRASH ==> p.Some? && !ns[x].system)
  }

  /** Trash flags are downward closed on folders. The only untrashed child of a trashed parent is a file, and
      then some upload names that parent. */
  ghost predicate TrashClosed(ns: Nodes, refs: set<Id>, x: Id)
    requires x in ns
  {
    var p := ns[x].parent;
    p.Some? && p.value in ns && ns[p.value].trashed && !ns[x].trashed ==> ns[x].kind == File && p.value in refs
  }

  lemma InitialTree()
    ensures TreeInv(INITIAL.nodes, {})
  {
    assert Ranked(INITIAL.nodes, map[ROOT := 0, TRASH := 0]);
  }

  /** Every parent chain is finite and ends at ROOT or TRASH_ROOT. */
  lemma ChainEnds(ns: Nodes, refs: set<Id>, x: Id)
    requires TreeInv(ns, refs) && x in ns
    ensures exists n: nat :: Up(ns, x, n) == Some(ROOT) || Up(ns, x, n) == Some(TRASH)
  {
    var rank :| Ranked(ns, rank);
    ChainEndsFrom(ns, refs, rank, x);
  }

  lemma {:induction false} ChainEndsFrom(ns: Nodes, refs: set<Id>, rank: map<Id, nat>, x: Id)
    requires TreeInv(ns, refs) && Ranked(ns, rank) && x in ns
    ensures exists n: nat :: Up(ns, x, n) == Some(ROOT) || Up(ns, x, n) == Some(TRASH)
    decreases rank[x]
  {
    if x == ROOT || x == TRASH {
      WithinSelf(ns, x);
    } else {
      assert ParentOk(ns, x) && RankedAt(ns, rank, x);
      var p := ns[x].parent.value;
      ChainEndsFrom(ns, refs, rank, p);
      var n: nat :| Up(ns, p, n) == Some(ROOT) || Up(ns, p, n) == Some(TRASH);
      assert Up(ns, x, n + 1) == Up(ns, p, n);
    }
  }

  /** Only files can be untrashed below something trashed: every ancestor of an untrashed folder is untrashed. */
  lemma {:induction false} AncestorsOfActiveFolder(ns: Nodes, refs: set<Id>, a: Id, x: Id, n: nat)
    requires TreeInv(ns, refs) && ActiveFolder(ns, x) && Up(ns, x, n) == Some(a)
    ensures a in ns && !ns[a].trashed
    decreases n
  {
    if n > 0 {
      assert ParentOk(ns, x) && TrashClosed(ns, refs, x);
      AncestorsOfActiveFolder(ns, refs, a, ns[x].parent.value, n - 1);
    }
  }

  /** An untrashed node below a trashed one is a file lying directly in a trashed folder that an upload names,
      inside the same subtree. */
  lemma {:induction false} UntrashedBelowTrashed(ns: Nodes, refs: set<Id>, a: Id, x: Id)
    requires TreeInv(ns, refs) && a in ns && ns[a].trashed
    requires x in ns && !ns[x].trashed && Within(ns, a, x)
    ensures ns[x].kind == File && ns[x].parent.Some?
    ensures ns[x].parent.value in refs && ns[x].parent.value in Subtree(ns, a) && ns[ns[x].parent.value].trashed
  {
    WithinStep(ns, a, x);
    assert ParentOk(ns, x);
    var p := ns[x].parent.value;
    var n: nat :| Up(ns, p, n) == Some(a);
    if !ns[p].trashed {
      AncestorsOfActiveFolder(ns, refs, a, p, n);
    }
    assert TrashClosed(ns, refs, x);
  }

  // ---------------------------------------------------------------- every operation keeps the invariant

  lemma FitsKeepsUnique(ns: Nodes, id: Id, row: Node)
    requires UniqueActive(ns) && RowFits(ns, id, row)
    ensures UniqueActive(ns[id := row])
  {
    var ns2 := ns[id := row];
    forall x, y | x in ns2 && y in ns2 && x != y ensures !Clash(ns2[x], ns2[y]) {
      if x == id { assert !Clash(row, ns[y]); }
      else if y == id { assert !Clash(row, ns[x]); }
      else { assert !Clash(ns[x], ns[y]); }
    }
  }

  lemma InsertKeeps(ns: Nodes, refs: set<Id>, id: Id, row: Node)
    requires TreeInv(ns, refs) && id != "" && InsertNode(ns, id, row).Ok? && !row.system
    requires row.parent.Some? && ns[row.parent.value].kind == Folder && row.parent.value in ns
    requires ns[row.parent.value].trashed && !row.trashed ==> row.kind == File && row.parent.value in refs
    ensures TreeInv(ns[id := row], refs)
  {
    var ns2 := ns[id := row];
    InsertAcyclic(ns, id, row);
    FitsKeepsUnique(ns, id, row);
    forall x | x in ns2 ensures ParentOk(ns2, x) && TrashClosed(ns2, refs, x) {
      if x != id { assert ParentOk(ns, x) && TrashClosed(ns, refs, x); }
    }
  }

  lemma CreateFolderKeeps(ns: Nodes, refs: set<Id>, parent: Option<Id>, name: Option<Name>, id: Id)
    requires TreeInv(ns, refs) && id != "" && CreateFolder(ns, parent, name, id).Ok?
    ensures TreeInv(CreateFolder(ns, parent, name, id).value, refs)
  {
    InsertKeeps(ns, refs, id, Node(Some(TargetOf(parent)), Folder, name.value, false, None, false));
  }

  lemma RenameKeeps(ns: Nodes, refs: set<Id>, id: Id, name: Option<Name>)
    requires TreeInv(ns, refs) && Rename(ns, id, name).Ok?
    ensures TreeInv(Rename(ns, id, name).value, refs)
  {
    var ns2 := Rename(ns, id, name).value;
    FitsKeepsUnique(ns, id, ns2[id]);
    forall x | x in ns2 && ns2[x].parent.Some? ensures Parent(ns2, x).value in ns2 { assert ParentOk(ns, x); }
    ShrinkAcyclic(ns, ns2);
    forall x | x in ns2 ensures ParentOk(ns2, x) && TrashClosed(ns2, refs, x) {
      assert ParentOk(ns, x) && TrashClosed(ns, refs, x);
    }
  }

  lemma MoveKeeps(ns: Nodes, refs: set<Id>, id: Id, target: Id)
    requires TreeInv(ns, refs) && Move(ns, id, target).Ok?
    ensures TreeInv(Move(ns, id, target).value, refs)
  {
    var ns2 := Move(ns, id, target).value;
    ReparentAcyclic(ns, ns2, id, target);
    FitsKeepsUnique(ns, id, ns2[id]);
    forall x | x in ns2 ensures ParentOk(ns2, x) && TrashClosed(ns2, refs, x) {
      assert ParentOk(ns, x) && TrashClosed(ns, refs, x);
    }
  }

  /** The system folders lie in no other node's subtree. */
  lemma SystemOutside(ns: Nodes, refs: set<Id>, id: Id)
    requires TreeInv(ns, refs)
    ensures id != ROOT ==> !Within(ns, id, ROOT)
    ensures id != TRASH ==> !Within(ns, id, TRASH)
  {
    if id != ROOT { WithinStep(ns, id, ROOT); }
    if id != TRASH { WithinStep(ns, id, TRASH); }
  }

  /** Nothing lies below a file. */
  lemma {:induction false} FileHasNothingBelow(ns: Nodes, refs: set<Id>, a: Id, x: Id, n: nat)
    requires TreeInv(ns, refs) && a in ns && ns[a].kind == File && x in ns && Up(ns, x, n) == Some(a)
    ensures x == a
    decreases n
  {
    if n > 0 {
      assert ParentOk(ns, x);
      FileHasNothingBelow(ns, refs, a, ns[x].parent.value, n - 1);
    }
  }

  /** `id` hangs under `target` and its whole subtree carries the trash flag `flag`; every other row and every
      other column except restore_parent_id of `id` is as before. */
  ghost predicate Relocated(ns: Nodes, ns2: Nodes, id: Id, target: Id, flag: bool)
    requires id in ns
  {
    && ns2.Keys == ns.Keys
    && (forall x | x in ns2 && x != id :: ns2[x] == if x in Subtree(ns, id) then ns[x].(trashed := flag) else ns[x])
    && ns2[id] == ns[id].(parent := Some(target), trashed := flag, restoreTo := ns2[id].restoreTo)
  }

  lemma TrashRelocates(ns: Nodes, refs: set<Id>, id: Id)
    requires TreeInv(ns, refs) && Trash(ns, id).Ok?
    ensures Relocated(ns, Trash(ns, id).value, id, TRASH, true)
    ensures Trash(ns, id).value[id].restoreTo == ns[id].parent
  {
    var moved := ns[id := ns[id].(trashed := true, restoreTo := ns[id].parent, parent := Some(TRASH))];
    BelowAfterReparent(ns, moved, refs, id);
  }

  lemma BelowAfterReparent(ns: Nodes, moved: Nodes, refs: set<Id>, id: Id)
    requires TreeInv(ns, refs) && id in ns && moved.Keys == ns.Keys
    requires forall y | y in ns && y != id :: moved[y] == ns[y]
    ensures StrictBelow(moved, id) == Subtree(ns, id) - {id}
    ensures ns[id].kind == File ==> Subtree(ns, id) == {id}
  {
    SubtreeIgnoresOwnRow(ns, moved, id);
    WithinSelf(ns, id);
    if ns[id].kind == File {
      forall x | x in Subtree(ns, id) ensures x == id {
        var n: nat :| Up(ns, x, n) == Some(id);
        FileHasNothingBelow(ns, refs, id, x, n);
      }
    }
  }

  /** The common core of trashing and restoring. */
  lemma RelocateKeeps(ns: Nodes, ns2: Nodes, refs: set<Id>, id: Id, target: Id, flag: bool)
    requires TreeInv(ns, refs) && id in ns && id != ROOT && id != TRASH
    requires ActiveFolder(ns, target) && !Within(ns, id, target)
    requires Relocated(ns, ns2, id, target, flag) && UniqueActive(ns2)
    ensures TreeInv(ns2, refs)
  {
    SystemOutside(ns, refs, id);
    ReparentAcyclic(ns, ns2, id, target);
    WithinSelf(ns, id);
    forall x | x in ns2 ensures ParentOk(ns2, x) && TrashClosed(ns2, refs, x) {
      assert ParentOk(ns, x) && TrashClosed(ns, refs, x);
      if x != id { WithinStep(ns, id, x); }
    }
  }

  lemma TrashKeeps(ns: Nodes, refs: set<Id>, id: Id)
    requires TreeInv(ns, refs) && Trash(ns, id).Ok?
    ensures TreeInv(Trash(ns, id).value, refs)
  {
    TrashRelocates(ns, refs, id);
    SystemOutside(ns, refs, id);
    RelocateKeeps(ns, Trash(ns, id).value, refs, id, TRASH, true);
  }

  /** Why restoring needs no cycle check: the chosen target is an untrashed folder, and those never lie below
      anything trashed. */
  lemma RestoreTargetOutside(ns: Nodes, refs: set<Id>, id: Id, found: bool)
    requires TreeInv(ns, refs) && id in ns && ns[id].trashed
    ensures ActiveFolder(ns, RestoreTarget(ns, id, found)) && !Within(ns, id, RestoreTarget(ns, id, found))
  {
    var target := RestoreTarget(ns, id, found);
    if Within(ns, id, target) {
      var n: nat :| Up(ns, target, n) == Some(id);
      AncestorsOfActiveFolder(ns, refs, id, target, n);
    }
  }

  /** The table that restoring `id` aims at. */
  ghost function Restored(ns: Nodes, id: Id, found: bool): Nodes
    requires id in ns
  {
    map x | x in ns ::
      if x == id then ns[id].(parent := Some(RestoreTarget(ns, id, found)), trashed := false, restoreTo := None)
      else if x in Subtree(ns, id) then ns[x].(trashed := false) else ns[x]
  }

  /** The active siblings at the restore target are none of the rows being restored. */
  lemma RestoreSiblings(ns: Nodes, refs: set<Id>, id: Id, found: bool)
    requires TreeInv(ns, refs) && id in ns && ns[id].trashed
    ensures RowFits(ns, id, Restored(ns, id, found)[id]) <==>
      RowFits(Restored(ns, id, found), id, Restored(ns, id, found)[id])
  {
    RestoreTargetOutside(ns, refs, id, found);
    var goal := Restored(ns, id, found);
    forall y | y in ns && y != id ensures Clash(goal[id], ns[y]) <==> Clash(goal[id], goal[y]) {
      if ns[y].parent == goal[id].parent { WithinStep(ns, id, y); }
    }
  }

  /** Only a pair with a restored row can break the index. */
  lemma RestoredUnique(ns: Nodes, refs: set<Id>, id: Id, found: bool)
    requires TreeInv(ns, refs) && id in ns && ns[id].trashed
    ensures UniqueActive(Restored(ns, id, found)) <==> AllFit(Restored(ns, id, found), Subtree(ns, id))
  {
    WithinSelf(ns, id);
    var goal := Restored(ns, id, found);
    forall x, y | x in goal && y in goal && x != y && Clash(goal[x], goal[y])
      ensures x in Subtree(ns, id) || y in Subtree(ns, id)
    {
      assert !Clash(ns[x], ns[y]);
    }
    if AllFit(goal, Subtree(ns, id)) {
      forall x, y | x in goal && y in goal && x != y ensures !Clash(goal[x], goal[y]) {
        assert !Clash(ns[x], ns[y]);
        if x in Subtree(ns, id) { assert RowFits(goal, x, goal[x]) && !Clash(goal[x], goal[y]); }
        if y in Subtree(ns, id) { assert RowFits(goal, y, goal[y]) && !Clash(goal[y], goal[x]); }
      }
    }
  }

  /** The two guarded statements of a restore reach that table or fail, and they fail exactly when the table
      would break the active-sibling index. */
  lemma RestoreIsAllOrNothing(ns: Nodes, refs: set<Id>, id: Id, found: bool)
    requires TreeInv(ns, refs) && id in ns && ns[id].trashed
    ensures Restore(ns, id, found).Ok? <==> UniqueActive(Restored(ns, id, found))
    ensures Restore(ns, id, found).Ok? ==> Restore(ns, id, found).value == Restored(ns, id, found)
  {
    var first := ns[id := Restored(ns, id, found)[id]];
    BelowAfterReparent(ns, first, refs, id);
    WithinSelf(ns, id);
    RestoreSiblings(ns, refs, id, found);
    RestoredUnique(ns, refs, id, found);
    var goal, below := Restored(ns, id, found), StrictBelow(first, id);
    assert below == Subtree(ns, id) - {id};
    assert AllFit(goal, Subtree(ns, id)) <==> RowFits(goal, id, goal[id]) && AllFit(goal, below);
    if ns[id].kind == File {
      assert first == goal;
    } else {
      assert SetTrashed(first, below, false) == goal;
    }
  }

  lemma RestorableTrashed(ns: Nodes, id: Id, found: bool)
    requires Restore(ns, id, found).Ok?
    ensures id in ns && ns[id].trashed
  {
  }

  lemma RestoreKeeps(ns: Nodes, refs: set<Id>, id: Id, found: bool)
    requires TreeInv(ns, refs) && Restore(ns, id, found).Ok?
    ensures TreeInv(Restore(ns, id, found).value, refs)
  {
    RestoreIsAllOrNothing(ns, refs, id, found);
    RestoreTargetOutside(ns, refs, id, found);
    RelocateKeeps(ns, Restored(ns, id, found), refs, id, RestoreTarget(ns, id, found), false);
  }
}
