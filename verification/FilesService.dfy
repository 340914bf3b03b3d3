/** The files service over mutable tables. Each method is proved against the function of the same name on
    values, and keeps the whole schema invariant. */
module FilesService {
  import opened Basics
  import opened Schema
  import opened Forest
  import opened Tree
  import opened TreeEdits
  import opened TrashBin
  import opened Purge
  import opened Db
  import opened Paging

  /** SELECT id FROM nodes WHERE parent_id = p. */
  method ChildrenOf(ns: Nodes, p: Id) returns (rows: seq<Id>)
    ensures Enumerates(rows, set x | x in ns && ns[x].parent == Some(p))
  {
    rows := [];
    var left := ns.Keys;
    while left != {}
      invariant left <= ns.Keys && NoDup(rows)
      invariant forall x :: x in rows <==> x in ns && x !in left && ns[x].parent == Some(p)
      decreases |left|
    {
      var x :| x in left;
      if ns[x].parent == Some(p) {
        rows := rows + [x];
      }
      left := left - {x};
    }
  }

  /** The recursive common table expression: the children of `a`, then the children of every row already in the
      result. UNION ALL keeps duplicates, so that there are none, and that it ends, is because the table is a
      forest; the rows are exactly the nodes strictly below `a`. */
  method Subnodes(ns: Nodes, a: Id) returns (rows: seq<Id>)
    requires Acyclic(ns)
    ensures Enumerates(rows, StrictBelow(ns, a))
  {
    ghost var rank :| Ranked(ns, rank);
    rows := ChildrenOf(ns, a);
    FirstLayer(ns, rank, a, rows);
    var i := 0;
    while i < |rows|
      invariant 0 <= i <= |rows| && Layered(ns, a, rows, i)
      decreases |ns| - i
    {
      RowsFit(ns, rows, a);
      var more := ChildrenOf(ns, rows[i]);
      NextLayer(ns, rank, a, rows, i, more);
      rows := rows + more;
      i := i + 1;
    }
    LayersComplete(ns, a, rows);
  }

  /** The result so far: distinct rows strictly below `a`, holding the children of `a` and of its first `i` rows,
      and nothing else. */
  ghost predicate Layered(ns: Nodes, a: Id, rows: seq<Id>, i: nat)
    requires i <= |rows|
  {
    && NoDup(rows)
    && (forall x | x in rows :: x in StrictBelow(ns, a))
    && (forall x | x in rows :: Parent(ns, x).Some? && (Parent(ns, x).value == a || Parent(ns, x).value in rows[..i]))
    && (forall x | x in ns && Parent(ns, x).Some? && (Parent(ns, x).value == a || Parent(ns, x).value in rows[..i]) ::
      x in rows)
  }

  lemma FirstLayer(ns: Nodes, rank: map<Id, nat>, a: Id, rows: seq<Id>)
    requires Ranked(ns, rank) && Enumerates(rows, set x | x in ns && ns[x].parent == Some(a))
    ensures Layered(ns, a, rows, 0)
  {
    forall x | x in rows ensures x in StrictBelow(ns, a) {
      ChildStrictlyBelow(ns, rank, a, a, x);
    }
  }

  lemma NextLayer(ns: Nodes, rank: map<Id, nat>, a: Id, rows: seq<Id>, i: nat, more: seq<Id>)
    requires Ranked(ns, rank) && i < |rows| && Layered(ns, a, rows, i)
    requires Enumerates(more, set x | x in ns && ns[x].parent == Some(rows[i]))
    ensures Layered(ns, a, rows + more, i + 1)
  {
    assert rows[i] in rows;
    forall x | x in more ensures x !in rows && x in StrictBelow(ns, a) {
      ChildStrictlyBelow(ns, rank, a, rows[i], x);
      assert rows[i] !in rows[..i];
    }
    NoDupConcat(rows, more);
    assert (rows + more)[..i + 1] == rows[..i] + [rows[i]];
  }

  lemma LayersComplete(ns: Nodes, a: Id, rows: seq<Id>)
    requires Layered(ns, a, rows, |rows|)
    ensures Enumerates(rows, StrictBelow(ns, a))
  {
    assert rows[..|rows|] == rows;
    forall x | x in StrictBelow(ns, a) ensures x in rows {
      var n: nat :| Up(ns, x, n) == Some(a);
      ClosedHoldsSubtree(ns, Elems(rows) + {a}, a, x, n);
    }
  }

  lemma RowsFit(ns: Nodes, rows: seq<Id>, a: Id)
    requires NoDup(rows) && forall x | x in rows :: x in StrictBelow(ns, a)
    ensures |rows| <= |ns|
  {
    assert Elems(rows) <= ns.Keys;
    NoDupSize(rows, ns.Keys);
  }

  /** The cycle check of MoveNode: walk up from `start` until the chain ends or meets `id`. It ends because
      ranks fall, and it meets `id` exactly when `start` lies in the subtree of `id`. */
  method WalkMeets(ns: Nodes, id: Id, start: Id) returns (met: bool)
    requires Acyclic(ns) && start in ns && "" !in ns
    ensures met <==> Within(ns, id, start)
  {
    ghost var rank :| Ranked(ns, rank);
    var curr := start;
    while true
      invariant curr in ns && (Within(ns, id, start) <==> Within(ns, id, curr))
      decreases if curr in rank then rank[curr] else 0
    {
      if curr == id {
        WithinSelf(ns, id);
        return true;
      }
      WithinStep(ns, id, curr);
      assert RankedAt(ns, rank, curr);
      var p := ns[curr].parent;
      if p.None? || p.value == "" { break; }
      curr := p.value;
    }
    met := false;
  }

  /** UPDATE nodes SET trashed_at = now over the listed rows. */
  method MarkTrashed(ns: Nodes, rows: seq<Id>) returns (tx: Nodes)
    requires forall x | x in rows :: x in ns
    ensures tx == SetTrashed(ns, Elems(rows), true)
  {
    tx := ns;
    for i := 0 to |rows|
      invariant tx == SetTrashed(ns, Elems(rows[..i]), true)
    {
      assert Elems(rows[..i + 1]) == Elems(rows[..i]) + {rows[i]} by { assert rows[..i + 1] == rows[..i] + [rows[i]]; }
      tx := tx[rows[i] := tx[rows[i]].(trashed := true)];
    }
    assert rows[..|rows|] == rows;
  }

  lemma ChildStrictlyBelow(ns: Nodes, rank: map<Id, nat>, a: Id, p: Id, x: Id)
    requires Ranked(ns, rank) && x in ns && ns[x].parent == Some(p)
    requires p == a || p in StrictBelow(ns, a)
    ensures x in StrictBelow(ns, a)
  {
    assert RankedAt(ns, rank, x);
    WithinSelf(ns, a);
    WithinRank(ns, rank, a, p);
    assert x != a;
    WithinStep(ns, a, x);
  }

  /** A row of a listing: the node left-joined with its file object. */
  datatype Row = Row(id: Id, node: Node, file: Option<FileObject>)

  function Places(rows: seq<Row>): seq<Place> {
    seq(|rows|, i requires 0 <= i < |rows| => Place(rows[i].node.name.key, rows[i].id))
  }

  class Service {
    const db: Database

    constructor (db: Database)
      ensures this.db == db
    {
      this.db := db;
    }

    method GetNode(id: Id) returns (r: Result<Node, Error>)
      ensures r == if id in db.nodes then Ok(db.nodes[id]) else Err(NotFound)
    {
      r := if id in db.nodes then Ok(db.nodes[id]) else Err(NotFound);
    }

    method CreateFolder(parent: Option<Id>, name: Option<Name>, id: Id) returns (r: Result<Node, Error>)
      requires db.Valid() && id != ""
      modifies db`nodes
      ensures db.Valid()
      ensures match Tree.CreateFolder(old(db.nodes), parent, name, id)
        case Ok(ns) => db.nodes == ns && r == Ok(ns[id])
        case Err(e) => db.nodes == old(db.nodes) && r == Err(e)
      ensures var p := if parent.Some? && parent.value != "" then parent.value else ROOT;
        && (r.Ok? <==>
              && name.Some? && p in old(db.nodes) && old(db.nodes)[p].kind == Folder && !old(db.nodes)[p].trashed
              && id !in old(db.nodes)
              && forall y | y in old(db.nodes) && !old(db.nodes)[y].trashed && old(db.nodes)[y].parent == Some(p) ::
                   old(db.nodes)[y].name.key != name.value.key)
        && (r.Ok? ==>
              r.value == Node(Some(p), Folder, name.value, false, None, false)
                && db.nodes == old(db.nodes)[id := r.value])
        && (r.Err? ==> r.error == if name.None? then InvalidName else if p !in old(db.nodes) then NotFound
                                  else if old(db.nodes)[p].kind == File || old(db.nodes)[p].trashed
                                    then InvalidOperation
                                  else AlreadyExists)
    {
      CreateFolderDecided(db.nodes, UploadParents(db.uploads), parent, name, id);
      if name.None? { return Err(InvalidName); }
      var target := TargetOf(parent);
      var p := GetNode(target);
      if p.Err? { return Err(p.error); }
      if p.value.kind != Folder || p.value.trashed { return Err(InvalidOperation); }
      var inserted := InsertNode(db.nodes, id, Node(Some(target), Folder, name.value, false, None, false));
      if inserted.Err? { return Err(inserted.error); }
      CreateFolderKeepsTables(db.Contents(), parent, name, id);
      db.nodes := inserted.value;
      r := GetNode(id);
    }

    /** The rows of the page, each joined with its file object, and the cursor of the next page. `normalized` is what
        NormalizeName makes of the search text, if it accepts it. */
    method ListNodes(parent: Option<Id>, cursor: Option<Place>, limit: int, search: string, normalized: Option<Name>,
                     like: (string, string) -> bool) returns (rows: seq<Row>, next: Option<Place>)
      ensures IsPage(Leading(db.nodes, search), Listed(db.nodes, parent, search, normalized, like),
                     From(cursor), PageSize(limit), Page(Places(rows), next))
      ensures forall i | 0 <= i < |rows| :: rows[i].id in db.nodes && rows[i].node == db.nodes[rows[i].id]
                && rows[i].file == if rows[i].id in db.files then Some(db.files[rows[i].id]) else None
      ensures var c := if cursor.Some? then cursor.value else Place("", "");
        var p := if parent.Some? && parent.value != "" then parent.value else ROOT;
        var pattern := "%" + (if normalized.Some? then normalized.value.key else search) + "%";
        var size := if 0 < limit <= 200 then limit else 50;
        var all := set x | x in db.nodes && !db.nodes[x].trashed && !db.nodes[x].system
          && (if search == "" then db.nodes[x].parent == Some(p) else like(pattern, db.nodes[x].name.key))
          && (Less(c.key, db.nodes[x].name.key) || (c.key == db.nodes[x].name.key && Less(c.id, x)));
        && |rows| <= size && (forall i | 0 <= i < |rows| :: rows[i].id in all)
        && (forall i, j | 0 <= i < j < |rows| :: var m, n := rows[i].node, rows[j].node;
              if search == "" && m.kind != n.kind then m.kind == Folder
              else Less(m.name.key, n.name.key) || (m.name.key == n.name.key && Less(rows[i].id, rows[j].id)))
        && (next.None? ==> forall x | x in all :: exists i :: 0 <= i < |rows| && rows[i].id == x)
        && (next.Some? ==>
              var last := rows[|rows| - 1];
              && |rows| == size && next.value == Place(last.node.name.key, last.id)
              && (exists x :: x in all && forall i | 0 <= i < |rows| :: rows[i].id != x)
              && forall x | x in all && (forall i | 0 <= i < |rows| :: rows[i].id != x) :: var n := db.nodes[x];
                   if search == "" && last.node.kind != n.kind then last.node.kind == Folder
                   else Less(last.node.name.key, n.name.key) || (last.node.name.key == n.name.key && Less(last.id, x)))
    {
      hide IsPage, Less, Leading, Listed;
      rows, next := PageOf(parent, cursor, limit, search, normalized, like);
      RowsArePage(db.nodes, parent, From(cursor), PageSize(limit), search, normalized, like, rows, next);
    }

    method PageOf(parent: Option<Id>, cursor: Option<Place>, limit: int, search: string, normalized: Option<Name>,
                  like: (string, string) -> bool) returns (rows: seq<Row>, next: Option<Place>)
      ensures IsPage(Leading(db.nodes, search), Listed(db.nodes, parent, search, normalized, like),
                     From(cursor), PageSize(limit), Page(Places(rows), next))
      ensures forall i | 0 <= i < |rows| :: rows[i].id in db.nodes && rows[i].node == db.nodes[rows[i].id]
                && rows[i].file == if rows[i].id in db.files then Some(db.files[rows[i].id]) else None
    {
      var page := CutPage(Leading(db.nodes, search), Listed(db.nodes, parent, search, normalized, like), cursor, limit);
      rows, next := [], page.next;
      for i := 0 to |page.items|
        invariant Places(rows) == page.items[..i]
        invariant forall j | 0 <= j < |rows| :: rows[j].id in db.nodes && rows[j].node == db.nodes[rows[j].id]
                    && rows[j].file == if rows[j].id in db.files then Some(db.files[rows[j].id]) else None
      {
        var id := page.items[i].id;
        assert page.items[i] in page.items;
        var row := Row(id, db.nodes[id], if id in db.files then Some(db.files[id]) else None);
        assert Places(rows + [row]) == Places(rows) + [page.items[i]];
        rows := rows + [row];
      }
      assert page.items[..|page.items|] == page.items;
    }

    method RenameNode(id: Id, name: Option<Name>) returns (r: Result<Node, Error>)
      requires db.Valid()
      modifies db`nodes
      ensures db.Valid()
      ensures match Rename(old(db.nodes), id, name)
        case Ok(ns) => db.nodes == ns && r == Ok(ns[id])
        case Err(e) => db.nodes == old(db.nodes) && r == Err(e)
      ensures r.Ok? <==>
        && id in old(db.nodes) && !old(db.nodes)[id].system && name.Some?
        && (old(db.nodes)[id].trashed || forall y | y in old(db.nodes) && y != id && !old(db.nodes)[y].trashed
              && old(db.nodes)[y].parent == old(db.nodes)[id].parent :: old(db.nodes)[y].name.key != name.value.key)
      ensures r.Ok? ==>
        r.value == old(db.nodes)[id].(name := name.value) && db.nodes == old(db.nodes)[id := r.value]
      ensures r.Err? ==> r.error == if id !in old(db.nodes) then NotFound
                                    else if old(db.nodes)[id].system then SystemProtected
                                    else if name.None? then InvalidName else AlreadyExists
    {
      RenameDecided(db.nodes, UploadParents(db.uploads), id, name);
      var node := GetNode(id);
      if node.Err? { return Err(node.error); }
      if node.value.system { return Err(SystemProtected); }
      if name.None? { return Err(InvalidName); }
      var updated := UpdateNode(db.nodes, id, db.nodes[id].(name := name.value));
      if updated.Err? { return Err(updated.error); }
      RenameKeepsTables(db.Contents(), id, name);
      db.nodes := updated.value;
      r := GetNode(id);
    }

    method MoveNode(id: Id, newParent: Id) returns (r: Result<Node, Error>)
      requires db.Valid()
      modifies db`nodes
      ensures db.Valid()
      ensures match Move(old(db.nodes), id, newParent)
        case Ok(ns) => db.nodes == ns && r == Ok(ns[id])
        case Err(e) => db.nodes == old(db.nodes) && r == Err(e)
      ensures r.Ok? <==>
        && id in old(db.nodes) && !old(db.nodes)[id].system
        && newParent in old(db.nodes) && old(db.nodes)[newParent].kind == Folder && !old(db.nodes)[newParent].trashed
        && !Within(old(db.nodes), id, newParent)
        && (old(db.nodes)[id].trashed || forall y | y in old(db.nodes) && y != id && !old(db.nodes)[y].trashed
              && old(db.nodes)[y].parent == Some(newParent) :: old(db.nodes)[y].name.key != old(db.nodes)[id].name.key)
      ensures r.Ok? ==>
        r.value == old(db.nodes)[id].(parent := Some(newParent)) && db.nodes == old(db.nodes)[id := r.value]
      ensures r.Err? ==> r.error == if id !in old(db.nodes) then NotFound
                                    else if old(db.nodes)[id].system then SystemProtected
                                    else if id == newParent then CycleDetected
                                    else if newParent !in old(db.nodes) then NotFound
                                    else if old(db.nodes)[newParent].kind == File || old(db.nodes)[newParent].trashed
                                    then InvalidOperation
                                    else if Within(old(db.nodes), id, newParent) then CycleDetected else AlreadyExists
    {
      MoveDecided(db.nodes, UploadParents(db.uploads), id, newParent);
      var node := GetNode(id);
      if node.Err? { return Err(node.error); }
      if node.value.system { return Err(SystemProtected); }
      if id == newParent { return Err(CycleDetected); }
      var target := GetNode(newParent);
      if target.Err? { return Err(target.error); }
      if target.value.kind != Folder || target.value.trashed { return Err(InvalidOperation); }

      var met := WalkMeets(db.nodes, id, newParent);
      if met { return Err(CycleDetected); }
      var updated := UpdateNode(db.nodes, id, db.nodes[id].(parent := Some(newParent)));
      if updated.Err? { return Err(updated.error); }
      MoveKeepsTables(db.Contents(), id, newParent);
      db.nodes := updated.value;
      r := GetNode(id);
    }

    method TrashNode(id: Id) returns (r: Result<(), Error>)
      requires db.Valid()
      modifies db`nodes
      ensures db.Valid()
      ensures match Trash(old(db.nodes), id)
        case Ok(ns) => db.nodes == ns && r == Ok(())
        case Err(e) => db.nodes == old(db.nodes) && r == Err(e)
      ensures r.Ok? <==> id in old(db.nodes) && !old(db.nodes)[id].system
      ensures r.Ok? ==> db.nodes.Keys == old(db.nodes).Keys && forall x | x in db.nodes :: var n := old(db.nodes)[x];
        db.nodes[x] == if x == id then n.(trashed := true, restoreTo := n.parent, parent := Some(TRASH))
                       else if Within(old(db.nodes), id, x) then n.(trashed := true) else n
      ensures r.Err? ==> r.error == if id !in old(db.nodes) then NotFound else SystemProtected
    {
      if Trash(db.nodes, id).Ok? { TrashRelocates(db.nodes, UploadParents(db.uploads), id); }
      var node := GetNode(id);
      if node.Err? { return Err(node.error); }
      if node.value.system { return Err(SystemProtected); }
      TrashKeepsTables(db.Contents(), id);
      TrashedForest(db.nodes, UploadParents(db.uploads), id);
      var moved := db.nodes[id := node.value.(trashed := true, restoreTo := node.value.parent, parent := Some(TRASH))];
      var tx := moved;
      if node.value.kind == Folder {
        var rows := Subnodes(moved, id);
        tx := MarkTrashed(moved, rows);
        assert Elems(rows) == StrictBelow(moved, id);
      }
      db.nodes := tx;
      r := Ok(());
    }

    method RestoreNode(id: Id, found: bool) returns (r: Result<Node, Error>)
      requires db.Valid()
      modifies db`nodes
      ensures db.Valid()
      ensures match Restore(old(db.nodes), id, found)
        case Ok(ns) => db.nodes == ns && r == Ok(ns[id])
        case Err(e) => db.nodes == old(db.nodes) && r == Err(e)
      ensures id in old(db.nodes) && old(db.nodes)[id].trashed ==>
        var ns, to := old(db.nodes), old(db.nodes)[id].restoreTo;
        var p := if found && to.Some? && to.value != "" && to.value in ns && ns[to.value].kind == Folder
                    && !ns[to.value].trashed then to.value else ROOT;
        var free := forall y | y in ns && y != id && !ns[y].trashed && ns[y].parent == Some(p) ::
                      ns[y].name.key != ns[id].name.key;
        && (r.Ok? <==> free && forall x, y | x in ns && y in ns && x != id && y != id && x != y && Within(ns, id, x)
                         && Within(ns, id, y) && ns[x].parent == ns[y].parent :: ns[x].name.key != ns[y].name.key)
        && (r.Ok? ==> db.nodes.Keys == ns.Keys && r.value == db.nodes[id] && forall x | x in ns ::
              db.nodes[x] == if x == id then ns[id].(trashed := false, restoreTo := None, parent := Some(p))
                             else if Within(ns, id, x) then ns[x].(trashed := false) else ns[x])
        && (r.Err? ==> r.error == if !free then AlreadyExists else Internal)
      ensures !(id in old(db.nodes) && old(db.nodes)[id].trashed) ==>
        r == Err(if id !in old(db.nodes) then NotFound else InvalidOperation)
    {
      hide TablesInv, Restore, Within;
      TreeOf(db.Contents());
      RestoreMeans(db.nodes, UploadParents(db.uploads), id, found);
      r := RestoreRows(id, found);
    }

    method RestoreRows(id: Id, found: bool) returns (r: Result<Node, Error>)
      requires db.Valid()
      modifies db`nodes
      ensures db.Valid()
      ensures match Restore(old(db.nodes), id, found)
        case Ok(ns) => db.nodes == ns && r == Ok(ns[id])
        case Err(e) => db.nodes == old(db.nodes) && r == Err(e)
    {
      hide Acyclic, RefsSound, UniqueActive;
      var node := GetNode(id);
      if node.Err? { return Err(node.error); }
      if !node.value.trashed { return Err(InvalidOperation); }
      var target := ROOT;
      if node.value.restoreTo.Some? && node.value.restoreTo.value != "" {
        var p := GetNode(node.value.restoreTo.value);
        if found && p.Ok? && !p.value.trashed && p.value.kind == Folder { target := node.value.restoreTo.value; }
      }
      var first := UpdateNode(db.nodes, id, node.value.(parent := Some(target), trashed := false, restoreTo := None));
      if first.Err? { return Err(first.error); }
      var tx := first.value;
      if node.value.kind == Folder {
        RestoredForest(db.nodes, UploadParents(db.uploads), id, found);
        var rows := Subnodes(first.value, id);
        var ok;
        tx, ok := ClearTrashed(first.value, rows);
        assert Elems(rows) == StrictBelow(first.value, id);
        if !ok { return Err(Internal); }
      }
      RestoreKeepsTables(db.Contents(), id, found);
      db.nodes := tx;
      r := GetNode(id);
    }

    /** UPDATE nodes SET trashed_at = NULL over the listed rows, the unique index checked row by row: it fails
        exactly when the finished update would break the index, in whatever order the rows come. */
    method ClearTrashed(ns: Nodes, rows: seq<Id>) returns (tx: Nodes, ok: bool)
      requires forall x | x in rows :: x in ns
      ensures ok <==> AllFit(SetTrashed(ns, Elems(rows), false), Elems(rows))
      ensures ok ==> tx == SetTrashed(ns, Elems(rows), false)
    {
      tx, ok := ns, true;
      ghost var goal := SetTrashed(ns, Elems(rows), false);
      for i := 0 to |rows|
        invariant ok && tx == SetTrashed(ns, Elems(rows[..i]), false)
        invariant AllFit(tx, Elems(rows[..i]))
      {
        var x := rows[i];
        assert Elems(rows[..i + 1]) == Elems(rows[..i]) + {x} by { assert rows[..i + 1] == rows[..i] + [x]; }
        var updated := UpdateNode(tx, x, tx[x].(trashed := false));
        if updated.Err? {
          var y :| y in tx && y != x && Clash(tx[x].(trashed := false), tx[y]);
          assert goal[x] == tx[x].(trashed := false) && Clash(goal[x], goal[y]) && x in Elems(rows);
          return tx, false;
        }
        ghost var before := tx;
        tx := updated.value;
        forall z | z in Elems(rows[..i + 1]) ensures RowFits(tx, z, tx[z]) {
          if z != x {
            assert RowFits(before, z, before[z]);
            forall y | y in tx && y != z ensures !Clash(tx[z], tx[y]) {
              assert y != x ==> !Clash(before[z], before[y]);
              assert y == x ==> !Clash(tx[x], before[z]);
            }
          }
        }
      }
      assert rows[..|rows|] == rows;
    }

    /** `order` is the order in which the engine visits the rows of the subtree, `unread` the keys whose rows a failing
        query does not deliver: that error is dropped. */
    method PurgeNode(id: Id, order: seq<Id>, unread: set<Key>)
        returns (r: Result<seq<Key>, Error>, ghost dead: seq<Key>)
      requires db.Valid()
      requires id in db.nodes ==> Enumerates(order, Subtree(db.nodes, id))
      modifies db
      ensures db.Valid()
      ensures match Purge.PurgeNode(old(db.Contents()), id, order)
        case Ok(t) => db.Contents() == t && Enumerates(dead, SubtreeKeys(old(db.Contents()), id))
                      && r.Ok? && Enumerates(r.value, SubtreeKeys(old(db.Contents()), id) - unread)
        case Err(e) => db.Contents() == old(db.Contents()) && r == Err(e)
      ensures r.Ok? <==>
        && id in old(db.nodes) && !old(db.nodes)[id].system && old(db.nodes)[id].trashed
        && (forall u | u in old(db.uploads) :: !Within(old(db.nodes), id, old(db.uploads)[u].parent))
        && forall i, j | 0 <= i < |order| && 0 <= j < |order| && order[j] in old(db.nodes)
             && old(db.nodes)[order[j]].parent == Some(order[i]) :: j < i
      ensures r.Ok? ==>
        && db.uploads == old(db.uploads)
        && (forall x :: x in db.nodes <==> x in old(db.nodes) && !Within(old(db.nodes), id, x))
        && (forall x | x in db.nodes :: db.nodes[x] == old(db.nodes)[x])
        && (forall x :: x in db.files <==> x in old(db.files) && !Within(old(db.nodes), id, x))
        && (forall x | x in db.files :: db.files[x] == old(db.files)[x])
        && (forall h :: h in db.shares <==> h in old(db.shares) && !Within(old(db.nodes), id, old(db.shares)[h].target))
        && (forall h | h in db.shares :: db.shares[h] == old(db.shares)[h])
      ensures r.Ok? ==> NoDup(r.value) && forall k :: k in r.value <==>
        k !in unread && exists x ::
          x in old(db.files) && Within(old(db.nodes), id, x) && old(db.files)[x].storageKey == k
      ensures r.Err? ==> r.error == if id !in old(db.nodes) then NotFound
                                    else if old(db.nodes)[id].system then SystemProtected
                                    else if !old(db.nodes)[id].trashed then InvalidOperation else Internal
    {
      if id in db.nodes && !db.nodes[id].system && db.nodes[id].trashed { PurgeDecided(db.Contents(), id, order); }
      var node := GetNode(id);
      if node.Err? { return Err(node.error), []; }
      if node.value.system { return Err(SystemProtected), []; }
      if !node.value.trashed { return Err(InvalidOperation), []; }
      var keys;
      keys, dead := StorageKeys(id, unread);
      var t := db.Contents();
      for i := 0 to |order|
        invariant db.Contents() == old(db.Contents())
        invariant DeleteNodes(t, order[i..]) == DeleteNodes(db.Contents(), order)
      {
        assert order[i..][0] == order[i] && order[i..][1..] == order[i + 1..];
        var deleted := DeleteNode(t, order[i]);
        if deleted.Err? { return Err(deleted.error), dead; }
        t := deleted.value;
      }
      PurgeKeeps(db.Contents(), id, order);
      db.Commit(t);
      r := Ok(keys);
    }

    /** The join of file_objects with the subtree, row by row. */
    method StorageKeys(id: Id, unread: set<Key>) returns (keys: seq<Key>, ghost dead: seq<Key>)
      requires db.Valid() && id in db.nodes
      ensures Enumerates(dead, SubtreeKeys(db.Contents(), id))
      ensures Enumerates(keys, SubtreeKeys(db.Contents(), id) - unread)
      ensures NoDup(keys) && forall k :: k in keys <==>
        k !in unread && exists x :: x in db.files && Within(db.nodes, id, x) && db.files[x].storageKey == k
    {
      var below := Subnodes(db.nodes, id);
      var rows := [id] + below;
      WithinSelf(db.nodes, id);
      NoDupConcat([id], below);
      assert Enumerates(rows, Subtree(db.nodes, id));
      keys, dead := [], [];
      for i := 0 to |rows|
        invariant NoDup(dead) && NoDup(keys) && forall k :: k in keys <==> k in dead && k !in unread
        invariant forall k :: k in dead <==> exists j :: 0 <= j < i && KeyOfRow(db.files, rows[j], k)
      {
        if rows[i] in db.files {
          assert forall j | 0 <= j < i && rows[j] in db.files :: !SameKey(db.files[rows[j]], db.files[rows[i]]);
          assert KeyOfRow(db.files, rows[i], db.files[rows[i]].storageKey);
          var key := db.files[rows[i]].storageKey;
          NoDupConcat(dead, [key]);
          dead := dead + [key];
          if key !in unread {
            NoDupConcat(keys, [key]);
            keys := keys + [key];
          }
        }
      }
      forall k ensures k in dead <==> k in SubtreeKeys(db.Contents(), id) {
        if k in SubtreeKeys(db.Contents(), id) {
          var x :| x in db.files && x in Subtree(db.nodes, id) && db.files[x].storageKey == k;
          assert x in rows;
          var j :| 0 <= j < |rows| && rows[j] == x;
          assert KeyOfRow(db.files, rows[j], k);
        }
        if k in dead {
          var j :| 0 <= j < |rows| && KeyOfRow(db.files, rows[j], k);
          assert rows[j] in rows;
        }
      }
    }
  }

  predicate KeyOfRow(fs: FileObjects, x: Id, k: Key) {
    x in fs && fs[x].storageKey == k
  }

  /** What a page of the selected places means for the rows behind them. */
  lemma RowsArePage(ns: Nodes, parent: Option<Id>, c: Place, size: nat, search: string, normalized: Option<Name>,
                    like: (string, string) -> bool, rows: seq<Row>, next: Option<Place>)
    requires IsPage(Leading(ns, search), Listed(ns, parent, search, normalized, like), c, size,
      Page(Places(rows), next))
    requires forall i | 0 <= i < |rows| :: rows[i].id in ns && rows[i].node == ns[rows[i].id]
    ensures |rows| <= size && (next.Some? ==> |rows| == size)
    ensures forall i | 0 <= i < |rows| :: Matches(ns, rows[i].id, parent, search, normalized, like)
              && Before(c, PlaceOf(ns, rows[i].id))
    ensures forall i, j | 0 <= i < j < |rows| :: Sorted(ns, search, rows[i].id, rows[j].id)
    ensures forall x {:trigger ns[x]} | x in ns && Matches(ns, x, parent, search, normalized, like)
      && Before(c, PlaceOf(ns, x))
              && (forall i | 0 <= i < |rows| :: rows[i].id != x) ::
              next.Some? && rows != [] && Sorted(ns, search, rows[|rows| - 1].id, x)
    ensures next.Some? ==>
      && rows != [] && next.value == PlaceOf(ns, rows[|rows| - 1].id)
      && exists x :: x in ns && Matches(ns, x, parent, search, normalized, like) && Before(c, PlaceOf(ns, x))
           && forall i | 0 <= i < |rows| :: rows[i].id != x
  {
    hide Matches, Before, Ahead, Sorted, Leading, Less;
    var leading, listed, items := Leading(ns, search), Listed(ns, parent, search, normalized, like), Places(rows);
    forall i | 0 <= i < |rows| ensures items[i] == PlaceOf(ns, rows[i].id) && items[i] in After(listed, c)
      && Matches(ns, rows[i].id, parent, search, normalized, like) {
      assert items[i] in items;
      var x :| x in ns && Matches(ns, x, parent, search, normalized, like) && PlaceOf(ns, x) == items[i];
    }
    forall i, j | 0 <= i < j < |rows| ensures Sorted(ns, search, rows[i].id, rows[j].id) {
      assert Ahead(leading, items[i], items[j]);
      SortedIsAhead(ns, search, rows[i].id, rows[j].id);
    }
    forall x | x in ns && Matches(ns, x, parent, search, normalized, like) && Before(c, PlaceOf(ns, x))
        && (forall i | 0 <= i < |rows| :: rows[i].id != x)
      ensures next.Some? && rows != [] && Sorted(ns, search, rows[|rows| - 1].id, x) {
      assert PlaceOf(ns, x) in After(listed, c);
      assert PlaceOf(ns, x) !in items;
      assert Ahead(leading, next.value, PlaceOf(ns, x));
      SortedIsAhead(ns, search, rows[|rows| - 1].id, x);
    }
    if next.Some? {
      var r :| r in After(listed, c) && r !in items;
      assert forall i | 0 <= i < |rows| :: rows[i].id != r.id by {
        forall i | 0 <= i < |rows| ensures rows[i].id != r.id { assert items[i] in items; }
      }
    }
  }

  predicate Sorted(ns: Nodes, search: string, x: Id, y: Id)
    requires x in ns && y in ns
  {
    if search == "" && ns[x].kind != ns[y].kind then ns[x].kind == Folder
    else Before(PlaceOf(ns, x), PlaceOf(ns, y))
  }

  lemma SortedIsAhead(ns: Nodes, search: string, x: Id, y: Id)
    requires x in ns && y in ns && Ahead(Leading(ns, search), PlaceOf(ns, x), PlaceOf(ns, y))
    ensures Sorted(ns, search, x, y)
  {
    forall z | z in ns ensures PlaceOf(ns, z) in Leading(ns, search) <==> search == "" && ns[z].kind == Folder {
      if PlaceOf(ns, z) in Leading(ns, search) {
        var w :| w in ns && ns[w].kind == Folder && PlaceOf(ns, w) == PlaceOf(ns, z);
      }
    }
  }

  lemma TreeOf(t: Tables)
    requires TablesInv(t)
    ensures TreeInv(t.nodes, UploadParents(t.uploads))
  {
  }

  lemma TrashedForest(ns: Nodes, refs: set<Id>, id: Id)
    requires TreeInv(ns, refs) && id in ns && !ns[id].system
    ensures Acyclic(ns[id := ns[id].(trashed := true, restoreTo := ns[id].parent, parent := Some(TRASH))])
  {
    SystemOutside(ns, refs, id);
    ReparentAcyclic(ns, ns[id := ns[id].(trashed := true, restoreTo := ns[id].parent, parent := Some(TRASH))], id,
      TRASH);
  }

  lemma RestoredForest(ns: Nodes, refs: set<Id>, id: Id, found: bool)
    requires TreeInv(ns, refs) && id in ns && ns[id].trashed
    ensures Acyclic(ns[id := ns[id].(parent := Some(RestoreTarget(ns, id, found)), trashed := false,
      restoreTo := None)])
  {
    var target := RestoreTarget(ns, id, found);
    RestoreTargetOutside(ns, refs, id, found);
    ReparentAcyclic(ns, ns[id := ns[id].(parent := Some(target), trashed := false, restoreTo := None)], id, target);
  }
}
