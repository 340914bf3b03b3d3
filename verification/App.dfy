/** The services together, over one database and one store. Every call of a client is a step of the machine, and a purge
    is a step followed by its removals, so whatever is called in whatever order, the tables and files stay those of a
    reachable state, of which Safety speaks. */
module App {
  import opened Basics
  import opened Schema
  import opened Forest
  import opened Tree
  import opened Purge
  import opened Machine
  import opened Invariant
  import opened OpRuns
  import opened PurgeHandler
  import FilesService
  import Revocation
  import Shares
  import SharesService
  import opened Storage
  import UploadService

  class App {
    const uploads: UploadService.Service
    const files: FilesService.Service
    const shares: SharesService.Service
    const api: Api

    constructor (uploads: UploadService.Service, files: FilesService.Service, shares: SharesService.Service, api: Api)
      requires uploads.Valid() && files.db == uploads.db && shares.db == uploads.db && shares.epoch == uploads.cfg.epoch
      requires api.files == files && api.store == uploads.store
      ensures this.uploads == uploads && this.files == files && this.shares == shares && this.api == api && Valid()
    {
      this.uploads, this.files, this.shares, this.api := uploads, files, shares, api;
    }

    ghost predicate Valid()
      reads this, uploads, uploads.db, uploads.store
    {
      && uploads.Valid() && files.db == uploads.db && shares.db == uploads.db && shares.epoch == uploads.cfg.epoch
      && api.files == files && api.store == uploads.store
    }

    method CreateFolder(parent: Option<Id>, name: Option<Name>, id: Id) returns (r: Result<Node, Error>)
      requires Valid() && id !in uploads.sys.used && id != ""
      modifies uploads`sys, uploads.db`nodes
      ensures Valid() && uploads.sys == Step(uploads.cfg, old(uploads.sys), DoCreateFolder(parent, name, id))
      ensures match Tree.CreateFolder(old(uploads.db.nodes), parent, name, id)
        case Ok(ns) => uploads.db.nodes == ns && r == Ok(ns[id])
        case Err(e) => uploads.db.nodes == old(uploads.db.nodes) && r == Err(e)
    {
      hide Step, Follows, Inv;
      Sound(uploads.cfg, uploads.sys);
      CreateFolderDoes(uploads.cfg, uploads.sys, parent, name, id);
      r := files.CreateFolder(parent, name, id);
      uploads.Do(DoCreateFolder(parent, name, id));
    }

    method RenameNode(id: Id, name: Option<Name>) returns (r: Result<Node, Error>)
      requires Valid()
      modifies uploads`sys, uploads.db`nodes
      ensures Valid() && uploads.sys == Step(uploads.cfg, old(uploads.sys), DoRename(id, name))
      ensures match Rename(old(uploads.db.nodes), id, name)
        case Ok(ns) => uploads.db.nodes == ns && r == Ok(ns[id])
        case Err(e) => uploads.db.nodes == old(uploads.db.nodes) && r == Err(e)
    {
      hide Step, Follows, Inv;
      Sound(uploads.cfg, uploads.sys);
      NodeActionsDo(uploads.cfg, uploads.sys, id, name, "", true);
      r := files.RenameNode(id, name);
      uploads.Do(DoRename(id, name));
    }

    method MoveNode(id: Id, newParent: Id) returns (r: Result<Node, Error>)
      requires Valid()
      modifies uploads`sys, uploads.db`nodes
      ensures Valid() && uploads.sys == Step(uploads.cfg, old(uploads.sys), DoMove(id, newParent))
      ensures match Move(old(uploads.db.nodes), id, newParent)
        case Ok(ns) => uploads.db.nodes == ns && r == Ok(ns[id])
        case Err(e) => uploads.db.nodes == old(uploads.db.nodes) && r == Err(e)
    {
      hide Step, Follows, Inv;
      Sound(uploads.cfg, uploads.sys);
      NodeActionsDo(uploads.cfg, uploads.sys, id, None, newParent, true);
      r := files.MoveNode(id, newParent);
      uploads.Do(DoMove(id, newParent));
    }

    method TrashNode(id: Id) returns (r: Result<(), Error>)
      requires Valid()
      modifies uploads`sys, uploads.db`nodes
      ensures Valid() && uploads.sys == Step(uploads.cfg, old(uploads.sys), DoTrash(id))
      ensures match Trash(old(uploads.db.nodes), id)
        case Ok(ns) => uploads.db.nodes == ns && r == Ok(())
        case Err(e) => uploads.db.nodes == old(uploads.db.nodes) && r == Err(e)
    {
      hide Step, Follows, Inv;
      Sound(uploads.cfg, uploads.sys);
      NodeActionsDo(uploads.cfg, uploads.sys, id, None, "", true);
      r := files.TrashNode(id);
      uploads.Do(DoTrash(id));
    }

    method RestoreNode(id: Id, found: bool) returns (r: Result<Node, Error>)
      requires Valid()
      modifies uploads`sys, uploads.db`nodes
      ensures Valid() && uploads.sys == Step(uploads.cfg, old(uploads.sys), DoRestore(id, found))
      ensures match Restore(old(uploads.db.nodes), id, found)
        case Ok(ns) => uploads.db.nodes == ns && r == Ok(ns[id])
        case Err(e) => uploads.db.nodes == old(uploads.db.nodes) && r == Err(e)
    {
      hide Step, Follows, Inv;
      Sound(uploads.cfg, uploads.sys);
      NodeActionsDo(uploads.cfg, uploads.sys, id, None, "", found);
      r := files.RestoreNode(id, found);
      uploads.Do(DoRestore(id, found));
    }

    method CreateShare(target: Id, password: string, hashed: string, expiresAt: Option<int>, id: Id, token: string)
      returns (r: Result<Id, Error>)
      requires Valid()
      requires id !in uploads.sys.used && shares.hashToken(token) !in uploads.sys.used && id != shares.hashToken(token)
      modifies uploads`sys, uploads.db`shares
      ensures Valid()
        && uploads.sys == Step(uploads.cfg, old(uploads.sys), DoCreateShare(id, target, shares.hashToken(token),
                                   if password != "" then Some(hashed) else None, expiresAt))
      ensures match Shares.CreateShare(old(uploads.db.Contents()), id, target, shares.hashToken(token),
                                       if password != "" then Some(hashed) else None, expiresAt, uploads.cfg.epoch)
        case Ok(t) => uploads.db.Contents() == t && r == Ok(id)
        case Err(e) => uploads.db.shares == old(uploads.db.shares) && r == Err(e)
    {
      hide Step, Follows, Inv, TablesInv, Shares.UniqueTokens;
      Sound(uploads.cfg, uploads.sys);
      var stored := if password != "" then Some(hashed) else None;
      CreateShareDoes(uploads.cfg, uploads.sys, id, target, shares.hashToken(token), stored, expiresAt);
      r := shares.CreateShare(target, password, hashed, expiresAt, id, token);
      uploads.Do(DoCreateShare(id, target, shares.hashToken(token), stored, expiresAt));
    }

    method RevokeShare(id: Id) returns (r: Result<(), Error>)
      requires Valid()
      modifies uploads`sys, uploads.db`shares
      ensures Valid() && uploads.sys == Step(uploads.cfg, old(uploads.sys), DoRevokeShare(id))
      ensures match Shares.RevokeShare(old(uploads.db.Contents()), id)
        case Ok(t) => uploads.db.Contents() == t && r == Ok(())
        case Err(e) => uploads.db.shares == old(uploads.db.shares) && r == Err(e)
    {
      hide Step, Follows, Inv;
      Sound(uploads.cfg, uploads.sys);
      RevokeShareDoes(uploads.cfg, uploads.sys, id);
      r := shares.RevokeShare(id);
      uploads.Do(DoRevokeShare(id));
    }

    /** The purge, then one removal for each purged key; those whose key is not read or whose removal fails do not go
        through. */
    method PurgeNode(id: Id, order: seq<Id>, unread: set<Key>, fails: set<Key>)
      returns (r: Result<(), Error>, ghost keys: seq<Key>)
      requires Valid()
      requires id in uploads.db.nodes ==> Enumerates(order, Subtree(uploads.db.nodes, id))
      modifies uploads`sys, uploads.db, uploads.store`objects
      ensures Valid()
      ensures uploads.sys == Run(uploads.cfg, old(uploads.sys), [DoPurge(id, order)] + Removals(keys, unread + fails))
      ensures match Purge.PurgeNode(old(uploads.db.Contents()), id, order)
        case Ok(_) => r == Ok(()) && Enumerates(keys, SubtreeKeys(old(uploads.db.Contents()), id))
        case Err(e) => r == Err(e) && keys == []
    {
      hide Step, Follows, Inv, TreeInv, RefsSound;
      Sound(uploads.cfg, uploads.sys);
      ghost var s := uploads.sys;
      r, keys := api.HandlePurgeNode(id, order, unread, fails);
      if r.Ok? {
        PurgeRun(uploads.cfg, s, id, order, keys, unread + fails);
      } else {
        RefusedPurge(uploads.cfg, s, id, order);
        keys := [];
      }
      uploads.DoAll([DoPurge(id, order)] + Removals(keys, unread + fails));
    }
  }

  /** Reachable tables satisfy what the services ask for. */
  lemma Sound(cfg: Config, s: Sys)
    requires Sane(cfg) && Reached(cfg, s)
    ensures TablesInv(s.t) && Shares.UniqueTokens(s.t.shares) && Inv(cfg, s)
  {
    hide TablesInv, UsedOk, DistinctKeys, UploadsOk, FilesOk, DoomedOk, WithinQuota, PcOk, Step;
    ReachedInv(cfg, s);
    InitialInv(cfg);
    var actions :| s == Run(cfg, INITIAL_SYS, actions);
    Revocation.TokensStayUnique(cfg, INITIAL_SYS, actions);
  }

  // ---------------------------------------------------------------- what the client actions do

  lemma CreateFolderDoes(cfg: Config, s: Sys, parent: Option<Id>, name: Option<Name>, id: Id)
    requires id !in s.used
    ensures Step(cfg, s, DoCreateFolder(parent, name, id)) ==
            NodesAfter(s.(used := s.used + {id}), CreateFolder(s.t.nodes, parent, name, id))
  {
    hide CreateFolder, NodesAfter, StepUpload, StepReconcile;
  }

  lemma NodeActionsDo(cfg: Config, s: Sys, id: Id, name: Option<Name>, target: Id, found: bool)
    ensures Step(cfg, s, DoRename(id, name)) == NodesAfter(s, Rename(s.t.nodes, id, name))
    ensures Step(cfg, s, DoMove(id, target)) == NodesAfter(s, Move(s.t.nodes, id, target))
    ensures Step(cfg, s, DoTrash(id)) == NodesAfter(s, Trash(s.t.nodes, id))
    ensures Step(cfg, s, DoRestore(id, found)) == NodesAfter(s, Restore(s.t.nodes, id, found))
  {
    hide Rename, Move, Trash, Restore, NodesAfter, StepUpload, StepReconcile;
  }

  lemma CreateShareDoes(cfg: Config, s: Sys, id: Id, target: Id, tokenHash: string, password: Option<string>,
      exp: Option<int>)
    requires id !in s.used && tokenHash !in s.used && id != tokenHash
    ensures var r := Shares.CreateShare(s.t, id, target, tokenHash, password, exp, cfg.epoch);
      Step(cfg, s, DoCreateShare(id, target, tokenHash, password, exp)) ==
        if r.Ok? then s.(t := r.value, used := s.used + {id, tokenHash}) else s
  {
    hide StepUpload, StepReconcile;
  }

  lemma RevokeShareDoes(cfg: Config, s: Sys, id: Id)
    ensures var r := Shares.RevokeShare(s.t, id);
      Step(cfg, s, DoRevokeShare(id)) == if r.Ok? then s.(t := r.value) else s
  {
    hide StepUpload, StepReconcile;
  }

  // ---------------------------------------------------------------- purging

  function Removals(keys: seq<Key>, fails: set<Key>): seq<Action> {
    if keys == [] then []
    else [if keys[0] in fails then RemoveObjectFails(keys[0]) else RemoveObject(keys[0])] + Removals(keys[1..], fails)
  }

  lemma RemovalDoes(cfg: Config, s: Sys, key: Key, fails: bool)
    ensures Step(cfg, s, if fails then RemoveObjectFails(key) else RemoveObject(key)) == StepRemoveObject(s, key, fails)
  {
    hide StepUpload, StepReconcile, StepRemoveObject;
  }

  lemma RemovalEffect(s: Sys, key: Key, fails: bool)
    requires key in s.doomed
    ensures var s2 := StepRemoveObject(s, key, fails);
      && s2.t == s.t && s2.staging == s.staging && s2.pc == s.pc && s2.doomed == s.doomed - {key}
      && s2.objects == if fails then s.objects else s.objects - {key}
  {
  }

  lemma {:induction false} RemovalRun(cfg: Config, s: Sys, keys: seq<Key>, fails: set<Key>)
    requires NoDup(keys) && (forall k | k in keys :: k in s.doomed) && forall k | k in keys :: HexKey(k)
    ensures var s2 := Run(cfg, s, Removals(keys, fails));
      s2.t == s.t && s2.staging == s.staging && s2.pc == s.pc && s2.objects == s.objects - Removable(Elems(keys), fails)
    decreases |keys|
  {
    hide Step, ObjectPath, HexKey, StepRemoveObject;
    if keys == [] {
      assert Removable(Elems(keys), fails) == {};
    } else {
      var k := keys[0];
      HexPaths("", k);
      RemovalDoes(cfg, s, k, k in fails);
      RemovalEffect(s, k, k in fails);
      var s1 := StepRemoveObject(s, k, k in fails);
      RunCons(cfg, s, if k in fails then RemoveObjectFails(k) else RemoveObject(k), Removals(keys[1..], fails));
      assert forall x | x in keys[1..] :: x in keys && x != k;
      RemovalRun(cfg, s1, keys[1..], fails);
      assert Removable(Elems(keys), fails) == Removable(Elems(keys[1..]), fails) + (if k in fails then {} else {k}) by {
        assert keys == [k] + keys[1..];
      }
    }
  }

  lemma RunCons(cfg: Config, s: Sys, a: Action, rest: seq<Action>)
    ensures Run(cfg, s, [a] + rest) == Run(cfg, Step(cfg, s, a), rest)
  {
    hide Step;
    assert ([a] + rest)[0] == a && ([a] + rest)[1..] == rest;
  }

  lemma PurgeDoes(cfg: Config, s: Sys, id: Id, order: seq<Id>)
    ensures Step(cfg, s, DoPurge(id, order)) == StepPurge(s, id, order)
  {
    hide StepPurge, StepUpload, StepReconcile;
  }

  lemma PurgeRun(cfg: Config, s: Sys, id: Id, order: seq<Id>, keys: seq<Key>, fails: set<Key>)
    requires Inv(cfg, s) && id in s.t.nodes && Enumerates(order, Subtree(s.t.nodes, id))
      && PurgeNode(s.t, id, order).Ok?
    requires Enumerates(keys, SubtreeKeys(s.t, id))
    ensures var s2 := Run(cfg, s, [DoPurge(id, order)] + Removals(keys, fails));
      && s2.t == PurgeNode(s.t, id, order).value && s2.staging == s.staging && s2.pc == s.pc
      && s2.objects == s.objects - Removable(SubtreeKeys(s.t, id), fails)
  {
    hide Step, Inv;
    RunCons(cfg, s, DoPurge(id, order), Removals(keys, fails));
    PurgeDoes(cfg, s, id, order);
    StoredKeysHex(cfg, s, id);
    RemovalRun(cfg, StepPurge(s, id, order), keys, fails);
    assert Elems(keys) == SubtreeKeys(s.t, id);
  }

  lemma StoredKeysHex(cfg: Config, s: Sys, id: Id)
    requires Inv(cfg, s)
    ensures forall k | k in SubtreeKeys(s.t, id) :: HexKey(k)
  {
    hide TablesInv, DistinctKeys, UploadsOk, DoomedOk, WithinQuota, PcOk, HexKey;
    forall k | k in SubtreeKeys(s.t, id) ensures HexKey(k) {
      var n :| n in s.t.files && n in Subtree(s.t.nodes, id) && s.t.files[n].storageKey == k;
      assert FileOk(cfg, s, n);
      var u :| FileOf(cfg, s, s.t.files[n], u);
      assert KeysDrawn(s.used, s.t.uploads[u]);
    }
  }

  lemma RefusedPurge(cfg: Config, s: Sys, id: Id, order: seq<Id>)
    requires PurgeNode(s.t, id, order).Err?
    ensures Run(cfg, s, [DoPurge(id, order)] + Removals([], {})) == s
    ensures forall fails :: Removals([], fails) == []
  {
    hide Step;
    RunCons(cfg, s, DoPurge(id, order), []);
    PurgeDoes(cfg, s, id, order);
    assert Removals([], {}) == [];
  }
}
