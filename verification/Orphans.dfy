/** Which objects without a row may lie in the store, in every run: the exact causes of an orphaned object. */
module Orphans {
  import opened Basics
  import opened Schema
  import opened Tree
  import opened Purge
  import opened Machine
  import opened Invariant
  import opened Steps
  import opened Reconciling
  import opened Frames
  import opened Safety
  import Convergence

  /** Why the object of upload `id` may have no file row and no removal owed: the upload is being finalised, and the
      rename has happened; it was terminated after the rename; it was completed although its name was taken; or its
      file was purged, and the removal failed or was forgotten in a crash. */
  predicate Orphaned(s: Sys, id: Id)
    requires id in s.t.uploads && id in s.hist
  {
    match s.t.uploads[id].state
    case Finalizing => s.t.uploads[id].finalKey in s.renamed
    case Terminated => s.t.uploads[id].finalKey in s.renamed
    case Complete => s.hist[id].commits == 0 || s.t.uploads[id].finalKey in s.lost
    case _ => false
  }

  // ---------------------------------------------------------------- invariant

  /** Where the object of upload `id` stands: it exists exactly if it has a file row, its removal is owed, or it is
      orphaned. */
  ghost predicate PlacedAt(s: Sys, id: Id) {
    && id in s.t.uploads && id in s.hist
    && Placed(s.t.uploads[id].state, s.hist[id].commits, KeyStored(s.t.files, s.t.uploads[id].finalKey),
              s.t.uploads[id].finalKey in s.doomed, s.t.uploads[id].finalKey in s.renamed,
              s.t.uploads[id].finalKey in s.lost, s.t.uploads[id].finalKey in s.objects)
  }

  predicate Placed(st: UploadState, commits: nat, stored: bool, owed: bool, renamed: bool, lost: bool, there: bool) {
    var orphaned := if st == Complete then commits == 0 || lost else (st == Finalizing || st == Terminated) && renamed;
    && (there <==> stored || owed || orphaned)
    && !(stored && owed) && (orphaned ==> !stored && !owed)
    && (renamed ==> st in {Finalizing, Terminated, Complete})
    && (stored || owed || lost ==> st == Complete && commits == 1)
  }

  ghost predicate Owned(s: Sys, k: Key) {
    exists id :: id in s.t.uploads && s.t.uploads[id].finalKey == k
  }

  ghost predicate OrphanInv(s: Sys) {
    && (forall id {:trigger PlacedAt(s, id)} | id in s.t.uploads :: PlacedAt(s, id))
    && (forall k {:trigger Owned(s, k)} | k in s.objects.Keys + s.doomed + s.renamed + s.lost :: Owned(s, k))
  }

  // ---------------------------------------------------------------- kinds of steps

  /** Nothing the invariant speaks of changes. */
  ghost predicate Quiet(s: Sys, s2: Sys) {
    && s2.t.uploads == s.t.uploads && s2.t.files == s.t.files && s2.objects == s.objects
    && s2.doomed == s.doomed && s2.lost == s.lost && s2.renamed == s.renamed
    && s2.hist.Keys == s.hist.Keys && forall id | id in s.hist :: s2.hist[id].commits == s.hist[id].commits
  }

  lemma QuietKeeps(s: Sys, s2: Sys)
    requires OrphanInv(s) && Quiet(s, s2)
    ensures OrphanInv(s2)
  {
    hide Placed;
    forall id | id in s2.t.uploads ensures PlacedAt(s2, id) { assert PlacedAt(s, id); }
    forall k | k in s2.objects.Keys + s2.doomed + s2.renamed + s2.lost ensures Owned(s2, k) { assert Owned(s, k); }
  }

  /** One row is rewritten, commits are counted, and its own key may change its standing; all other keys stay. */
  ghost predicate OneKey(s: Sys, s2: Sys, id: Id) {
    && id in s.t.uploads && id in s2.t.uploads && s2.t.uploads == s.t.uploads[id := s2.t.uploads[id]]
    && s2.t.uploads[id].finalKey == s.t.uploads[id].finalKey
    && s2.hist.Keys == s.hist.Keys && (forall j | j in s.hist && j != id :: s2.hist[j].commits == s.hist[j].commits)
    && forall k | k != s.t.uploads[id].finalKey :: SameStanding(s, s2, k)
  }

  ghost predicate SameStanding(s: Sys, s2: Sys, k: Key) {
    && (KeyStored(s2.t.files, k) <==> KeyStored(s.t.files, k))
    && (k in s2.objects <==> k in s.objects) && (k in s2.doomed <==> k in s.doomed)
    && (k in s2.renamed <==> k in s.renamed) && (k in s2.lost <==> k in s.lost)
  }

  lemma OneKeyKeeps(s: Sys, s2: Sys, id: Id)
    requires OrphanInv(s) && DistinctKeys(s.t.uploads) && OneKey(s, s2, id) && PlacedAt(s2, id)
    ensures OrphanInv(s2)
  {
    hide Placed, KeyStored;
    forall j | j in s2.t.uploads ensures PlacedAt(s2, j) {
      assert PlacedAt(s, j);
      if j != id {
        assert Apart(s.t.uploads, j, id);
        assert SameStanding(s, s2, s.t.uploads[j].finalKey);
      }
    }
    forall k | k in s2.objects.Keys + s2.doomed + s2.renamed + s2.lost ensures Owned(s2, k) {
      if k == s2.t.uploads[id].finalKey {
        assert Owned(s2, k);
      } else {
        assert SameStanding(s, s2, k) && Owned(s, k);
        var j :| j in s.t.uploads && s.t.uploads[j].finalKey == k;
        assert j in s2.t.uploads && s2.t.uploads[j].finalKey == k;
      }
    }
  }

  // ---------------------------------------------------------------- actions without the lock

  lemma FreeOrphans(cfg: Config, s: Sys, a: Action)
    requires Inv(cfg, s) && OrphanInv(s) && LockFree(a)
    ensures OrphanInv(StepFree(cfg, s, a))
  {
    hide TablesInv, UsedOk, DistinctKeys, UploadsOk, FilesOk, WithinQuota, PcOk, OrphanInv, StepFree, DoomedOk;
    match a
    case DoPurge(id, order) => PurgeOrphans(cfg, s, a);
    case RemoveObject(key) => RemovalOrphans(cfg, s, a, key);
    case RemoveObjectFails(key) => RemovalOrphans(cfg, s, a, key);
    case Crash => CrashOrphans(cfg, s);
    case _ =>
      QuietFree(cfg, s, a);
      QuietKeeps(s, StepFree(cfg, s, a));
  }

  lemma QuietFree(cfg: Config, s: Sys, a: Action)
    requires LockFree(a) && !a.DoPurge? && !a.RemoveObject? && !a.RemoveObjectFails? && !a.Crash?
    ensures Quiet(s, StepFree(cfg, s, a))
  {
    if OnTree(a) {
      hide StepFree, Quiet;
      QuietTree(cfg, s, a);
    } else if a.DoCreateShare? {
      QuietShare(cfg, s, a);
    }
  }

  lemma QuietShare(cfg: Config, s: Sys, a: Action)
    requires a.DoCreateShare?
    ensures Quiet(s, StepCreateShare(cfg, s, a.id, a.target, a.tokenHash, a.password, a.expiresAt))
  {
  }

  lemma QuietTree(cfg: Config, s: Sys, a: Action)
    requires OnTree(a)
    ensures Quiet(s, StepFree(cfg, s, a))
  {
    hide CreateFolder, Rename, Move, Trash, Restore, Quiet, NodesAfter;
    match a
    case DoCreateFolder(parent, name, id) =>
      QuietNodes(s, s, Err(Internal));
      NoNodes(s);
      QuietNodes(s, s.(used := s.used + {id}), CreateFolder(s.t.nodes, parent, name, id));
    case DoRename(id, name) => QuietNodes(s, s, Rename(s.t.nodes, id, name));
    case DoMove(id, target) => QuietNodes(s, s, Move(s.t.nodes, id, target));
    case DoTrash(id) => QuietNodes(s, s, Trash(s.t.nodes, id));
    case DoRestore(id, found) => QuietNodes(s, s, Restore(s.t.nodes, id, found));
  }

  lemma QuietNodes(s: Sys, s1: Sys, r: Result<Nodes, Error>)
    requires s1 == s.(used := s1.used)
    ensures Quiet(s, NodesAfter(s1, r))
  {
  }

  /** A removal that goes through takes an owed object away; one that fails makes it an orphan. */
  lemma RemovalOrphans(cfg: Config, s: Sys, a: Action, key: Key)
    requires Inv(cfg, s) && OrphanInv(s) && (a == RemoveObject(key) || a == RemoveObjectFails(key))
    ensures OrphanInv(StepFree(cfg, s, a))
  {
    hide TablesInv, UsedOk, UploadsOk, FilesOk, WithinQuota, PcOk, HexKey;
    var s2 := StepFree(cfg, s, a);
    if key in s.doomed {
      assert Owned(s, key);
      var id :| id in s.t.uploads && s.t.uploads[id].finalKey == key;
      assert PlacedAt(s, id);
      assert s2.t.uploads == s.t.uploads[id := s.t.uploads[id]];
      OneKeyKeeps(s, s2, id);
    }
  }

  /** A crash makes orphans of all objects whose removal was owed. */
  lemma CrashOrphans(cfg: Config, s: Sys)
    requires OrphanInv(s)
    ensures OrphanInv(StepFree(cfg, s, Crash))
  {
    var s2 := StepFree(cfg, s, Crash);
    forall id | id in s2.t.uploads ensures PlacedAt(s2, id) { assert PlacedAt(s, id); }
    forall k | k in s2.objects.Keys + s2.doomed + s2.renamed + s2.lost ensures Owned(s2, k) { assert Owned(s, k); }
  }

  /** A purge turns file rows into owed removals. */
  lemma PurgeOrphans(cfg: Config, s: Sys, a: Action)
    requires Inv(cfg, s) && OrphanInv(s) && a.DoPurge?
    ensures OrphanInv(StepFree(cfg, s, a))
  {
    hide TreeInv, RefsSound, UsedOk, UploadsOk, WithinQuota, PcOk, DistinctKeys, DoomedOk, HexKey, Without;
    var s2 := StepFree(cfg, s, a);
    if s2 != s {
      assert s2 == StepPurge(s, a.id, a.order);
      PurgeFrame(s, a.id, a.order, a);
      forall k ensures k in SubtreeKeys(s.t, a.id) <==> KeyStored(s.t.files, k) && !KeyStored(s2.t.files, k) {
        PurgeKeysExact(s.t, a.id, a.order, k);
      }
      PurgedStanding(cfg, s, s2, SubtreeKeys(s.t, a.id));
    }
  }

  lemma PurgedStanding(cfg: Config, s: Sys, s2: Sys, keys: set<Key>)
    requires FilesOk(cfg, s) && OrphanInv(s)
    requires s2.t.uploads == s.t.uploads && s2.hist == s.hist && s2.objects == s.objects
    requires s2.doomed == s.doomed + keys && s2.lost == s.lost && s2.renamed == s.renamed
    requires forall n | n in s2.t.files :: n in s.t.files && s2.t.files[n] == s.t.files[n]
    requires forall k :: k in keys <==> KeyStored(s.t.files, k) && !KeyStored(s2.t.files, k)
    ensures OrphanInv(s2)
  {
    forall id | id in s2.t.uploads ensures PlacedAt(s2, id) {
      assert PlacedAt(s, id);
      var k := s.t.uploads[id].finalKey;
      assert k in keys <==> KeyStored(s.t.files, k) && !KeyStored(s2.t.files, k);
      FewerKeys(s.t.files, s2.t.files, k);
    }
    forall k | k in s2.objects.Keys + s2.doomed + s2.renamed + s2.lost ensures Owned(s2, k) {
      if k in keys {
        StoredOwned(cfg, s, k);
      } else {
        assert Owned(s, k);
      }
    }
  }

  // ---------------------------------------------------------------- actions under the lock

  lemma UploadOrphans(cfg: Config, s: Sys, a: Action)
    requires Inv(cfg, s) && OrphanInv(s)
    ensures OrphanInv(StepUpload(cfg, s, a))
  {
    hide TablesInv, UsedOk, DistinctKeys, UploadsOk, FilesOk, WithinQuota, DoomedOk, OrphanInv, StepUpload, PcOk;
    UploadUnfolds(cfg, s, a);
    match a
    case InsertUpload(id, now) => InsertOrphans(cfg, s, id, now);
    case Record => RecordOrphans(cfg, s);
    case PhaseA => PhaseAOrphans(cfg, s);
    case PhaseB => PhaseBOrphans(cfg, s);
    case PhaseC(node) => PhaseCOrphans(cfg, s, node);
    case Terminate(id) => TerminateOrphans(cfg, s, id);
    case _ =>
      QuietUpload(cfg, s, a);
      QuietKeeps(s, StepUpload(cfg, s, a));
  }

  lemma UploadUnfolds(cfg: Config, s: Sys, a: Action)
    ensures a.InsertUpload? ==> StepUpload(cfg, s, a) == StepInsertUpload(cfg, s, a.id, a.now)
    ensures a.Record? ==> StepUpload(cfg, s, a) == StepRecord(s)
    ensures a.PhaseA? ==> StepUpload(cfg, s, a) == StepPhaseA(cfg, s)
    ensures a.PhaseB? ==> StepUpload(cfg, s, a) == StepPhaseB(s)
    ensures a.PhaseC? ==> StepUpload(cfg, s, a) == StepPhaseC(s, a.node)
    ensures a.Terminate? ==> StepUpload(cfg, s, a) == StepTerminate(s, a.id)
  {
    hide StepInsertUpload, StepRecord, StepPhaseA, StepPhaseB, StepPhaseC, StepTerminate;
  }

  lemma QuietUpload(cfg: Config, s: Sys, a: Action)
    requires !a.InsertUpload? && !a.Record? && !a.PhaseA? && !a.PhaseB? && !a.PhaseC? && !a.Terminate?
    ensures Quiet(s, StepUpload(cfg, s, a))
  {
    if Creating(a) {
      hide StepUpload, Quiet;
      QuietCreate(cfg, s, a);
    } else {
      hide StepInsertUpload, StepPhaseC;
    }
  }

  lemma QuietCreate(cfg: Config, s: Sys, a: Action)
    requires Creating(a) && !a.InsertUpload?
    ensures Quiet(s, StepUpload(cfg, s, a))
  {
    hide OverQuota, SlotFree, MayDraw, Quiet, StepInsertUpload;
    QuietPc(s, StepUpload(cfg, s, a));
  }

  lemma QuietPc(s: Sys, s2: Sys)
    requires s2 == s.(staging := s2.staging, used := s2.used, pc := s2.pc, left := s2.left,
      blind := s2.blind)
    ensures Quiet(s, s2)
  {
  }

  /** The key of a new upload has no standing yet. */
  lemma InsertOrphans(cfg: Config, s: Sys, id: Id, now: int)
    requires Inv(cfg, s) && OrphanInv(s)
    ensures OrphanInv(StepInsertUpload(cfg, s, id, now))
  {
    hide TablesInv, DistinctKeys, WithinQuota, DoomedOk, UploadAt, FilesOk, Sum, HexKey, Owns;
    var s2 := StepInsertUpload(cfg, s, id, now);
    if s.pc.Staged? && id !in s.used && s.pc.req.parent in s.t.nodes {
      assert !Owned(s, s.pc.fk);
      FreshKey(cfg, s, s.pc.fk);
      NewRowOrphans(s, s2, id);
    } else {
      QuietKeeps(s, s2);
    }
  }

  /** A new row whose key is nowhere yet. */
  lemma NewRowOrphans(s: Sys, s2: Sys, id: Id)
    requires OrphanInv(s) && id !in s.t.uploads && id in s2.t.uploads && id in s2.hist
    requires s2.t.uploads == s.t.uploads[id := s2.t.uploads[id]] && s2.hist == s.hist[id := s2.hist[id]]
    requires s2.t.files == s.t.files && s2.objects == s.objects
    requires s2.doomed == s.doomed && s2.renamed == s.renamed && s2.lost == s.lost
    requires var u := s2.t.uploads[id];
      u.state == Created && !Owned(s, u.finalKey) && !KeyStored(s.t.files, u.finalKey)
    ensures OrphanInv(s2)
  {
    hide KeyStored;
    forall j | j in s2.t.uploads ensures PlacedAt(s2, j) {
      if j != id { assert PlacedAt(s, j); }
    }
    forall k | k in s2.objects.Keys + s2.doomed + s2.renamed + s2.lost ensures Owned(s2, k) {
      assert Owned(s, k);
      var j :| j in s.t.uploads && s.t.uploads[j].finalKey == k;
      assert j in s2.t.uploads && s2.t.uploads[j].finalKey == k;
    }
  }

  lemma FreshKey(cfg: Config, s: Sys, k: Key)
    requires FilesOk(cfg, s) && OrphanInv(s) && !Owned(s, k)
    ensures !KeyStored(s.t.files, k) && k !in s.objects && k !in s.doomed && k !in s.renamed && k !in s.lost
  {
    hide FilesOk, PlacedAt;
    StoredOwned(cfg, s, k);
  }

  /** A row that changes its state while its key keeps its standing. */
  lemma RowOrphans(s: Sys, s2: Sys, id: Id, u: Upload)
    requires OrphanInv(s) && DistinctKeys(s.t.uploads) && id in s.t.uploads
    requires s2.t == s.t.(uploads := s.t.uploads[id := u]) && u.finalKey == s.t.uploads[id].finalKey
    requires s2.objects == s.objects && s2.doomed == s.doomed && s2.lost == s.lost && s2.renamed == s.renamed
    requires s2.hist.Keys == s.hist.Keys && forall j | j in s.hist :: s2.hist[j].commits == s.hist[j].commits
    requires s.t.uploads[id].state != Complete && u.state != Complete
    requires s.t.uploads[id].state == Finalizing || s.t.uploads[id].state == Terminated ==> u.state == Terminated
    ensures OrphanInv(s2)
  {
    hide KeyStored;
    assert PlacedAt(s, id);
    OneKeyKeeps(s, s2, id);
  }

  lemma RecordOrphans(cfg: Config, s: Sys)
    requires Inv(cfg, s) && OrphanInv(s)
    ensures OrphanInv(StepRecord(s))
  {
    hide TablesInv, UsedOk, UploadsOk, FilesOk, WithinQuota, DoomedOk, OrphanInv, DistinctKeys;
    var s2 := StepRecord(s);
    if s2.t == s.t { QuietKeeps(s, s2); } else { RowOrphans(s, s2, s.pc.id, s2.t.uploads[s.pc.id]); }
  }

  lemma PhaseAOrphans(cfg: Config, s: Sys)
    requires Inv(cfg, s) && OrphanInv(s)
    ensures OrphanInv(StepPhaseA(cfg, s))
  {
    hide TablesInv, UsedOk, UploadsOk, FilesOk, WithinQuota, DoomedOk, OrphanInv, DistinctKeys;
    var s2 := StepPhaseA(cfg, s);
    if s2.t == s.t { QuietKeeps(s, s2); } else { RowOrphans(s, s2, s.pc.id, s2.t.uploads[s.pc.id]); }
  }

  lemma TerminateOrphans(cfg: Config, s: Sys, id: Id)
    requires Inv(cfg, s) && OrphanInv(s)
    ensures OrphanInv(StepTerminate(s, id))
  {
    hide TablesInv, UsedOk, UploadsOk, FilesOk, WithinQuota, DoomedOk, OrphanInv, DistinctKeys, PcOk;
    var s2 := StepTerminate(s, id);
    if s2 == s { QuietKeeps(s, s2); } else { RowOrphans(s, s2, id, s2.t.uploads[id]); }
  }

  lemma ExpireOrphans(cfg: Config, s: Sys)
    requires Inv(cfg, s) && OrphanInv(s)
    ensures OrphanInv(StepExpireNext(s))
  {
    hide TablesInv, UsedOk, UploadsOk, FilesOk, WithinQuota, DoomedOk, OrphanInv, DistinctKeys;
    var s2 := StepExpireNext(s);
    if s.pc.Expiring? && s.pc.todo != [] {
      RowOrphans(s, s2, s.pc.todo[0], s2.t.uploads[s.pc.todo[0]]);
    } else {
      QuietKeeps(s, s2);
    }
  }

  /** The rename: the object appears, still without a row. */
  lemma MoveOrphans(cfg: Config, s: Sys, id: Id, pc: Pc)
    requires Inv(cfg, s) && OrphanInv(s) && id in s.t.uploads && s.t.uploads[id].state == Finalizing
    requires s.t.uploads[id].stagingKey in s.staging
    ensures OrphanInv(MoveStagingToObject(s, s.t.uploads[id], pc))
  {
    hide TablesInv, UsedOk, UploadsOk, FilesOk, WithinQuota, PcOk, KeyStored;
    var s2 := MoveStagingToObject(s, s.t.uploads[id], pc);
    UnfinishedOf(cfg, s, id);
    assert PlacedAt(s, id);
    assert s2.t.uploads == s.t.uploads[id := s.t.uploads[id]];
    OneKeyKeeps(s, s2, id);
  }

  lemma PhaseBOrphans(cfg: Config, s: Sys)
    requires Inv(cfg, s) && OrphanInv(s)
    ensures OrphanInv(StepPhaseB(s))
  {
    hide TablesInv, UsedOk, UploadsOk, FilesOk, WithinQuota, DoomedOk, OrphanInv, DistinctKeys, MoveStagingToObject;
    if s.pc.Intent? { MoveOrphans(cfg, s, s.pc.id, Renamed(s.pc.id)); } else { QuietKeeps(s, StepPhaseB(s)); }
  }

  /** The commit: the object gets its row, or, if the name is taken, is orphaned for good. */
  lemma RepairOrphans(cfg: Config, s: Sys, s2: Sys, id: Id, node: Id)
    requires Inv(cfg, s) && OrphanInv(s) && id in s.t.uploads && id in s.hist && s.t.uploads[id].state == Finalizing
      && node !in s.used
    requires s.t.uploads[id].finalKey in s.objects
    requires s2.t == RepairFile(s.t, id, node) && s2.hist == Counted(s.hist, id, node in s2.t.files)
    requires s2.objects == s.objects && s2.doomed == s.doomed && s2.lost == s.lost && s2.renamed == s.renamed
    ensures OrphanInv(s2)
  {
    hide TablesInv, UsedOk, FilesOk, WithinQuota, PcOk, RepairFile, CommitFile, RowFits, DoomedOk, DistinctKeys;
    RepairIsCommit(cfg, s, id, node);
    UnfinishedOf(cfg, s, id);
    FreshNode(s, node);
    assert UploadAt(cfg, s, id);
    CommitPlaces(s, s2, id, node);
  }

  lemma CommitPlaces(s: Sys, s2: Sys, id: Id, node: Id)
    requires OrphanInv(s) && DistinctKeys(s.t.uploads) && id in s.t.uploads && id in s.hist && node !in s.t.files
    requires s.t.uploads[id].state == Finalizing && s.t.uploads[id].finalKey in s.objects
    requires !KeyStored(s.t.files, s.t.uploads[id].finalKey) && s.hist[id].commits == 0
    requires s2.hist == Counted(s.hist, id, node in s2.t.files)
    requires s2.t == Committed(s.t, id, node) || s2.t == Close(s.t, id, Complete)
    requires s2.objects == s.objects && s2.doomed == s.doomed && s2.lost == s.lost && s2.renamed == s.renamed
    ensures OrphanInv(s2)
  {
    hide DistinctKeys;
    assert PlacedAt(s, id);
    RepairedKeys(s.t, s2.t, id, node);
    OneKeyKeeps(s, s2, id);
  }

  /** The repair transaction changes no key's standing but that of the upload. */
  lemma RepairedKeys(t: Tables, t2: Tables, id: Id, node: Id)
    requires id in t.uploads && node !in t.files && (t2.files == t.files || t2 == Committed(t, id, node))
    ensures forall k | k != t.uploads[id].finalKey :: KeyStored(t2.files, k) <==> KeyStored(t.files, k)
    ensures t2 == Committed(t, id, node) ==> KeyStored(t2.files, t.uploads[id].finalKey)
  {
    if t2 == Committed(t, id, node) {
      assert t2.files[node].storageKey == t.uploads[id].finalKey;
      forall k | k != t.uploads[id].finalKey ensures KeyStored(t2.files, k) <==> KeyStored(t.files, k) {
        if n :| n in t.files && t.files[n].storageKey == k { assert t2.files[n].storageKey == k; }
      }
    }
  }

  lemma PhaseCOrphans(cfg: Config, s: Sys, node: Id)
    requires Inv(cfg, s) && OrphanInv(s)
    ensures OrphanInv(StepPhaseC(s, node))
  {
    hide TablesInv, UsedOk, UploadsOk, FilesOk, WithinQuota, DoomedOk, OrphanInv, DistinctKeys, CommitFile;
    if s.pc.Renamed? && node !in s.used {
      hide StepPhaseC, PcOk;
      PhaseCCase(cfg, s, node);
      RepairIsCommit(cfg, s, s.pc.id, node);
      RenamedRow(cfg, s);
      var s2 := StepPhaseC(s, node);
      if s2 == s.(pc := Idle) { QuietKeeps(s, s2); } else { RepairOrphans(cfg, s, s2, s.pc.id, node); }
    } else {
      QuietKeeps(s, s);
    }
  }

  lemma RenamedRow(cfg: Config, s: Sys)
    requires Inv(cfg, s) && s.pc.Renamed?
    ensures s.pc.id in s.t.uploads && s.pc.id in s.hist && s.t.uploads[s.pc.id].state == Finalizing
    ensures s.t.uploads[s.pc.id].finalKey in s.objects
  {
    hide TablesInv, UsedOk, UploadAt, FilesOk, WithinQuota, DoomedOk, DistinctKeys;
  }

  lemma ReconcileOrphans(cfg: Config, s: Sys, a: Action)
    requires Inv(cfg, s) && OrphanInv(s)
    ensures OrphanInv(StepReconcile(s, a))
  {
    hide TablesInv, UsedOk, DistinctKeys, UploadsOk, FilesOk, WithinQuota, DoomedOk, OrphanInv, StepReconcile, PcOk;
    ReconcileUnfolds(s, a);
    match a
    case ExpireNext => ExpireOrphans(cfg, s);
    case ResolveNext(node) => ResolveOrphans(cfg, s, node);
    case CommitMoved(node) => CommitMovedOrphans(cfg, s, node);
    case _ =>
      QuietReconcile(s, a);
      QuietKeeps(s, StepReconcile(s, a));
  }

  lemma ReconcileUnfolds(s: Sys, a: Action)
    ensures a.ExpireNext? ==> StepReconcile(s, a) == StepExpireNext(s)
    ensures a.ResolveNext? ==> StepReconcile(s, a) == StepResolveNext(s, a.node)
    ensures a.CommitMoved? ==> StepReconcile(s, a) == StepCommitMoved(s, a.node)
  {
    hide StepExpireNext, StepResolveNext, StepCommitMoved;
  }

  lemma QuietReconcile(s: Sys, a: Action)
    requires !a.ExpireNext? && !a.ResolveNext? && !a.CommitMoved?
    ensures Quiet(s, StepReconcile(s, a))
  {
    hide Quiet, Enumerates, ExpiredIds, FinalizingIds, StepExpireFails, StepExpireNext, StepResolveNext,
      StepCommitMoved;
    if a.ExpireFails? { QuietDrop(s); } else { QuietPc(s, StepReconcile(s, a)); }
  }

  lemma QuietDrop(s: Sys)
    ensures Quiet(s, StepExpireFails(s))
  {
  }

  lemma CommitMovedOrphans(cfg: Config, s: Sys, node: Id)
    requires Inv(cfg, s) && OrphanInv(s)
    ensures OrphanInv(StepCommitMoved(s, node))
  {
    hide TablesInv, UsedOk, UploadAt, FilesOk, WithinQuota, DoomedOk, OrphanInv, DistinctKeys, RepairFile;
    var s2 := StepCommitMoved(s, node);
    if s.pc.Moved? && node !in s.used { RepairOrphans(cfg, s, s2, s.pc.id, node); } else { QuietKeeps(s, s2); }
  }

  lemma ResolveOrphans(cfg: Config, s: Sys, node: Id)
    requires Inv(cfg, s) && OrphanInv(s)
    ensures OrphanInv(StepResolveNext(s, node))
  {
    hide TablesInv, UsedOk, FilesOk, WithinQuota, DoomedOk, OrphanInv, DistinctKeys, RepairFile, KeyStored,
      MoveStagingToObject;
    if s.pc.Resolving? && s.pc.todo != [] && node !in s.used {
      var id, s2 := s.pc.todo[0], StepResolveNext(s, node);
      assert UploadAt(cfg, s, id);
      UnfinishedOf(cfg, s, id);
      if s.t.uploads[id].finalKey in s.objects {
        RepairOrphans(cfg, s, s2, id, node);
      } else {
        MoveOrphans(cfg, s, id, Moved(id, s.pc.todo[1..]));
      }
    } else {
      QuietKeeps(s, s);
    }
  }

  // ---------------------------------------------------------------- every run

  lemma StepOrphans(cfg: Config, s: Sys, a: Action)
    requires Inv(cfg, s) && OrphanInv(s)
    ensures OrphanInv(Step(cfg, s, a))
  {
    hide Inv, OrphanInv, StepFree, StepUpload, StepReconcile;
    if LockFree(a) { FreeOrphans(cfg, s, a); }
    UploadOrphans(cfg, s, a);
    ReconcileOrphans(cfg, s, a);
  }

  lemma {:induction false} RunOrphans(cfg: Config, s: Sys, actions: seq<Action>)
    requires Sane(cfg) && Inv(cfg, s) && OrphanInv(s)
    ensures OrphanInv(Run(cfg, s, actions))
    decreases |actions|
  {
    hide Inv, OrphanInv, Step;
    if actions != [] {
      StepOrphans(cfg, s, actions[0]);
      StepKeeps(cfg, s, actions[0]);
      RunOrphans(cfg, Step(cfg, s, actions[0]), actions[1..]);
    }
  }

  lemma AlwaysPlaced(cfg: Config, actions: seq<Action>)
    requires Sane(cfg)
    ensures OrphanInv(After(cfg, actions))
  {
    hide Inv, Step;
    InitialInv(cfg);
    RunOrphans(cfg, INITIAL_SYS, actions);
  }

  /** In every run an object has no file row and no removal owed if and only if it belongs to an upload with one of the
      four causes. */
  lemma OrphanIff(cfg: Config, actions: seq<Action>, k: Key)
    requires Sane(cfg)
    ensures var s := After(cfg, actions);
      k in s.objects && !KeyStored(s.t.files, k) && k !in s.doomed <==>
      exists id :: Owns(s, k, id) && Orphaned(s, id)
  {
    hide TablesInv, UsedOk, DistinctKeys, UploadAt, FilesOk, DoomedOk, WithinQuota, PcOk, Step, KeyStored;
    InitialInv(cfg);
    RunOrphans(cfg, INITIAL_SYS, actions);
    Reachable(cfg, actions);
    var s := After(cfg, actions);
    if k in s.objects && !KeyStored(s.t.files, k) && k !in s.doomed {
      assert Owned(s, k);
      var id :| id in s.t.uploads && s.t.uploads[id].finalKey == k;
      assert PlacedAt(s, id) && Owns(s, k, id);
    }
    if id :| Owns(s, k, id) && Orphaned(s, id) { assert PlacedAt(s, id); }
  }

  // ---------------------------------------------------------------- for ever

  /** The two histories an orphan may rest on only grow. */
  lemma CausesGrow(cfg: Config, s: Sys, a: Action)
    requires Inv(cfg, s)
    ensures s.renamed <= Step(cfg, s, a).renamed && s.lost <= Step(cfg, s, a).lost
  {
    hide TablesInv, UsedOk, DistinctKeys, UploadsOk, FilesOk, DoomedOk, WithinQuota, PcOk, StepFree, StepUpload,
      StepReconcile;
    if LockFree(a) {
      LostGrows(cfg, s, a);
      FreeFrame(cfg, s, a);
    } else {
      LockedLeavesTree(cfg, s, a);
      UploadRenames(cfg, s, a);
      ReconcileRenames(s, a);
    }
  }

  lemma LostGrows(cfg: Config, s: Sys, a: Action)
    ensures s.lost <= StepFree(cfg, s, a).lost
  {
    hide CreateFolder, Rename, Move, Trash, Restore, PurgeNode, Enumerates;
  }

  lemma UploadRenames(cfg: Config, s: Sys, a: Action)
    ensures s.renamed <= StepUpload(cfg, s, a).renamed
  {
    if Creating(a) {
      hide StepUpload;
      CreatingRenames(cfg, s, a);
    } else {
      hide CommitFile, MayAppend;
    }
  }

  lemma CreatingRenames(cfg: Config, s: Sys, a: Action)
    requires Creating(a)
    ensures StepUpload(cfg, s, a).renamed == s.renamed
  {
    hide OverQuota, MayDraw, SlotFree;
  }

  lemma ReconcileRenames(s: Sys, a: Action)
    ensures s.renamed <= StepReconcile(s, a).renamed
  {
    hide RepairFile, KeyStored, Enumerates, ExpiredIds, FinalizingIds;
  }

  /** An upload that is complete commits nothing any more. */
  lemma CompleteCommits(cfg: Config, s: Sys, a: Action, id: Id)
    requires Inv(cfg, s) && id in s.t.uploads && s.t.uploads[id].state == Complete
    ensures id in s.hist && id in Step(cfg, s, a).hist && Step(cfg, s, a).hist[id].commits == s.hist[id].commits
  {
    hide TablesInv, UploadAt, DistinctKeys, FilesOk, DoomedOk, WithinQuota, PcOk, Step, HexKey;
    if LockFree(a) {
      FreeCommits(cfg, s, a);
    } else if Committing(s, a).Some? {
      PcPoints(cfg, s);
      CommitCases(cfg, s, a, Committing(s, a).value);
    } else {
      NothingCommitted(cfg, s, a, id);
    }
  }

  lemma FreeCommits(cfg: Config, s: Sys, a: Action)
    requires TablesInv(s.t) && LockFree(a)
    ensures Step(cfg, s, a).hist == s.hist
  {
    hide TablesInv, StepFree;
    FreeFrame(cfg, s, a);
  }

  lemma NothingCommitted(cfg: Config, s: Sys, a: Action, id: Id)
    requires id in s.hist && id in s.used && !LockFree(a) && Committing(s, a).None?
    ensures NoCommit(s, Step(cfg, s, a), id)
  {
    hide StepUpload, StepReconcile;
    UploadCommitsNothing(cfg, s, a, id);
    ReconcileCommitsNothing(s, a, id);
  }

  lemma StaysOrphaned(cfg: Config, s: Sys, a: Action, id: Id)
    requires Inv(cfg, s) && id in s.t.uploads && id in s.hist && Orphaned(s, id)
    requires s.t.uploads[id].state != Finalizing
    ensures var s2 := Step(cfg, s, a);
      && id in s2.t.uploads && id in s2.hist && Orphaned(s2, id) && s2.t.uploads[id].state == s.t.uploads[id].state
      && s2.t.uploads[id].finalKey == s.t.uploads[id].finalKey
  {
    hide Inv, Step;
    CausesGrow(cfg, s, a);
    StepLater(cfg, s, a, id);
    if s.t.uploads[id].state == Complete { CompleteCommits(cfg, s, a, id); }
  }

  lemma {:induction false} RunOrphaned(cfg: Config, s: Sys, actions: seq<Action>, id: Id)
    requires Sane(cfg) && Inv(cfg, s) && id in s.t.uploads && id in s.hist && Orphaned(s, id)
    requires s.t.uploads[id].state != Finalizing
    ensures var s2 := Run(cfg, s, actions);
      id in s2.t.uploads && id in s2.hist && Orphaned(s2, id) && s2.t.uploads[id].finalKey == s.t.uploads[id].finalKey
    decreases |actions|
  {
    hide Inv, Step, Orphaned;
    if actions != [] {
      StepKeeps(cfg, s, actions[0]);
      StaysOrphaned(cfg, s, actions[0], id);
      RunOrphaned(cfg, Step(cfg, s, actions[0]), actions[1..], id);
    }
  }

  /** Nothing ever collects an orphan of the last three kinds: in every further run, however often it reconciles, the
      object is there, without a file row and without a removal owed. */
  lemma OrphanStays(cfg: Config, before: seq<Action>, after: seq<Action>, id: Id)
    requires Sane(cfg)
    requires var s := After(cfg, before);
      id in s.t.uploads && id in s.hist && Orphaned(s, id) && s.t.uploads[id].state != Finalizing
    ensures var k, s2 := After(cfg, before).t.uploads[id].finalKey, Run(cfg, After(cfg, before), after);
      k in s2.objects && !KeyStored(s2.t.files, k) && k !in s2.doomed
  {
    hide Inv, Step, Orphaned, KeyStored;
    var s := After(cfg, before);
    Reachable(cfg, before);
    RunOrphaned(cfg, s, after, id);
    Convergence.RunConcat(cfg, INITIAL_SYS, before, after);
    var s2 := Run(cfg, s, after);
    assert Owns(s2, s.t.uploads[id].finalKey, id);
    OrphanIff(cfg, before + after, s.t.uploads[id].finalKey);
  }
}
