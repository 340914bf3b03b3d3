/** Every action of the machine keeps the invariant, hence so does every run. */
module Steps {
  import opened Basics
  import opened Schema
  import opened Forest
  import opened Tree
  import opened Purge
  import opened Machine
  import opened Invariant

  // ---------------------------------------------------------------- actions that take no lock

  /** Neither tree nor share operations touch a column that the upload engine reads. */
  lemma EngineUntouched(cfg: Config, s: Sys, s2: Sys)
    requires UploadsOk(cfg, s) && FilesOk(cfg, s) && DoomedOk(s) && PcOk(cfg, s) && (s.blind || WithinQuota(cfg, s.t))
    requires s2 == s.(t := s.t.(nodes := s2.t.nodes, shares := s2.t.shares), used := s2.used) && s.used <= s2.used
    ensures UploadsOk(cfg, s2) && FilesOk(cfg, s2) && DoomedOk(s2) && PcOk(cfg, s2)
      && (s2.blind || WithinQuota(cfg, s2.t))
  {
    hide UploadOk, HexKey;
    FilesCarry(cfg, s, s2);
    UploadsCarry(cfg, s, s2);
  }

  lemma NodesKeep(cfg: Config, s: Sys, s2: Sys)
    requires Inv(cfg, s) && s2 == s.(t := s.t.(nodes := s2.t.nodes), used := s2.used)
    requires TablesInv(s2.t) && s.used <= s2.used && s2.t.nodes.Keys <= s2.used
    requires forall p | p in s2.t.nodes && p in s.seen :: s2.t.nodes[p].kind == Folder
    ensures Inv(cfg, s2)
  {
    hide TablesInv, UploadsOk, FilesOk, DoomedOk, PcOk, WithinQuota, DistinctKeys;
    EngineUntouched(cfg, s, s2);
  }

  lemma UploadsCarry(cfg: Config, s: Sys, s2: Sys)
    requires UploadsOk(cfg, s) && s2.t.uploads == s.t.uploads && s2.hist == s.hist
    requires forall j {:trigger s.t.uploads[j]} | j in s.t.uploads && s.t.uploads[j].state != Complete ::
      SameAt(s.staging, s2.staging, s.t.uploads[j].stagingKey) && SameAt(s.objects, s2.objects, s.t.uploads[j].finalKey)
    ensures UploadsOk(cfg, s2)
  {
    forall j | j in s2.t.uploads ensures UploadAt(cfg, s2, j) {
      assert UploadAt(cfg, s, j);
    }
  }

  lemma CreateFolderStep(cfg: Config, s: Sys, parent: Option<Id>, name: Option<Name>, id: Id)
    requires Inv(cfg, s)
    ensures Inv(cfg, StepFree(cfg, s, DoCreateFolder(parent, name, id)))
  {
    hide UploadsOk, FilesOk, DoomedOk, DistinctKeys, PcOk, WithinQuota, TreeInv, RefsSound;
    var s2 := StepFree(cfg, s, DoCreateFolder(parent, name, id));
    if id !in s.used {
      if CreateFolder(s.t.nodes, parent, name, id).Ok? { CreateFolderKeepsTables(s.t, parent, name, id); }
      assert s2.t.nodes == s.t.nodes ==> s2.t == s.t;
      NodesKeep(cfg, s, s2);
    }
  }

  lemma RenameStep(cfg: Config, s: Sys, id: Id, name: Option<Name>)
    requires Inv(cfg, s)
    ensures Inv(cfg, StepFree(cfg, s, DoRename(id, name)))
  {
    hide UploadsOk, FilesOk, DoomedOk, DistinctKeys, PcOk, WithinQuota, TreeInv, RefsSound;
    if Rename(s.t.nodes, id, name).Ok? {
      RenameKeepsTables(s.t, id, name);
      NodesKeep(cfg, s, StepFree(cfg, s, DoRename(id, name)));
    }
  }

  lemma MoveStep(cfg: Config, s: Sys, id: Id, target: Id)
    requires Inv(cfg, s)
    ensures Inv(cfg, StepFree(cfg, s, DoMove(id, target)))
  {
    hide UploadsOk, FilesOk, DoomedOk, DistinctKeys, PcOk, WithinQuota, TreeInv, RefsSound;
    if Move(s.t.nodes, id, target).Ok? {
      MoveKeepsTables(s.t, id, target);
      NodesKeep(cfg, s, StepFree(cfg, s, DoMove(id, target)));
    }
  }

  lemma TrashStep(cfg: Config, s: Sys, id: Id)
    requires Inv(cfg, s)
    ensures Inv(cfg, StepFree(cfg, s, DoTrash(id)))
  {
    hide UploadsOk, FilesOk, DoomedOk, DistinctKeys, PcOk, WithinQuota, TreeInv, RefsSound;
    if Trash(s.t.nodes, id).Ok? {
      TrashKeepsTables(s.t, id);
      TrashRelocates(s.t.nodes, UploadParents(s.t.uploads), id);
      NodesKeep(cfg, s, StepFree(cfg, s, DoTrash(id)));
    }
  }

  lemma RestoreStep(cfg: Config, s: Sys, id: Id, found: bool)
    requires Inv(cfg, s)
    ensures Inv(cfg, StepFree(cfg, s, DoRestore(id, found)))
  {
    hide UploadsOk, FilesOk, DoomedOk, DistinctKeys, PcOk, WithinQuota, TreeInv, RefsSound;
    if Restore(s.t.nodes, id, found).Ok? {
      RestoreKeepsTables(s.t, id, found);
      RestoreIsAllOrNothing(s.t.nodes, UploadParents(s.t.uploads), id, found);
      NodesKeep(cfg, s, StepFree(cfg, s, DoRestore(id, found)));
    }
  }

  /** A purge only lowers the stored total, and the objects it dooms belong to no file any more. */
  lemma PurgeStep(cfg: Config, s: Sys, id: Id, order: seq<Id>)
    requires Inv(cfg, s)
    ensures Inv(cfg, StepPurge(s, id, order))
  {
    hide UsedOk, UploadsOk, FilesOk, DoomedOk, DistinctKeys, PcOk, WithinQuota, TreeInv, RefsSound, Enumerates;
    var s2 := StepPurge(s, id, order);
    if id in s.t.nodes && Enumerates(order, Subtree(s.t.nodes, id)) && PurgeNode(s.t, id, order).Ok? {
      PurgeKeeps(s.t, id, order);
      PurgeCommits(s.t, id, order);
      PurgedKeeps(cfg, s, s2, id);
    }
  }

  lemma PurgedKeeps(cfg: Config, s: Sys, s2: Sys, id: Id)
    requires Inv(cfg, s) && s2
      == s.(t := Without(s.t, Subtree(s.t.nodes, id)), doomed := s.doomed + SubtreeKeys(s.t, id))
    requires TablesInv(s2.t)
    ensures Inv(cfg, s2)
  {
    hide TablesInv, DistinctKeys, FileOk, UploadOk, HexKey, Subtree, SubtreeKeys;
    FilesCarry(cfg, s, s2);
    UploadsCarry(cfg, s, s2);
    SumShrinks(Sizes(s2.t.files), Sizes(s.t.files));
    PurgeDooms(cfg, s, s2, id);
  }

  lemma PurgeDooms(cfg: Config, s: Sys, s2: Sys, id: Id)
    requires Inv(cfg, s) && s2
      == s.(t := Without(s.t, Subtree(s.t.nodes, id)), doomed := s.doomed + SubtreeKeys(s.t, id))
    ensures DoomedOk(s2) && s2.doomed <= s2.used
    ensures s.pc.Staged? ==> s.pc.fk !in s2.doomed
  {
    forall k | k in SubtreeKeys(s.t, id)
      ensures !KeyStored(s2.t.files, k) && Spent(s2.t.uploads, k) && k in s.used && (s.pc.Staged? ==> k != s.pc.fk)
    {
      var x :| x in s.t.files && x in Subtree(s.t.nodes, id) && s.t.files[x].storageKey == k;
      assert forall y | y in s2.t.files :: !SameKey(s.t.files[x], s.t.files[y]);
      DoomedOwner(cfg, s, x);
    }
    forall k | k in s.doomed ensures !KeyStored(s2.t.files, k) && Spent(s2.t.uploads, k) {
      assert !KeyStored(s.t.files, k);
    }
  }

  /** The key of a committed file belongs to one upload, and that one is complete. */
  lemma DoomedOwner(cfg: Config, s: Sys, x: Id)
    requires FilesOk(cfg, s) && DistinctKeys(s.t.uploads) && UsedOk(s) && PcOk(cfg, s) && x in s.t.files
    ensures Spent(s.t.uploads, s.t.files[x].storageKey) && s.t.files[x].storageKey in s.used
    ensures s.pc.Staged? ==> s.t.files[x].storageKey != s.pc.fk
  {
    assert FileOk(cfg, s, x);
    var j :| FileOf(cfg, s, s.t.files[x], j);
    forall i | i in s.t.uploads && i != j ensures s.t.uploads[i].finalKey != s.t.files[x].storageKey {
      assert Apart(s.t.uploads, i, j);
    }
  }

  /** Whether the removal succeeds or fails, no committed file and no unfinished upload is concerned. */
  lemma RemoveObjectStep(cfg: Config, s: Sys, key: Key, fails: bool)
    requires Inv(cfg, s)
    ensures Inv(cfg, StepRemoveObject(s, key, fails))
  {
    hide TablesInv, DistinctKeys, WithinQuota, UploadOk, HexKey;
    if key in s.doomed && fails {
      VolatileStep(cfg, s, StepRemoveObject(s, key, fails));
    } else if key in s.doomed {
      var s2 := StepRemoveObject(s, key, fails);
      assert !KeyStored(s.t.files, key) && Spent(s.t.uploads, key);
      FilesCarry(cfg, s, s2);
      UploadsCarry(cfg, s, s2);
    }
  }

  lemma ShareStep(cfg: Config, s: Sys, s2: Sys)
    requires Inv(cfg, s) && s2 == s.(t := s.t.(shares := s2.t.shares), used := s2.used) && s.used <= s2.used
    requires s2.t.shares.Keys <= s2.used
    requires forall h {:trigger s2.t.shares[h]} | h in s2.t.shares ::
      s2.t.shares[h].target in s.t.nodes && s2.t.shares[h].tokenHash in s2.used
    ensures Inv(cfg, s2)
  {
    hide TreeInv, UploadsOk, FilesOk, DoomedOk, PcOk, WithinQuota, DistinctKeys;
    EngineUntouched(cfg, s, s2);
  }

  lemma CreateShareStep(cfg: Config, s: Sys, id: Id, target: Id, tokenHash: string, password: Option<string>,
      exp: Option<int>)
    requires Inv(cfg, s)
    ensures Inv(cfg, StepCreateShare(cfg, s, id, target, tokenHash, password, exp))
  {
    var s2 := StepCreateShare(cfg, s, id, target, tokenHash, password, exp);
    if s2 != s {
      forall h | h in s2.t.shares ensures s2.t.shares[h].target in s.t.nodes && s2.t.shares[h].tokenHash in s2.used {
        if h != id { assert s.t.shares[h].tokenHash in s.used; }
      }
      ShareStep(cfg, s, s2);
    }
  }

  lemma RevokeShareStep(cfg: Config, s: Sys, id: Id)
    requires Inv(cfg, s)
    ensures Inv(cfg, StepFree(cfg, s, DoRevokeShare(id)))
  {
    if id in s.t.shares {
      assert s.t.shares[id].tokenHash in s.used;
      ShareStep(cfg, s, StepFree(cfg, s, DoRevokeShare(id)));
    }
  }

  lemma VolatileStep(cfg: Config, s: Sys, s2: Sys)
    requires Inv(cfg, s) && s2 == s.(pc := s2.pc, doomed := s2.doomed, seen := s2.seen, lost := s2.lost,
      left := s2.left)
    requires s2.doomed <= s.doomed && s2.seen <= s.used && PcOk(cfg, s2)
    requires forall p | p in s2.seen && p in s2.t.nodes :: s2.t.nodes[p].kind == Folder
    ensures Inv(cfg, s2)
  {
    FilesCarry(cfg, s, s2);
    UploadsCarry(cfg, s, s2);
  }

  // ---------------------------------------------------------------- creating an upload

  /** The int64 sum of the guard is exact when the limits are sane. */
  lemma GuardExact(max: int, maxFile: int, stored: int, reserved: int, size: int)
    requires 0 <= max && 0 <= maxFile && max + maxFile < 0x8000_0000_0000_0000
    requires 0 <= stored && 0 <= reserved && stored + reserved <= max && 0 <= size <= maxFile
    ensures OverQuota(max, stored, reserved, size) <==> stored + reserved + size > max
  {
  }

  lemma ReadReservedStep(cfg: Config, s: Sys, space: bool)
    requires Sane(cfg) && Inv(cfg, s)
    ensures Inv(cfg, StepReadReserved(cfg, s, space))
  {
    hide TablesInv, UsedOk, DistinctKeys, UploadsOk, FilesOk, DoomedOk;
    if s.pc.Weighing? {
      if !s.blind { GuardExact(cfg.maxStorage, cfg.maxFile, s.pc.stored, ReservedBytes(s.t), s.pc.req.size); }
      PcKeeps(cfg, s, StepReadReserved(cfg, s, space));
    }
  }

  /** Once a sum has been taken for zero nothing is claimed about the quota any more; the rest stands. */
  lemma BlindStep(cfg: Config, s: Sys, s2: Sys)
    requires Inv(cfg, s) && s2 == s.(pc := s2.pc, blind := true) && PcOk(cfg, s2)
    ensures Inv(cfg, s2)
  {
    FilesCarry(cfg, s, s2);
    UploadsCarry(cfg, s, s2);
  }

  lemma ReadStoredFailsStep(cfg: Config, s: Sys)
    requires Inv(cfg, s)
    ensures Inv(cfg, StepReadStoredFails(s))
  {
    hide TablesInv, UsedOk, DistinctKeys, UploadsOk, FilesOk, DoomedOk, WithinQuota;
    if s.pc.Admitting? { BlindStep(cfg, s, StepReadStoredFails(s)); }
  }

  lemma ReadReservedFailsStep(cfg: Config, s: Sys, space: bool)
    requires Inv(cfg, s)
    ensures Inv(cfg, StepReadReservedFails(cfg, s, space))
  {
    hide TablesInv, UsedOk, DistinctKeys, UploadsOk, FilesOk, DoomedOk, WithinQuota, OverQuota;
    if s.pc.Weighing? { BlindStep(cfg, s, StepReadReservedFails(cfg, s, space)); }
  }

  lemma CreateStagingStep(cfg: Config, s: Sys, sk: Key, fk: Key)
    requires Inv(cfg, s)
    ensures Inv(cfg, StepCreateStaging(s, sk, fk))
  {
    hide Inv;
    if s.pc.Admitted? && MayDraw(s, sk, fk) { CreateStagingKeeps(cfg, s, sk, fk); }
  }

  lemma CreateStagingKeeps(cfg: Config, s: Sys, sk: Key, fk: Key)
    requires Inv(cfg, s) && s.pc.Admitted? && MayDraw(s, sk, fk)
    ensures Inv(cfg, StepCreateStaging(s, sk, fk))
  {
    hide TablesInv, DistinctKeys, UploadOk, FileOk, WithinQuota, PcOk, HexKey;
    var s2 := StepCreateStaging(s, sk, fk);
    StagedOk(cfg, s, sk, fk);
    FilesCarry(cfg, s, s2);
    forall j | j in s.t.uploads ensures s.t.uploads[j].stagingKey != sk && s.t.uploads[j].finalKey != fk {
      assert KeysDrawn(s.used, s.t.uploads[j]);
    }
    UploadsCarry(cfg, s, s2);
    UsedGrows(s, s2);
  }

  lemma StagedOk(cfg: Config, s: Sys, sk: Key, fk: Key)
    requires UsedOk(s) && PcOk(cfg, s) && s.pc.Admitted? && MayDraw(s, sk, fk)
    ensures PcOk(cfg, StepCreateStaging(s, sk, fk))
  {
    hide HexKey, Sum;
    forall j | j in s.t.uploads ensures s.t.uploads[j].stagingKey != sk && s.t.uploads[j].finalKey != fk {
      assert KeysDrawn(s.used, s.t.uploads[j]);
    }
  }

  lemma UsedGrows(s: Sys, s2: Sys)
    requires UsedOk(s) && s2.t == s.t && s2.seen == s.seen && s2.doomed == s.doomed && s2.objects == s.objects
    requires s.used <= s2.used && s2.staging.Keys <= s2.used
    ensures UsedOk(s2)
  {
    hide HexKey;
    forall j | j in s2.t.uploads ensures KeysDrawn(s2.used, s2.t.uploads[j]) {
      assert KeysDrawn(s.used, s.t.uploads[j]);
    }
  }

  lemma InsertUploadStep(cfg: Config, s: Sys, id: Id, now: int)
    requires Inv(cfg, s)
    ensures Inv(cfg, StepInsertUpload(cfg, s, id, now))
  {
    var s2 := StepInsertUpload(cfg, s, id, now);
    if s.pc.Staged? && id !in s.used {
      if s.pc.req.parent !in s.t.nodes {
        assert Disposable(s.t.uploads, s.pc.sk);
        PcKeeps(cfg, s, s2);
      } else {
        InsertedRow(cfg, s, s2, id, now);
      }
    }
  }

  lemma InsertedRow(cfg: Config, s: Sys, s2: Sys, id: Id, now: int)
    requires Inv(cfg, s) && s.pc.Staged? && id !in s.used && s.pc.req.parent in s.t.nodes
    requires s2 == StepInsertUpload(cfg, s, id, now)
    ensures Inv(cfg, s2)
  {
    hide TreeInv, RefsSound, DoomedOk, FileOk, Sum, HexKey;
    var u := s2.t.uploads[id];
    FilesCarry(cfg, s, s2);
    HoldsPut(s.t.uploads, id, u);
    NewRef(s.t, id, u);
    NewRowUploads(cfg, s, s2, id, u);
    InsertedNames(s, s2, id, u);
  }

  lemma InsertedNames(s: Sys, s2: Sys, id: Id, u: Upload)
    requires UsedOk(s) && DoomedOk(s) && id !in s.used
    requires s2 == s.(t := s.t.(uploads := s.t.uploads[id := u]), hist := s2.hist, used := s.used + {id}, pc := s2.pc)
    requires KeysDrawn(s.used, u) && u.finalKey !in s.doomed
    ensures UsedOk(s2) && DoomedOk(s2)
  {
    forall j | j in s2.t.uploads ensures KeysDrawn(s2.used, s2.t.uploads[j]) {
      if j != id { assert KeysDrawn(s.used, s.t.uploads[j]); }
    }
    forall k | k in s2.doomed ensures !KeyStored(s2.t.files, k) && Spent(s2.t.uploads, k) {
      assert Spent(s.t.uploads, k);
    }
  }

  lemma NewRowUploads(cfg: Config, s: Sys, s2: Sys, id: Id, u: Upload)
    requires UploadsOk(cfg, s) && DistinctKeys(s.t.uploads) && id !in s.t.uploads
    requires s2.t.uploads == s.t.uploads[id := u] && s2.hist == s.hist[id := NO_HISTORY]
    requires s2.staging == s.staging && s2.objects == s.objects
    requires UploadOk(cfg, u, NO_HISTORY, s.staging, s.objects)
    requires forall j {:trigger s.t.uploads[j]} | j in s.t.uploads ::
      s.t.uploads[j].stagingKey != u.stagingKey && s.t.uploads[j].finalKey != u.finalKey
    ensures UploadsOk(cfg, s2) && DistinctKeys(s2.t.uploads)
  {
    forall j | j in s2.t.uploads ensures UploadAt(cfg, s2, j) {
      if j != id { assert UploadAt(cfg, s, j); }
    }
    forall i, j | i in s2.t.uploads && j in s2.t.uploads && i != j ensures Apart(s2.t.uploads, i, j) {
      if i != id && j != id { assert Apart(s.t.uploads, i, j); }
    }
  }

  /** A new upload row may only loosen what is known about children of its parent. */
  lemma NewRef(t: Tables, id: Id, u: Upload)
    requires TablesInv(t) && id !in t.uploads && u.parent in t.nodes && t.nodes[u.parent].kind == Folder
    ensures TablesInv(t.(uploads := t.uploads[id := u]))
  {
    var us := t.uploads[id := u];
    forall p ensures p in UploadParents(us) <==> p in UploadParents(t.uploads) + {u.parent} {
      if p in UploadParents(t.uploads) {
        var j :| j in t.uploads && t.uploads[j].parent == p;
        assert j in us && us[j].parent == p;
      }
      assert us[id].parent in UploadParents(us);
    }
    forall x | x in t.nodes ensures TrashClosed(t.nodes, UploadParents(us), x) {
      assert TrashClosed(t.nodes, UploadParents(t.uploads), x);
    }
  }

  // ---------------------------------------------------------------- writing chunks

  lemma AppendKeeps(cfg: Config, s: Sys, id: Id, offset: int, bytes: Bytes, now: int, torn: bool)
    requires Inv(cfg, s) && s.pc.Idle? && MayAppend(s, id, offset, now)
    ensures Inv(cfg, StepAppend(s, id, bytes, if torn then Idle else Appended(id, bytes)))
  {
    hide TablesInv, DistinctKeys, WithinQuota, FilesOk;
    var s2 := StepAppend(s, id, bytes, if torn then Idle else Appended(id, bytes));
    var u, h := s.t.uploads[id], s.hist[id];
    assert UploadAt(cfg, s, id);
    assert s2.t == s.t.(uploads := s.t.uploads[id := u]);
    assert s2.staging - {u.stagingKey} == s.staging - {u.stagingKey};
    assert bytes == [] ==> s.staging[u.stagingKey] + bytes == s.staging[u.stagingKey];
    OneRowKeeps(cfg, s, s2, id, u, s2.hist[id]);
  }

  lemma RecordRow(cfg: Config, s: Sys)
    requires s.pc.Appended? && PcOk(cfg, s) && UploadAt(cfg, s, s.pc.id)
    requires s.t.uploads[s.pc.id].received + |s.pc.chunk| <= s.t.uploads[s.pc.id].expected
    ensures var s2 := StepRecord(s); var id := s.pc.id;
      && id in s2.t.uploads && id in s2.hist && OneRow(s, s2, id, s2.t.uploads[id], s2.hist[id])
      && s2.staging == s.staging && s2.objects == s.objects && PcOk(cfg, s2)
      && s2.t.uploads[id].state in {Receiving, Verifying} && s2.t.uploads[id].expected == s.t.uploads[id].expected
      && UploadOk(cfg, s2.t.uploads[id], s2.hist[id], s2.staging, s2.objects)
  {
  }

  lemma RecordKeeps(cfg: Config, s: Sys)
    requires Inv(cfg, s) && s.pc.Appended?
    requires s.t.uploads[s.pc.id].received + |s.pc.chunk| <= s.t.uploads[s.pc.id].expected
    ensures Inv(cfg, StepRecord(s))
  {
    hide TablesInv, DistinctKeys, FilesOk, DoomedOk, WithinQuota, StepRecord;
    var s2 := StepRecord(s);
    assert UploadAt(cfg, s, s.pc.id);
    RecordRow(cfg, s);
    OneRowKeeps(cfg, s, s2, s.pc.id, s2.t.uploads[s.pc.id], s2.hist[s.pc.id]);
  }

  lemma RecordStep(cfg: Config, s: Sys)
    requires Inv(cfg, s)
    ensures Inv(cfg, StepRecord(s))
  {
    hide TablesInv, UsedOk, DistinctKeys, UploadAt, FilesOk, DoomedOk, WithinQuota;
    if s.pc.Appended? {
      var id := s.pc.id;
      if s.t.uploads[id].received + |s.pc.chunk| > s.t.uploads[id].expected {
        PcKeeps(cfg, s, s.(pc := Idle));
      } else {
        RecordKeeps(cfg, s);
      }
    }
  }

  lemma PhaseARow(cfg: Config, s: Sys)
    requires s.pc.Verified? && UploadAt(cfg, s, s.pc.id) && s.t.uploads[s.pc.id].state == Verifying
    ensures var s2 := StepPhaseA(cfg, s); var id := s.pc.id;
      && id in s2.t.uploads && OneRow(s, s2, id, s2.t.uploads[id], s.hist[id])
      && s2.staging == s.staging && s2.objects == s.objects && s2.pc == Intent(id) && PcOk(cfg, s2)
      && s2.t.uploads[id].state == Finalizing && s2.t.uploads[id].expected == s.t.uploads[id].expected
      && UploadOk(cfg, s2.t.uploads[id], s.hist[id], s2.staging, s2.objects)
  {
    assert s.hist == s.hist[s.pc.id := s.hist[s.pc.id]];
  }

  lemma PhaseAKeeps(cfg: Config, s: Sys)
    requires Inv(cfg, s) && s.pc.Verified?
    ensures Inv(cfg, StepPhaseA(cfg, s))
  {
    hide TablesInv, DistinctKeys, FilesOk, DoomedOk, WithinQuota, StepPhaseA;
    var s2 := StepPhaseA(cfg, s);
    assert UploadAt(cfg, s, s.pc.id);
    PhaseARow(cfg, s);
    OneRowKeeps(cfg, s, s2, s.pc.id, s2.t.uploads[s.pc.id], s.hist[s.pc.id]);
  }

  lemma PhaseAStep(cfg: Config, s: Sys)
    requires Inv(cfg, s)
    ensures Inv(cfg, StepPhaseA(cfg, s))
  {
    hide Inv;
    if s.pc.Verified? { PhaseAKeeps(cfg, s); }
  }

  /** The rename carries the bytes over unchanged. */
  lemma MoveFileKeeps(cfg: Config, s: Sys, id: Id, s2: Sys)
    requires Inv(cfg, s) && id in s.t.uploads && s.t.uploads[id].state == Finalizing
    requires s.t.uploads[id].stagingKey in s.staging
    requires s2 == MoveStagingToObject(s, s.t.uploads[id], s2.pc) && PcOk(cfg, s2)
    ensures Inv(cfg, s2)
  {
    hide TablesInv, FilesOk, DoomedOk, DistinctKeys, WithinQuota, HexKey;
    var u := s.t.uploads[id];
    assert UploadAt(cfg, s, id);
    assert s2.t == s.t.(uploads := s.t.uploads[id := u]) && s2.hist == s.hist[id := s.hist[id]];
    assert s2.staging - {u.stagingKey} == s.staging - {u.stagingKey};
    assert s2.objects - {u.finalKey} == s.objects - {u.finalKey};
    assert u.finalKey in s.used;
    OneRowKeeps(cfg, s, s2, id, u, s.hist[id]);
  }

  lemma PhaseBStep(cfg: Config, s: Sys)
    requires Inv(cfg, s)
    ensures Inv(cfg, StepPhaseB(s))
  {
    hide TablesInv, UsedOk, FilesOk, DoomedOk, DistinctKeys, WithinQuota;
    if s.pc.Intent? { MoveFileKeeps(cfg, s, s.pc.id, StepPhaseB(s)); }
  }

  // ---------------------------------------------------------------- committing a file

  /** With the invariant the repair transaction has two outcomes: the whole commit, or, when the name is taken,
      only the completed row. */
  lemma RepairIsCommit(cfg: Config, s: Sys, id: Id, node: Id)
    requires Inv(cfg, s) && id in s.t.uploads && s.t.uploads[id].state == Finalizing && node !in s.used
    ensures s.t.uploads[id].sha.Some?
    ensures var r := CommitFile(s.t, id, node, s.t.uploads[id].sha.value);
      && (r.Ok? <==> RowFits(s.t.nodes, node, FileRow(s.t.uploads[id])))
      && RepairFile(s.t, id, node) == (if r.Ok? then r.value else Close(s.t, id, Complete))
      && (r.Ok? ==> r.value == Committed(s.t, id, node))
      && (node in RepairFile(s.t, id, node).files <==> r.Ok?)
  {
    assert UploadAt(cfg, s, id);
    UnfinishedKey(cfg, s, id);
    assert s.t.uploads[id].parent in UploadParents(s.t.uploads);
    assert node !in s.t.files;
  }

  /** The tables after a successful commit. */
  function Committed(t: Tables, id: Id, node: Id): Tables
    requires id in t.uploads
  {
    var u := t.uploads[id];
    Close(t.(nodes := t.nodes[node := FileRow(u)],
             files := t.files[node := FileObject(u.finalKey, u.expected, if u.sha.Some? then u.sha.value else "")]), id,
               Complete)
  }

  /** Phase C moves the reserved bytes to the stored bytes: the quota total does not change. */
  lemma CommitConservesQuota(t: Tables, id: Id, node: Id)
    requires id in t.uploads && node !in t.files && Active(t.uploads[id].state)
    requires t.uploads[id].reservation == t.uploads[id].expected
    ensures StoredBytes(Committed(t, id, node)) == StoredBytes(t) + t.uploads[id].expected
    ensures ReservedBytes(Committed(t, id, node)) == ReservedBytes(t) - t.uploads[id].expected
  {
    var t2 := Committed(t, id, node);
    HoldsPut(t.uploads, id, t2.uploads[id]);
    SumPut(Sizes(t.files), node, t.uploads[id].expected);
    assert Sizes(t2.files) == Sizes(t.files)[node := t.uploads[id].expected];
  }

  lemma CommitTables(t: Tables, id: Id, node: Id)
    requires TablesInv(t) && id in t.uploads && node !in t.nodes && node != ""
    requires RowFits(t.nodes, node, FileRow(t.uploads[id])) && !KeyStored(t.files, t.uploads[id].finalKey)
    ensures TablesInv(Committed(t, id, node))
  {
    var u := t.uploads[id];
    var t2 := Committed(t, id, node);
    assert u.parent in UploadParents(t.uploads);
    InsertKeeps(t.nodes, UploadParents(t.uploads), node, FileRow(u));
    SameParents(t.uploads, id, t2.uploads[id]);
  }

  lemma CommittedFiles(cfg: Config, s: Sys, s2: Sys, id: Id, node: Id)
    requires Inv(cfg, s) && id in s.t.uploads && s.t.uploads[id].state == Finalizing && node !in s.used
    requires s.t.uploads[id].finalKey in s.objects
    requires s2.t == Committed(s.t, id, node) && s2.objects == s.objects
    requires s2.hist == Counted(s.hist, id, true)
    ensures FilesOk(cfg, s2)
  {
    assert UploadAt(cfg, s, id);
    forall n | n in s2.t.files ensures FileOk(cfg, s2, n) {
      if n == node {
        assert FileOf(cfg, s2, s2.t.files[node], id);
      } else {
        assert FileOk(cfg, s, n);
        var j :| FileOf(cfg, s, s.t.files[n], j);
        assert FileOf(cfg, s2, s2.t.files[n], j);
      }
    }
  }

  lemma CommitKeeps(cfg: Config, s: Sys, s2: Sys, id: Id, node: Id)
    requires Inv(cfg, s) && id in s.t.uploads && s.t.uploads[id].state == Finalizing && node !in s.used
    requires s.t.uploads[id].finalKey in s.objects && RowFits(s.t.nodes, node, FileRow(s.t.uploads[id]))
    requires s2 == s.(t := Committed(s.t, id, node), hist := Counted(s.hist, id, true), used := s.used + {node},
      pc := s2.pc)
    requires PcOk(cfg, s2)
    ensures Inv(cfg, s2)
  {
    assert UploadAt(cfg, s, id);
    UnfinishedKey(cfg, s, id);
    CommitTables(s.t, id, node);
    CommittedFiles(cfg, s, s2, id, node);
    CommitConservesQuota(s.t, id, node);
    CompleteRow(cfg, s, s2, id);
    assert UsedOk(s2) && DoomedOk(s2) by {
      UsedAfterCommit(s, s2, id, node);
      DoomedAfterCommit(s, s2, id, node);
    }
  }

  lemma UsedAfterCommit(s: Sys, s2: Sys, id: Id, node: Id)
    requires UsedOk(s) && id in s.t.uploads && id in s.hist && node !in s.used
    requires s2 == s.(t := Committed(s.t, id, node), hist := Counted(s.hist, id, true), used := s.used + {node},
      pc := s2.pc)
    ensures UsedOk(s2)
  {
    forall j | j in s2.t.uploads ensures KeysDrawn(s2.used, s2.t.uploads[j]) {
      assert KeysDrawn(s.used, s.t.uploads[j]);
    }
  }

  lemma DoomedAfterCommit(s: Sys, s2: Sys, id: Id, node: Id)
    requires DoomedOk(s) && id in s.t.uploads && s.t.uploads[id].state == Finalizing
    requires s2.t == Committed(s.t, id, node) && s2.doomed == s.doomed
    ensures DoomedOk(s2)
  {
    forall k | k in s2.doomed ensures !KeyStored(s2.t.files, k) && Spent(s2.t.uploads, k) {
      assert !KeyStored(s.t.files, k) && Spent(s.t.uploads, k) && s.t.uploads[id].finalKey != k;
      forall j | j in s2.t.uploads && s2.t.uploads[j].finalKey == k ensures s2.t.uploads[j].state == Complete {
        assert j in s.t.uploads && s.t.uploads[j].finalKey == k;
      }
    }
  }

  /** Completing one row leaves every upload's bookkeeping right. */
  lemma CompleteRow(cfg: Config, s: Sys, s2: Sys, id: Id)
    requires UploadsOk(cfg, s) && DistinctKeys(s.t.uploads) && id in s.t.uploads && s.t.uploads[id].state == Finalizing
    requires s2.t.uploads == Close(s.t, id, Complete).uploads && s2.staging == s.staging && s2.objects == s.objects
    requires s2.hist == s.hist || s2.hist == Counted(s.hist, id, true)
    ensures UploadsOk(cfg, s2) && DistinctKeys(s2.t.uploads)
  {
    forall j | j in s2.t.uploads ensures UploadAt(cfg, s2, j) {
      assert UploadAt(cfg, s, j);
    }
    forall i, j | i in s2.t.uploads && j in s2.t.uploads && i != j ensures Apart(s2.t.uploads, i, j) {
      assert Apart(s.t.uploads, i, j);
    }
  }

  /** The reconciler completing an upload whose name is taken: the row closes, nothing is inserted. */
  lemma CloseKeeps(cfg: Config, s: Sys, s2: Sys, id: Id)
    requires Inv(cfg, s) && id in s.t.uploads && s.t.uploads[id].state == Finalizing
    requires s2 == s.(t := Close(s.t, id, Complete), used := s2.used, pc := s2.pc) && s.used <= s2.used && PcOk(cfg, s2)
    ensures Inv(cfg, s2)
  {
    hide TablesInv, UploadsOk, DistinctKeys, FileOk, Sum, HexKey;
    var u := s2.t.uploads[id];
    SameRefs(s.t, id, u);
    HoldsPut(s.t.uploads, id, u);
    FilesCarry(cfg, s, s2);
    CompleteRow(cfg, s, s2, id);
    forall k | k in s2.doomed ensures !KeyStored(s2.t.files, k) && Spent(s2.t.uploads, k) {
      assert Spent(s.t.uploads, k);
      forall j | j in s2.t.uploads && s2.t.uploads[j].finalKey == k ensures s2.t.uploads[j].state == Complete {
        assert j in s.t.uploads && s.t.uploads[j].finalKey == k;
      }
    }
    forall j | j in s2.t.uploads ensures KeysDrawn(s2.used, s2.t.uploads[j]) {
      assert KeysDrawn(s.used, s.t.uploads[j]);
    }
  }

  lemma PhaseCStep(cfg: Config, s: Sys, node: Id)
    requires Inv(cfg, s)
    ensures Inv(cfg, StepPhaseC(s, node))
  {
    hide TablesInv, UsedOk, DistinctKeys, FilesOk, DoomedOk, WithinQuota;
    if s.pc.Renamed? && node !in s.used {
      var id := s.pc.id;
      assert UploadAt(cfg, s, id);
      RepairIsCommit(cfg, s, id, node);
      var r := CommitFile(s.t, id, node, s.t.uploads[id].sha.value);
      if r.Err? {
        PcKeeps(cfg, s, s.(pc := Idle));
      } else {
        CommitKeeps(cfg, s, s.(t := r.value, hist := Counted(s.hist, id, true), used := s.used + {node}, pc := Idle),
          id, node);
      }
    }
  }

  lemma RepairKeeps(cfg: Config, s: Sys, s2: Sys, id: Id, node: Id)
    requires Inv(cfg, s) && id in s.t.uploads && s.t.uploads[id].state == Finalizing && node !in s.used
    requires s.t.uploads[id].finalKey in s.objects && s2 == Repair(s, id, node, s2.pc) && PcOk(cfg, s2)
    ensures Inv(cfg, s2)
  {
    RepairIsCommit(cfg, s, id, node);
    if RowFits(s.t.nodes, node, FileRow(s.t.uploads[id])) {
      CommitKeeps(cfg, s, s2, id, node);
    } else {
      CloseKeeps(cfg, s, s2, id);
    }
  }
}
