/** What holds in every run from the freshly migrated database and empty storage: uploads, tree and share
    operations, purges, reconciliations, failures and crashes in any order. */
module Safety {
  import opened Basics
  import opened Schema
  import opened Forest
  import opened Tree
  import opened Purge
  import opened Machine
  import opened Invariant
  import opened Steps
  import opened Reconciling
  import opened Frames

  ghost function After(cfg: Config, actions: seq<Action>): Sys {
    Run(cfg, INITIAL_SYS, actions)
  }

  lemma Reachable(cfg: Config, actions: seq<Action>)
    requires Sane(cfg)
    ensures Inv(cfg, After(cfg, actions))
  {
    InitialInv(cfg);
    RunKeeps(cfg, INITIAL_SYS, actions);
  }

  /** No dangling metadata: every committed file has its object on disk, and the recorded checksum is that of the
      object's bytes, whatever crashed or was purged in between. */
  lemma NoDanglingFile(cfg: Config, actions: seq<Action>, n: Id)
    requires Sane(cfg) && n in After(cfg, actions).t.files
    ensures var s := After(cfg, actions);
      && n in s.t.nodes && s.t.nodes[n].kind == File
      && s.t.files[n].storageKey in s.objects
      && s.t.files[n].sha == cfg.sha(s.objects[s.t.files[n].storageKey])
  {
    Reachable(cfg, actions);
    var s := After(cfg, actions);
    assert FileOk(cfg, s, n);
    var id :| FileOf(cfg, s, s.t.files[n], id);
  }

  /** A committed file belongs to the upload whose final key it carries. */
  lemma Owner(cfg: Config, s: Sys, n: Id, id: Id)
    requires FilesOk(cfg, s) && DistinctKeys(s.t.uploads)
    requires n in s.t.files && id in s.t.uploads && s.t.uploads[id].finalKey == s.t.files[n].storageKey
    ensures FileOf(cfg, s, s.t.files[n], id)
  {
    assert FileOk(cfg, s, n);
    var j :| FileOf(cfg, s, s.t.files[n], j);
    forall i | i in s.t.uploads && i != j ensures s.t.uploads[i].finalKey != s.t.files[n].storageKey {
      assert Apart(s.t.uploads, i, j);
    }
  }

  // ---------------------------------------------------------------- failures whose errors are dropped

  /** No query for a quota sum fails in the run. */
  predicate SumsRead(actions: seq<Action>) {
    forall i | 0 <= i < |actions| :: !actions[i].ReadStoredFails? && !actions[i].ReadReservedFails?
  }

  /** No expiry in the run loses the update of its row. */
  predicate ExpiriesWritten(actions: seq<Action>) {
    forall i | 0 <= i < |actions| :: !actions[i].ExpireFails?
  }

  lemma BlindFrame(cfg: Config, s: Sys, a: Action)
    requires !a.ReadStoredFails? && !a.ReadReservedFails?
    ensures Step(cfg, s, a).blind == s.blind
  {
    hide StepFree, StepReconcile, StepUpload;
    BlindFree(cfg, s, a);
    BlindReconcile(s, a);
    BlindUpload(cfg, s, a);
  }

  lemma BlindFree(cfg: Config, s: Sys, a: Action)
    ensures StepFree(cfg, s, a).blind == s.blind
  {
    hide CreateFolder, Rename, Move, Trash, Restore, PurgeNode, Enumerates;
  }

  lemma BlindReconcile(s: Sys, a: Action)
    ensures StepReconcile(s, a).blind == s.blind
  {
    hide RepairFile, KeyStored, Enumerates;
  }

  lemma BlindUpload(cfg: Config, s: Sys, a: Action)
    requires !a.ReadStoredFails? && !a.ReadReservedFails?
    ensures StepUpload(cfg, s, a).blind == s.blind
  {
    hide CommitFile, OverQuota, MayAppend, MayDraw;
  }

  lemma {:induction false} StaysSighted(cfg: Config, s: Sys, actions: seq<Action>)
    requires !s.blind && SumsRead(actions)
    ensures !Run(cfg, s, actions).blind
    decreases |actions|
  {
    if actions != [] {
      hide Step;
      BlindFrame(cfg, s, actions[0]);
      StaysSighted(cfg, Step(cfg, s, actions[0]), actions[1..]);
    }
  }

  ghost predicate NoneDropped(s: Sys) {
    forall id | id in s.hist :: !s.hist[id].dropped
  }

  lemma DropFrame(cfg: Config, s: Sys, a: Action)
    requires !a.ExpireFails? && NoneDropped(s)
    ensures NoneDropped(Step(cfg, s, a))
  {
    hide StepFree, StepReconcile, StepUpload, NoneDropped;
    DropFree(cfg, s, a);
    DropReconcile(s, a);
    DropUpload(cfg, s, a);
  }

  lemma DropFree(cfg: Config, s: Sys, a: Action)
    requires NoneDropped(s)
    ensures NoneDropped(StepFree(cfg, s, a))
  {
    hide CreateFolder, Rename, Move, Trash, Restore, PurgeNode, Enumerates;
  }

  lemma DropReconcile(s: Sys, a: Action)
    requires !a.ExpireFails? && NoneDropped(s)
    ensures NoneDropped(StepReconcile(s, a))
  {
    hide RepairFile, KeyStored, Enumerates;
  }

  lemma DropUpload(cfg: Config, s: Sys, a: Action)
    requires NoneDropped(s)
    ensures NoneDropped(StepUpload(cfg, s, a))
  {
    if Creating(a) {
      hide StepUpload;
      DropCreating(cfg, s, a);
    } else {
      hide CommitFile, MayAppend;
    }
  }

  lemma DropCreating(cfg: Config, s: Sys, a: Action)
    requires NoneDropped(s) && Creating(a)
    ensures NoneDropped(StepUpload(cfg, s, a))
  {
    hide OverQuota, MayDraw, SlotFree, MayAppend;
  }

  lemma {:induction false} NoneEverDropped(cfg: Config, s: Sys, actions: seq<Action>)
    requires NoneDropped(s) && ExpiriesWritten(actions)
    ensures NoneDropped(Run(cfg, s, actions))
    decreases |actions|
  {
    if actions != [] {
      hide Step, NoneDropped;
      DropFrame(cfg, s, actions[0]);
      NoneEverDropped(cfg, Step(cfg, s, actions[0]), actions[1..]);
    }
  }

  // ---------------------------------------------------------------- quota, content, copies

  /** Stored bytes and reservations together never exceed the quota, although the two sums are read at different
      times and purges run in between, unless a sum could not be read (Witnesses.QuotaBroken). */
  lemma QuotaHolds(cfg: Config, actions: seq<Action>)
    requires Sane(cfg) && SumsRead(actions)
    ensures StoredBytes(After(cfg, actions).t) + ReservedBytes(After(cfg, actions).t) <= cfg.maxStorage
  {
    Reachable(cfg, actions);
    StaysSighted(cfg, INITIAL_SYS, actions);
  }

  /** The int64 guard of the quota is right for all sums it can meet exactly when the two limits together fit. */
  lemma GuardRightIff(max: int, maxFile: int)
    requires 0 <= max < 0x8000_0000_0000_0000 && 0 <= maxFile < 0x8000_0000_0000_0000
    ensures max + maxFile < 0x8000_0000_0000_0000 <==> GuardRight(max, maxFile)
  {
    if max + maxFile >= 0x8000_0000_0000_0000 {
      assert OverQuota(max, max, 0, maxFile) != (max + 0 + maxFile > max);
    }
  }

  ghost predicate GuardRight(max: int, maxFile: int) {
    forall stored: nat, reserved: nat, size: nat | stored + reserved <= max && size <= maxFile ::
      OverQuota(max, stored, reserved, size) == (stored + reserved + size > max)
  }

  /** The object of a committed file is the concatenation of the chunks its upload accepted, with the recorded
      length, exactly when no rejected, torn or crashed write left stray bytes in the staging file. */
  lemma ContentExactIff(cfg: Config, actions: seq<Action>, n: Id, id: Id)
    requires Sane(cfg)
    requires var s := After(cfg, actions);
      n in s.t.files && id in s.t.uploads && s.t.uploads[id].finalKey == s.t.files[n].storageKey
    ensures var s := After(cfg, actions);
      && id in s.hist && s.t.files[n].storageKey in s.objects
      && s.t.files[n].size == s.t.uploads[id].expected == |s.hist[id].accepted|
      && (s.objects[s.t.files[n].storageKey] == s.hist[id].accepted <==> s.hist[id].stray == 0)
      && (|s.objects[s.t.files[n].storageKey]| == s.t.files[n].size <==> s.hist[id].stray == 0)
  {
    Reachable(cfg, actions);
    var s := After(cfg, actions);
    Owner(cfg, s, n, id);
  }

  /** While an upload still takes or checks bytes its object does not exist, and its staging file does exactly unless an
      expiry removed it without writing the row (Witnesses.StagingLost). While it is being finalised exactly one of
      the two exists. No upload is ever marked failed. */
  lemma OneCopy(cfg: Config, actions: seq<Action>, id: Id)
    requires Sane(cfg) && id in After(cfg, actions).t.uploads
    ensures var s := After(cfg, actions); var u := s.t.uploads[id];
      && id in s.hist && (ExpiriesWritten(actions) ==> !s.hist[id].dropped)
      && (Open(u.state) ==> u.finalKey !in s.objects && (u.stagingKey in s.staging <==> !s.hist[id].dropped))
      && (u.state == Finalizing ==> ((u.stagingKey in s.staging) <==> (u.finalKey !in s.objects)))
      && u.state != Failed
  {
    Reachable(cfg, actions);
    assert UploadAt(cfg, After(cfg, actions), id);
    if ExpiriesWritten(actions) { NoneEverDropped(cfg, INITIAL_SYS, actions); }
  }

  /** An upload is remembered as dropped from the step on in which an expiry of its own row loses the update. */
  lemma DroppedExactly(cfg: Config, actions: seq<Action>, a: Action, id: Id)
    requires Sane(cfg) && id in After(cfg, actions).t.uploads
    ensures var s, s2 := After(cfg, actions), Step(cfg, After(cfg, actions), a);
      && id in s.hist && id in s2.hist
      && (s2.hist[id].dropped <==>
            s.hist[id].dropped || (a.ExpireFails? && s.pc.Expiring? && s.pc.todo != [] && s.pc.todo[0] == id))
  {
    hide TablesInv, DistinctKeys, UploadAt, FilesOk, DoomedOk, WithinQuota, PcOk, StepFree, StepUpload, StepReconcile;
    var s := After(cfg, actions);
    Reachable(cfg, actions);
    if LockFree(a) {
      FreeFrame(cfg, s, a);
    } else if OfReconcile(a) {
      ReconcileDrops(s, a, id);
    } else {
      UploadDrops(cfg, s, a, id);
    }
  }

  lemma ReconcileDrops(s: Sys, a: Action, id: Id)
    requires id in s.t.uploads && id in s.hist
    ensures var s2 := StepReconcile(s, a);
      && id in s2.hist
      && (s2.hist[id].dropped <==>
            s.hist[id].dropped || (a.ExpireFails? && s.pc.Expiring? && s.pc.todo != [] && s.pc.todo[0] == id))
  {
    hide RepairFile, KeyStored, Enumerates, ExpiredIds, FinalizingIds;
  }

  lemma UploadDrops(cfg: Config, s: Sys, a: Action, id: Id)
    requires id in s.hist && id in s.used
    ensures id in StepUpload(cfg, s, a).hist && StepUpload(cfg, s, a).hist[id].dropped == s.hist[id].dropped
  {
    if Creating(a) {
      hide StepUpload;
      CreatingDrops(cfg, s, a, id);
    } else {
      hide CommitFile, MayAppend;
    }
  }

  lemma CreatingDrops(cfg: Config, s: Sys, a: Action, id: Id)
    requires Creating(a) && id in s.hist && id in s.used
    ensures id in StepUpload(cfg, s, a).hist && StepUpload(cfg, s, a).hist[id].dropped == s.hist[id].dropped
  {
    hide OverQuota, MayDraw, SlotFree;
  }

  /** The history decides nothing: wherever a step tests it, the test succeeds in every reachable state. */
  lemma HistoryIdle(cfg: Config, actions: seq<Action>)
    requires Sane(cfg)
    ensures var s := After(cfg, actions);
      && s.t.uploads.Keys == s.hist.Keys
      && (s.pc.Appended? ==> s.pc.id in s.hist && |s.pc.chunk| <= s.hist[s.pc.id].stray)
  {
    hide TablesInv, UsedOk, DistinctKeys, FilesOk, DoomedOk, WithinQuota, UploadAt;
    Reachable(cfg, actions);
  }

  /** Byte counts and reservations follow the state. */
  lemma Bookkeeping(cfg: Config, actions: seq<Action>, id: Id)
    requires Sane(cfg) && id in After(cfg, actions).t.uploads
    ensures var s := After(cfg, actions); var u := s.t.uploads[id];
      && u.received <= u.expected
      && u.reservation == (if Active(u.state) then u.expected else 0)
      && (u.state in {Verifying, Finalizing, Complete} ==> u.received == u.expected)
      && (Open(u.state) && u.stagingKey in s.staging ==> |s.staging[u.stagingKey]| >= u.received)
      && (u.state == Verifying ==> u.stagingKey in s.staging)
  {
    Reachable(cfg, actions);
    assert UploadAt(cfg, After(cfg, actions), id);
  }

  /** What the holder of the mutex has read of an unfinished upload stands whatever comes in between: its row, its
      two files, and that no file row carries its key. */
  lemma ReadsStand(cfg: Config, actions: seq<Action>, a: Action, id: Id)
    requires Sane(cfg) && LockFree(a)
    requires id in After(cfg, actions).t.uploads && After(cfg, actions).t.uploads[id].state != Complete
    ensures var s, s2 := After(cfg, actions), Step(cfg, After(cfg, actions), a); var u := s.t.uploads[id];
      && s2.t.uploads == s.t.uploads && s2.staging == s.staging
      && (u.finalKey in s2.objects <==> u.finalKey in s.objects)
      && !KeyStored(s.t.files, u.finalKey) && !KeyStored(s2.t.files, u.finalKey)
  {
    var s := After(cfg, actions);
    Reachable(cfg, actions);
    ReadsStandHere(cfg, s, a, id);
  }

  lemma ReadsStandHere(cfg: Config, s: Sys, a: Action, id: Id)
    requires Inv(cfg, s) && LockFree(a) && id in s.t.uploads && s.t.uploads[id].state != Complete
    ensures var s2 := StepFree(cfg, s, a); var u := s.t.uploads[id];
      && s2.t.uploads == s.t.uploads && s2.staging == s.staging
      && (u.finalKey in s2.objects <==> u.finalKey in s.objects)
      && !KeyStored(s.t.files, u.finalKey) && !KeyStored(s2.t.files, u.finalKey)
  {
    hide UsedOk, UploadsOk, DistinctKeys, FilesOk, PcOk, WithinQuota, TreeInv, RefsSound;
    var u := s.t.uploads[id];
    FreeFrame(cfg, s, a);
    UnfinishedOf(cfg, s, id);
    FewerKeys(s.t.files, StepFree(cfg, s, a).t.files, u.finalKey);
    assert u.finalKey in s.doomed ==> Spent(s.t.uploads, u.finalKey);
    ObjectsFrame(cfg, s, a, u.finalKey);
  }

  lemma ObjectsFrame(cfg: Config, s: Sys, a: Action, k: Key)
    requires k !in s.doomed
    ensures k in StepFree(cfg, s, a).objects <==> k in s.objects
  {
    if OnTree(a) {
      hide StepFree;
      TreeKeepsObjects(cfg, s, a);
    } else {
      hide PurgeNode, Enumerates;
    }
  }

  lemma TreeKeepsObjects(cfg: Config, s: Sys, a: Action)
    requires OnTree(a)
    ensures StepFree(cfg, s, a).objects == s.objects
  {
    hide CreateFolder, Rename, Move, Trash, Restore;
  }

  // ---------------------------------------------------------------- at most one file

  /** File nodes and file rows correspond one to one. */
  lemma FilesAndNodesMatch(cfg: Config, actions: seq<Action>, n: Id)
    requires Sane(cfg)
    ensures var s := After(cfg, actions); n in s.t.files <==> n in s.t.nodes && s.t.nodes[n].kind == File
  {
    hide TreeInv;
    Reachable(cfg, actions);
  }

  /** A file row that appears is that of an upload: its node is new and lies, untrashed, in the folder and under the
      name the upload row gives, and size and checksum are the row's. */
  lemma CommittedAsRequested(cfg: Config, actions: seq<Action>, a: Action, n: Id)
    requires Sane(cfg)
    ensures var s, s2 := After(cfg, actions), Step(cfg, After(cfg, actions), a);
      n in s2.t.files && n !in s.t.files ==>
        exists id | id in s.t.uploads :: var u := s.t.uploads[id];
          && s2.t.files[n].storageKey == u.finalKey && s2.t.files[n].size == u.expected
          && u.sha == Some(s2.t.files[n].sha)
          && n !in s.t.nodes && n in s2.t.nodes
          && s2.t.nodes[n] == Node(Some(u.parent), File, u.name, false, None, false)
  {
    hide TablesInv, UsedOk, DistinctKeys, UploadsOk, FilesOk, DoomedOk, WithinQuota, PcOk, Step;
    var s := After(cfg, actions);
    Reachable(cfg, actions);
    if LockFree(a) {
      hide StepFree;
      FreeFiles(cfg, s, a);
    } else if Committing(s, a).None? {
      FilesStill(cfg, s, a);
    } else if n in Step(cfg, s, a).t.files && n !in s.t.files {
      CommittedRow(cfg, s, a, n);
    }
  }

  lemma FreeFiles(cfg: Config, s: Sys, a: Action)
    requires TablesInv(s.t) && LockFree(a)
    ensures Step(cfg, s, a).t.files.Keys <= s.t.files.Keys
  {
    hide TablesInv, StepFree, StepUpload, StepReconcile;
    FreeFrame(cfg, s, a);
  }

  lemma FilesStill(cfg: Config, s: Sys, a: Action)
    requires !LockFree(a) && Committing(s, a).None?
    ensures Step(cfg, s, a).t.files == s.t.files
  {
    hide StepUpload, StepReconcile;
    if OfReconcile(a) { ReconcileFiles(s, a); } else { UploadFiles(cfg, s, a); }
  }

  lemma UploadFiles(cfg: Config, s: Sys, a: Action)
    requires Committing(s, a).None?
    ensures StepUpload(cfg, s, a).t.files == s.t.files
  {
    if Creating(a) {
      hide StepUpload;
      if a.InsertUpload? { InsertFiles(cfg, s, a); } else { OnlyInsertWrites(cfg, s, a); }
    } else {
      hide MayAppend, CommitFile;
    }
  }

  lemma InsertFiles(cfg: Config, s: Sys, a: Action)
    requires a.InsertUpload?
    ensures StepUpload(cfg, s, a).t.files == s.t.files
  {
  }

  lemma ReconcileFiles(s: Sys, a: Action)
    requires Committing(s, a).None?
    ensures StepReconcile(s, a).t.files == s.t.files
  {
    if a.ResolveNext? || a.CommitMoved? {
      hide Repair, KeyStored;
    } else {
      hide ExpiredIds, FinalizingIds, Enumerates;
    }
  }

  lemma CommittedRow(cfg: Config, s: Sys, a: Action, n: Id)
    requires Inv(cfg, s) && !LockFree(a) && Committing(s, a).Some? && n in Step(cfg, s, a).t.files && n !in s.t.files
    ensures var id, s2 := Committing(s, a).value, Step(cfg, s, a);
      && id in s.t.uploads && var u := s.t.uploads[id];
      && s2.t.files[n].storageKey == u.finalKey && s2.t.files[n].size == u.expected && u.sha == Some(s2.t.files[n].sha)
      && n !in s.t.nodes && n in s2.t.nodes && s2.t.nodes[n] == Node(Some(u.parent), File, u.name, false, None, false)
  {
    hide TablesInv, UsedOk, DistinctKeys, UploadsOk, FilesOk, DoomedOk, WithinQuota, PcOk, Step, RepairFile, CommitFile,
      RowFits;
    var id := Committing(s, a).value;
    PcPoints(cfg, s);
    CommitCases(cfg, s, a, id);
    RepairIsCommit(cfg, s, id, a.node);
    NewNode(s, a.node);
  }

  lemma NewNode(s: Sys, node: Id)
    requires UsedOk(s) && node !in s.used
    ensures node !in s.t.nodes
  {
  }

  /** An upload row that appears holds what was asked for: folder, name and size of the request under way, its whole
      size reserved and nothing received, under the two keys drawn for it. */
  lemma RowAsRequested(cfg: Config, actions: seq<Action>, a: Action, id: Id)
    requires Sane(cfg)
    ensures var s, s2 := After(cfg, actions), Step(cfg, After(cfg, actions), a);
      id in s2.t.uploads && id !in s.t.uploads ==>
        && a.InsertUpload? && id == a.id && s.pc.Staged?
        && s2.t.uploads[id] == Upload(s.pc.req.parent, s.pc.req.name, s.pc.req.size, 0, s.pc.req.size, s.pc.sk, s.pc.fk,
                                      Created, None, a.now + cfg.expiry)
  {
    hide TablesInv, UsedOk, DistinctKeys, UploadsOk, FilesOk, DoomedOk, WithinQuota, PcOk, StepFree, StepUpload,
      StepReconcile, StepInsertUpload;
    var s := After(cfg, actions);
    Reachable(cfg, actions);
    FreeFrame(cfg, s, a);
    ReconcileKeys(s, a);
    InsertUnfolds(cfg, s, a);
    if a.InsertUpload? { InsertedAsAsked(cfg, s, a, id); } else { UploadKeys(cfg, s, a); }
  }

  lemma InsertedAsAsked(cfg: Config, s: Sys, a: Action, id: Id)
    requires a.InsertUpload?
    ensures var s2 := StepInsertUpload(cfg, s, a.id, a.now);
      id in s2.t.uploads && id !in s.t.uploads ==>
        && id == a.id && s.pc.Staged?
        && s2.t.uploads[id] == Upload(s.pc.req.parent, s.pc.req.name, s.pc.req.size, 0, s.pc.req.size, s.pc.sk, s.pc.fk,
                                      Created, None, a.now + cfg.expiry)
  {
  }

  /** An upload commits at most one file, and only a completed upload has one. */
  lemma AtMostOneFile(cfg: Config, actions: seq<Action>, id: Id, m: Id, n: Id)
    requires Sane(cfg)
    requires var s := After(cfg, actions);
      && id in s.t.uploads && m in s.t.files && n in s.t.files
      && s.t.files[m].storageKey == s.t.uploads[id].finalKey == s.t.files[n].storageKey
    ensures var s := After(cfg, actions);
      m == n && s.t.uploads[id].state == Complete && id in s.hist && s.hist[id].commits == 1
  {
    Reachable(cfg, actions);
    var s := After(cfg, actions);
    assert SameKey(s.t.files[m], s.t.files[n]);
    Owner(cfg, s, n, id);
  }

  /** The commit counter counts: it rises by one exactly in the step that gives the upload's key a file row. */
  lemma CounterCounts(cfg: Config, actions: seq<Action>, a: Action, id: Id)
    requires Sane(cfg) && id in After(cfg, actions).t.uploads
    ensures CountsRight(After(cfg, actions), Step(cfg, After(cfg, actions), a), id)
  {
    Reachable(cfg, actions);
    StepCounts(cfg, After(cfg, actions), a, id);
  }

  predicate Gains(s: Sys, s2: Sys, k: Key) {
    !KeyStored(s.t.files, k) && KeyStored(s2.t.files, k)
  }

  ghost predicate CountsRight(s: Sys, s2: Sys, id: Id)
    requires id in s.t.uploads
  {
    && id in s.hist && id in s2.hist
    && s2.hist[id].commits == s.hist[id].commits + (if Gains(s, s2, s.t.uploads[id].finalKey) then 1 else 0)
  }

  /** A step that is no commit gives no key a file row. */
  lemma FewerKeys(fs: FileObjects, fs2: FileObjects, k: Key)
    requires forall n | n in fs2 :: n in fs && fs2[n] == fs[n]
    ensures KeyStored(fs2, k) ==> KeyStored(fs, k)
  {
  }

  lemma StepCounts(cfg: Config, s: Sys, a: Action, id: Id)
    requires Inv(cfg, s) && id in s.t.uploads
    ensures CountsRight(s, Step(cfg, s, a), id)
  {
    hide TablesInv, DistinctKeys, UploadAt, FilesOk, DoomedOk, WithinQuota, PcOk, KeysDrawn, Step, CountsRight;
    if LockFree(a) {
      FreeCounts(cfg, s, a, id);
    } else {
      PcPoints(cfg, s);
      match Committing(s, a)
      case Some(done) => CommitCounts(cfg, s, a, done, id);
      case None => LockedCounts(cfg, s, a, id);
    }
  }

  lemma FreeCounts(cfg: Config, s: Sys, a: Action, id: Id)
    requires TablesInv(s.t) && id in s.t.uploads && id in s.hist && LockFree(a)
    ensures CountsRight(s, Step(cfg, s, a), id)
  {
    hide TablesInv, StepFree, StepUpload, StepReconcile, KeyStored;
    FreeFrame(cfg, s, a);
    FewerKeys(s.t.files, Step(cfg, s, a).t.files, s.t.uploads[id].finalKey);
  }

  lemma LockedCounts(cfg: Config, s: Sys, a: Action, id: Id)
    requires id in s.t.uploads && id in s.hist && id in s.used && !LockFree(a) && Committing(s, a).None?
    ensures CountsRight(s, Step(cfg, s, a), id)
  {
    hide StepFree, StepUpload, StepReconcile, KeyStored;
    UploadCommitsNothing(cfg, s, a, id);
    ReconcileCommitsNothing(s, a, id);
  }

  lemma CommitCounts(cfg: Config, s: Sys, a: Action, done: Id, id: Id)
    requires Inv(cfg, s) && id in s.t.uploads && !LockFree(a) && Committing(s, a) == Some(done)
    requires done in s.t.uploads && s.t.uploads[done].state == Finalizing
    ensures CountsRight(s, Step(cfg, s, a), id)
  {
    hide TablesInv, UploadAt, FilesOk, DoomedOk, WithinQuota, PcOk, Step, RepairFile;
    CommitCases(cfg, s, a, done);
    var s2 := Step(cfg, s, a);
    if !(s2.t.files == s.t.files && s2.hist == s.hist) { RepairCounts(cfg, s, s2, done, a.node, id); }
  }

  lemma RepairCounts(cfg: Config, s: Sys, s2: Sys, done: Id, node: Id, id: Id)
    requires Inv(cfg, s) && done in s.t.uploads && id in s.t.uploads && s.t.uploads[done].state == Finalizing
      && node !in s.used
    requires done in s.hist && s2.t == RepairFile(s.t, done, node)
      && s2.hist == Counted(s.hist, done, node in s2.t.files)
    ensures CountsRight(s, s2, id)
  {
    hide TablesInv, UploadAt, FilesOk, DoomedOk, WithinQuota, PcOk, RepairFile, CommitFile, HexKey, RowFits;
    RepairIsCommit(cfg, s, done, node);
    UnfinishedOf(cfg, s, done);
    var k := s.t.uploads[id].finalKey;
    if node in s2.t.files {
      assert s2.t.files[node].storageKey == s.t.uploads[done].finalKey;
      if id != done {
        assert Apart(s.t.uploads, id, done);
        assert KeyStored(s2.t.files, k) ==> KeyStored(s.t.files, k);
        assert forall n | n in s.t.files :: n in s2.t.files && s2.t.files[n] == s.t.files[n] by { FreshNode(s, node); }
      }
    }
  }

  lemma FreshNode(s: Sys, node: Id)
    requires TablesInv(s.t) && UsedOk(s) && node !in s.used
    ensures node !in s.t.files
  {
  }

  /** How often a step of the run gives the key `k` a file row. */
  ghost function TimesGained(cfg: Config, s: Sys, actions: seq<Action>, k: Key): nat
    decreases |actions|
  {
    if actions == [] then 0
    else
      (if Gains(s, Step(cfg, s, actions[0]), k) then 1 else 0)
      + TimesGained(cfg, Step(cfg, s, actions[0]), actions[1..], k)
  }

  /** Over any history, purges included, at most one step gives an upload's key a file row, and none while the upload
      is not complete. */
  lemma AtMostOnce(cfg: Config, actions: seq<Action>, id: Id)
    requires Sane(cfg) && id in After(cfg, actions).t.uploads
    ensures var u := After(cfg, actions).t.uploads[id];
      TimesGained(cfg, INITIAL_SYS, actions, u.finalKey) <= (if u.state == Complete then 1 else 0)
  {
    hide TablesInv, UsedOk, FilesOk, DoomedOk, WithinQuota, PcOk;
    var s := After(cfg, actions);
    Reachable(cfg, actions);
    InitialInv(cfg);
    CountsAddUp(cfg, INITIAL_SYS, actions, s.t.uploads[id].finalKey);
    assert UploadAt(cfg, s, id);
    CommitsOfOwner(s, s.t.uploads[id].finalKey, id);
  }

  predicate Owns(s: Sys, k: Key, id: Id) {
    id in s.t.uploads && id in s.hist && s.t.uploads[id].finalKey == k
  }

  /** The commits of the upload that owns the key, if there is one. */
  ghost function KeyCommits(s: Sys, k: Key): nat {
    if exists id :: Owns(s, k, id) then var id :| Owns(s, k, id); s.hist[id].commits else 0
  }

  lemma CommitsOfOwner(s: Sys, k: Key, id: Id)
    requires DistinctKeys(s.t.uploads) && Owns(s, k, id)
    ensures KeyCommits(s, k) == s.hist[id].commits
  {
    var j :| Owns(s, k, j) && KeyCommits(s, k) == s.hist[j].commits;
    assert Owns(s, k, j);
    assert j != id ==> Apart(s.t.uploads, j, id);
  }

  lemma {:induction false} CountsAddUp(cfg: Config, s: Sys, actions: seq<Action>, k: Key)
    requires Sane(cfg) && Inv(cfg, s)
    ensures KeyCommits(Run(cfg, s, actions), k) == KeyCommits(s, k) + TimesGained(cfg, s, actions, k)
    decreases |actions|
  {
    hide Inv, Step, Gains, KeyCommits;
    if actions != [] {
      StepKeeps(cfg, s, actions[0]);
      KeyCounts(cfg, s, actions[0], k);
      CountsAddUp(cfg, Step(cfg, s, actions[0]), actions[1..], k);
    }
  }

  lemma KeyCounts(cfg: Config, s: Sys, a: Action, k: Key)
    requires Inv(cfg, s) && Inv(cfg, Step(cfg, s, a))
    ensures KeyCommits(Step(cfg, s, a), k) == KeyCommits(s, k) + (if Gains(s, Step(cfg, s, a), k) then 1 else 0)
  {
    hide TablesInv, UsedOk, UploadAt, DoomedOk, WithinQuota, PcOk, Step, Gains, FilesOk, KeyCommits;
    var s2 := Step(cfg, s, a);
    if id :| Owns(s, k, id) {
      StepCounts(cfg, s, a, id);
      StepLater(cfg, s, a, id);
      CommitsOfOwner(s, k, id);
      CommitsOfOwner(s2, k, id);
    } else {
      NobodysKey(cfg, s, a, k);
    }
  }

  /** A key that no upload owns gains no file row, and a row that comes to own it has committed nothing. */
  lemma NobodysKey(cfg: Config, s: Sys, a: Action, k: Key)
    requires Inv(cfg, s) && Inv(cfg, Step(cfg, s, a)) && forall id :: !Owns(s, k, id)
    ensures KeyCommits(Step(cfg, s, a), k) == 0 && !Gains(s, Step(cfg, s, a), k) && KeyCommits(s, k) == 0
  {
    hide TablesInv, UsedOk, UploadAt, DoomedOk, WithinQuota, PcOk, Step, DistinctKeys;
    var s2 := Step(cfg, s, a);
    forall j | Owns(s2, k, j) ensures s2.hist[j].commits == 0 && s2.t.uploads[j].state == Created {
      OwnedBefore(cfg, s, a, k, j);
      NewRow(cfg, s, a, j);
    }
    StoredOwned(cfg, s2, k);
  }

  lemma StoredOwned(cfg: Config, s: Sys, k: Key)
    requires FilesOk(cfg, s)
    ensures KeyStored(s.t.files, k) ==> exists id :: Owns(s, k, id) && s.t.uploads[id].state == Complete
  {
    if n :| n in s.t.files && s.t.files[n].storageKey == k {
      assert FileOk(cfg, s, n);
      var id :| FileOf(cfg, s, s.t.files[n], id);
      assert Owns(s, k, id);
    }
  }

  lemma OwnedBefore(cfg: Config, s: Sys, a: Action, k: Key, id: Id)
    requires Inv(cfg, s)
    ensures Owns(Step(cfg, s, a), k, id) && id in s.t.uploads ==> Owns(s, k, id)
  {
    hide TablesInv, UsedOk, DistinctKeys, UploadAt, FilesOk, DoomedOk, WithinQuota, PcOk, Step;
    if id in s.t.uploads { StepLater(cfg, s, a, id); }
  }

  /** A row that appears is freshly created. */
  lemma NewRow(cfg: Config, s: Sys, a: Action, id: Id)
    requires TablesInv(s.t) && id !in s.t.uploads && id in Step(cfg, s, a).t.uploads && id in Step(cfg, s, a).hist
    ensures Step(cfg, s, a).t.uploads[id].state == Created && Step(cfg, s, a).hist[id] == NO_HISTORY
  {
    hide StepFree, StepReconcile, StepUpload, TablesInv;
    FreeFrame(cfg, s, a);
    ReconcileKeys(s, a);
    InsertUnfolds(cfg, s, a);
    if a.InsertUpload? { InsertedRowIs(cfg, s, a.id, a.now, id); } else { UploadKeys(cfg, s, a); }
  }

  lemma InsertUnfolds(cfg: Config, s: Sys, a: Action)
    ensures a.InsertUpload? ==> StepUpload(cfg, s, a) == StepInsertUpload(cfg, s, a.id, a.now)
  {
  }

  lemma InsertedRowIs(cfg: Config, s: Sys, new_: Id, now: int, id: Id)
    requires id !in s.t.uploads && id in StepInsertUpload(cfg, s, new_, now).t.uploads
    ensures StepInsertUpload(cfg, s, new_, now).t.uploads[id].state == Created
    ensures id in StepInsertUpload(cfg, s, new_, now).hist && StepInsertUpload(cfg, s, new_, now).hist[id] == NO_HISTORY
  {
  }

  lemma ReconcileKeys(s: Sys, a: Action)
    ensures StepReconcile(s, a).t.uploads.Keys == s.t.uploads.Keys
  {
    hide KeyStored, Enumerates, RepairFile, ExpiredIds, FinalizingIds;
    if s.pc.Resolving? && s.pc.todo != [] && s.pc.todo[0] in s.t.uploads && a.ResolveNext? {
      RepairedRow(s, s.pc.todo[0], a.node);
    }
    if s.pc.Moved? && s.pc.id in s.t.uploads && a.CommitMoved? { RepairedRow(s, s.pc.id, a.node); }
  }

  lemma UploadKeys(cfg: Config, s: Sys, a: Action)
    requires !a.InsertUpload?
    ensures StepUpload(cfg, s, a).t.uploads.Keys == s.t.uploads.Keys
  {
    if a.PhaseC? {
      hide CommitFile;
      if s.pc.Renamed? && s.pc.id in s.t.uploads {
        var sha := s.t.uploads[s.pc.id].sha;
        CommitKeys(s.t, s.pc.id, a.node, if sha.Some? then sha.value else "");
      }
    } else if Creating(a) {
      hide StepUpload;
      OnlyInsertWrites(cfg, s, a);
    } else {
      hide MayAppend, CommitFile;
    }
  }

  lemma CommitKeys(t: Tables, id: Id, node: Id, sha: Digest)
    requires id in t.uploads
    ensures CommitFile(t, id, node, sha).Ok? ==> CommitFile(t, id, node, sha).value.uploads.Keys == t.uploads.Keys
  {
  }

  // ---------------------------------------------------------------- the life of an upload row

  /** An upload row is never deleted and keeps its identity; a completed row never changes again; an upload that
      is over never holds a reservation again; and accepted bytes are only ever appended to. */
  ghost predicate Later(s: Sys, s2: Sys, id: Id)
    requires id in s.t.uploads && id in s.hist
  {
    id in s2.t.uploads && id in s2.hist && LaterRow(s.t.uploads[id], s.hist[id], s2.t.uploads[id], s2.hist[id])
  }

  predicate LaterRow(u: Upload, h: History, v: Upload, g: History) {
    && v.parent == u.parent && v.name == u.name && v.expected == u.expected && v.expiresAt == u.expiresAt
    && v.stagingKey == u.stagingKey && v.finalKey == u.finalKey
    && u.received <= v.received && h.accepted <= g.accepted
    && (u.state == Complete ==> v == u)
    && (u.state == Terminated ==> v.state == Terminated)
    && (!Active(u.state) ==> !Active(v.state) && v.received == u.received)
  }

  /** Rewriting one row keeps the others, so only that row needs looking at. */
  lemma StepLater(cfg: Config, s: Sys, a: Action, id: Id)
    requires Inv(cfg, s) && id in s.t.uploads
    ensures id in s.hist && Later(s, Step(cfg, s, a), id)
  {
    hide TablesInv, DistinctKeys, UploadAt, FilesOk, DoomedOk, WithinQuota, PcOk, HexKey, StepFree, StepUpload,
      StepReconcile;
    hide Pointed, KeysDrawn;
    if LockFree(a) {
      FreeFrame(cfg, s, a);
    } else {
      hide Later;
      PcPoints(cfg, s);
      UploadLater(cfg, s, a, id);
      ReconcileLater(s, a, id);
    }
  }

  lemma UploadLater(cfg: Config, s: Sys, a: Action, id: Id)
    requires s.t.uploads.Keys == s.hist.Keys && id in s.t.uploads && id in s.used && Pointed(s)
    ensures Later(s, StepUpload(cfg, s, a), id)
  {
    if a.PhaseC? || a.Record? || a.PhaseA? || a.Terminate? {
      WriterLater(cfg, s, a, id);
    } else {
      OtherLater(cfg, s, a, id);
    }
  }

  lemma WriterLater(cfg: Config, s: Sys, a: Action, id: Id)
    requires s.t.uploads.Keys == s.hist.Keys && id in s.t.uploads && Pointed(s)
    requires a.PhaseC? || a.Record? || a.PhaseA? || a.Terminate?
    ensures Later(s, StepUpload(cfg, s, a), id)
  {
    hide StepPhaseA, StepRecord, StepTerminate, StepPhaseC, Later, Pointed;
    match a
    case PhaseC(node) => PhaseCLater(s, node, id);
    case Record => RecordLater(s, id);
    case PhaseA => PhaseALater(cfg, s, id);
    case Terminate(done) => TerminateLater(s, done, id);
  }

  lemma TerminateLater(s: Sys, done: Id, id: Id)
    requires s.t.uploads.Keys == s.hist.Keys && id in s.t.uploads
    ensures Later(s, StepTerminate(s, done), id)
  {
    if StepTerminate(s, done) != s { CloseLater(s, StepTerminate(s, done), done, Terminated, id); }
  }

  lemma OtherLater(cfg: Config, s: Sys, a: Action, id: Id)
    requires s.t.uploads.Keys == s.hist.Keys && id in s.t.uploads && id in s.used
    requires !a.PhaseC? && !a.Record? && !a.PhaseA? && !a.Terminate?
    ensures Later(s, StepUpload(cfg, s, a), id)
  {
    if Creating(a) {
      hide StepUpload;
      CreatingLater(cfg, s, a, id);
    } else {
      hide MayAppend;
    }
  }

  lemma CreatingLater(cfg: Config, s: Sys, a: Action, id: Id)
    requires s.t.uploads.Keys == s.hist.Keys && id in s.t.uploads && id in s.used && Creating(a)
    ensures Later(s, StepUpload(cfg, s, a), id)
  {
    hide Later, StepInsertUpload;
    if a.InsertUpload? {
      InsertLater(cfg, s, a.id, a.now, id);
    } else {
      hide StepUpload;
      OnlyInsertWrites(cfg, s, a);
      SameLater(s, StepUpload(cfg, s, a), id);
    }
  }

  lemma OnlyInsertWrites(cfg: Config, s: Sys, a: Action)
    requires Creating(a) && !a.InsertUpload?
    ensures StepUpload(cfg, s, a).t == s.t && StepUpload(cfg, s, a).hist == s.hist
  {
    hide OverQuota, MayDraw, SlotFree;
  }

  lemma InsertLater(cfg: Config, s: Sys, row: Id, now: int, id: Id)
    requires s.t.uploads.Keys == s.hist.Keys && id in s.t.uploads && id in s.used
    ensures Later(s, StepInsertUpload(cfg, s, row, now), id)
  {
  }

  /** A step that rewrites one row, and not backwards. */
  lemma RewriteLater(s: Sys, s2: Sys, row: Id, u: Upload, h: History, id: Id)
    requires id in s.t.uploads && id in s.hist && row in s.t.uploads && row in s.hist
    requires s2.t.uploads == s.t.uploads[row := u] && s2.hist == s.hist[row := h]
    requires LaterRow(s.t.uploads[row], s.hist[row], u, h)
    ensures Later(s, s2, id)
  {
  }

  lemma RecordLater(s: Sys, id: Id)
    requires s.t.uploads.Keys == s.hist.Keys && id in s.t.uploads && Pointed(s)
    ensures Later(s, StepRecord(s), id)
  {
    hide Later;
    var s2 := StepRecord(s);
    if s2.t == s.t && s2.hist == s.hist { SameLater(s, s2, id); }
    else { RewriteLater(s, s2, s.pc.id, s2.t.uploads[s.pc.id], s2.hist[s.pc.id], id); }
  }

  lemma PhaseALater(cfg: Config, s: Sys, id: Id)
    requires s.t.uploads.Keys == s.hist.Keys && id in s.t.uploads && Pointed(s)
    ensures Later(s, StepPhaseA(cfg, s), id)
  {
    hide Later;
    var s2 := StepPhaseA(cfg, s);
    if s2.t == s.t { SameLater(s, s2, id); }
    else {
      assert s2.hist == s.hist[s.pc.id := s.hist[s.pc.id]];
      RewriteLater(s, s2, s.pc.id, s2.t.uploads[s.pc.id], s.hist[s.pc.id], id);
    }
  }

  /** Completing, failing, expiring or terminating one unfinished row. */
  lemma CloseLater(s: Sys, s2: Sys, done: Id, st: UploadState, id: Id)
    requires id in s.t.uploads && id in s.hist && done in s.t.uploads && done in s.hist
    requires s.t.uploads[done].state != Complete && !Active(st)
    requires s2.t.uploads == Close(s.t, done, st).uploads
      && (s2.hist == s.hist || s2.hist == Counted(s.hist, done, true))
    requires s.t.uploads[done].state == Terminated ==> st == Terminated
    ensures Later(s, s2, id)
  {
  }

  lemma SameLater(s: Sys, s2: Sys, id: Id)
    requires id in s.t.uploads && id in s.hist && s2.t.uploads == s.t.uploads && s2.hist == s.hist
    ensures Later(s, s2, id)
  {
  }

  lemma PhaseCRow(s: Sys, node: Id)
    requires s.t.uploads.Keys == s.hist.Keys && s.pc.Renamed? && s.pc.id in s.t.uploads
    ensures var s2 := StepPhaseC(s, node);
      || (s2.t == s.t && s2.hist == s.hist)
      || (s2.t.uploads == Close(s.t, s.pc.id, Complete).uploads && s2.hist == Counted(s.hist, s.pc.id, true))
  {
    hide CommitFile, Close;
    CommitCloses(s.t, s.pc.id, node, if s.t.uploads[s.pc.id].sha.Some? then s.t.uploads[s.pc.id].sha.value else "");
  }

  lemma CommitCloses(t: Tables, id: Id, node: Id, sha: Digest)
    requires id in t.uploads
    ensures var r := CommitFile(t, id, node, sha); r.Ok? ==> r.value.uploads == Close(t, id, Complete).uploads
  {
    hide RowFits, KeyStored;
  }

  lemma PhaseCLater(s: Sys, node: Id, id: Id)
    requires s.t.uploads.Keys == s.hist.Keys && id in s.t.uploads && Pointed(s)
    ensures Later(s, StepPhaseC(s, node), id)
  {
    hide CommitFile;
    if s.pc.Renamed? {
      hide StepPhaseC;
      PhaseCRow(s, node);
      var s2 := StepPhaseC(s, node);
      if s2.t == s.t && s2.hist == s.hist { SameLater(s, s2, id); } else { CloseLater(s, s2, s.pc.id, Complete, id); }
    } else {
      SameLater(s, s, id);
    }
  }

  lemma ReconcileLater(s: Sys, a: Action, id: Id)
    requires s.t.uploads.Keys == s.hist.Keys && id in s.t.uploads && Pointed(s)
    ensures Later(s, StepReconcile(s, a), id)
  {
    if a.ResolveNext? {
      hide StepResolveNext, Later, Pointed;
      ResolveLater(s, a.node, id);
    } else if a.CommitMoved? {
      hide StepCommitMoved, Later, Pointed;
      CommitMovedLater(s, a.node, id);
    } else {
      hide Later, Pointed, StepExpireNext, StepExpireFails, StepBeginReconcile, StepCollect, StepGiveUp;
      ExpireLater(s, id);
      DropLater(s, id);
      QuietLater(s, a, id);
    }
  }

  lemma DropLater(s: Sys, id: Id)
    requires s.t.uploads.Keys == s.hist.Keys && id in s.t.uploads
    ensures Later(s, StepExpireFails(s), id)
  {
  }

  lemma QuietLater(s: Sys, a: Action, id: Id)
    requires s.t.uploads.Keys == s.hist.Keys && id in s.t.uploads
    ensures a.BeginReconcile? ==> Later(s, StepBeginReconcile(s, a.now, a.expired), id)
    ensures a.CollectFinalizing? ==> Later(s, StepCollect(s, a.todo), id)
    ensures Later(s, StepGiveUp(s), id) && Later(s, s.(pc := Idle), id) && Later(s, s, id)
  {
    hide Enumerates, ExpiredIds, FinalizingIds;
  }

  lemma ExpireLater(s: Sys, id: Id)
    requires s.t.uploads.Keys == s.hist.Keys && id in s.t.uploads && Pointed(s)
    ensures Later(s, StepExpireNext(s), id)
  {
    hide Later;
    if s.pc.Expiring? && s.pc.todo != [] {
      CloseLater(s, StepExpireNext(s), s.pc.todo[0], Expired, id);
    } else {
      SameLater(s, s, id);
    }
  }

  lemma RepairLater(s: Sys, done: Id, node: Id, pc: Pc, id: Id)
    requires id in s.t.uploads && id in s.hist && done in s.t.uploads && done in s.hist
      && s.t.uploads[done].state == Finalizing
    ensures Later(s, Repair(s, done, node, pc), id)
  {
    hide RepairFile, Later;
    RepairedRow(s, done, node);
    CloseLater(s, Repair(s, done, node, pc), done, Complete, id);
  }

  lemma ResolveLater(s: Sys, node: Id, id: Id)
    requires s.t.uploads.Keys == s.hist.Keys && id in s.t.uploads && Pointed(s)
    ensures Later(s, StepResolveNext(s, node), id)
  {
    hide Repair, KeyStored, Later;
    if s.pc.Resolving? && s.pc.todo != [] && node !in s.used {
      var done, rest, s2 := s.pc.todo[0], s.pc.todo[1..], StepResolveNext(s, node);
      RepairLater(s, done, node, Resolving(rest), id);
      RepairLater(s, done, node, Leftover(s.t.uploads[done].stagingKey, rest), id);
      if s2.t == s.t && s2.hist == s.hist { SameLater(s, s2, id); }
      if s2.t == Close(s.t, done, Complete) && s2.hist == s.hist { CloseLater(s, s2, done, Complete, id); }
      if s2.t == Close(s.t, done, Failed) && s2.hist == s.hist { CloseLater(s, s2, done, Failed, id); }
    } else {
      SameLater(s, s, id);
    }
  }

  lemma CommitMovedLater(s: Sys, node: Id, id: Id)
    requires s.t.uploads.Keys == s.hist.Keys && id in s.t.uploads && Pointed(s)
    ensures Later(s, StepCommitMoved(s, node), id)
  {
    hide Repair, Later;
    if s.pc.Moved? && node !in s.used {
      RepairLater(s, s.pc.id, node, Resolving(s.pc.todo), id);
    } else {
      SameLater(s, s, id);
    }
  }

  lemma {:induction false} Lifecycle(cfg: Config, s: Sys, actions: seq<Action>, id: Id)
    requires Sane(cfg) && Inv(cfg, s) && id in s.t.uploads
    ensures id in s.hist && Later(s, Run(cfg, s, actions), id)
    decreases |actions|
  {
    hide Step, TablesInv, UsedOk, DistinctKeys, UploadAt, FilesOk, DoomedOk, WithinQuota, PcOk;
    if actions != [] {
      StepLater(cfg, s, actions[0], id);
      StepKeeps(cfg, s, actions[0]);
      Lifecycle(cfg, Step(cfg, s, actions[0]), actions[1..], id);
    }
  }

  /** A folder that some upload ever named outlives every further run: the reference keeps it from being purged. */
  lemma NamedFolderStays(cfg: Config, before: seq<Action>, after: seq<Action>, id: Id)
    requires Sane(cfg) && id in After(cfg, before).t.uploads
    ensures After(cfg, before).t.uploads[id].parent in Run(cfg, After(cfg, before), after).t.nodes
  {
    hide UsedOk, DistinctKeys, UploadsOk, FilesOk, DoomedOk, WithinQuota, PcOk, Step;
    var s := After(cfg, before);
    Reachable(cfg, before);
    Lifecycle(cfg, s, after, id);
    RunKeeps(cfg, s, after);
    var s2 := Run(cfg, s, after);
    assert s2.t.uploads[id].parent in UploadParents(s2.t.uploads);
  }

  // ---------------------------------------------------------------- the tree

  /** Whatever the step, a node that disappears was in the trash. */
  lemma OnlyTrashDisappears(cfg: Config, actions: seq<Action>, a: Action, x: Id)
    requires Sane(cfg)
    requires x in After(cfg, actions).t.nodes && x !in Step(cfg, After(cfg, actions), a).t.nodes
    ensures a.DoPurge? && After(cfg, actions).t.nodes[x].trashed && Within(After(cfg, actions).t.nodes, a.id, x)
  {
    hide TreeInv, RefsSound, UsedOk, DistinctKeys, UploadsOk, FilesOk, DoomedOk, WithinQuota, PcOk;
    Reachable(cfg, actions);
    GoneByPurge(cfg, After(cfg, actions), a, x);
    PurgeOnlyTrash(After(cfg, actions).t, a.id, a.order, x);
  }

  lemma GoneByPurge(cfg: Config, s: Sys, a: Action, x: Id)
    requires TablesInv(s.t) && x in s.t.nodes && x !in Step(cfg, s, a).t.nodes
    ensures a.DoPurge? && PurgeNode(s.t, a.id, a.order).Ok? && Enumerates(a.order, Subtree(s.t.nodes, a.id))
  {
    hide TreeInv, RefsSound, StepReconcile, StepUpload, PurgeNode, Subtree, Trash, Restore;
    if a.DoTrash? && Trash(s.t.nodes, a.id).Ok? { TrashRelocates(s.t.nodes, UploadParents(s.t.uploads), a.id); }
    if a.DoRestore? && Restore(s.t.nodes, a.id, a.found).Ok? {
      RestorableTrashed(s.t.nodes, a.id, a.found);
      RestoreIsAllOrNothing(s.t.nodes, UploadParents(s.t.uploads), a.id, a.found);
    }
    if !LockFree(a) { LockedLeavesTree(cfg, s, a); }
  }

  /** In every run the tree is a forest under the two system folders, active siblings have distinct names, and an
      untrashed node below something trashed is a file directly in a trashed folder that some upload names. */
  lemma TreeAlwaysSound(cfg: Config, actions: seq<Action>, x: Id, a: Id)
    requires Sane(cfg) && x in After(cfg, actions).t.nodes
    ensures var ns := After(cfg, actions).t.nodes;
      && (exists n: nat :: Up(ns, x, n) == Some(ROOT) || Up(ns, x, n) == Some(TRASH))
      && RowFits(ns, x, ns[x])
      && (a in ns && ns[a].trashed && Within(ns, a, x) && !ns[x].trashed ==>
            ns[x].kind == File && ns[x].parent.Some?
              && ns[x].parent.value in UploadParents(After(cfg, actions).t.uploads))
  {
    Reachable(cfg, actions);
    var s := After(cfg, actions);
    var refs := UploadParents(s.t.uploads);
    ChainEnds(s.t.nodes, refs, x);
    if a in s.t.nodes && s.t.nodes[a].trashed && Within(s.t.nodes, a, x) && !s.t.nodes[x].trashed {
      UntrashedBelowTrashed(s.t.nodes, refs, a, x);
    }
  }
}
