/** What single actions leave alone: lock-free ones the upload engine, locked ones the tree and the shares. */
module Frames {
  import opened Basics
  import opened Schema
  import opened Tree
  import opened Purge
  import opened Machine
  import opened Invariant
  import opened Steps

  // ---------------------------------------------------------------- actions without the lock

  /** Upload rows, histories and staging files stay, and file rows only ever go, by a purge. */
  ghost predicate EngineStays(s: Sys, s2: Sys, a: Action) {
    && s2.t.uploads == s.t.uploads && s2.hist == s.hist && s2.staging == s.staging
    && s2.renamed == s.renamed && s2.blind == s.blind && s.used <= s2.used
    && (forall n | n in s2.t.files :: n in s.t.files && s2.t.files[n] == s.t.files[n])
    && (!a.DoPurge? ==> s2.t.files == s.t.files)
  }

  lemma FreeFrame(cfg: Config, s: Sys, a: Action)
    requires TablesInv(s.t)
    ensures EngineStays(s, StepFree(cfg, s, a), a)
  {
    hide TreeInv, RefsSound;
    if a.DoPurge? { PurgeFrame(s, a.id, a.order, a); } else { hide StepPurge; OtherFreeFrame(cfg, s, a); }
  }

  lemma PurgeFrame(s: Sys, id: Id, order: seq<Id>, a: Action)
    requires TablesInv(s.t) && a.DoPurge?
    ensures EngineStays(s, StepPurge(s, id, order), a)
  {
    hide TreeInv, RefsSound;
    if StepPurge(s, id, order) != s { PurgeCommits(s.t, id, order); }
  }

  lemma OtherFreeFrame(cfg: Config, s: Sys, a: Action)
    requires !a.DoPurge?
    ensures EngineStays(s, StepFree(cfg, s, a), a)
  {
    hide StepFree;
    if OnTree(a) { TreeOpFrame(cfg, s, a); } else { NoTreeFrame(cfg, s, a); }
  }

  lemma TreeOpFrame(cfg: Config, s: Sys, a: Action)
    requires OnTree(a)
    ensures EngineStays(s, StepFree(cfg, s, a), a) && StepFree(cfg, s, a).t.shares == s.t.shares
  {
    hide CreateFolder, Rename, Move, Trash, Restore, EngineStays, NodesAfter;
    match a
    case DoCreateFolder(parent, name, id) =>
      NodesFrame(s, s, Err(Internal), a);
      NodesFrame(s, s.(used := s.used + {id}), CreateFolder(s.t.nodes, parent, name, id), a);
      assert NodesAfter(s, Err(Internal)) == s by { NoNodes(s); }
    case DoRename(id, name) => NodesFrame(s, s, Rename(s.t.nodes, id, name), a);
    case DoMove(id, target) => NodesFrame(s, s, Move(s.t.nodes, id, target), a);
    case DoTrash(id) => NodesFrame(s, s, Trash(s.t.nodes, id), a);
    case DoRestore(id, found) => NodesFrame(s, s, Restore(s.t.nodes, id, found), a);
  }

  lemma NodesFrame(s: Sys, s1: Sys, r: Result<Nodes, Error>, a: Action)
    requires s1 == s.(used := s1.used) && s.used <= s1.used && !a.DoPurge?
    ensures EngineStays(s, NodesAfter(s1, r), a) && NodesAfter(s1, r).t.shares == s.t.shares
  {
  }

  lemma NoNodes(s: Sys)
    ensures NodesAfter(s, Err(Internal)) == s
  {
  }

  lemma NoTreeFrame(cfg: Config, s: Sys, a: Action)
    requires !a.DoPurge? && !OnTree(a)
    ensures EngineStays(s, StepFree(cfg, s, a), a)
  {
    hide EngineStays;
    if a.DoCreateShare? {
      hide StepCreateShare;
      CreateShareFrame(cfg, s, a);
    } else if a.DoRevokeShare? {
      RevokeShareFrame(cfg, s, a);
    } else {
      hide StepFree;
      RemovalFrame(cfg, s, a);
    }
  }

  lemma RevokeShareFrame(cfg: Config, s: Sys, a: Action)
    requires a.DoRevokeShare?
    ensures EngineStays(s, StepFree(cfg, s, a), a)
  {
  }

  lemma RemovalFrame(cfg: Config, s: Sys, a: Action)
    requires !a.DoPurge? && !OnTree(a) && !a.DoCreateShare? && !a.DoRevokeShare?
    ensures EngineStays(s, StepFree(cfg, s, a), a)
  {
    hide ActiveFolder;
  }

  lemma CreateShareFrame(cfg: Config, s: Sys, a: Action)
    requires a.DoCreateShare?
    ensures EngineStays(s, StepCreateShare(cfg, s, a.id, a.target, a.tokenHash, a.password, a.expiresAt), a)
  {
  }

  /** Apart from share operations and purges, lock-free actions leave the shares alone. */
  lemma FreeLeavesShares(cfg: Config, s: Sys, a: Action)
    requires !a.DoPurge? && !a.DoCreateShare? && !a.DoRevokeShare?
    ensures StepFree(cfg, s, a).t.shares == s.t.shares && s.used <= StepFree(cfg, s, a).used
  {
    if OnTree(a) {
      hide StepFree;
      TreeOpFrame(cfg, s, a);
    }
  }

  // ---------------------------------------------------------------- actions under the lock

  /** Shares, owed removals and existing nodes stay. */
  ghost predicate TreeStays(s: Sys, s2: Sys) {
    && Grown(s.t, s2.t) && s.used <= s2.used && s2.doomed == s.doomed && s2.lost == s.lost && s2.seen == s.seen
  }

  ghost predicate Grown(t: Tables, t2: Tables) {
    t2.shares == t.shares && forall x | x in t.nodes :: x in t2.nodes && t2.nodes[x] == t.nodes[x]
  }

  lemma CommitGrows(t: Tables, id: Id, node: Id, sha: Digest)
    requires id in t.uploads
    ensures CommitFile(t, id, node, sha).Ok? ==> Grown(t, CommitFile(t, id, node, sha).value)
    ensures Grown(t, RepairFile(t, id, node))
  {
    hide RowFits, KeyStored;
  }

  lemma RepairGrows(s: Sys, id: Id, node: Id, pc: Pc)
    requires id in s.t.uploads && id in s.hist
    ensures TreeStays(s, Repair(s, id, node, pc))
  {
    hide RepairFile;
    CommitGrows(s.t, id, node, "");
  }

  lemma PhaseCGrows(s: Sys, node: Id)
    ensures TreeStays(s, StepPhaseC(s, node))
  {
    hide CommitFile;
    if s.pc.Renamed? && s.pc.id in s.t.uploads {
      CommitGrows(s.t, s.pc.id, node, "");
      var sha := s.t.uploads[s.pc.id].sha;
      CommitGrows(s.t, s.pc.id, node, if sha.Some? then sha.value else "");
    }
  }

  lemma ResolveGrows(s: Sys, node: Id)
    ensures TreeStays(s, StepResolveNext(s, node)) && TreeStays(s, StepCommitMoved(s, node))
  {
    hide Repair, KeyStored;
    if s.pc.Moved? && s.pc.id in s.t.uploads && s.pc.id in s.hist {
      RepairGrows(s, s.pc.id, node, Resolving(s.pc.todo));
    }
    if s.pc.Resolving? && s.pc.todo != [] && s.pc.todo[0] in s.t.uploads && s.pc.todo[0] in s.hist {
      var id, rest := s.pc.todo[0], s.pc.todo[1..];
      RepairGrows(s, id, node, Resolving(rest));
      RepairGrows(s, id, node, Leftover(s.t.uploads[id].stagingKey, rest));
    }
  }

  lemma CreateLeavesTree(cfg: Config, s: Sys, a: Action)
    requires Creating(a)
    ensures TreeStays(s, StepUpload(cfg, s, a))
  {
    hide OverQuota, SlotFree, MayDraw, TreeStays, StepCreateStaging, StepInsertUpload;
    match a
    case BeginCreate(req) => PcLeavesTree(s, StepBeginCreate(cfg, s, req));
    case ReadStored => PcLeavesTree(s, StepUpload(cfg, s, a));
    case ReadReserved(space) => PcLeavesTree(s, StepReadReserved(cfg, s, space));
    case ReadStoredFails => PcLeavesTree(s, StepReadStoredFails(s));
    case ReadReservedFails(space) => PcLeavesTree(s, StepReadReservedFails(cfg, s, space));
    case CreateStaging(sk, fk) => StagingLeavesTree(s, sk, fk);
    case InsertUpload(id', now) => InsertLeavesTree(cfg, s, id', now);
  }

  lemma PcLeavesTree(s: Sys, s2: Sys)
    requires s2 == s.(pc := s2.pc, blind := s2.blind)
    ensures TreeStays(s, s2)
  {
  }

  lemma StagingLeavesTree(s: Sys, sk: Key, fk: Key)
    ensures TreeStays(s, StepCreateStaging(s, sk, fk))
  {
    hide MayDraw;
  }

  lemma InsertLeavesTree(cfg: Config, s: Sys, id: Id, now: int)
    ensures TreeStays(s, StepInsertUpload(cfg, s, id, now))
  {
  }

  lemma UploadLeavesTree(cfg: Config, s: Sys, a: Action)
    ensures TreeStays(s, StepUpload(cfg, s, a))
  {
    if Creating(a) {
      hide StepUpload, TreeStays;
      CreateLeavesTree(cfg, s, a);
    } else {
      WriteLeavesTree(cfg, s, a);
    }
  }

  lemma WriteLeavesTree(cfg: Config, s: Sys, a: Action)
    requires !Creating(a)
    ensures TreeStays(s, StepUpload(cfg, s, a))
  {
    hide TreeStays, StepRemoveStaging, StepAppend, StepRecord, StepPhaseA, StepPhaseB, StepPhaseC, StepTerminate,
      MayAppend;
    match a
    case RemoveStaging => UnstagingLeavesTree(s);
    case Append(id, offset, chunk, now) => AppendLeavesTree(s, id, offset, chunk, now);
    case AppendTorn(id, offset, part, now) => AppendLeavesTree(s, id, offset, part, now);
    case Record => RecordLeavesTree(s);
    case PhaseA => PhaseALeavesTree(cfg, s);
    case PhaseB => PhaseBLeavesTree(s);
    case PhaseC(node) => PhaseCGrows(s, node);
    case Terminate(id) => TerminateLeavesTree(s, id);
    case _ => SameTree(s);
  }

  lemma SameTree(s: Sys)
    ensures TreeStays(s, s)
  {
  }

  lemma UnstagingLeavesTree(s: Sys)
    ensures TreeStays(s, StepRemoveStaging(s))
  {
  }

  lemma RecordLeavesTree(s: Sys)
    ensures TreeStays(s, StepRecord(s))
  {
  }

  lemma PhaseALeavesTree(cfg: Config, s: Sys)
    ensures TreeStays(s, StepPhaseA(cfg, s))
  {
  }

  lemma PhaseBLeavesTree(s: Sys)
    ensures TreeStays(s, StepPhaseB(s))
  {
  }

  lemma TerminateLeavesTree(s: Sys, id: Id)
    ensures TreeStays(s, StepTerminate(s, id))
  {
  }

  lemma AppendLeavesTree(s: Sys, id: Id, offset: int, bytes: Bytes, now: int)
    ensures TreeStays(s, s)
    ensures MayAppend(s, id, offset, now) ==>
      TreeStays(s, StepAppend(s, id, bytes, Appended(id, bytes))) && TreeStays(s, StepAppend(s, id, bytes, Idle))
  {
  }

  lemma ReconcileLeavesTree(s: Sys, a: Action)
    ensures TreeStays(s, StepReconcile(s, a))
  {
    if a.ResolveNext? || a.CommitMoved? {
      hide StepResolveNext, StepCommitMoved, TreeStays;
      ResolveGrows(s, a.node);
    } else {
      hide ExpiredIds, FinalizingIds, Enumerates;
    }
  }

  lemma LockedLeavesTree(cfg: Config, s: Sys, a: Action)
    requires !LockFree(a)
    ensures TreeStays(s, Step(cfg, s, a))
  {
    hide StepFree, StepUpload, StepReconcile, TreeStays;
    UploadLeavesTree(cfg, s, a);
    ReconcileLeavesTree(s, a);
  }

  // ---------------------------------------------------------------- the row a locked action writes

  /** In which state the row is that the holder of the mutex is about to write. */
  predicate Pointed(s: Sys) {
    match s.pc
    case Appended(id, _) => id in s.t.uploads && Accepting(s.t.uploads[id].state)
    case Verified(id) => id in s.t.uploads && s.t.uploads[id].state == Verifying
    case Intent(id) => id in s.t.uploads && s.t.uploads[id].state == Finalizing
    case Renamed(id) => id in s.t.uploads && s.t.uploads[id].state == Finalizing
    case Moved(id, _) => id in s.t.uploads && s.t.uploads[id].state == Finalizing
    case Expiring(todo, _) => todo != [] ==> todo[0] in s.t.uploads && Accepting(s.t.uploads[todo[0]].state)
    case Resolving(todo) => todo != [] ==> todo[0] in s.t.uploads && s.t.uploads[todo[0]].state == Finalizing
    case _ => true
  }

  lemma PcPoints(cfg: Config, s: Sys)
    requires PcOk(cfg, s)
    ensures Pointed(s)
  {
    hide Disposable, Sum, HexKey;
  }

  /** The upload a locked action may commit a file for. */
  function Committing(s: Sys, a: Action): Option<Id> {
    if a.PhaseC? && s.pc.Renamed? && a.node !in s.used then Some(s.pc.id)
    else if a.CommitMoved? && s.pc.Moved? && a.node !in s.used then Some(s.pc.id)
    else if a.ResolveNext? && s.pc.Resolving? && s.pc.todo != [] && a.node !in s.used then Some(s.pc.todo[0])
    else None
  }

  /** Locked actions that commit nothing leave file rows and commit counters alone. */
  ghost predicate NoCommit(s: Sys, s2: Sys, id: Id)
    requires id in s.hist
  {
    s2.t.files == s.t.files && id in s2.hist && s2.hist[id].commits == s.hist[id].commits
  }

  lemma UploadCommitsNothing(cfg: Config, s: Sys, a: Action, id: Id)
    requires id in s.hist && id in s.used && Committing(s, a).None?
    ensures NoCommit(s, StepUpload(cfg, s, a), id)
  {
    if Creating(a) {
      hide StepUpload, NoCommit;
      CreatingCommitsNothing(cfg, s, a, id);
    } else {
      hide MayAppend, CommitFile;
    }
  }

  lemma CreatingCommitsNothing(cfg: Config, s: Sys, a: Action, id: Id)
    requires id in s.hist && id in s.used && Creating(a)
    ensures NoCommit(s, StepUpload(cfg, s, a), id)
  {
    hide OverQuota, SlotFree, MayDraw;
  }

  lemma ReconcileCommitsNothing(s: Sys, a: Action, id: Id)
    requires id in s.hist && Committing(s, a).None?
    ensures NoCommit(s, StepReconcile(s, a), id)
  {
    if a.ResolveNext? || a.CommitMoved? {
      hide Repair, KeyStored;
    } else {
      hide ExpiredIds, FinalizingIds, Enumerates;
    }
  }

  /** What a possibly committing action makes of files and counters: nothing, or what the repair transaction does. */
  lemma CommitCases(cfg: Config, s: Sys, a: Action, id: Id)
    requires Inv(cfg, s) && Committing(s, a) == Some(id) && !LockFree(a) && id in s.t.uploads
    requires s.t.uploads[id].state == Finalizing
    ensures var s2 := Step(cfg, s, a);
      || (s2.t.files == s.t.files && s2.hist == s.hist)
      || (s2.t == RepairFile(s.t, id, a.node) && s2.hist == Counted(s.hist, id, a.node in s2.t.files))
  {
    hide Inv, RepairFile, CommitFile, StepFree, StepUpload, StepReconcile;
    if a.PhaseC? { PhaseCCases(cfg, s, a, id); } else { ReconcileCases(cfg, s, a, id); }
  }

  lemma PhaseCCases(cfg: Config, s: Sys, a: Action, id: Id)
    requires Inv(cfg, s) && a.PhaseC? && Committing(s, a) == Some(id) && id in s.t.uploads
    requires s.t.uploads[id].state == Finalizing
    ensures var s2 := StepUpload(cfg, s, a);
      || (s2.t.files == s.t.files && s2.hist == s.hist)
      || (id in s.hist && s2.t == RepairFile(s.t, id, a.node) && s2.hist == Counted(s.hist, id, a.node in s2.t.files))
  {
    hide TablesInv, UsedOk, FilesOk, DoomedOk, WithinQuota, PcOk, DistinctKeys, UploadAt, RepairFile, CommitFile,
      StepPhaseC;
    RepairIsCommit(cfg, s, id, a.node);
    PhaseCCase(cfg, s, a.node);
  }

  lemma ReconcileCases(cfg: Config, s: Sys, a: Action, id: Id)
    requires Inv(cfg, s) && !a.PhaseC? && Committing(s, a) == Some(id) && id in s.t.uploads
    requires s.t.uploads[id].state == Finalizing
    ensures id in s.hist
    ensures var s2 := StepReconcile(s, a);
      || (s2.t.files == s.t.files && s2.hist == s.hist)
      || (s2.t == RepairFile(s.t, id, a.node) && s2.hist == Counted(s.hist, id, a.node in s2.t.files))
  {
    hide TablesInv, UsedOk, FilesOk, DoomedOk, WithinQuota, PcOk, DistinctKeys, UploadAt, RepairFile, Repair, KeyStored;
    UnfinishedOf(cfg, s, id);
    RepairCase(s, id, a.node);
  }

  lemma RepairCase(s: Sys, id: Id, node: Id)
    requires id in s.t.uploads && id in s.hist
    ensures forall pc :: var s2 := Repair(s, id, node, pc);
      s2.t == RepairFile(s.t, id, node) && s2.hist == Counted(s.hist, id, node in s2.t.files)
  {
    hide RepairFile;
  }

  lemma UnfinishedOf(cfg: Config, s: Sys, id: Id)
    requires Inv(cfg, s) && id in s.t.uploads && s.t.uploads[id].state != Complete
    ensures !KeyStored(s.t.files, s.t.uploads[id].finalKey)
  {
    hide TablesInv, UsedOk, UploadsOk, FilesOk, DoomedOk, WithinQuota, PcOk, DistinctKeys;
    UnfinishedKey(cfg, s, id);
  }

  lemma PhaseCCase(cfg: Config, s: Sys, node: Id)
    requires Inv(cfg, s) && s.pc.Renamed? && node !in s.used
    ensures s.pc.id in s.t.uploads && s.t.uploads[s.pc.id].sha.Some?
    ensures var r := CommitFile(s.t, s.pc.id, node, s.t.uploads[s.pc.id].sha.value);
      StepPhaseC(s, node) == if r.Err? then s.(pc := Idle)
        else s.(t := r.value, hist := Counted(s.hist, s.pc.id, true), used := s.used + {node}, pc := Idle)
  {
    hide TablesInv, UsedOk, FilesOk, DoomedOk, WithinQuota, DistinctKeys, CommitFile;
    assert UploadAt(cfg, s, s.pc.id);
  }
}
