/** Termination and reconciliation keep the invariant; with the other steps, every run does. */
module Reconciling {
  import opened Basics
  import opened Schema
  import opened Tree
  import opened Purge
  import opened Shares
  import opened Machine
  import opened Invariant
  import opened Steps

  /** Closing an unfinished upload releases its reservation and makes its staging file disposable. */
  lemma CloseUnfinished(cfg: Config, s: Sys, s2: Sys, id: Id, st: UploadState)
    requires Inv(cfg, s) && id in s.t.uploads && s.t.uploads[id].state != Complete && st in {Expired, Terminated}
    requires s2 == s.(t := Close(s.t, id, st), pc := s2.pc, left := s2.left) && PcOk(cfg, s2)
    ensures Inv(cfg, s2)
  {
    hide TablesInv, FilesOk, DoomedOk, DistinctKeys, WithinQuota, HexKey;
    assert UploadAt(cfg, s, id);
    assert s2.hist == s.hist[id := s.hist[id]];
    OneRowKeeps(cfg, s, s2, id, s2.t.uploads[id], s.hist[id]);
  }

  lemma ClosedDisposable(us: Uploads, id: Id, u: Upload)
    requires DistinctKeys(us) && id in us && u.stagingKey == us[id].stagingKey && !Active(u.state)
    ensures Disposable(us[id := u], u.stagingKey)
  {
    forall j | j in us && j != id ensures us[j].stagingKey != u.stagingKey { assert Apart(us, j, id); }
  }

  lemma TerminateStep(cfg: Config, s: Sys, id: Id)
    requires Inv(cfg, s)
    ensures Inv(cfg, StepTerminate(s, id))
  {
    hide TablesInv, UsedOk, UploadsOk, FilesOk, DoomedOk, WithinQuota;
    if s.pc.Idle? && id in s.t.uploads && s.t.uploads[id].state != Complete {
      var s2 := StepTerminate(s, id);
      ClosedDisposable(s.t.uploads, id, s2.t.uploads[id]);
      CloseUnfinished(cfg, s, s2, id, Terminated);
    }
  }

  lemma RemoveStagingStep(cfg: Config, s: Sys)
    requires Inv(cfg, s)
    ensures Inv(cfg, StepRemoveStaging(s))
  {
    hide TablesInv, UsedOk, DistinctKeys, UploadsOk, FilesOk, DoomedOk, WithinQuota;
    if s.pc.Unstaging? || s.pc.ExpiredRow? || s.pc.Leftover? {
      hide Disposable;
      UnstageKeeps(cfg, s, StepRemoveStaging(s), s.pc.sk);
    }
  }

  lemma ListIn(us: Uploads, todo: seq<Id>, S: set<Id>, states: set<UploadState>)
    requires Enumerates(todo, S) && forall x | x in S :: x in us && us[x].state in states
    ensures AllIn(us, todo, states)
  {
    forall i | 0 <= i < |todo| ensures todo[i] in us && us[todo[i]].state in states { assert todo[i] in todo; }
  }

  lemma TailIn(us: Uploads, todo: seq<Id>, states: set<UploadState>, u: Upload)
    requires todo != [] && AllIn(us, todo, states)
    ensures AllIn(us, todo[1..], states) && AllIn(us[todo[0] := u], todo[1..], states) && todo[0] !in todo[1..]
  {
  }

  lemma BeginReconcileStep(cfg: Config, s: Sys, now: int, expired: seq<Id>)
    requires Inv(cfg, s)
    ensures Inv(cfg, StepBeginReconcile(s, now, expired))
  {
    if s.pc.Idle? && Enumerates(expired, ExpiredIds(s.t.uploads, now)) {
      ListIn(s.t.uploads, expired, ExpiredIds(s.t.uploads, now), {Created, Receiving});
      PcKeeps(cfg, s, StepBeginReconcile(s, now, expired));
    }
  }

  lemma ExpireNextStep(cfg: Config, s: Sys)
    requires Inv(cfg, s)
    ensures Inv(cfg, StepExpireNext(s))
  {
    hide Inv, StepExpireNext;
    if s.pc.Expiring? && s.pc.todo != [] {
      assert s.pc.todo == [s.pc.todo[0]] + s.pc.todo[1..];
      ExpireRow(cfg, s, s.pc.todo[0], s.pc.todo[1..], s.pc.now);
    } else {
      NothingExpires(s);
    }
  }

  lemma NothingExpires(s: Sys)
    requires !s.pc.Expiring? || s.pc.todo == []
    ensures StepExpireNext(s) == s
  {
  }

  lemma ExpireRow(cfg: Config, s: Sys, id: Id, rest: seq<Id>, now: int)
    requires Inv(cfg, s) && s.pc == Expiring([id] + rest, now)
    ensures id in s.t.uploads
    ensures Inv(cfg, StepExpireNext(s))
  {
    hide TablesInv, UsedOk, UploadsOk, FilesOk, DoomedOk, WithinQuota;
    var todo := s.pc.todo;
    assert todo[0] == id && todo[1..] == rest;
    var u := Close(s.t, id, Expired).uploads[id];
    TailIn(s.t.uploads, todo, {Created, Receiving}, u);
    ClosedDisposable(s.t.uploads, id, u);
    CloseUnfinished(cfg, s, StepExpireNext(s), id, Expired);
  }

  /** The row keeps its reservation and its state, and is remembered as having lost its staging file. */
  lemma ExpireFailsStep(cfg: Config, s: Sys)
    requires Inv(cfg, s)
    ensures Inv(cfg, StepExpireFails(s))
  {
    hide TablesInv, DistinctKeys, FilesOk, DoomedOk, WithinQuota, HexKey;
    if s.pc.Expiring? && s.pc.todo != [] {
      var id, s2 := s.pc.todo[0], StepExpireFails(s);
      var u := s.t.uploads[id];
      assert UploadAt(cfg, s, id);
      TailIn(s.t.uploads, s.pc.todo, {Created, Receiving}, u);
      assert s.t == s.t.(uploads := s.t.uploads[id := u]);
      OneRowKeeps(cfg, s, s2, id, u, s2.hist[id]);
    }
  }

  lemma CollectStep(cfg: Config, s: Sys, todo: seq<Id>)
    requires Inv(cfg, s)
    ensures Inv(cfg, StepCollect(s, todo))
  {
    if s.pc.Expiring? && s.pc.todo == [] && Enumerates(todo, FinalizingIds(s.t.uploads)) {
      ListIn(s.t.uploads, todo, FinalizingIds(s.t.uploads), {Finalizing});
      PcKeeps(cfg, s, StepCollect(s, todo));
    }
  }

  lemma RepairedRow(s: Sys, id: Id, node: Id)
    requires id in s.t.uploads
    ensures RepairFile(s.t, id, node).uploads == Close(s.t, id, Complete).uploads
  {
  }

  /** Of the reconciler's four cases only two can arise: the object is there and uncommitted, or the staging file
      is. The row is never marked failed and no second copy is ever left over. */
  lemma ResolveNextStep(cfg: Config, s: Sys, node: Id)
    requires Inv(cfg, s)
    ensures Inv(cfg, StepResolveNext(s, node))
  {
    hide TablesInv, UsedOk, DoomedOk, WithinQuota;
    if s.pc.Resolving? && s.pc.todo != [] && node !in s.used {
      var s2 := StepResolveNext(s, node);
      var id := s.pc.todo[0];
      assert s.t.uploads[id].state == Finalizing;
      assert UploadAt(cfg, s, id);
      UnfinishedKey(cfg, s, id);
      TailIn(s.t.uploads, s.pc.todo, {Finalizing}, Close(s.t, id, Complete).uploads[id]);
      if s.t.uploads[id].finalKey in s.objects {
        RepairedRow(s, id, node);
        RepairKeeps(cfg, s, Repair(s, id, node, Resolving(s.pc.todo[1..])), id, node);
      } else {
        MoveFileKeeps(cfg, s, id, s2);
      }
    }
  }

  lemma CommitMovedStep(cfg: Config, s: Sys, node: Id)
    requires Inv(cfg, s)
    ensures Inv(cfg, StepCommitMoved(s, node))
  {
    hide TablesInv, UsedOk, DistinctKeys, UploadAt, FilesOk, DoomedOk, WithinQuota;
    if s.pc.Moved? && node !in s.used {
      RepairedRow(s, s.pc.id, node);
      RepairKeeps(cfg, s, Repair(s, s.pc.id, node, Resolving(s.pc.todo)), s.pc.id, node);
    }
  }

  lemma GiveUpStep(cfg: Config, s: Sys)
    requires Inv(cfg, s)
    ensures Inv(cfg, StepGiveUp(s))
  {
    hide TablesInv, UsedOk, DistinctKeys, UploadsOk, FilesOk, DoomedOk, WithinQuota;
    if s.pc.Resolving? && s.pc.todo != [] { TailIn(s.t.uploads, s.pc.todo, {Finalizing}, s.t.uploads[s.pc.todo[0]]); }
    if s.pc.Expiring? && s.pc.todo != [] {
      TailIn(s.t.uploads, s.pc.todo, {Created, Receiving}, s.t.uploads[s.pc.todo[0]]);
    }
    if s.pc.Staged? {
      hide NoDup;
      PcKeeps(cfg, s, StepGiveUp(s));
    } else {
      hide HexKey, Sum, Disposable;
      PcKeeps(cfg, s, StepGiveUp(s));
    }
  }

  lemma CrashStep(cfg: Config, s: Sys)
    requires Inv(cfg, s)
    ensures Inv(cfg, StepCrash(s))
  {
    VolatileStep(cfg, s, StepCrash(s));
  }

  lemma CheckParentStep(cfg: Config, s: Sys, p: Id)
    requires Inv(cfg, s)
    ensures Inv(cfg, StepFree(cfg, s, CheckParent(p)))
  {
    hide TablesInv, UploadsOk, FilesOk, DoomedOk, DistinctKeys, WithinQuota;
    if ActiveFolder(s.t.nodes, p) { VolatileStep(cfg, s, StepFree(cfg, s, CheckParent(p))); }
  }

  lemma BeginCreateStep(cfg: Config, s: Sys, req: Request)
    requires Inv(cfg, s)
    ensures Inv(cfg, StepBeginCreate(cfg, s, req))
  {
    PcKeeps(cfg, s, StepBeginCreate(cfg, s, req));
  }

  lemma ReadStoredStep(cfg: Config, s: Sys)
    requires Inv(cfg, s)
    ensures Inv(cfg, StepUpload(cfg, s, ReadStored))
  {
    PcKeeps(cfg, s, StepUpload(cfg, s, ReadStored));
  }

  lemma EndReconcileStep(cfg: Config, s: Sys)
    requires Inv(cfg, s)
    ensures Inv(cfg, StepReconcile(s, EndReconcile))
  {
    PcKeeps(cfg, s, StepReconcile(s, EndReconcile));
  }

  lemma AppendStep(cfg: Config, s: Sys, id: Id, offset: int, bytes: Bytes, now: int)
    requires Inv(cfg, s)
    ensures Inv(cfg, StepUpload(cfg, s, Append(id, offset, bytes, now)))
    ensures Inv(cfg, StepUpload(cfg, s, AppendTorn(id, offset, bytes, now)))
  {
    hide TablesInv, UsedOk, DistinctKeys, UploadsOk, FilesOk, DoomedOk, WithinQuota;
    if s.pc.Idle? && MayAppend(s, id, offset, now) {
      AppendKeeps(cfg, s, id, offset, bytes, now, false);
      AppendKeeps(cfg, s, id, offset, bytes, now, true);
    }
  }

  lemma TreeOpStep(cfg: Config, s: Sys, a: Action)
    requires Inv(cfg, s) && OnTree(a)
    ensures Inv(cfg, StepFree(cfg, s, a))
  {
    hide Inv, CreateFolder, Rename, Move, Trash, Restore, NodesAfter;
    match a
    case DoCreateFolder(parent, name, id) => CreateFolderStep(cfg, s, parent, name, id);
    case DoRename(id, name) => RenameStep(cfg, s, id, name);
    case DoMove(id, target) => MoveStep(cfg, s, id, target);
    case DoTrash(id) => TrashStep(cfg, s, id);
    case DoRestore(id, found) => RestoreStep(cfg, s, id, found);
  }

  lemma FreeStep(cfg: Config, s: Sys, a: Action)
    requires Inv(cfg, s)
    ensures Inv(cfg, StepFree(cfg, s, a))
  {
    hide Inv, StepPurge, StepRemoveObject, StepCreateShare, StepCrash, RevokeShare, ActiveFolder;
    if OnTree(a) {
      hide StepFree;
      TreeOpStep(cfg, s, a);
    } else {
      match a
      case DoPurge(id, order) => PurgeStep(cfg, s, id, order);
      case RemoveObject(key) => RemoveObjectStep(cfg, s, key, false);
      case RemoveObjectFails(key) => RemoveObjectStep(cfg, s, key, true);
      case DoCreateShare(id, target, tokenHash, password, exp) => CreateShareStep(cfg, s, id, target, tokenHash,
        password, exp);
      case DoRevokeShare(id) => RevokeShareStep(cfg, s, id);
      case CheckParent(p) => CheckParentStep(cfg, s, p);
      case Crash => CrashStep(cfg, s);
      case _ =>
    }
  }

  lemma ReconcileStep(cfg: Config, s: Sys, a: Action)
    requires Inv(cfg, s)
    ensures Inv(cfg, StepReconcile(s, a))
  {
    hide Inv, StepBeginReconcile, StepExpireNext, StepExpireFails, StepCollect, StepResolveNext, StepCommitMoved,
      StepGiveUp;
    match a
    case BeginReconcile(now, expired) => BeginReconcileStep(cfg, s, now, expired);
    case ExpireNext => ExpireNextStep(cfg, s);
    case ExpireFails => ExpireFailsStep(cfg, s);
    case CollectFinalizing(todo) => CollectStep(cfg, s, todo);
    case ResolveNext(node) => ResolveNextStep(cfg, s, node);
    case CommitMoved(node) => CommitMovedStep(cfg, s, node);
    case EndReconcile => EndReconcileStep(cfg, s);
    case GiveUp => GiveUpStep(cfg, s);
    case _ =>
  }

  lemma UploadStep(cfg: Config, s: Sys, a: Action)
    requires Sane(cfg) && Inv(cfg, s)
    ensures Inv(cfg, StepUpload(cfg, s, a))
  {
    hide Inv, StepBeginCreate, StepReadReserved, StepReadStoredFails, StepReadReservedFails, StepCreateStaging,
      StepInsertUpload;
    hide StepRemoveStaging, StepAppend, StepRecord, StepPhaseA, StepPhaseB, StepPhaseC, StepTerminate, MayAppend,
      StoredBytes;
    match a
    case BeginCreate(req) => BeginCreateStep(cfg, s, req);
    case ReadStored => ReadStoredStep(cfg, s);
    case ReadReserved(space) => ReadReservedStep(cfg, s, space);
    case ReadStoredFails => ReadStoredFailsStep(cfg, s);
    case ReadReservedFails(space) => ReadReservedFailsStep(cfg, s, space);
    case CreateStaging(sk, fk) => CreateStagingStep(cfg, s, sk, fk);
    case InsertUpload(id, now) => InsertUploadStep(cfg, s, id, now);
    case RemoveStaging => RemoveStagingStep(cfg, s);
    case Append(id, offset, chunk, now) => AppendStep(cfg, s, id, offset, chunk, now);
    case AppendTorn(id, offset, part, now) => AppendStep(cfg, s, id, offset, part, now);
    case Record => RecordStep(cfg, s);
    case PhaseA => PhaseAStep(cfg, s);
    case PhaseB => PhaseBStep(cfg, s);
    case PhaseC(node) => PhaseCStep(cfg, s, node);
    case Terminate(id) => TerminateStep(cfg, s, id);
    case _ =>
  }

  lemma StepKeeps(cfg: Config, s: Sys, a: Action)
    requires Sane(cfg) && Inv(cfg, s)
    ensures Inv(cfg, Step(cfg, s, a))
  {
    hide Inv, StepFree, StepReconcile, StepUpload;
    FreeStep(cfg, s, a);
    ReconcileStep(cfg, s, a);
    UploadStep(cfg, s, a);
  }

  lemma {:induction false} RunKeeps(cfg: Config, s: Sys, actions: seq<Action>)
    requires Sane(cfg) && Inv(cfg, s)
    ensures Inv(cfg, Run(cfg, s, actions))
    decreases |actions|
  {
    if actions != [] {
      StepKeeps(cfg, s, actions[0]);
      RunKeeps(cfg, Step(cfg, s, actions[0]), actions[1..]);
    }
  }
}
