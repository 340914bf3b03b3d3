/** Which staging files a run may leave behind: exactly those that a failed removal or a crash took from the holder of
    the mutex, beside the ones that an active upload or the holder still has. */
module Leftovers {
  import opened Basics
  import opened Schema
  import opened Tree
  import opened Purge
  import opened Machine
  import opened Invariant
  import opened Reconciling
  import opened Frames
  import opened Safety
  import opened Orphans

  /** The upload whose row names the staging key. */
  predicate Stages(s: Sys, k: Key, id: Id) {
    id in s.t.uploads && id in s.hist && s.t.uploads[id].stagingKey == k
  }

  /** The upload still has its staging file: it takes or checks bytes and no expiry has dropped the file, or it is
      being finalised and has not been renamed. */
  predicate Has(s: Sys, id: Id)
    requires id in s.t.uploads && id in s.hist
  {
    var u := s.t.uploads[id];
    (Open(u.state) && !s.hist[id].dropped) || (u.state == Finalizing && u.finalKey !in s.renamed)
  }

  predicate Ended(st: UploadState) {
    st == Terminated || st == Expired
  }

  // ---------------------------------------------------------------- invariant

  /** Every row that names the key was terminated or has expired. */
  ghost predicate Over(us: Uploads, k: Key) {
    forall id {:trigger us[id]} | id in us && us[id].stagingKey == k :: Ended(us[id].state)
  }

  predicate Standing(staged: bool, held: bool, left: bool, over: bool, disposable: bool) {
    && (held || left ==> staged && over) && !(held && left)
    && (staged && disposable ==> held || left)
  }

  ghost predicate KeyStands(s: Sys, k: Key) {
    Standing(k in s.staging, k in Held(s.pc), k in s.left, Over(s.t.uploads, k), Disposable(s.t.uploads, k))
  }

  ghost predicate LeftInv(s: Sys) {
    forall k {:trigger KeyStands(s, k)} :: KeyStands(s, k)
  }

  // ---------------------------------------------------------------- kinds of steps

  /** Nothing the invariant speaks of changes. */
  ghost predicate Calm(s: Sys, s2: Sys) {
    && s2.t.uploads == s.t.uploads && s2.staging.Keys == s.staging.Keys && s2.left == s.left
    && Held(s2.pc) == Held(s.pc)
  }

  lemma CalmKeeps(s: Sys, s2: Sys)
    requires LeftInv(s) && Calm(s, s2)
    ensures LeftInv(s2)
  {
    forall k ensures KeyStands(s2, k) { assert KeyStands(s, k); }
  }

  /** Only the standing of one key changes. */
  lemma OneKeyStands(s: Sys, s2: Sys, sk: Key)
    requires LeftInv(s) && s2.t.uploads == s.t.uploads && KeyStands(s2, sk)
    requires s2.staging.Keys - {sk} == s.staging.Keys - {sk} && s2.left - {sk} == s.left - {sk}
    requires Held(s2.pc) - {sk} == Held(s.pc) - {sk}
    ensures LeftInv(s2)
  {
    hide Standing;
    forall k ensures KeyStands(s2, k) {
      assert KeyStands(s, k);
      if k != sk {
        assert k in s2.staging <==> k in s2.staging.Keys - {sk};
        assert k in s.staging <==> k in s.staging.Keys - {sk};
        assert k in s2.left <==> k in s2.left - {sk};
        assert k in s.left <==> k in s.left - {sk};
        assert k in Held(s2.pc) <==> k in Held(s2.pc) - {sk};
        assert k in Held(s.pc) <==> k in Held(s.pc) - {sk};
      }
    }
  }

  /** The key that was held is removed, or left. */
  lemma ReleaseStands(s: Sys, s2: Sys, sk: Key)
    requires LeftInv(s) && s2.t.uploads == s.t.uploads && Held(s.pc) == {sk} && Held(s2.pc) == {}
    requires (s2.staging == s.staging - {sk} && s2.left == s.left)
      || (s2.staging == s.staging && s2.left == s.left + {sk})
    ensures LeftInv(s2)
  {
    hide LeftInv, Over, Disposable, Held;
    KeyStandsNow(s, sk);
    assert KeyStands(s2, sk);
    OneKeyStands(s, s2, sk);
  }

  lemma KeyStandsNow(s: Sys, k: Key)
    requires LeftInv(s)
    ensures KeyStands(s, k)
  {
  }

  /** One row is rewritten, and with it at most the standing of its own staging key. */
  lemma OneRowStands(s: Sys, s2: Sys, id: Id, u: Upload)
    requires LeftInv(s) && id in s.t.uploads && s2.t.uploads == s.t.uploads[id := u]
    requires u.stagingKey == s.t.uploads[id].stagingKey && KeyStands(s2, u.stagingKey)
    requires forall k | k != u.stagingKey ::
      (k in s2.staging <==> k in s.staging) && (k in s2.left <==> k in s.left)
        && (k in Held(s2.pc) <==> k in Held(s.pc))
    ensures LeftInv(s2)
  {
    hide Standing;
    forall k ensures KeyStands(s2, k) {
      assert KeyStands(s, k);
      if k != u.stagingKey { OtherRows(s.t.uploads, id, u, k); }
    }
  }

  lemma OtherRows(us: Uploads, id: Id, u: Upload, k: Key)
    requires id in us && u.stagingKey == us[id].stagingKey && k != u.stagingKey
    ensures Over(us[id := u], k) <==> Over(us, k)
    ensures Disposable(us[id := u], k) <==> Disposable(us, k)
  {
    var us2 := us[id := u];
    if Over(us2, k) {
      forall j | j in us && us[j].stagingKey == k ensures Ended(us[j].state) { assert us2[j] == us[j]; }
    }
    if Disposable(us2, k) {
      forall j | j in us && us[j].stagingKey == k ensures !Active(us[j].state) { assert us2[j] == us[j]; }
    }
  }

  /** The staging key of an active upload is neither held nor left. */
  lemma ActiveKey(s: Sys, id: Id)
    requires LeftInv(s) && id in s.t.uploads && Active(s.t.uploads[id].state)
    ensures s.t.uploads[id].stagingKey !in Held(s.pc) && s.t.uploads[id].stagingKey !in s.left
  {
    assert KeyStands(s, s.t.uploads[id].stagingKey);
  }

  /** An active row stays active, or is closed without a staging file. */
  lemma ActiveRowStands(s: Sys, s2: Sys, id: Id, u: Upload)
    requires LeftInv(s) && id in s.t.uploads && Active(s.t.uploads[id].state)
    requires s2.t.uploads == s.t.uploads[id := u] && u.stagingKey == s.t.uploads[id].stagingKey
    requires Active(u.state) || u.stagingKey !in s2.staging
    requires s2.staging.Keys - {u.stagingKey} == s.staging.Keys - {u.stagingKey}
    requires s2.left == s.left && Held(s2.pc) == Held(s.pc)
    ensures LeftInv(s2)
  {
    hide LeftInv, KeyStands;
    ActiveKey(s, id);
    SettledKey(s2, id);
    forall k | k != u.stagingKey ensures k in s2.staging <==> k in s.staging {
      assert k in s2.staging <==> k in s2.staging.Keys - {u.stagingKey};
      assert k in s.staging <==> k in s.staging.Keys - {u.stagingKey};
    }
    OneRowStands(s, s2, id, u);
  }

  lemma SettledKey(s: Sys, id: Id)
    requires id in s.t.uploads && (Active(s.t.uploads[id].state) || s.t.uploads[id].stagingKey !in s.staging)
    requires s.t.uploads[id].stagingKey !in Held(s.pc) && s.t.uploads[id].stagingKey !in s.left
    ensures KeyStands(s, s.t.uploads[id].stagingKey)
  {
  }

  /** An active or ended row is closed for good; its staging file, if there is one, is held. */
  lemma ClosingStands(s: Sys, s2: Sys, id: Id, u: Upload)
    requires LeftInv(s) && DistinctKeys(s.t.uploads) && id in s.t.uploads && s2.t.uploads == s.t.uploads[id := u]
    requires u.stagingKey == s.t.uploads[id].stagingKey && Ended(u.state) && Held(s.pc) == {}
    requires s2.staging == s.staging && s2.left == s.left - {u.stagingKey}
    requires Held(s2.pc) == if u.stagingKey in s.staging then {u.stagingKey} else {}
    ensures LeftInv(s2)
  {
    var sk := u.stagingKey;
    assert Over(s2.t.uploads, sk) by {
      forall j | j in s2.t.uploads && s2.t.uploads[j].stagingKey == sk ensures Ended(s2.t.uploads[j].state) {
        if j != id { assert Apart(s.t.uploads, j, id); }
      }
    }
    assert KeyStands(s2, sk);
    OneRowStands(s, s2, id, u);
  }

  // ---------------------------------------------------------------- actions without the lock

  lemma FreeLeft(cfg: Config, s: Sys, a: Action)
    requires Inv(cfg, s) && LeftInv(s) && LockFree(a)
    ensures LeftInv(StepFree(cfg, s, a))
  {
    hide Inv, LeftInv, StepFree;
    if a.Crash? {
      CrashLeft(cfg, s);
    } else {
      FreeCalm(cfg, s, a);
      CalmKeeps(s, StepFree(cfg, s, a));
    }
  }

  /** A crash leaves what was held. */
  lemma CrashLeft(cfg: Config, s: Sys)
    requires LeftInv(s)
    ensures LeftInv(StepFree(cfg, s, Crash))
  {
    hide Over, Disposable;
    var s2 := StepCrash(s);
    forall k ensures KeyStands(s2, k) { assert KeyStands(s, k); }
  }

  lemma FreeCalm(cfg: Config, s: Sys, a: Action)
    requires Inv(cfg, s) && LockFree(a) && !a.Crash?
    ensures Calm(s, StepFree(cfg, s, a))
  {
    hide UsedOk, DistinctKeys, UploadsOk, FilesOk, DoomedOk, WithinQuota, PcOk, TablesInv, StepFree;
    FreeFrame(cfg, s, a);
    FreeHolds(cfg, s, a);
  }

  lemma FreeHolds(cfg: Config, s: Sys, a: Action)
    requires LockFree(a) && !a.Crash?
    ensures StepFree(cfg, s, a).pc == s.pc && StepFree(cfg, s, a).left == s.left
  {
    hide CreateFolder, Rename, Move, Trash, Restore, PurgeNode, Enumerates;
  }

  // ---------------------------------------------------------------- uploads

  lemma UploadLeft(cfg: Config, s: Sys, a: Action)
    requires Inv(cfg, s) && LeftInv(s)
    ensures LeftInv(StepUpload(cfg, s, a))
  {
    hide Inv, LeftInv, StepUpload;
    UploadUnfolds(cfg, s, a);
    match a
    case CreateStaging(sk, fk) => CreateStagingLeft(cfg, s, sk, fk);
    case InsertUpload(id, now) => InsertLeft(cfg, s, id, now);
    case RemoveStaging => RemoveStagingLeft(cfg, s);
    case Record => RecordLeft(cfg, s);
    case PhaseA => PhaseALeft(cfg, s);
    case PhaseB => PhaseBLeft(cfg, s);
    case PhaseC(node) => PhaseCLeft(cfg, s, node);
    case Terminate(id) => TerminateLeft(cfg, s, id);
    case _ =>
      CalmUpload(cfg, s, a);
      CalmKeeps(s, StepUpload(cfg, s, a));
  }

  lemma CalmUpload(cfg: Config, s: Sys, a: Action)
    requires !a.CreateStaging? && !a.InsertUpload? && !a.RemoveStaging? && !a.Record? && !a.PhaseA? && !a.PhaseB?
    requires !a.PhaseC? && !a.Terminate?
    ensures Calm(s, StepUpload(cfg, s, a))
  {
    if Creating(a) {
      hide StepUpload;
      CalmCreate(cfg, s, a);
    } else {
      hide StepAppend;
      if (a.Append? || a.AppendTorn?) && s.pc.Idle? && MayAppend(s, a.id, a.offset, a.now) {
        AppendCalm(s, a.id, if a.Append? then a.chunk else a.part, StepUpload(cfg, s, a).pc);
      }
    }
  }

  lemma CalmCreate(cfg: Config, s: Sys, a: Action)
    requires Creating(a) && !a.CreateStaging? && !a.InsertUpload?
    ensures Calm(s, StepUpload(cfg, s, a))
  {
    hide OverQuota, SlotFree, MayDraw, StepInsertUpload, Calm;
    CalmPc(s, StepUpload(cfg, s, a));
  }

  lemma CalmPc(s: Sys, s2: Sys)
    requires s2 == s.(pc := s2.pc, blind := s2.blind) && Held(s2.pc) == Held(s.pc)
    ensures Calm(s, s2)
  {
  }

  lemma AppendCalm(s: Sys, id: Id, bytes: Bytes, pc: Pc)
    requires id in s.t.uploads && id in s.hist && s.t.uploads[id].stagingKey in s.staging && s.pc.Idle?
    requires pc == Idle || pc.Appended?
    ensures Calm(s, StepAppend(s, id, bytes, pc)) && StepAppend(s, id, bytes, pc).pc == pc
  {
  }

  lemma CreateStagingLeft(cfg: Config, s: Sys, sk: Key, fk: Key)
    requires Inv(cfg, s) && LeftInv(s)
    ensures LeftInv(StepUpload(cfg, s, CreateStaging(sk, fk)))
  {
    hide TablesInv, DistinctKeys, UploadsOk, FilesOk, DoomedOk, WithinQuota, PcOk, HexKey;
    if s.pc.Admitted? && MayDraw(s, sk, fk) {
      var s2 := StepCreateStaging(s, sk, fk);
      assert KeyStands(s, sk);
      forall id | id in s.t.uploads ensures s.t.uploads[id].stagingKey != sk {
        assert KeysDrawn(s.used, s.t.uploads[id]);
      }
      OneKeyStands(s, s2, sk);
    }
  }

  lemma InsertLeft(cfg: Config, s: Sys, id: Id, now: int)
    requires Inv(cfg, s) && LeftInv(s)
    ensures LeftInv(StepInsertUpload(cfg, s, id, now))
  {
    hide TablesInv, DistinctKeys, UploadsOk, FilesOk, DoomedOk, WithinQuota, PcOk, HexKey, KeysDrawn;
    var s2 := StepInsertUpload(cfg, s, id, now);
    if s2.t.uploads == s.t.uploads {
      CalmKeeps(s, s2);
    } else {
      var sk := s.pc.sk;
      assert s2.t.uploads[id].stagingKey == sk;
      assert KeyStands(s, sk) && sk in Held(s.pc);
      forall k ensures KeyStands(s2, k) {
        assert KeyStands(s, k);
        if k != sk { AnotherKey(s.t.uploads, id, s2.t.uploads[id], k); }
      }
    }
  }

  lemma AnotherKey(us: Uploads, id: Id, u: Upload, k: Key)
    requires id !in us && u.stagingKey != k
    ensures Over(us[id := u], k) <==> Over(us, k)
    ensures Disposable(us[id := u], k) <==> Disposable(us, k)
  {
    var us2 := us[id := u];
    assert forall j | j in us :: us2[j] == us[j];
  }

  lemma RemoveStagingLeft(cfg: Config, s: Sys)
    requires LeftInv(s)
    ensures LeftInv(StepUpload(cfg, s, RemoveStaging))
  {
    hide LeftInv;
    var s2 := StepRemoveStaging(s);
    if s.pc.Unstaging? || s.pc.ExpiredRow? || s.pc.Leftover? { ReleaseStands(s, s2, s.pc.sk); }
  }

  lemma RecordLeft(cfg: Config, s: Sys)
    requires Inv(cfg, s) && LeftInv(s)
    ensures LeftInv(StepRecord(s))
  {
    hide TablesInv, UsedOk, DistinctKeys, UploadsOk, FilesOk, DoomedOk, WithinQuota, LeftInv;
    var s2 := StepRecord(s);
    if s2.t == s.t { CalmKeeps(s, s2); } else { ActiveRowStands(s, s2, s.pc.id, s2.t.uploads[s.pc.id]); }
  }

  lemma PhaseALeft(cfg: Config, s: Sys)
    requires Inv(cfg, s) && LeftInv(s)
    ensures LeftInv(StepPhaseA(cfg, s))
  {
    hide TablesInv, UsedOk, DistinctKeys, UploadsOk, FilesOk, DoomedOk, WithinQuota, LeftInv;
    var s2 := StepPhaseA(cfg, s);
    if s2.t == s.t { CalmKeeps(s, s2); } else { ActiveRowStands(s, s2, s.pc.id, s2.t.uploads[s.pc.id]); }
  }

  /** The rename takes the file away from an active row. */
  lemma MoveLeft(s: Sys, id: Id, pc: Pc)
    requires LeftInv(s) && id in s.t.uploads && Active(s.t.uploads[id].state) && s.t.uploads[id].stagingKey in s.staging
    requires Held(s.pc) == {} == Held(pc)
    ensures LeftInv(MoveStagingToObject(s, s.t.uploads[id], pc))
  {
    hide LeftInv;
    var u := s.t.uploads[id];
    assert s.t.uploads == s.t.uploads[id := u];
    ActiveRowStands(s, MoveStagingToObject(s, u, pc), id, u);
  }

  lemma PhaseBLeft(cfg: Config, s: Sys)
    requires Inv(cfg, s) && LeftInv(s)
    ensures LeftInv(StepPhaseB(s))
  {
    hide TablesInv, UsedOk, DistinctKeys, UploadsOk, FilesOk, DoomedOk, WithinQuota, LeftInv, MoveStagingToObject;
    if s.pc.Intent? { MoveLeft(s, s.pc.id, Renamed(s.pc.id)); } else { CalmKeeps(s, StepPhaseB(s)); }
  }

  /** A finalised row is completed; its bytes are in place, so no staging file of it is left. */
  lemma CompletionLeft(cfg: Config, s: Sys, s2: Sys, id: Id)
    requires Inv(cfg, s) && LeftInv(s) && id in s.t.uploads && s.t.uploads[id].state == Finalizing
    requires s.t.uploads[id].finalKey in s.objects && s2.t.uploads == Close(s.t, id, Complete).uploads
    requires s2.staging == s.staging && s2.left == s.left && Held(s2.pc) == Held(s.pc)
    ensures LeftInv(s2)
  {
    hide TablesInv, UsedOk, DistinctKeys, FilesOk, DoomedOk, WithinQuota, PcOk, LeftInv;
    assert UploadAt(cfg, s, id);
    ActiveRowStands(s, s2, id, s2.t.uploads[id]);
  }

  lemma PhaseCLeft(cfg: Config, s: Sys, node: Id)
    requires Inv(cfg, s) && LeftInv(s)
    ensures LeftInv(StepPhaseC(s, node))
  {
    hide TablesInv, UsedOk, DistinctKeys, UploadAt, FilesOk, DoomedOk, WithinQuota, PcOk, LeftInv, CommitFile;
    var s2 := StepPhaseC(s, node);
    if s.pc.Renamed? {
      RenamedRow(cfg, s);
      PhaseCRow(s, node);
      if s2.t == s.t { CalmKeeps(s, s2); } else { CompletionLeft(cfg, s, s2, s.pc.id); }
    } else {
      CalmKeeps(s, s2);
    }
  }

  lemma TerminateLeft(cfg: Config, s: Sys, id: Id)
    requires Inv(cfg, s) && LeftInv(s)
    ensures LeftInv(StepTerminate(s, id))
  {
    hide TablesInv, UsedOk, DistinctKeys, UploadsOk, FilesOk, DoomedOk, WithinQuota, PcOk, LeftInv;
    var s2 := StepTerminate(s, id);
    if s2 == s { CalmKeeps(s, s2); } else { ClosingStands(s, s2, id, s2.t.uploads[id]); }
  }

  // ---------------------------------------------------------------- reconciling

  lemma ReconcileLeft(cfg: Config, s: Sys, a: Action)
    requires Inv(cfg, s) && LeftInv(s)
    ensures LeftInv(StepReconcile(s, a))
  {
    hide Inv, LeftInv, StepReconcile;
    ReconcileUnfolds(s, a);
    match a
    case ExpireNext => ExpireLeft(cfg, s);
    case ExpireFails => ExpireFailsLeft(cfg, s);
    case ResolveNext(node) => ResolveLeft(cfg, s, node);
    case CommitMoved(node) => CommitMovedLeft(cfg, s, node);
    case GiveUp => GiveUpLeft(s);
    case _ =>
      CalmReconcile(s, a);
      CalmKeeps(s, StepReconcile(s, a));
  }

  lemma CalmReconcile(s: Sys, a: Action)
    requires !a.ExpireNext? && !a.ExpireFails? && !a.ResolveNext? && !a.CommitMoved? && !a.GiveUp?
    ensures Calm(s, StepReconcile(s, a))
  {
    hide Enumerates, ExpiredIds, FinalizingIds;
  }

  lemma ExpireLeft(cfg: Config, s: Sys)
    requires Inv(cfg, s) && LeftInv(s)
    ensures LeftInv(StepExpireNext(s))
  {
    hide TablesInv, UsedOk, DistinctKeys, UploadsOk, FilesOk, DoomedOk, WithinQuota, LeftInv;
    var s2 := StepExpireNext(s);
    if s.pc.Expiring? && s.pc.todo != [] {
      var id := s.pc.todo[0];
      ActiveKey(s, id);
      ClosingStands(s, s2, id, s2.t.uploads[id]);
    } else {
      CalmKeeps(s, s2);
    }
  }

  /** The row stays active and has lost its file. */
  lemma ExpireFailsLeft(cfg: Config, s: Sys)
    requires Inv(cfg, s) && LeftInv(s)
    ensures LeftInv(StepReconcile(s, ExpireFails))
  {
    hide TablesInv, UsedOk, DistinctKeys, UploadsOk, FilesOk, DoomedOk, WithinQuota, LeftInv;
    var s2 := StepExpireFails(s);
    if s2 == s {
      CalmKeeps(s, s2);
    } else {
      var id := s.pc.todo[0];
      assert s.t.uploads == s.t.uploads[id := s.t.uploads[id]];
      ActiveRowStands(s, s2, id, s.t.uploads[id]);
    }
  }

  lemma ResolveLeft(cfg: Config, s: Sys, node: Id)
    requires Inv(cfg, s) && LeftInv(s)
    ensures LeftInv(StepResolveNext(s, node))
  {
    hide TablesInv, UsedOk, DistinctKeys, FilesOk, DoomedOk, WithinQuota, LeftInv, RepairFile, MoveStagingToObject;
    if s.pc.Resolving? && s.pc.todo != [] && node !in s.used {
      var id, s2 := s.pc.todo[0], StepResolveNext(s, node);
      assert UploadAt(cfg, s, id);
      if s.t.uploads[id].finalKey in s.objects {
        RepairedRow(s, id, node);
        CompletionLeft(cfg, s, s2, id);
      } else {
        MoveLeft(s, id, Moved(id, s.pc.todo[1..]));
      }
    } else {
      CalmKeeps(s, s);
    }
  }

  lemma CommitMovedLeft(cfg: Config, s: Sys, node: Id)
    requires Inv(cfg, s) && LeftInv(s)
    ensures LeftInv(StepCommitMoved(s, node))
  {
    hide TablesInv, UsedOk, DistinctKeys, UploadAt, FilesOk, DoomedOk, WithinQuota, LeftInv, RepairFile;
    var s2 := StepCommitMoved(s, node);
    if s2 == s {
      CalmKeeps(s, s2);
    } else {
      RepairedRow(s, s.pc.id, node);
      CompletionLeft(cfg, s, s2, s.pc.id);
    }
  }

  /** A removal that fails leaves what was held. */
  lemma GiveUpLeft(s: Sys)
    requires LeftInv(s)
    ensures LeftInv(StepReconcile(s, GiveUp))
  {
    hide LeftInv, StepGiveUp, Held;
    if s.pc.ExpiredRow? || s.pc.Leftover? || s.pc.Unstaging? {
      GiveUpLeaves(s);
      ReleaseStands(s, StepGiveUp(s), s.pc.sk);
    } else {
      GiveUpCalm(s);
      CalmKeeps(s, StepGiveUp(s));
    }
  }

  lemma GiveUpLeaves(s: Sys)
    requires s.pc.ExpiredRow? || s.pc.Leftover? || s.pc.Unstaging?
    ensures var s2 := StepGiveUp(s); s2 == s.(pc := s2.pc, left := s.left + {s.pc.sk})
    ensures Held(s.pc) == {s.pc.sk} && Held(StepGiveUp(s).pc) == {}
  {
  }

  lemma GiveUpCalm(s: Sys)
    requires !s.pc.ExpiredRow? && !s.pc.Leftover? && !s.pc.Unstaging?
    ensures Calm(s, StepGiveUp(s))
  {
    hide Calm;
    CalmPc(s, StepGiveUp(s));
  }

  // ---------------------------------------------------------------- every run

  lemma StepLeft(cfg: Config, s: Sys, a: Action)
    requires Inv(cfg, s) && LeftInv(s)
    ensures LeftInv(Step(cfg, s, a))
  {
    hide Inv, LeftInv, StepFree, StepUpload, StepReconcile;
    if LockFree(a) { FreeLeft(cfg, s, a); }
    UploadLeft(cfg, s, a);
    ReconcileLeft(cfg, s, a);
  }

  lemma {:induction false} RunLeft(cfg: Config, s: Sys, actions: seq<Action>)
    requires Sane(cfg) && Inv(cfg, s) && LeftInv(s)
    ensures LeftInv(Run(cfg, s, actions))
    decreases |actions|
  {
    hide Inv, LeftInv, Step;
    if actions != [] {
      StepLeft(cfg, s, actions[0]);
      StepKeeps(cfg, s, actions[0]);
      RunLeft(cfg, Step(cfg, s, actions[0]), actions[1..]);
    }
  }

  lemma AlwaysLeft(cfg: Config, actions: seq<Action>)
    requires Sane(cfg)
    ensures LeftInv(After(cfg, actions))
  {
    hide Inv, Step;
    InitialInv(cfg);
    forall k ensures KeyStands(INITIAL_SYS, k) {}
    RunLeft(cfg, INITIAL_SYS, actions);
  }

  /** An active upload has its staging file exactly unless an expiry dropped it or the rename took it. */
  lemma ActiveHas(cfg: Config, s: Sys, id: Id)
    requires Inv(cfg, s) && OrphanInv(s) && id in s.t.uploads && Active(s.t.uploads[id].state)
    ensures id in s.hist && (Has(s, id) <==> s.t.uploads[id].stagingKey in s.staging)
  {
    hide TablesInv, UsedOk, DistinctKeys, FilesOk, DoomedOk, WithinQuota, PcOk, KeyStored;
    assert UploadAt(cfg, s, id) && PlacedAt(s, id);
  }

  /** In every run there is a staging file under a key if and only if an active upload still has it, the holder of the
      mutex has yet to give it a row or to remove it, or it was left: its removal failed, or a crash came first. The
      three exclude one another, and what is held or left belongs to a terminated or expired upload or to none. */
  lemma StagingIff(cfg: Config, actions: seq<Action>, k: Key)
    requires Sane(cfg)
    ensures var s := After(cfg, actions);
      && (k in s.staging <==> (exists id :: Stages(s, k, id) && Has(s, id)) || k in Held(s.pc) || k in s.left)
      && !(k in Held(s.pc) && k in s.left)
      && (k in Held(s.pc) || k in s.left ==> forall id | Stages(s, k, id) :: Ended(s.t.uploads[id].state))
  {
    hide TablesInv, UsedOk, DistinctKeys, UploadAt, FilesOk, DoomedOk, WithinQuota, PcOk, LeftInv, OrphanInv, Has;
    var s := After(cfg, actions);
    Reachable(cfg, actions);
    AlwaysLeft(cfg, actions);
    AlwaysPlaced(cfg, actions);
    KeyStandsNow(s, k);
    forall id | Stages(s, k, id) && Active(s.t.uploads[id].state) ensures Has(s, id) <==> k in s.staging {
      ActiveHas(cfg, s, id);
    }
    if k in s.staging && !Disposable(s.t.uploads, k) {
      var id :| id in s.t.uploads && s.t.uploads[id].stagingKey == k && Active(s.t.uploads[id].state);
      assert Stages(s, k, id);
    }
    if id :| Stages(s, k, id) && Has(s, id) { HasActive(s, id); }
  }

  lemma HasActive(s: Sys, id: Id)
    requires id in s.t.uploads && id in s.hist && Has(s, id)
    ensures Active(s.t.uploads[id].state)
  {
  }

  /** The staging file of an upload, by its state: a completed upload never has one, an ended one only while its removal
      is under way or after it was left. */
  lemma StagingFileOf(cfg: Config, actions: seq<Action>, id: Id)
    requires Sane(cfg) && id in After(cfg, actions).t.uploads
    ensures var s := After(cfg, actions); var k := s.t.uploads[id].stagingKey;
      && id in s.hist
      && (k in s.staging <==> if Ended(s.t.uploads[id].state) then k in Held(s.pc) || k in s.left else Has(s, id))
      && forall j | Stages(s, k, j) :: j == id
  {
    hide TablesInv, UsedOk, FilesOk, DoomedOk, WithinQuota, PcOk;
    var s := After(cfg, actions);
    var k := s.t.uploads[id].stagingKey;
    Reachable(cfg, actions);
    StagingIff(cfg, actions, k);
    forall j | Stages(s, k, j) ensures j == id { assert j != id ==> Apart(s.t.uploads, j, id); }
    assert Stages(s, k, id);
  }

  // ---------------------------------------------------------------- for ever

  lemma LeftGrows(cfg: Config, s: Sys, a: Action)
    requires !a.Terminate?
    ensures s.left <= Step(cfg, s, a).left
  {
    hide StepFree, StepUpload, StepReconcile;
    if LockFree(a) {
      if a.Crash? { CrashGrows(cfg, s); } else { FreeHolds(cfg, s, a); }
    } else if OfReconcile(a) {
      ReconcileGrows(s, a);
    } else {
      UploadKeepsLeft(cfg, s, a);
    }
  }

  lemma CrashGrows(cfg: Config, s: Sys)
    ensures s.left <= StepFree(cfg, s, Crash).left
  {
  }

  lemma ReconcileGrows(s: Sys, a: Action)
    ensures s.left <= StepReconcile(s, a).left
  {
    hide RepairFile, KeyStored, Enumerates, ExpiredIds, FinalizingIds;
  }

  lemma UploadKeepsLeft(cfg: Config, s: Sys, a: Action)
    requires !a.Terminate?
    ensures StepUpload(cfg, s, a).left == s.left
  {
    if Creating(a) {
      hide StepUpload;
      CreatingKeepsLeft(cfg, s, a);
    } else {
      hide CommitFile, MayAppend;
    }
  }

  lemma CreatingKeepsLeft(cfg: Config, s: Sys, a: Action)
    requires Creating(a)
    ensures StepUpload(cfg, s, a).left == s.left
  {
    hide OverQuota, MayDraw, SlotFree;
  }

  /** A file that was left stops being left in exactly one way: the upload that names it is terminated, for the first
      time or once more, and its removal is tried again. */
  lemma LeftUntilTerminated(cfg: Config, actions: seq<Action>, a: Action, k: Key)
    requires Sane(cfg) && k in After(cfg, actions).left
    ensures var s := After(cfg, actions);
      k !in Step(cfg, s, a).left <==> s.pc.Idle? && a.Terminate? && Stages(s, k, a.id)
  {
    hide Inv, Step;
    var s := After(cfg, actions);
    StagingIff(cfg, actions, k);
    Reachable(cfg, actions);
    if a.Terminate? { TerminateTakes(cfg, s, a.id, k); } else { LeftGrows(cfg, s, a); }
  }

  lemma TerminateTakes(cfg: Config, s: Sys, id: Id, k: Key)
    requires Inv(cfg, s) && k in s.left && forall i | Stages(s, k, i) :: Ended(s.t.uploads[i].state)
    ensures k !in Step(cfg, s, Terminate(id)).left <==> s.pc.Idle? && Stages(s, k, id)
  {
    hide TablesInv, UsedOk, DistinctKeys, UploadAt, FilesOk, DoomedOk, WithinQuota, PcOk, StepFree, StepReconcile,
      StepUpload;
    UploadUnfolds(cfg, s, Terminate(id));
  }

  ghost predicate Unnamed(us: Uploads, k: Key) {
    forall id {:trigger us[id]} | id in us :: us[id].stagingKey != k
  }

  /** A row that appears takes the staging key that was held for it. */
  lemma NewRowKey(cfg: Config, s: Sys, a: Action, id: Id)
    requires TablesInv(s.t) && id !in s.t.uploads && id in Step(cfg, s, a).t.uploads
    ensures Step(cfg, s, a).t.uploads[id].stagingKey in Held(s.pc)
  {
    hide StepFree, StepReconcile, StepUpload, TablesInv, StepInsertUpload;
    FreeFrame(cfg, s, a);
    ReconcileKeys(s, a);
    InsertUnfolds(cfg, s, a);
    if a.InsertUpload? { InsertedKey(cfg, s, a.id, a.now, id); } else { UploadKeys(cfg, s, a); }
  }

  lemma InsertedKey(cfg: Config, s: Sys, row: Id, now: int, id: Id)
    requires id !in s.t.uploads && id in StepInsertUpload(cfg, s, row, now).t.uploads
    ensures StepInsertUpload(cfg, s, row, now).t.uploads[id].stagingKey in Held(s.pc)
  {
  }

  lemma StaysStranded(cfg: Config, s: Sys, a: Action, k: Key)
    requires Inv(cfg, s) && LeftInv(s) && k in s.left && Unnamed(s.t.uploads, k)
    ensures k in Step(cfg, s, a).left && Unnamed(Step(cfg, s, a).t.uploads, k)
  {
    hide TablesInv, UsedOk, DistinctKeys, UploadsOk, FilesOk, DoomedOk, WithinQuota, PcOk, Step, LeftInv;
    var s2 := Step(cfg, s, a);
    KeyStandsNow(s, k);
    if a.Terminate? { TerminateTakes(cfg, s, a.id, k); } else { LeftGrows(cfg, s, a); }
    forall id | id in s2.t.uploads ensures s2.t.uploads[id].stagingKey != k {
      if id in s.t.uploads { StepLater(cfg, s, a, id); } else { NewRowKey(cfg, s, a, id); }
    }
  }

  lemma {:induction false} RunStranded(cfg: Config, s: Sys, actions: seq<Action>, k: Key)
    requires Sane(cfg) && Inv(cfg, s) && LeftInv(s) && k in s.left && Unnamed(s.t.uploads, k)
    ensures k in Run(cfg, s, actions).staging && Unnamed(Run(cfg, s, actions).t.uploads, k)
    decreases |actions|
  {
    hide Inv, LeftInv, Step, Unnamed;
    if actions == [] {
      KeyStandsNow(s, k);
    } else {
      StepKeeps(cfg, s, actions[0]);
      StepLeft(cfg, s, actions[0]);
      StaysStranded(cfg, s, actions[0], k);
      RunStranded(cfg, Step(cfg, s, actions[0]), actions[1..], k);
    }
  }

  /** Nothing ever collects a staging file that no row names and nobody holds: after every further run, however often it
      reconciles, it is there, without a row. */
  lemma StrandedStays(cfg: Config, before: seq<Action>, after: seq<Action>, k: Key)
    requires Sane(cfg)
    requires var s := After(cfg, before);
      k in s.staging && k !in Held(s.pc) && forall id | id in s.t.uploads :: s.t.uploads[id].stagingKey != k
    ensures var s2 := Run(cfg, After(cfg, before), after);
      k in s2.staging && forall id | id in s2.t.uploads :: s2.t.uploads[id].stagingKey != k
  {
    hide Inv, LeftInv, Step, Has, Held;
    Reachable(cfg, before);
    AlwaysLeft(cfg, before);
    StagingIff(cfg, before, k);
    RunStranded(cfg, After(cfg, before), after, k);
  }
}
