/** Reachable states, and what the single steps of an upload operation do where the operation takes them. */
module OpRuns {
  import opened Basics
  import opened Schema
  import opened Tree
  import opened Purge
  import opened Machine
  import opened Invariant
  import opened Steps
  import opened Reconciling
  import opened Convergence

  /** A state some run reaches from the freshly migrated system. */
  ghost predicate Reached(cfg: Config, s: Sys) {
    Follows(cfg, INITIAL_SYS, s)
  }

  /** `s2` is reached from `s` by steps of the machine. */
  ghost predicate Follows(cfg: Config, s: Sys, s2: Sys) {
    exists actions :: s2 == Run(cfg, s, actions)
  }

  lemma ReachedInv(cfg: Config, s: Sys)
    requires Sane(cfg) && Reached(cfg, s)
    ensures Inv(cfg, s)
  {
    hide Inv, Step;
    var actions :| s == Run(cfg, INITIAL_SYS, actions);
    InitialInv(cfg);
    RunKeeps(cfg, INITIAL_SYS, actions);
  }

  lemma FollowsRun(cfg: Config, s: Sys, s1: Sys, more: seq<Action>)
    requires Follows(cfg, s, s1)
    ensures Follows(cfg, s, Run(cfg, s1, more))
  {
    hide Step;
    var actions :| s1 == Run(cfg, s, actions);
    RunConcat(cfg, s, actions, more);
    assert Run(cfg, s1, more) == Run(cfg, s, actions + more);
  }

  lemma FollowsStep(cfg: Config, s: Sys, s1: Sys, a: Action)
    requires Follows(cfg, s, s1)
    ensures Follows(cfg, s, Step(cfg, s1, a))
  {
    hide Step;
    RunOne(cfg, s1, a);
    FollowsRun(cfg, s, s1, [a]);
  }

  lemma FollowsSelf(cfg: Config, s: Sys)
    ensures Follows(cfg, s, s)
  {
    assert s == Run(cfg, s, []);
  }

  // ---------------------------------------------------------------- creating

  function NewUpload(cfg: Config, req: Request, sk: Key, fk: Key, now: int): Upload {
    Upload(req.parent, req.name, req.size, 0, req.size, sk, fk, Created, None, now + cfg.expiry)
  }

  lemma CheckParentDoes(cfg: Config, s: Sys, p: Id)
    requires ActiveFolder(s.t.nodes, p)
    ensures Step(cfg, s, CheckParent(p)) == s.(seen := s.seen + {p})
  {
    hide StepReconcile, StepUpload;
  }

  lemma BeginCreateDoes(cfg: Config, s: Sys, req: Request)
    requires s.pc.Idle? && req.size <= cfg.maxFile && req.parent in s.seen
    ensures Step(cfg, s, BeginCreate(req)) == if SlotFree(s.t.nodes, "", req.parent, req.name.key)
      then s.(pc := Admitting(req)) else s
  {
    hide StepFree, StepReconcile, SlotFree;
  }

  function StoredRead(fails: bool): Action {
    if fails then ReadStoredFails else ReadStored
  }

  function ReservedRead(fails: bool, space: bool): Action {
    if fails then ReadReservedFails(space) else ReadReserved(space)
  }

  /** Reading the two sums: a failed query counts as zero. */
  lemma ReadSumsDo(cfg: Config, s: Sys, noStored: bool, noReserved: bool, space: bool)
    requires s.pc.Admitting?
    ensures var s1 := Step(cfg, s, StoredRead(noStored)); var req := s.pc.req;
      var stored, reserved := if noStored then 0 else StoredBytes(s.t), if noReserved then 0 else ReservedBytes(s.t);
      && s1 == s.(pc := Weighing(req, stored), blind := s.blind || noStored)
      && Step(cfg, s1, ReservedRead(noReserved, space)) ==
           s1.(pc := if OverQuota(cfg.maxStorage, stored, reserved, req.size) || !space then Idle else Admitted(req),
               blind := s1.blind || noReserved)
  {
    hide StepFree, StepReconcile, OverQuota, Sum;
  }

  lemma CreateStagingDoes(cfg: Config, s: Sys, sk: Key, fk: Key)
    requires s.pc.Admitted? && MayDraw(s, sk, fk)
    ensures Step(cfg, s, CreateStaging(sk, fk)) ==
            s.(staging := s.staging[sk := []], used := s.used + {sk, fk}, pc := Staged(s.pc.req, sk, fk))
  {
    hide StepFree, StepReconcile, MayDraw;
  }

  lemma InsertUploadDoes(cfg: Config, s: Sys, id: Id, now: int)
    requires s.pc.Staged? && id !in s.used && s.pc.req.parent in s.t.nodes
    ensures Step(cfg, s, InsertUpload(id, now)) ==
            s.(t := s.t.(uploads := s.t.uploads[id := NewUpload(cfg, s.pc.req, s.pc.sk, s.pc.fk, now)]),
               hist := s.hist[id := NO_HISTORY], used := s.used + {id}, pc := Idle)
  {
    hide StepFree, StepReconcile;
  }

  /** Giving up: with a staging file but no row it comes to removing that file, which may fail as well. */
  lemma GiveUpDoes(cfg: Config, s: Sys)
    requires !s.pc.Expiring? && !s.pc.ExpiredRow? && !s.pc.Resolving? && !s.pc.Moved? && !s.pc.Leftover?
    ensures Step(cfg, s, GiveUp) == s.(pc := if s.pc.Staged? then Unstaging(s.pc.sk) else Idle,
                                       left := if s.pc.Unstaging? then s.left + {s.pc.sk} else s.left)
  {
    hide StepFree, StepUpload;
  }

  lemma UnstageDoes(cfg: Config, s: Sys)
    requires s.pc.Unstaging?
    ensures Step(cfg, s, RemoveStaging) == s.(staging := s.staging - {s.pc.sk}, pc := Idle)
  {
    hide StepFree, StepReconcile;
  }

  // ---------------------------------------------------------------- writing

  /** A write that the service turns away before it opens the staging file. */
  predicate Refused(us: Uploads, id: Id, offset: int, now: int) {
    id !in us || !Accepting(us[id].state) || now > us[id].expiresAt || offset != us[id].received
  }

  function Progress(u: Upload, n: nat): Upload {
    u.(received := u.received + n, state := if u.received + n == u.expected then Verifying else Receiving)
  }

  lemma AppendDoes(cfg: Config, s: Sys, id: Id, offset: int, part: Bytes, now: int, torn: bool)
    requires s.pc.Idle? && !Refused(s.t.uploads, id, offset, now) && id in s.hist
      && s.t.uploads[id].stagingKey in s.staging
    ensures var a := if torn then AppendTorn(id, offset, part, now) else Append(id, offset, part, now);
      Step(cfg, s, a) == StepAppend(s, id, part, if torn then Idle else Appended(id, part))
  {
    hide StepFree, StepReconcile, StepAppend;
  }

  lemma RecordDoes(cfg: Config, s: Sys)
    requires s.pc.Appended? && s.pc.id in s.t.uploads && s.pc.id in s.hist && |s.pc.chunk| <= s.hist[s.pc.id].stray
    ensures var id, n := s.pc.id, |s.pc.chunk|; var u, s2 := s.t.uploads[id], Step(cfg, s, Record);
      && s2.staging == s.staging && s2.objects == s.objects && s2.used == s.used
      && s2.t == (if u.received + n > u.expected then s.t else s.t.(uploads := s.t.uploads[id := Progress(u, n)]))
      && s2.pc == if u.received + n == u.expected then Verified(id) else Idle
  {
    hide StepFree, StepReconcile;
  }

  // ---------------------------------------------------------------- finalising

  /** The row after phase A. */
  function IntentRow(cfg: Config, u: Upload, bytes: Bytes): Upload {
    u.(state := Finalizing, sha := Some(cfg.sha(bytes)))
  }

  lemma PhaseADoes(cfg: Config, s: Sys)
    requires s.pc.Verified? && s.pc.id in s.t.uploads && s.t.uploads[s.pc.id].stagingKey in s.staging
    ensures var id := s.pc.id; var u := s.t.uploads[id];
      Step(cfg, s, PhaseA) ==
        s.(t := s.t.(uploads := s.t.uploads[id := IntentRow(cfg, u, s.staging[u.stagingKey])]), pc := Intent(id))
  {
    hide StepFree, StepReconcile;
  }

  lemma PhaseBDoes(cfg: Config, s: Sys)
    requires s.pc.Intent? && s.pc.id in s.t.uploads && s.t.uploads[s.pc.id].stagingKey in s.staging
    ensures Step(cfg, s, PhaseB) == MoveStagingToObject(s, s.t.uploads[s.pc.id], Renamed(s.pc.id))
  {
    hide StepFree, StepReconcile, MoveStagingToObject;
  }

  /** Phase C commits exactly when the name is still free. */
  lemma PhaseCDoes(cfg: Config, s: Sys, node: Id)
    requires Inv(cfg, s) && s.pc.Renamed? && node !in s.used
    ensures var id := s.pc.id; id in s.t.uploads && s.t.uploads[id].sha.Some?
    ensures var id := s.pc.id; var s2 := Step(cfg, s, PhaseC(node));
      var r := CommitFile(s.t, id, node, s.t.uploads[id].sha.value);
      && (r.Ok? <==> RowFits(s.t.nodes, node, FileRow(s.t.uploads[id])))
      && (r.Ok? ==> r.value == Committed(s.t, id, node))
      && s2.pc.Idle? && s2.staging == s.staging && s2.objects == s.objects && s2.t == if r.Ok? then r.value else s.t
  {
    hide TablesInv, UsedOk, FilesOk, DoomedOk, WithinQuota, DistinctKeys, CommitFile, StepFree, StepReconcile, HexKey,
      Sum, RowFits, Committed;
    assert UploadAt(cfg, s, s.pc.id);
    RepairIsCommit(cfg, s, s.pc.id, node);
  }

  // ---------------------------------------------------------------- terminating

  lemma TerminateDoes(cfg: Config, s: Sys, id: Id)
    requires s.pc.Idle? && id in s.t.uploads && s.t.uploads[id].state != Complete
    ensures var sk := s.t.uploads[id].stagingKey;
      Step(cfg, s, Terminate(id)) == s.(t := Close(s.t, id, Terminated),
                                        pc := if sk in s.staging then Unstaging(sk) else Idle, left := s.left - {sk})
  {
    hide StepFree, StepReconcile;
  }

  // ---------------------------------------------------------------- reconciling

  lemma BeginReconcileDoes(cfg: Config, s: Sys, now: int, expired: seq<Id>)
    requires s.pc.Idle? && Enumerates(expired, ExpiredIds(s.t.uploads, now))
    ensures Step(cfg, s, BeginReconcile(now, expired)) == s.(pc := Expiring(expired, now))
  {
    hide StepFree, StepUpload, Enumerates, ExpiredIds;
  }

  lemma CollectDoes(cfg: Config, s: Sys, todo: seq<Id>)
    requires s.pc.Expiring? && s.pc.todo == [] && Enumerates(todo, FinalizingIds(s.t.uploads))
    ensures Step(cfg, s, CollectFinalizing(todo)) == s.(pc := Resolving(todo))
  {
    hide StepFree, StepUpload, Enumerates, FinalizingIds;
  }

  lemma ExpireDoes(cfg: Config, s: Sys, id: Id, rest: seq<Id>, now: int)
    requires s.pc == Expiring([id] + rest, now) && id in s.t.uploads && id in s.hist
    ensures var sk := s.t.uploads[id].stagingKey;
      Step(cfg, s, ExpireNext) == s.(t := Close(s.t, id, Expired),
                                     pc := if sk in s.staging then ExpiredRow(sk, rest, now) else Expiring(rest, now))
  {
    hide StepFree, StepUpload;
    assert s.pc.todo[0] == id && s.pc.todo[1..] == rest;
  }

  /** The row could not be written; the staging file goes, or, if that fails too, nothing happens. */
  lemma ExpireFailsDoes(cfg: Config, s: Sys, id: Id, rest: seq<Id>, now: int)
    requires s.pc == Expiring([id] + rest, now) && id in s.t.uploads && id in s.hist
    ensures Step(cfg, s, ExpireFails) ==
            s.(staging := s.staging - {s.t.uploads[id].stagingKey}, hist := s.hist[id := s.hist[id].(dropped := true)],
               pc := Expiring(rest, now))
  {
    hide StepFree, StepUpload;
    assert s.pc.todo[0] == id && s.pc.todo[1..] == rest;
  }

  lemma ExpireSkips(cfg: Config, s: Sys, id: Id, rest: seq<Id>, now: int)
    requires s.pc == Expiring([id] + rest, now)
    ensures Step(cfg, s, GiveUp) == s.(pc := Expiring(rest, now))
  {
    hide StepFree, StepUpload;
    assert s.pc.todo[0] == id && s.pc.todo[1..] == rest;
  }

  lemma ExpiredRowDoes(cfg: Config, s: Sys)
    requires s.pc.ExpiredRow?
    ensures Step(cfg, s, RemoveStaging) == s.(staging := s.staging - {s.pc.sk}, pc := Expiring(s.pc.todo, s.pc.now))
    ensures Step(cfg, s, GiveUp) == s.(pc := Expiring(s.pc.todo, s.pc.now), left := s.left + {s.pc.sk})
  {
    hide StepFree;
  }

  /** The object is in place: the row is completed, by the repair transaction if no file row exists, and a leftover
      staging file comes next. */
  lemma ResolvePresentDoes(cfg: Config, s: Sys, id: Id, node: Id, rest: seq<Id>)
    requires s.pc == Resolving([id] + rest) && id in s.t.uploads && id in s.hist && node !in s.used
    requires s.t.uploads[id].finalKey in s.objects
    ensures var u := s.t.uploads[id]; var s1 := Step(cfg, s, ResolveNext(node));
      && s1.used <= s.used + {node} && s1.staging == s.staging && s1.objects == s.objects
      && s1.t == (if KeyStored(s.t.files, u.finalKey) then Close(s.t, id, Complete) else RepairFile(s.t, id, node))
      && s1.pc == (if u.stagingKey in s.staging then Leftover(u.stagingKey, rest) else Resolving(rest))
  {
    hide StepFree, StepUpload, RepairFile, KeyStored;
    assert s.pc.todo[0] == id && s.pc.todo[1..] == rest;
  }

  lemma LeftoverDoes(cfg: Config, s: Sys)
    requires s.pc.Leftover?
    ensures Step(cfg, s, RemoveStaging) == s.(staging := s.staging - {s.pc.sk}, pc := Resolving(s.pc.todo))
    ensures Step(cfg, s, GiveUp) == s.(pc := Resolving(s.pc.todo), left := s.left + {s.pc.sk})
  {
    hide StepFree;
  }

  lemma ResolveStagedDoes(cfg: Config, s: Sys, id: Id, node: Id, rest: seq<Id>)
    requires s.pc == Resolving([id] + rest) && id in s.t.uploads && id in s.hist && node !in s.used
    requires s.t.uploads[id].finalKey !in s.objects && s.t.uploads[id].stagingKey in s.staging
    ensures Step(cfg, s, ResolveNext(node)) == MoveStagingToObject(s, s.t.uploads[id], Moved(id, rest))
  {
    hide StepFree, StepUpload, Repair, KeyStored, MoveStagingToObject;
    assert s.pc.todo[0] == id && s.pc.todo[1..] == rest;
  }

  lemma CommitMovedDoes(cfg: Config, s: Sys, node: Id)
    requires s.pc.Moved? && s.pc.id in s.t.uploads && s.pc.id in s.hist && node !in s.used
    ensures Step(cfg, s, CommitMoved(node)) == Repair(s, s.pc.id, node, Resolving(s.pc.todo))
    ensures Step(cfg, s, GiveUp) == s.(pc := Resolving(s.pc.todo))
  {
    hide StepFree, StepUpload, Repair;
  }

  lemma ResolveGivesUp(cfg: Config, s: Sys, id: Id, rest: seq<Id>)
    requires s.pc == Resolving([id] + rest)
    ensures Step(cfg, s, GiveUp) == s.(pc := Resolving(rest))
  {
    hide StepFree, StepUpload;
    assert s.pc.todo[0] == id && s.pc.todo[1..] == rest;
  }

  lemma ResolveLostDoes(cfg: Config, s: Sys, id: Id, node: Id, rest: seq<Id>)
    requires s.pc == Resolving([id] + rest) && id in s.t.uploads && id in s.hist && node !in s.used
    requires s.t.uploads[id].finalKey !in s.objects && s.t.uploads[id].stagingKey !in s.staging
    ensures Step(cfg, s, ResolveNext(node)) == s.(t := Close(s.t, id, Failed), pc := Resolving(rest))
  {
    hide StepFree, StepUpload, Repair, KeyStored;
    assert s.pc.todo[0] == id && s.pc.todo[1..] == rest;
  }

  lemma EndDoes(cfg: Config, s: Sys)
    requires s.pc == Resolving([])
    ensures Step(cfg, s, EndReconcile) == s.(pc := Idle)
  {
    hide StepFree, StepUpload;
  }
}
