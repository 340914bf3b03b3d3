/** The upload engine as a state machine over its durable writes.  One action is at most one durable write (a statement
    or transaction of the database, or one call on the file system) together with the reads that lead up to it, one read
    whose result outlives it, or a crash. Uploads, terminations and reconciliations hold one mutex, so at most one of
    them is under way; `pc` says where. Tree operations, share operations and the object removals that follow a purge
    take no lock and may come between any two actions. Removing a staging file that is not there is no action. A crash
    forgets `pc`, the removals still owed and the parents already checked, and nothing else.  Some actions merge reads
    with the write they lead to: Append reads the upload row, ResolveNext asks for the two files and counts the file
    rows. Only the holder of the mutex writes what they read of an unfinished upload, so nothing that comes between
    could change the answers (Safety.ReadsStand). */
module Machine {
  import opened Basics
  import opened Schema
  import opened Tree
  import opened Purge
  import opened Shares
  import Forest

  datatype Config = Config(maxStorage: int, maxFile: int, expiry: int, epoch: int, sha: Bytes -> Digest)

  /** What a client asks for when it creates an upload. */
  datatype Request = Request(parent: Id, name: Name, size: nat)

  /** Where the holder of the mutex stands. */
  datatype Pc =
    | Idle
    | Admitting(req: Request)                          // no name conflict; sums not read yet
    | Weighing(req: Request, stored: nat)              // SUM(size_bytes) read
    | Admitted(req: Request)                           // quota and disk space suffice
    | Staged(req: Request, sk: Key, fk: Key)           // empty staging file created
    | Unstaging(sk: Key)                               // row inserted in vain or terminated; staging file to go
    | Appended(id: Id, chunk: Bytes)                   // chunk in the staging file, row not updated
    | Verified(id: Id)                                 // all bytes received; checksum and phase A next
    | Intent(id: Id)                                   // phase A durable; rename next
    | Renamed(id: Id)                                  // phase B done; phase C next
    | Expiring(todo: seq<Id>, now: int)                // reconcile, first loop
    | ExpiredRow(sk: Key, todo: seq<Id>, now: int)
    | Resolving(todo: seq<Id>)                         // reconcile, second loop
    | Moved(id: Id, todo: seq<Id>)                     // rename repeated; commit next
    | Leftover(sk: Key, todo: seq<Id>)                 // completed; second copy of the bytes to go

  /** History of one upload: the chunks the service accepted, how many further bytes rejected, torn or crashed
      writes left in the staging file, how often a file was committed for it, and whether an expiry removed its
      staging file although the update of its row had failed. */
  datatype History = History(accepted: Bytes, stray: nat, commits: nat, dropped: bool)

  const NO_HISTORY := History([], 0, 0, false)

  datatype Sys = Sys(t: Tables, staging: map<Key, Bytes>, objects: map<Key, Bytes>, pc: Pc,
                     doomed: set<Key>,        // storage keys returned by purges, objects not removed yet
                     seen: set<Id>,           // parents that pending requests saw as active folders
                     used: set<string>,       // every random identifier drawn so far
                     hist: map<Id, History>,  // the rest is history: it decides no reachable step (Safety.HistoryIdle)
                     renamed: set<Key>,       // final keys under which an object has appeared
                     lost: set<Key>,          // keys whose owed removal failed or was forgotten in a crash
                     left: set<Key>,          // staging keys whose holder failed to remove the file, or crashed
                     blind: bool)             // some quota sum could not be read and counted as zero

  datatype Action =
    | DoCreateFolder(parent: Option<Id>, name: Option<Name>, id: Id)
    | DoRename(id: Id, name: Option<Name>)
    | DoMove(id: Id, target: Id)
    | DoTrash(id: Id)
    | DoRestore(id: Id, found: bool)
    | DoPurge(id: Id, order: seq<Id>)
    | RemoveObject(key: Key)
    | RemoveObjectFails(key: Key)
    | DoCreateShare(id: Id, target: Id, tokenHash: string, password: Option<string>, expiresAt: Option<int>)
    | DoRevokeShare(id: Id)
    | CheckParent(p: Id)
    | BeginCreate(req: Request)
    | ReadStored
    | ReadReserved(space: bool)
    | ReadStoredFails
    | ReadReservedFails(space: bool)
    | CreateStaging(sk: Key, fk: Key)
    | InsertUpload(id: Id, now: int)
    | RemoveStaging
    | Append(id: Id, offset: int, chunk: Bytes, now: int)
    | AppendTorn(id: Id, offset: int, part: Bytes, now: int)
    | Record
    | PhaseA
    | PhaseB
    | PhaseC(node: Id)
    | Terminate(id: Id)
    | BeginReconcile(now: int, expired: seq<Id>)
    | ExpireNext
    | ExpireFails
    | CollectFinalizing(todo: seq<Id>)
    | ResolveNext(node: Id)
    | CommitMoved(node: Id)
    | EndReconcile
    | GiveUp
    | Crash

  const INITIAL_SYS := Sys(INITIAL, map[], map[], Idle, {}, {}, {"", ROOT, TRASH}, map[], {}, {}, {}, false)

  /** Actions of clients and of purging handlers, which take no lock, and crashes. */
  predicate LockFree(a: Action) {
    a.DoCreateFolder? || a.DoRename? || a.DoMove? || a.DoTrash? || a.DoRestore? || a.DoPurge? || a.RemoveObject? ||
    a.RemoveObjectFails? || a.DoCreateShare? || a.DoRevokeShare? || a.CheckParent? || a.Crash?
  }

  predicate OnTree(a: Action) {
    a.DoCreateFolder? || a.DoRename? || a.DoMove? || a.DoTrash? || a.DoRestore?
  }

  /** The actions that create an upload. */
  predicate Creating(a: Action) {
    a.BeginCreate? || a.ReadStored? || a.ReadReserved? || a.ReadStoredFails? || a.ReadReservedFails?
    || a.CreateStaging? || a.InsertUpload?
  }

  predicate OfReconcile(a: Action) {
    a.BeginReconcile? || a.ExpireNext? || a.ExpireFails? || a.CollectFinalizing? || a.ResolveNext? || a.CommitMoved? ||
    a.EndReconcile? || a.GiveUp?
  }

  // ---------------------------------------------------------------- states of an upload

  predicate Active(st: UploadState) {
    st == Created || st == Receiving || st == Verifying || st == Finalizing
  }

  predicate Open(st: UploadState) {
    st == Created || st == Receiving || st == Verifying
  }

  predicate Accepting(st: UploadState) {
    st == Created || st == Receiving
  }

  /** UPDATE uploads SET state = st, reservation_bytes = 0. */
  function Close(t: Tables, id: Id, st: UploadState): Tables
    requires id in t.uploads
  {
    t.(uploads := t.uploads[id := t.uploads[id].(state := st, reservation := 0)])
  }

  // ---------------------------------------------------------------- quota arithmetic

  function Sizes(fs: FileObjects): map<Id, nat> {
    map n | n in fs :: fs[n].size
  }

  /** Rows outside the four active states contribute nothing. */
  function Holds(us: Uploads): map<Id, nat> {
    map u | u in us :: if Active(us[u].state) then us[u].reservation else 0
  }

  ghost function StoredBytes(t: Tables): nat { Sum(Sizes(t.files)) }

  ghost function ReservedBytes(t: Tables): nat { Sum(Holds(t.uploads)) }

  /** Two's complement wrap-around of int64. */
  function Wrap64(x: int): int {
    (x + 0x8000_0000_0000_0000) % 0x1_0000_0000_0000_0000 - 0x8000_0000_0000_0000
  }

  predicate OverQuota(max: int, stored: int, reserved: int, size: int) {
    Wrap64(Wrap64(stored + reserved) + size) > max
  }

  // ---------------------------------------------------------------- statements of the finalisation

  function FileRow(u: Upload): Node {
    Node(Some(u.parent), File, u.name, false, None, false)
  }

  /** INSERT INTO file_objects: foreign key, primary key, unique storage key. */
  function InsertFile(t: Tables, node: Id, f: FileObject): Result<Tables, Error> {
    if node !in t.nodes || node in t.files || KeyStored(t.files, f.storageKey) then Err(Internal)
    else Ok(t.(files := t.files[node := f]))
  }

  /** Phase C of an uninterrupted upload: any failing statement rolls the transaction back. */
  function CommitFile(t: Tables, id: Id, node: Id, sha: Digest): Result<Tables, Error>
    requires id in t.uploads
  {
    var u := t.uploads[id];
    var n := InsertNode(t.nodes, node, FileRow(u));
    if n.Err? then Err(n.error)
    else
      var f := InsertFile(t.(nodes := n.value), node, FileObject(u.finalKey, u.expected, sha));
      if f.Err? then f else Ok(Close(f.value, id, Complete))
  }

  /** Phase C as the reconciler repeats it: the errors of the two inserts are ignored and the upload is completed
      regardless. */
  function RepairFile(t: Tables, id: Id, node: Id): Tables
    requires id in t.uploads
  {
    var u := t.uploads[id];
    var sha := if u.sha.Some? then u.sha.value else "";
    var n := InsertNode(t.nodes, node, FileRow(u));
    var t1 := if n.Ok? then t.(nodes := n.value) else t;
    var f := InsertFile(t1, node, FileObject(u.finalKey, u.expected, sha));
    Close(if f.Ok? then f.value else t1, id, Complete)
  }

  // ---------------------------------------------------------------- steps

  function Stray(h: map<Id, History>, id: Id, n: nat): map<Id, History>
    requires id in h
  {
    h[id := h[id].(stray := h[id].stray + n)]
  }

  /** What WriteChunk checks before it opens the staging file. */
  predicate MayAppend(s: Sys, id: Id, offset: int, now: int) {
    && id in s.t.uploads && id in s.hist && Accepting(s.t.uploads[id].state)
    && now <= s.t.uploads[id].expiresAt && offset == s.t.uploads[id].received
    && s.t.uploads[id].stagingKey in s.staging
  }

  function StepAppend(s: Sys, id: Id, bytes: Bytes, pc: Pc): Sys
    requires id in s.t.uploads && id in s.hist && s.t.uploads[id].stagingKey in s.staging
  {
    var sk := s.t.uploads[id].stagingKey;
    s.(staging := s.staging[sk := s.staging[sk] + bytes], hist := Stray(s.hist, id, |bytes|), pc := pc)
  }

  function StepBeginCreate(cfg: Config, s: Sys, req: Request): Sys {
    if s.pc.Idle? && req.size <= cfg.maxFile && req.parent in s.seen
       && SlotFree(s.t.nodes, "", req.parent, req.name.key)
    then s.(pc := Admitting(req)) else s
  }

  /** The guard on the two sums as they were read; a failed read counts as zero and its error is dropped. */
  function StepWeigh(cfg: Config, s: Sys, reserved: int, space: bool): Sys {
    if !s.pc.Weighing? then s
    else if OverQuota(cfg.maxStorage, s.pc.stored, reserved, s.pc.req.size) || !space then s.(pc := Idle)
    else s.(pc := Admitted(s.pc.req))
  }

  ghost function StepReadReserved(cfg: Config, s: Sys, space: bool): Sys {
    StepWeigh(cfg, s, ReservedBytes(s.t), space)
  }

  function StepReadStoredFails(s: Sys): Sys {
    if s.pc.Admitting? then s.(pc := Weighing(s.pc.req, 0), blind := true) else s
  }

  function StepReadReservedFails(cfg: Config, s: Sys, space: bool): Sys {
    if s.pc.Weighing? then StepWeigh(cfg, s, 0, space).(blind := true) else s
  }

  /** Two keys that GenerateOpaqueKey may return. */
  predicate MayDraw(s: Sys, sk: Key, fk: Key) {
    HexKey(sk) && HexKey(fk) && sk !in s.used && fk !in s.used && sk != fk
  }

  function StepCreateStaging(s: Sys, sk: Key, fk: Key): Sys {
    if s.pc.Admitted? && MayDraw(s, sk, fk)
    then s.(staging := s.staging[sk := []], used := s.used + {sk, fk}, pc := Staged(s.pc.req, sk, fk))
    else s
  }

  function StepInsertUpload(cfg: Config, s: Sys, id: Id, now: int): Sys {
    if !s.pc.Staged? || id in s.used then s
    else if s.pc.req.parent !in s.t.nodes then s.(pc := Unstaging(s.pc.sk))
    else
      var r := s.pc.req;
      var u := Upload(r.parent, r.name, r.size, 0, r.size, s.pc.sk, s.pc.fk, Created, None, now + cfg.expiry);
      s.(t := s.t.(uploads := s.t.uploads[id := u]), hist := s.hist[id := NO_HISTORY],
         used := s.used + {id}, pc := Idle)
  }

  function StepRemoveStaging(s: Sys): Sys {
    match s.pc
    case Unstaging(sk) => s.(staging := s.staging - {sk}, pc := Idle)
    case ExpiredRow(sk, todo, now) => s.(staging := s.staging - {sk}, pc := Expiring(todo, now))
    case Leftover(sk, todo) => s.(staging := s.staging - {sk}, pc := Resolving(todo))
    case _ => s
  }

  function StepRecord(s: Sys): Sys {
    if !s.pc.Appended? || s.pc.id !in s.t.uploads || s.pc.id !in s.hist then s
    else
      var id, chunk := s.pc.id, s.pc.chunk;
      var u, h := s.t.uploads[id], s.hist[id];
      if u.received + |chunk| > u.expected || h.stray < |chunk| then s.(pc := Idle)
      else
        var full := u.received + |chunk| == u.expected;
        var u' := u.(received := u.received + |chunk|, state := if full then Verifying else Receiving);
        s.(t := s.t.(uploads := s.t.uploads[id := u']),
           hist := s.hist[id := h.(accepted := h.accepted + chunk, stray := h.stray - |chunk|)],
           pc := if full then Verified(id) else Idle)
  }

  function StepPhaseA(cfg: Config, s: Sys): Sys {
    if !s.pc.Verified? || s.pc.id !in s.t.uploads then s
    else
      var id := s.pc.id;
      var u := s.t.uploads[id];
      if u.stagingKey !in s.staging then s.(pc := Idle)
      else
        var u' := u.(state := Finalizing, sha := Some(cfg.sha(s.staging[u.stagingKey])));
        s.(t := s.t.(uploads := s.t.uploads[id := u']), pc := Intent(id))
  }

  /** rename(2): the bytes leave the staging area and appear under the object key in one step. */
  function MoveStagingToObject(s: Sys, u: Upload, pc: Pc): Sys
    requires u.stagingKey in s.staging
  {
    s.(objects := s.objects[u.finalKey := s.staging[u.stagingKey]], staging := s.staging - {u.stagingKey}, pc := pc,
       renamed := s.renamed + {u.finalKey})
  }

  function StepPhaseB(s: Sys): Sys {
    if !s.pc.Intent? || s.pc.id !in s.t.uploads then s
    else if s.t.uploads[s.pc.id].stagingKey !in s.staging then s.(pc := Idle)
    else MoveStagingToObject(s, s.t.uploads[s.pc.id], Renamed(s.pc.id))
  }

  /** One more committed file for `id` if the tables gained a row under its final key. */
  function Counted(h: map<Id, History>, id: Id, gained: bool): map<Id, History>
    requires id in h
  {
    if gained then h[id := h[id].(commits := h[id].commits + 1)] else h
  }

  function StepPhaseC(s: Sys, node: Id): Sys {
    if !s.pc.Renamed? || s.pc.id !in s.t.uploads || s.pc.id !in s.hist || node in s.used then s
    else
      var id := s.pc.id;
      var sha := s.t.uploads[id].sha;
      var r := CommitFile(s.t, id, node, if sha.Some? then sha.value else "");
      if r.Err? then s.(pc := Idle)
      else s.(t := r.value, hist := Counted(s.hist, id, true), used := s.used + {node}, pc := Idle)
  }

  /** The row is closed; its staging file, if there is one, comes next. Of one left over earlier this is the second
      chance. */
  function StepTerminate(s: Sys, id: Id): Sys {
    if s.pc.Idle? && id in s.t.uploads && s.t.uploads[id].state != Complete
    then
      var sk := s.t.uploads[id].stagingKey;
      s.(t := Close(s.t, id, Terminated), pc := if sk in s.staging then Unstaging(sk) else Idle, left := s.left - {sk})
    else s
  }

  function ExpiredIds(us: Uploads, now: int): set<Id> {
    set u | u in us && Accepting(us[u].state) && us[u].expiresAt < now
  }

  function FinalizingIds(us: Uploads): set<Id> {
    set u | u in us && us[u].state == Finalizing
  }

  ghost function StepBeginReconcile(s: Sys, now: int, expired: seq<Id>): Sys {
    if s.pc.Idle? && Enumerates(expired, ExpiredIds(s.t.uploads, now)) then s.(pc := Expiring(expired, now)) else s
  }

  function StepExpireNext(s: Sys): Sys {
    if s.pc.Expiring? && s.pc.todo != [] && s.pc.todo[0] in s.t.uploads
    then
      var id, rest, now := s.pc.todo[0], s.pc.todo[1..], s.pc.now;
      var sk := s.t.uploads[id].stagingKey;
      s.(t := Close(s.t, id, Expired), pc := if sk in s.staging then ExpiredRow(sk, rest, now) else Expiring(rest, now))
    else s
  }

  /** The update of the row fails, its error is dropped, and the staging file goes all the same. */
  function StepExpireFails(s: Sys): Sys {
    if s.pc.Expiring? && s.pc.todo != [] && s.pc.todo[0] in s.t.uploads && s.pc.todo[0] in s.hist
    then
      var id := s.pc.todo[0];
      s.(staging := s.staging - {s.t.uploads[id].stagingKey}, hist := s.hist[id := s.hist[id].(dropped := true)],
         pc := Expiring(s.pc.todo[1..], s.pc.now))
    else s
  }

  ghost function StepCollect(s: Sys, todo: seq<Id>): Sys {
    if s.pc.Expiring? && s.pc.todo == [] && Enumerates(todo, FinalizingIds(s.t.uploads)) then s.(pc := Resolving(todo))
      else s
  }

  /** Complete `id` as the reconciler does, inserting its file under the fresh node id. */
  function Repair(s: Sys, id: Id, node: Id, pc: Pc): Sys
    requires id in s.t.uploads && id in s.hist
  {
    var t2 := RepairFile(s.t, id, node);
    s.(t := t2, hist := Counted(s.hist, id, node in t2.files), used := s.used + {node}, pc := pc)
  }

  function StepResolveNext(s: Sys, node: Id): Sys {
    if !s.pc.Resolving? || s.pc.todo == [] || s.pc.todo[0] !in s.t.uploads || s.pc.todo[0] !in s.hist || node in s.used
      then s
    else
      var id, rest := s.pc.todo[0], s.pc.todo[1..];
      var u := s.t.uploads[id];
      var staged := u.stagingKey in s.staging;
      if u.finalKey in s.objects then
        var next := if staged then Leftover(u.stagingKey, rest) else Resolving(rest);
        if KeyStored(s.t.files, u.finalKey) then s.(t := Close(s.t, id, Complete), pc := next)
        else Repair(s, id, node, next)
      else if staged then MoveStagingToObject(s, u, Moved(id, rest))
      else s.(t := Close(s.t, id, Failed), pc := Resolving(rest))
  }

  function StepCommitMoved(s: Sys, node: Id): Sys {
    if s.pc.Moved? && s.pc.id in s.t.uploads && s.pc.id in s.hist && node !in s.used
    then Repair(s, s.pc.id, node, Resolving(s.pc.todo)) else s
  }

  /** The staging file that the holder of the mutex has yet to give a row or to remove. */
  function Held(pc: Pc): set<Key> {
    if pc.Staged? || pc.Unstaging? || pc.ExpiredRow? || pc.Leftover? then {pc.sk} else {}
  }

  /** An operation that meets an I/O error returns, except that an upload whose row cannot be inserted first tries to
      remove its staging file; the reconciler goes on with its next row. A staging file that could not be removed is
      left. */
  function StepGiveUp(s: Sys): Sys {
    match s.pc
    case Expiring(todo, now) => s.(pc := if todo == [] then Idle else Expiring(todo[1..], now))
    case ExpiredRow(sk, todo, now) => s.(pc := Expiring(todo, now), left := s.left + {sk})
    case Resolving(todo) => if todo == [] then s else s.(pc := Resolving(todo[1..]))
    case Moved(_, todo) => s.(pc := Resolving(todo))
    case Leftover(sk, todo) => s.(pc := Resolving(todo), left := s.left + {sk})
    case Staged(_, sk, _) => s.(pc := Unstaging(sk))
    case Unstaging(sk) => s.(pc := Idle, left := s.left + {sk})
    case _ => s.(pc := Idle)
  }

  /** The nodes table after an operation that may fail without effect. */
  function NodesAfter(s: Sys, r: Result<Nodes, Error>): Sys {
    if r.Ok? then s.(t := s.t.(nodes := r.value)) else s
  }

  ghost function StepPurge(s: Sys, id: Id, order: seq<Id>): Sys {
    if id in s.t.nodes && Enumerates(order, Forest.Subtree(s.t.nodes, id)) && PurgeNode(s.t, id, order).Ok?
    then s.(t := PurgeNode(s.t, id, order).value, doomed := s.doomed + SubtreeKeys(s.t, id))
    else s
  }

  function StepCreateShare(cfg: Config, s: Sys, id: Id, target: Id, tokenHash: string, password: Option<string>,
                           expiresAt: Option<int>): Sys {
    if id in s.used || tokenHash in s.used || id == tokenHash then s
    else
      var r := CreateShare(s.t, id, target, tokenHash, password, expiresAt, cfg.epoch);
      if r.Ok? then s.(t := r.value, used := s.used + {id, tokenHash}) else s
  }

  /** A removal that a purge owes; if it fails the handler goes on and the object stays. */
  function StepRemoveObject(s: Sys, key: Key, fails: bool): Sys {
    if key !in s.doomed then s
    else if fails then s.(doomed := s.doomed - {key}, lost := s.lost + {key})
    else s.(objects := s.objects - {key}, doomed := s.doomed - {key})
  }

  function StepCrash(s: Sys): Sys {
    s.(pc := Idle, doomed := {}, seen := {}, lost := s.lost + s.doomed, left := s.left + Held(s.pc))
  }

  ghost function StepFree(cfg: Config, s: Sys, a: Action): Sys {
    match a
    case DoCreateFolder(parent, name, id) =>
      if id in s.used then s
      else NodesAfter(s.(used := s.used + {id}), CreateFolder(s.t.nodes, parent, name, id))
    case DoRename(id, name) => NodesAfter(s, Rename(s.t.nodes, id, name))
    case DoMove(id, target) => NodesAfter(s, Move(s.t.nodes, id, target))
    case DoTrash(id) => NodesAfter(s, Trash(s.t.nodes, id))
    case DoRestore(id, found) => NodesAfter(s, Restore(s.t.nodes, id, found))
    case DoPurge(id, order) => StepPurge(s, id, order)
    case RemoveObject(key) => StepRemoveObject(s, key, false)
    case RemoveObjectFails(key) => StepRemoveObject(s, key, true)
    case DoCreateShare(id, target, tokenHash, password, exp) => StepCreateShare(cfg, s, id, target, tokenHash, password,
      exp)
    case DoRevokeShare(id) => if RevokeShare(s.t, id).Ok? then s.(t := RevokeShare(s.t, id).value) else s
    case CheckParent(p) => if ActiveFolder(s.t.nodes, p) then s.(seen := s.seen + {p}) else s
    case Crash => StepCrash(s)
    case _ => s
  }

  ghost function StepUpload(cfg: Config, s: Sys, a: Action): Sys {
    match a
    case BeginCreate(req) => StepBeginCreate(cfg, s, req)
    case ReadStored => if s.pc.Admitting? then s.(pc := Weighing(s.pc.req, StoredBytes(s.t))) else s
    case ReadReserved(space) => StepReadReserved(cfg, s, space)
    case ReadStoredFails => StepReadStoredFails(s)
    case ReadReservedFails(space) => StepReadReservedFails(cfg, s, space)
    case CreateStaging(sk, fk) => StepCreateStaging(s, sk, fk)
    case InsertUpload(id, now) => StepInsertUpload(cfg, s, id, now)
    case RemoveStaging => StepRemoveStaging(s)
    case Append(id, offset, chunk, now) =>
      if s.pc.Idle? && MayAppend(s, id, offset, now) then StepAppend(s, id, chunk, Appended(id, chunk)) else s
    case AppendTorn(id, offset, part, now) =>
      if s.pc.Idle? && MayAppend(s, id, offset, now) then StepAppend(s, id, part, Idle) else s
    case Record => StepRecord(s)
    case PhaseA => StepPhaseA(cfg, s)
    case PhaseB => StepPhaseB(s)
    case PhaseC(node) => StepPhaseC(s, node)
    case Terminate(id) => StepTerminate(s, id)
    case _ => s
  }

  ghost function StepReconcile(s: Sys, a: Action): Sys {
    match a
    case BeginReconcile(now, expired) => StepBeginReconcile(s, now, expired)
    case ExpireNext => StepExpireNext(s)
    case ExpireFails => StepExpireFails(s)
    case CollectFinalizing(todo) => StepCollect(s, todo)
    case ResolveNext(node) => StepResolveNext(s, node)
    case CommitMoved(node) => StepCommitMoved(s, node)
    case EndReconcile => if s.pc == Resolving([]) then s.(pc := Idle) else s
    case GiveUp => StepGiveUp(s)
    case _ => s
  }

  ghost function Step(cfg: Config, s: Sys, a: Action): Sys {
    if LockFree(a) then StepFree(cfg, s, a) else if OfReconcile(a) then StepReconcile(s, a) else StepUpload(cfg, s, a)
  }

  /** A run: any actions in any order; an action whose guard fails changes nothing. */
  ghost function Run(cfg: Config, s: Sys, actions: seq<Action>): Sys
    decreases |actions|
  {
    if actions == [] then s else Run(cfg, Step(cfg, s, actions[0]), actions[1..])
  }
}
