/** The upload service over the mutable database and store. Each method says what it leaves in the tables and files,
    which calls failing along the way included. After every durable write the method takes the step of the machine
    that stands for it, so that its writes, one after the other, are a run of the machine, and a crash inside it leaves
    a state after some prefix of that run. */
module UploadService {
  import opened Basics
  import opened Schema
  import opened Tree
  import opened Purge
  import opened Machine
  import opened Invariant
  import opened Steps
  import opened Reconciling
  import opened Recovery
  import opened Convergence
  import opened OpRuns
  import opened Db
  import opened Storage
  import opened ReconcileRows
  import TreeEdits

  datatype UploadError =
    | NegativeSize | FileTooLarge | BadName | ParentNotFound | NotAFolder | ConflictCheckFailed | NameTaken
    | QuotaExceeded | SpaceBlocked | StagingFailed | InsertFailed | UploadNotFound | InvalidState | UploadExpired
    | OffsetMismatch | WriteFailed | LengthMismatch | UpdateFailed | FinalizationFailed
    | LookupFailed    // the row to work on could not be read
    | ReadBackFailed  // everything was done, but its result could not be read

  /** SELECT COALESCE(SUM(size_bytes), 0) and the like. */
  method SumOf(m: map<Id, nat>) returns (total: nat)
    ensures total == Sum(m)
  {
    total := 0;
    var left := m;
    while left != map[]
      invariant left.Keys <= m.Keys && total + Sum(left) == Sum(m)
      decreases |left|
    {
      var k :| k in left;
      SumTake(left, k);
      assert |left - {k}| < |left| by {
        assert (left - {k}).Keys == left.Keys - {k}; assert |left.Keys - {k}| < |left.Keys|;
      }
      total := total + left[k];
      left := left - {k};
    }
  }

  /** A query that returns the ids of `S` in the engine's row order. */
  method SelectIds(order: seq<Id>, S: set<Id>) returns (rows: seq<Id>)
    ensures rows == Select(order, S)
  {
    rows := [];
    var i := |order|;
    while i > 0
      invariant 0 <= i <= |order| && rows == Select(order[i..], S)
    {
      i := i - 1;
      assert order[i..][0] == order[i] && order[i..][1..] == order[i + 1..];
      rows := (if order[i] in S then [order[i]] else []) + rows;
    }
    assert order[0..] == order;
  }

  /** The sum as the guard sees it: a query that fails leaves zero. */
  ghost function StoredSeen(t: Tables, fails: set<Call>): nat {
    if StoredSum in fails then 0 else StoredBytes(t)
  }

  ghost function ReservedSeen(t: Tables, fails: set<Call>): nat {
    if ReservedSum in fails then 0 else ReservedBytes(t)
  }

  /** As long as no sum was ever taken for zero, the int64 guard refuses exactly what would exceed the limit. */
  lemma GuardMeansQuota(cfg: Config, s: Sys, size: nat)
    requires Sane(cfg) && Reached(cfg, s) && !s.blind && size <= cfg.maxFile
    ensures OverQuota(cfg.maxStorage, StoredSeen(s.t, {}), ReservedSeen(s.t, {}), size)
            <==> StoredBytes(s.t) + ReservedBytes(s.t) + size > cfg.maxStorage
  {
    hide TablesInv, UsedOk, DistinctKeys, UploadsOk, FilesOk, DoomedOk, PcOk, OverQuota, Reached;
    ReachedInv(cfg, s);
    GuardExact(cfg.maxStorage, cfg.maxFile, StoredBytes(s.t), ReservedBytes(s.t), size);
  }

  lemma SumsMean(t: Tables, fails: set<Call>)
    ensures StoredSeen(t, fails) == if StoredSum in fails then 0 else Sum(map n | n in t.files :: t.files[n].size)
    ensures ReservedSeen(t, fails) == if ReservedSum in fails then 0
      else Sum(map u | u in t.uploads :: if t.uploads[u].state in {Created, Receiving, Verifying, Finalizing}
                                         then t.uploads[u].reservation else 0)
  {
    assert Sizes(t.files) == map n | n in t.files :: t.files[n].size;
    assert Holds(t.uploads) ==
      map u | u in t.uploads :: if t.uploads[u].state in {Created, Receiving, Verifying, Finalizing}
                                then t.uploads[u].reservation else 0;
  }

  /** Wrapping after each addition is wrapping once. */
  lemma WrapOnce(a: int, b: int, c: int)
    ensures forall max :: OverQuota(max, a, b, c) <==>
      (a + b + c + 0x8000_0000_0000_0000) % 0x1_0000_0000_0000_0000 - 0x8000_0000_0000_0000 > max
  {
  }

  lemma NewUploadMeans(cfg: Config, req: Request, sk: Key, fk: Key, now: int)
    ensures NewUpload(cfg, req, sk, fk, now) ==
      Upload(req.parent, req.name, req.size, 0, req.size, sk, fk, Created, None, now + cfg.expiry)
  {
  }

  lemma NoRowYet(cfg: Config, s: Sys, id: Id)
    requires Sane(cfg) && Reached(cfg, s) && id !in s.used
    ensures id !in s.t.uploads && id !in s.t.nodes && "" !in s.t.nodes
  {
    hide RefsSound, UniqueActive, DistinctKeys, UploadsOk, FilesOk, DoomedOk, PcOk, Reached;
    ReachedInv(cfg, s);
  }

  /** When the metadata of an upload can be committed under a new node id, and what the tables are then. */
  lemma CommitMeans(t: Tables, id: Id, node: Id, bytes: Bytes, cfg: Config)
    requires node !in t.nodes && id in t.uploads
    ensures var u := t.uploads[id]; var row := IntentRow(cfg, u, bytes);
      && row == u.(state := Finalizing, sha := Some(cfg.sha(bytes)))
      && (RowFits(t.nodes, node, FileRow(u)) <==> forall y | y in t.nodes && !t.nodes[y].trashed
            && t.nodes[y].parent == Some(u.parent) :: t.nodes[y].name.key != u.name.key)
      && Committed(t.(uploads := t.uploads[id := row]), id, node) ==
           Tables(t.nodes[node := Node(Some(u.parent), File, u.name, false, None, false)],
                  t.files[node := FileObject(u.finalKey, u.expected, cfg.sha(bytes))],
                  t.uploads[id := row.(state := Complete, reservation := 0)], t.shares)
  {
    var u := t.uploads[id];
    var row := IntentRow(cfg, u, bytes);
    TreeEdits.FitsIff(t.nodes, node, FileRow(u), u.parent);
    assert t.uploads[id := row][id := row.(state := Complete, reservation := 0)]
      == t.uploads[id := row.(state := Complete, reservation := 0)];
  }

  lemma SameDraw(s: Sys, s2: Sys, sk: Key, fk: Key)
    requires MayDraw(s, sk, fk) && s2.used == s.used
    ensures MayDraw(s2, sk, fk)
  {
  }

  lemma PutTake(m: map<Key, Bytes>, k: Key, v: Bytes)
    requires k !in m
    ensures m[k := v] - {k} == m
  {
  }

  lemma StillFresh(ids: seq<Id>, i: nat, used: set<string>, used2: set<string>)
    requires NoDup(ids) && i < |ids| && (forall j | i <= j < |ids| :: ids[j] !in used) && used2 <= used + {ids[i]}
    ensures forall j | i + 1 <= j < |ids| :: ids[j] !in used2
  {
  }

  class Service {
    const db: Database
    const store: Store
    const cfg: Config
    /** The machine state that the tables and files of this service represent. */
    ghost var sys: Sys

    constructor (db: Database, store: Store, cfg: Config)
      requires Sane(cfg) && db.Contents() == INITIAL && store.staging == map[] && store.objects == map[]
      ensures this.db == db && this.store == store && this.cfg == cfg && sys == INITIAL_SYS && Valid()
    {
      this.db, this.store, this.cfg, sys := db, store, cfg, INITIAL_SYS;
      new;
      FollowsSelf(cfg, INITIAL_SYS);
    }

    ghost predicate Shows(s: Sys)
      reads db, store
    {
      s.t == db.Contents() && s.staging == store.staging && s.objects == store.objects
    }

    /** The tables and files are those of a reachable state, in which an operation may be under way. */
    ghost predicate Busy()
      reads this, db, store
    {
      Shows(sys) && Sane(cfg) && Reached(cfg, sys)
    }

    ghost predicate Valid()
      reads this, db, store
    {
      Busy() && sys.pc.Idle?
    }

    /** One step of the machine, whose write, if any, has just been made. */
    ghost method Do(a: Action)
      requires Sane(cfg) && Reached(cfg, sys) && Shows(Step(cfg, sys, a))
      modifies this`sys
      ensures Busy() && sys == Step(cfg, old(sys), a)
      ensures forall s {:trigger Follows(cfg, s, old(sys))} :: Follows(cfg, s, old(sys)) ==> Follows(cfg, s, sys)
    {
      hide Step, Follows;
      forall s | Follows(cfg, s, sys) ensures Follows(cfg, s, Step(cfg, sys, a)) { FollowsStep(cfg, s, sys, a); }
      sys := Step(cfg, sys, a);
    }

    /** Several steps at once, after their writes. */
    ghost method DoAll(actions: seq<Action>)
      requires Sane(cfg) && Reached(cfg, sys) && Shows(Run(cfg, sys, actions))
      modifies this`sys
      ensures Busy() && sys == Run(cfg, old(sys), actions)
    {
      hide Step, Follows;
      FollowsRun(cfg, INITIAL_SYS, sys, actions);
      sys := Run(cfg, sys, actions);
    }

    /** `space` is whether the disk has room; keys, id and time are what the environment supplies, `fails` the calls
        that meet an error. A failed sum counts as zero. */
    method CreateUpload(parent: Id, name: Option<Name>, expectedSize: int, space: bool, sk: Key, fk: Key, id: Id,
        now: int, fails: set<Call>) returns (r: Result<Id, UploadError>)
      requires Valid() && MayDraw(sys, sk, fk) && id !in sys.used && id != sk && id != fk
      modifies this`sys, db`uploads, store`staging
      ensures Valid() && Follows(cfg, old(sys), sys)
      ensures var t, ns := old(db.Contents()), old(db.nodes);
        var target := if parent != "" then parent else ROOT;
        var stored := if StoredSum in fails then 0 else Sum(map n | n in t.files :: t.files[n].size);
        var reserved := if ReservedSum in fails then 0
          else Sum(map u | u in t.uploads :: if t.uploads[u].state in {Created, Receiving, Verifying, Finalizing}
                                             then t.uploads[u].reservation else 0);
        var total := (stored + reserved + expectedSize + 0x8000_0000_0000_0000) % 0x1_0000_0000_0000_0000
          - 0x8000_0000_0000_0000;
        r == if expectedSize < 0 then Err(NegativeSize)
             else if expectedSize > cfg.maxFile then Err(FileTooLarge)
             else if name.None? then Err(BadName)
             else if Lookup in fails then Err(LookupFailed)
             else if target !in ns then Err(ParentNotFound)
             else if ns[target].kind != Folder || ns[target].trashed then Err(NotAFolder)
             else if ConflictQuery in fails then Err(ConflictCheckFailed)
             else if exists y | y in ns :: !ns[y].trashed && ns[y].parent == Some(target)
                       && ns[y].name.key == name.value.key then Err(NameTaken)
             else if total > cfg.maxStorage then Err(QuotaExceeded)
             else if !space then Err(SpaceBlocked)
             else if CreateFile in fails then Err(StagingFailed)
             else if InsertRow in fails then Err(InsertFailed)
             else if ReadBack in fails then Err(ReadBackFailed)
             else Ok(id)
      ensures r.Err? && !r.error.ReadBackFailed? ==>
        && db.uploads == old(db.uploads)
        && store.staging == if r.error.InsertFailed? && RemoveFile in fails then old(store.staging)[sk := []]
                            else old(store.staging)
      ensures r.Ok? || r.error.ReadBackFailed? ==>
        && id in db.uploads && db.uploads - {id} == old(db.uploads)
        && var u := db.uploads[id];
        && u.parent == (if parent != "" then parent else ROOT) && u.name == name.value
        && u.expected == u.reservation == expectedSize && u.received == 0 && u.stagingKey == sk && u.finalKey == fk
        && u.state == Created && u.sha == None && u.expiresAt == now + cfg.expiry
        && store.staging == old(store.staging)[sk := []]
    {
      hide Step, Follows, Inv, OverQuota, MayDraw, StoredSeen, ReservedSeen, NewUpload, Sum;
      SumsMean(db.Contents(), fails);
      WrapOnce(StoredSeen(db.Contents(), fails), ReservedSeen(db.Contents(), fails), expectedSize);
      NoRowYet(cfg, sys, id);
      r := Create(parent, name, expectedSize, space, sk, fk, id, now, fails);
      if r.Ok? || r.error.ReadBackFailed? {
        NewUploadMeans(cfg, Request(TargetOf(Some(parent)), name.value, expectedSize), sk, fk, now);
      }
    }

    method Create(parent: Id, name: Option<Name>, expectedSize: int, space: bool, sk: Key, fk: Key, id: Id, now: int,
        fails: set<Call>) returns (r: Result<Id, UploadError>)
      requires Valid() && MayDraw(sys, sk, fk) && id !in sys.used && id != sk && id != fk
      modifies this`sys, db`uploads, store`staging
      ensures Valid() && Follows(cfg, old(sys), sys)
      ensures var target := TargetOf(Some(parent));
        r == if expectedSize < 0 then Err(NegativeSize)
             else if expectedSize > cfg.maxFile then Err(FileTooLarge)
             else if name.None? then Err(BadName)
             else if Lookup in fails then Err(LookupFailed)
             else if target !in old(db.nodes) then Err(ParentNotFound)
             else if !ActiveFolder(old(db.nodes), target) then Err(NotAFolder)
             else if ConflictQuery in fails then Err(ConflictCheckFailed)
             else if !SlotFree(old(db.nodes), "", target, name.value.key) then Err(NameTaken)
             else if OverQuota(cfg.maxStorage, StoredSeen(old(db.Contents()), fails),
                               ReservedSeen(old(db.Contents()), fails), expectedSize) then Err(QuotaExceeded)
             else if !space then Err(SpaceBlocked)
             else if CreateFile in fails then Err(StagingFailed)
             else if InsertRow in fails then Err(InsertFailed)
             else if ReadBack in fails then Err(ReadBackFailed)
             else Ok(id)
      ensures r.Err? && !r.error.ReadBackFailed? ==>
        && db.uploads == old(db.uploads)
        && store.staging == if r.error.InsertFailed? && RemoveFile in fails then old(store.staging)[sk := []]
                            else old(store.staging)
      ensures r.Ok? || r.error.ReadBackFailed? ==>
        && db.uploads == old(db.uploads)[
          id := NewUpload(cfg, Request(TargetOf(Some(parent)), name.value, expectedSize), sk, fk, now)]
        && store.staging == old(store.staging)[sk := []]
    {
      hide Step, Follows, Inv, OverQuota, MayDraw, StoredSeen, ReservedSeen, SlotFree, NewUpload;
      FollowsSelf(cfg, sys);
      if expectedSize < 0 { return Err(NegativeSize); }
      if expectedSize > cfg.maxFile { return Err(FileTooLarge); }
      if name.None? { return Err(BadName); }
      var target := TargetOf(Some(parent));
      if Lookup in fails { return Err(LookupFailed); }
      if target !in db.nodes { return Err(ParentNotFound); }
      if db.nodes[target].kind != Folder || db.nodes[target].trashed { return Err(NotAFolder); }
      var req := Request(target, name.value, expectedSize);
      CheckParentDoes(cfg, sys, target);
      ghost var before := sys;
      Do(CheckParent(target));
      SameDraw(before, sys, sk, fk);
      r := CreateLocked(req, space, sk, fk, id, now, fails);
      if r.Ok? && ReadBack in fails { r := Err(ReadBackFailed); }
    }

    /** The part that holds the mutex. */
    method CreateLocked(req: Request, space: bool, sk: Key, fk: Key, id: Id, now: int, fails: set<Call>)
        returns (r: Result<Id, UploadError>)
      requires Valid() && req.parent in sys.seen && req.parent in db.nodes && req.size <= cfg.maxFile
      requires MayDraw(sys, sk, fk) && id !in sys.used && id != sk && id != fk
      modifies this`sys, db`uploads, store`staging
      ensures Valid() && forall s {:trigger Follows(cfg, s, old(sys))} ::
        Follows(cfg, s, old(sys)) ==> Follows(cfg, s, sys)
      ensures r == if ConflictQuery in fails then Err(ConflictCheckFailed)
                   else if !SlotFree(db.nodes, "", req.parent, req.name.key) then Err(NameTaken)
                   else if OverQuota(cfg.maxStorage, StoredSeen(old(db.Contents()), fails),
                                     ReservedSeen(old(db.Contents()), fails), req.size) then Err(QuotaExceeded)
                   else if !space then Err(SpaceBlocked)
                   else if CreateFile in fails then Err(StagingFailed)
                   else if InsertRow in fails then Err(InsertFailed)
                   else Ok(id)
      ensures r.Err? ==>
        && db.uploads == old(db.uploads)
        && store.staging == if r.error.InsertFailed? && RemoveFile in fails then old(store.staging)[sk := []]
                            else old(store.staging)
      ensures r.Ok? ==>
        && db.uploads == old(db.uploads)[id := NewUpload(cfg, req, sk, fk, now)]
        && store.staging == old(store.staging)[sk := []]
    {
      hide Step, Follows, Inv, OverQuota, HexKey, StoredSeen, ReservedSeen, SlotFree, NewUpload;
      if ConflictQuery in fails { return Err(ConflictCheckFailed); }
      BeginCreateDoes(cfg, sys, req);
      Do(BeginCreate(req));
      if !SlotFree(db.nodes, "", req.parent, req.name.key) { return Err(NameTaken); }
      r := Admit(req, space, fails);
      if r.Err? { return; }
      r := PlaceRow(req, sk, fk, id, now, fails);
    }

    /** Quota and disk space. */
    method Admit(req: Request, space: bool, fails: set<Call>) returns (r: Result<Id, UploadError>)
      requires Busy() && sys.pc == Admitting(req)
      modifies this`sys
      ensures Busy() && forall s {:trigger Follows(cfg, s, old(sys))} ::
        Follows(cfg, s, old(sys)) ==> Follows(cfg, s, sys)
      ensures r == if OverQuota(cfg.maxStorage, StoredSeen(db.Contents(), fails), ReservedSeen(db.Contents(), fails),
                                req.size) then Err(QuotaExceeded)
                   else if !space then Err(SpaceBlocked) else Ok("")
      ensures sys == old(sys).(pc := if r.Ok? then Admitted(req) else Idle, blind := sys.blind)
    {
      hide Step, Follows, Inv, OverQuota;
      ReadSumsDo(cfg, sys, StoredSum in fails, ReservedSum in fails, space);
      var stored, reserved := 0, 0;
      if StoredSum !in fails { stored := SumOf(Sizes(db.files)); }
      Do(StoredRead(StoredSum in fails));
      if ReservedSum !in fails { reserved := SumOf(Holds(db.uploads)); }
      Do(ReservedRead(ReservedSum in fails, space));
      if OverQuota(cfg.maxStorage, stored, reserved, req.size) { return Err(QuotaExceeded); }
      r := if space then Ok("") else Err(SpaceBlocked);
    }

    /** The empty staging file, then the row; without the row the file goes again. */
    method PlaceRow(req: Request, sk: Key, fk: Key, id: Id, now: int, fails: set<Call>)
        returns (r: Result<Id, UploadError>)
      requires Busy() && sys.pc == Admitted(req) && req.parent in db.nodes
      requires MayDraw(sys, sk, fk) && sk !in sys.used && HexKey(sk) && id !in sys.used && id != sk && id != fk
      modifies this`sys, db`uploads, store`staging
      ensures Valid() && forall s {:trigger Follows(cfg, s, old(sys))} ::
        Follows(cfg, s, old(sys)) ==> Follows(cfg, s, sys)
      ensures r == if CreateFile in fails then Err(StagingFailed) else if InsertRow in fails then Err(InsertFailed)
        else Ok(id)
      ensures r.Err? ==> db.uploads == old(db.uploads)
      ensures r.Err? ==> store.staging == if r.error.InsertFailed? && RemoveFile in fails
        then old(store.staging)[sk := []] else old(store.staging)
      ensures r.Ok? ==>
        && db.uploads == old(db.uploads)[id := NewUpload(cfg, req, sk, fk, now)]
        && store.staging == old(store.staging)[sk := []]
    {
      hide Step, Follows, Inv, HexKey, MayDraw;
      FreshStaging(cfg, sys, sk);
      HexPaths("", sk);
      var created := store.CreateStagingFile(sk, CreateFile !in fails);
      if !created {
        GiveUpDoes(cfg, sys);
        Do(GiveUp);
        return Err(StagingFailed);
      }
      CreateStagingDoes(cfg, sys, sk, fk);
      Do(CreateStaging(sk, fk));
      r := AddRow(req, sk, fk, id, now, fails);
      PutTake(old(store.staging), sk, []);
    }

    method AddRow(req: Request, sk: Key, fk: Key, id: Id, now: int, fails: set<Call>)
        returns (r: Result<Id, UploadError>)
      requires Busy() && sys.pc == Staged(req, sk, fk) && req.parent in db.nodes && id !in sys.used
      requires StagingPath("", sk).Some? && sk in store.staging
      modifies this`sys, db`uploads, store`staging
      ensures Valid() && forall s {:trigger Follows(cfg, s, old(sys))} ::
        Follows(cfg, s, old(sys)) ==> Follows(cfg, s, sys)
      ensures r == if InsertRow in fails then Err(InsertFailed) else Ok(id)
      ensures r.Err? ==> db.uploads == old(db.uploads)
      ensures r.Err? ==> store.staging == if RemoveFile in fails then old(store.staging) else old(store.staging) - {sk}
      ensures r.Ok? ==>
        && db.uploads == old(db.uploads)[id := NewUpload(cfg, req, sk, fk, now)]
        && store.staging == old(store.staging)
    {
      hide Step, Follows, Inv;
      if InsertRow in fails {
        GiveUpDoes(cfg, sys);
        Do(GiveUp);
        Unstage(sk, fails);
        return Err(InsertFailed);
      }
      InsertUploadDoes(cfg, sys, id, now);
      db.uploads := db.uploads[id := NewUpload(cfg, req, sk, fk, now)];
      Do(InsertUpload(id, now));
      r := Ok(id);
    }

    /** Removes a staging file nobody needs; an error is dropped. */
    method Unstage(sk: Key, fails: set<Call>)
      requires Busy() && StagingPath("", sk).Some?
      requires sys.pc == if sk in store.staging then Unstaging(sk) else Idle
      modifies this`sys, store`staging
      ensures Valid() && forall s {:trigger Follows(cfg, s, old(sys))} ::
        Follows(cfg, s, old(sys)) ==> Follows(cfg, s, sys)
      ensures store.staging == if RemoveFile in fails && sk in old(store.staging) then old(store.staging)
        else old(store.staging) - {sk}
    {
      hide Step, Follows, Inv;
      ghost var there := sk in store.staging;
      var removed := store.RemoveStagingFile(sk, RemoveFile !in fails);
      if there {
        UnstageDoes(cfg, sys);
        GiveUpDoes(cfg, sys);
        if removed { Do(RemoveStaging); } else { Do(GiveUp); }
      }
    }

    /** `part` is what the reader delivers before it ends, or before it fails. */
    method WriteChunk(id: Id, offset: int, part: Bytes, now: int, node: Id, fails: set<Call>)
        returns (r: Result<Upload, UploadError>)
      requires Valid() && node !in sys.used
      modifies this`sys, db, store
      ensures Valid() && Follows(cfg, old(sys), sys)
      ensures Lookup in fails ==>
        r == Err(LookupFailed) && Untouched(old(db.Contents()), old(store.staging), old(store.objects))
      ensures Lookup !in fails && id !in old(db.uploads) ==>
        r == Err(UploadNotFound) && Untouched(old(db.Contents()), old(store.staging), old(store.objects))
      ensures Lookup !in fails && id in old(db.uploads) ==>
        var u := old(db.uploads)[id];
        ((u.state != Created && u.state != Receiving) || now > u.expiresAt || offset != u.received || OpenFile in fails
         || u.stagingKey !in old(store.staging)) ==>
          && Untouched(old(db.Contents()), old(store.staging), old(store.objects))
          && r == Err(if u.state != Created && u.state != Receiving then InvalidState
                      else if now > u.expiresAt then UploadExpired
                      else if offset != u.received then OffsetMismatch else StagingFailed)
      ensures (Lookup !in fails && id in old(db.uploads) && old(db.uploads)[id].state in {Created, Receiving}
               && now <= old(db.uploads)[id].expiresAt && offset == old(db.uploads)[id].received
               && OpenFile !in fails && old(db.uploads)[id].stagingKey in old(store.staging)) ==>
        var u := old(db.uploads)[id]; var bytes := old(store.staging)[u.stagingKey] + part;
        var staging := old(store.staging)[u.stagingKey := bytes]; var n := u.received + |part|;
        && (ReadBody in fails || n > u.expected || UpdateRow in fails ==>
              r == Err(if ReadBody in fails then WriteFailed
                       else if n > u.expected then LengthMismatch
                       else UpdateFailed)
              && Untouched(old(db.Contents()), staging, old(store.objects)))
        && (ReadBody !in fails && n <= u.expected && UpdateRow !in fails ==>
              var row := u.(received := n, state := if n == u.expected then Verifying else Receiving);
              var t := old(db.Contents()).(uploads := old(db.uploads)[id := row]);
              if n < u.expected then r == Ok(row) && Untouched(t, staging, old(store.objects))
              else Finalized(t, staging, old(store.objects), id, bytes, node, fails, r != Err(FinalizationFailed))
                   && (r.Ok? <==> r != Err(FinalizationFailed) && ReadBack !in fails)
                   && (r.Ok? ==> id in db.uploads && r.value == db.uploads[id])
                   && (r.Err? ==> r.error.FinalizationFailed? || r.error.ReadBackFailed?))
    {
      hide Step, Follows, Inv, StepAppend, CommitFile;
      FollowsSelf(cfg, sys);
      if Lookup in fails { return Err(LookupFailed); }
      if id !in db.uploads { return Err(UploadNotFound); }
      var u := db.uploads[id];
      if u.state != Created && u.state != Receiving { return Err(InvalidState); }
      if now > u.expiresAt { return Err(UploadExpired); }
      if offset != u.received { return Err(OffsetMismatch); }

      RowNamed(cfg, sys, id);
      HexPaths("", u.stagingKey);
      var appended := store.AppendStaging(u.stagingKey, part, OpenFile !in fails);
      if !appended { return Err(StagingFailed); }
      r := Account(id, offset, part, now, node, fails);
    }

    /** The bytes are in the staging file; count them, and finalise the upload once all have arrived. */
    method Account(id: Id, offset: int, part: Bytes, now: int, node: Id, fails: set<Call>)
        returns (r: Result<Upload, UploadError>)
      requires Sane(cfg) && Reached(cfg, sys) && sys.pc.Idle? && node !in sys.used
        && !Refused(sys.t.uploads, id, offset, now)
      requires id in sys.hist && sys.t.uploads[id].stagingKey in sys.staging
      requires var sk := sys.t.uploads[id].stagingKey;
        sys.t == db.Contents() && sys.objects == store.objects
          && store.staging == sys.staging[sk := sys.staging[sk] + part]
      modifies this`sys, db, store
      ensures Valid() && forall s {:trigger Follows(cfg, s, old(sys))} ::
        Follows(cfg, s, old(sys)) ==> Follows(cfg, s, sys)
      ensures var u := old(db.uploads)[id]; var n := u.received + |part|;
        && (ReadBody in fails || n > u.expected || UpdateRow in fails ==>
              r == Err(if ReadBody in fails then WriteFailed
                       else if n > u.expected then LengthMismatch
                       else UpdateFailed)
              && Untouched(old(db.Contents()), old(store.staging), old(store.objects)))
        && (ReadBody !in fails && n <= u.expected && UpdateRow !in fails ==>
              var t := old(db.Contents()).(uploads := old(db.uploads)[id := Progress(u, |part|)]);
              if n < u.expected then r == Ok(Progress(u, |part|))
                && Untouched(t, old(store.staging), old(store.objects))
              else Finalized(t, old(store.staging), old(store.objects), id, old(store.staging)[u.stagingKey], node,
                             fails, r != Err(FinalizationFailed))
                   && (r.Ok? <==> r != Err(FinalizationFailed) && ReadBack !in fails)
                   && (r.Ok? ==> id in db.uploads && r.value == db.uploads[id])
                   && (r.Err? ==> r.error.FinalizationFailed? || r.error.ReadBackFailed?))
    {
      hide Step, Follows, Inv, CommitFile;
      var u := db.uploads[id];
      AppendDoes(cfg, sys, id, offset, part, now, ReadBody in fails);
      if ReadBody in fails {
        Do(AppendTorn(id, offset, part, now));
        return Err(WriteFailed);
      }
      Do(Append(id, offset, part, now));
      RecordDoes(cfg, sys);
      if u.received + |part| > u.expected {
        Do(Record);
        return Err(LengthMismatch);
      }
      if UpdateRow in fails {
        GiveUpDoes(cfg, sys);
        Do(GiveUp);
        return Err(UpdateFailed);
      }
      var u' := u.(received := u.received + |part|, state := if u.received + |part| == u.expected then Verifying
        else Receiving);
      db.uploads := db.uploads[id := u'];
      Do(Record);
      if u'.state != Verifying { return Ok(u'); }
      var done := FinalizeUpload(id, node, fails);
      if !done { return Err(FinalizationFailed); }
      if ReadBack in fails { return Err(ReadBackFailed); }
      r := Ok(db.uploads[id]);
    }

    ghost predicate Untouched(t: Tables, staging: map<Key, Bytes>, objects: map<Key, Bytes>)
      reads db, store
    {
      db.Contents() == t && store.staging == staging && store.objects == objects
    }

    /** How the finalisation of upload `id`, verifying in `t` with its `bytes` staged, may leave things: untouched
        before the durable intent, intent recorded, bytes moved, or the file committed, which happens exactly when no
        call fails and the name is still free. */
    ghost predicate FinalizedBy(t: Tables, staging: map<Key, Bytes>, objects: map<Key, Bytes>, id: Id, bytes: Bytes,
        node: Id, fails: set<Call>, done: bool)
      requires id in t.uploads
      reads db, store
    {
      var u := t.uploads[id];
      var ta := t.(uploads := t.uploads[id := IntentRow(cfg, u, bytes)]);
      if Checksum in fails || IntentUpdate in fails then !done && Untouched(t, staging, objects)
      else if Rename in fails then !done && Untouched(ta, staging, objects)
      else
        && (done <==> MetadataTx !in fails && RowFits(t.nodes, node, FileRow(u)))
        && Untouched(if done then Committed(ta, id, node) else ta,
                     staging - {u.stagingKey}, objects[u.finalKey := bytes])
    }

    ghost predicate Finalized(t: Tables, staging: map<Key, Bytes>, objects: map<Key, Bytes>, id: Id, bytes: Bytes,
        node: Id, fails: set<Call>, done: bool)
      requires id in t.uploads
      reads db, store
    {
      var u := t.uploads[id];
      var row := u.(state := Finalizing, sha := Some(cfg.sha(bytes)));
      var ta := t.(uploads := t.uploads[id := row]);
      if Checksum in fails || IntentUpdate in fails then !done && Untouched(t, staging, objects)
      else if Rename in fails then !done && Untouched(ta, staging, objects)
      else
        && (done <==> MetadataTx !in fails && forall y | y in t.nodes && !t.nodes[y].trashed
              && t.nodes[y].parent == Some(u.parent) :: t.nodes[y].name.key != u.name.key)
        && Untouched(if done then Tables(t.nodes[node := Node(Some(u.parent), File, u.name, false, None, false)],
                                         t.files[node := FileObject(u.finalKey, u.expected, cfg.sha(bytes))],
                                         t.uploads[id := row.(state := Complete, reservation := 0)], t.shares) else ta,
                     staging - {u.stagingKey}, objects[u.finalKey := bytes])
    }

    /** Checksum, durable intent, rename, metadata commit. */
    method FinalizeUpload(id: Id, node: Id, fails: set<Call>) returns (done: bool)
      requires Busy() && sys.pc == Verified(id) && node !in sys.used
      requires id in db.uploads && db.uploads[id].stagingKey in store.staging
      modifies this`sys, db, store
      ensures Valid() && forall s {:trigger Follows(cfg, s, old(sys))} ::
        Follows(cfg, s, old(sys)) ==> Follows(cfg, s, sys)
      ensures Finalized(old(db.Contents()), old(store.staging), old(store.objects), id,
        old(store.staging)[old(db.uploads)[id].stagingKey], node, fails, done)
    {
      hide Step, Follows, Inv, RowFits, Committed, FileRow;
      NoRowYet(cfg, sys, node);
      CommitMeans(db.Contents(), id, node, store.staging[db.uploads[id].stagingKey], cfg);
      done := FinalizeRow(id, node, fails);
    }

    method FinalizeRow(id: Id, node: Id, fails: set<Call>) returns (done: bool)
      requires Busy() && sys.pc == Verified(id) && node !in sys.used
      requires id in db.uploads && db.uploads[id].stagingKey in store.staging
      modifies this`sys, db, store
      ensures Valid() && forall s {:trigger Follows(cfg, s, old(sys))} ::
        Follows(cfg, s, old(sys)) ==> Follows(cfg, s, sys)
      ensures FinalizedBy(old(db.Contents()), old(store.staging), old(store.objects), id,
        old(store.staging)[old(db.uploads)[id].stagingKey], node, fails, done)
    {
      hide Step, Follows, Inv, CommitFile, RowFits;
      var u := db.uploads[id];
      RowNamed(cfg, sys, id);
      HexPaths("", u.stagingKey);
      HexPaths("", u.finalKey);
      GiveUpDoes(cfg, sys);
      if Checksum in fails || IntentUpdate in fails { Do(GiveUp); return false; }
      PhaseADoes(cfg, sys);
      var sha := cfg.sha(store.staging[u.stagingKey]);
      db.uploads := db.uploads[id := u.(state := Finalizing, sha := Some(sha))];
      Do(PhaseA);
      PhaseBDoes(cfg, sys);
      GiveUpDoes(cfg, sys);
      var moved := store.MoveStagingToObject(u.stagingKey, u.finalKey, Rename !in fails);
      if !moved { Do(GiveUp); return false; }
      Do(PhaseB);
      done := CommitMetadata(id, node, sha, fails);
    }

    /** Phase C: one transaction, of which nothing remains if any statement fails. */
    method CommitMetadata(id: Id, node: Id, sha: Digest, fails: set<Call>) returns (done: bool)
      requires Busy() && sys.pc == Renamed(id) && node !in sys.used && id in db.uploads
        && db.uploads[id].sha == Some(sha)
      modifies this`sys, db
      ensures Valid() && forall s {:trigger Follows(cfg, s, old(sys))} ::
        Follows(cfg, s, old(sys)) ==> Follows(cfg, s, sys)
      ensures done <==> MetadataTx !in fails && RowFits(old(db.nodes), node, FileRow(old(db.uploads)[id]))
      ensures db.Contents() == if done then Committed(old(db.Contents()), id, node) else old(db.Contents())
    {
      hide Step, Follows, Inv, CommitFile, RowFits;
      if MetadataTx in fails {
        GiveUpDoes(cfg, sys);
        Do(GiveUp);
        return false;
      }
      ReachedInv(cfg, sys);
      PhaseCDoes(cfg, sys, node);
      var tx := CommitFile(db.Contents(), id, node, sha);
      if tx.Ok? { db.Commit(tx.value); }
      Do(PhaseC(node));
      done := tx.Ok?;
    }

    method TerminateUpload(id: Id, fails: set<Call>) returns (r: Result<(), UploadError>)
      requires Valid()
      modifies this`sys, db`uploads, store`staging
      ensures Valid() && Follows(cfg, old(sys), sys)
      ensures r == if Lookup in fails then Err(LookupFailed)
                   else if id !in old(db.uploads) then Err(UploadNotFound)
                   else if old(db.uploads)[id].state == Complete then Err(InvalidState)
                   else if UpdateRow in fails then Err(UpdateFailed) else Ok(())
      ensures r.Err? ==> db.uploads == old(db.uploads) && store.staging == old(store.staging)
      ensures r.Ok? ==>
        && db.uploads == old(db.uploads)[id := old(db.uploads)[id].(state := Terminated, reservation := 0)]
        && store.staging == if RemoveFile in fails then old(store.staging)
          else old(store.staging) - {old(db.uploads)[id].stagingKey}
    {
      hide Step, Follows, Inv;
      FollowsSelf(cfg, sys);
      if Lookup in fails { return Err(LookupFailed); }
      if id !in db.uploads { return Err(UploadNotFound); }
      var u := db.uploads[id];
      if u.state == Complete { return Err(InvalidState); }
      if UpdateRow in fails { return Err(UpdateFailed); }
      RowNamed(cfg, sys, id);
      HexPaths("", u.stagingKey);
      TerminateDoes(cfg, sys, id);
      db.uploads := db.uploads[id := u.(state := Terminated, reservation := 0)];
      Do(Terminate(id));
      Unstage(u.stagingKey, fails);
      r := Ok(());
    }

    // ---------------------------------------------------------------- reconciliation

    /** A reconciliation at `now` is under way, and if no call fails it still aims at `aim`. */
    ghost predicate Working(order: seq<Id>, now: int, aim: View, fails: set<(Id, Call)>)
      reads this, db, store
    {
      Busy() && Covers(order, db.uploads) && (fails == {} ==> OnCourse(cfg, sys, order, now, aim))
    }

    /** A step of a reconciliation, whose write, if any, has just been made. */
    ghost method Advance(a: Action, order: seq<Id>, now: int, aim: View, fails: set<(Id, Call)>)
      requires Sane(cfg) && Reached(cfg, sys) && Shows(Step(cfg, sys, a)) && Covers(order, db.uploads)
      requires fails == {} ==> OnCourse(cfg, sys, order, now, aim) && Inside(a)
      requires fails == {} && a.CollectFinalizing? ==> a.todo == Select(order, FinalizingIds(sys.t.uploads))
      modifies this`sys
      ensures Working(order, now, aim, fails) && sys == Step(cfg, old(sys), a)
      ensures forall s {:trigger Follows(cfg, s, old(sys))} :: Follows(cfg, s, old(sys)) ==> Follows(cfg, s, sys)
    {
      hide Step, Follows, OnCourse, Covers;
      if fails == {} { CourseStep(cfg, sys, a, order, now, aim); }
      Do(a);
    }

    /** Expires stale uploads, then finishes every interrupted finalisation. Unless some call fails it reaches the
        target of its starting state, which by RecoveryConverges earlier interrupted attempts do not move. `order` is
        the order in which queries return rows; `ids` are the node ids to be drawn; `fails` the calls that meet an
        error, by row. */
    method Reconcile(now: int, order: seq<Id>, ids: seq<Id>, fails: set<(Id, Call)>)
      requires Valid() && Covers(order, db.uploads)
      requires |ids| >= |order| && NoDup(ids) && forall j | 0 <= j < |ids| :: ids[j] !in sys.used
      modifies this`sys, db, store
      ensures Valid() && Follows(cfg, old(sys), sys)
      ensures fails == {} ==> ViewOf(sys) == Target(ViewOf(old(sys)), now, order)
      ensures fails == {} ==> FinalizingIds(db.uploads) == {} && ExpiredIds(db.uploads, now) == {}
      // the rows: a stale one expires, an interrupted one is completed once its object is there; no other changes
      ensures db.shares == old(db.shares) && db.uploads.Keys == old(db.uploads).Keys
      ensures forall id | id in db.uploads :: var u := old(db.uploads)[id];
        db.uploads[id] ==
          if u.state in {Created, Receiving} && u.expiresAt < now && (id, UpdateRow) !in fails
          then u.(state := Expired, reservation := 0)
          else if u.state == Finalizing && (id, MetadataTx) !in fails
                  && (u.finalKey in old(store.objects) || (id, Rename) !in fails)
          then u.(state := Complete, reservation := 0)
          else u
      // the staging files: those of stale rows are removed, those of interrupted ones renamed; no other changes
      ensures forall k :: k in store.staging <==>
        && k in old(store.staging)
        && forall id | id in old(db.uploads) && old(db.uploads)[id].stagingKey == k :: var u := old(db.uploads)[id];
             && (u.state in {Created, Receiving} && u.expiresAt < now ==> (id, RemoveFile) in fails)
             && (u.state == Finalizing ==> (id, Rename) in fails)
      ensures forall k | k in store.staging :: store.staging[k] == old(store.staging)[k]
      // the objects: those renamed appear with the bytes that were staged; no other changes
      ensures forall k :: k in store.objects <==>
        || k in old(store.objects)
        || exists id | id in old(db.uploads) :: old(db.uploads)[id].state == Finalizing
             && old(db.uploads)[id].finalKey == k && (id, Rename) !in fails
      ensures forall k | k in old(store.objects) :: store.objects[k] == old(store.objects)[k]
      ensures forall id | id in old(db.uploads) && old(db.uploads)[id].state == Finalizing ::
        var u := old(db.uploads)[id];
        u.finalKey !in old(store.objects) && (id, Rename) !in fails ==>
          && u.finalKey in store.objects && u.stagingKey in old(store.staging)
          && store.objects[u.finalKey] == old(store.staging)[u.stagingKey]
      // the nodes and file rows: those of completed uploads come in, under names that were free; no other changes
      ensures forall x | x in old(db.nodes) :: x in db.nodes && db.nodes[x] == old(db.nodes)[x]
      ensures forall x | x in old(db.files) :: x in db.files && db.files[x] == old(db.files)[x]
      ensures db.nodes.Keys - old(db.nodes).Keys == db.files.Keys - old(db.files).Keys
      ensures forall x | x in db.files && x !in old(db.files) ::
        x in db.nodes && exists id | id in old(db.uploads) :: var u := old(db.uploads)[id];
          && u.state == Finalizing && db.uploads[id].state == Complete && u.sha.Some?
          && db.files[x] == FileObject(u.finalKey, u.expected, u.sha.value)
          && db.nodes[x] == Node(Some(u.parent), File, u.name, false, None, false)
          && forall y | y in old(db.nodes) && !old(db.nodes)[y].trashed && old(db.nodes)[y].parent == Some(u.parent) ::
               old(db.nodes)[y].name.key != u.name.key
      ensures forall id | id in old(db.uploads) && old(db.uploads)[id].state == Finalizing
          && db.uploads[id].state == Complete :: var u := old(db.uploads)[id];
        || (exists x | x in db.files :: db.files[x].storageKey == u.finalKey)
        || exists y | y in db.nodes :: !db.nodes[y].trashed && db.nodes[y].parent == Some(u.parent)
             && db.nodes[y].name.key == u.name.key
    {
      hide Follows, Target, Inv, ViewOf, Covers, NoDup, BothPasses;
      ghost var t0, st0, ob0 := db.Contents(), store.staging, store.objects;
      ghost var t1, st1 := Passes(now, order, ids, fails);
      RowsEnd(t0, st0, ob0, t1, st1, db.Contents(), store.staging, store.objects, now, fails);
      StagingEnd(t0, st0, ob0, t1, st1, db.Contents(), store.staging, store.objects, now, fails);
      ObjectsEnd(t0, st0, ob0, t1, st1, db.Contents(), store.staging, store.objects, now, fails);
      FilesEnd(t0, st0, ob0, t1, st1, db.Contents(), store.staging, store.objects, now, fails);
      NothingElse(t0, st0, ob0, t1, st1, db.Contents(), store.staging, store.objects, now, fails);
    }

    /** The two passes, with the tables and staging files between them. */
    method Passes(now: int, order: seq<Id>, ids: seq<Id>, fails: set<(Id, Call)>)
        returns (ghost t1: Tables, ghost st1: map<Key, Bytes>)
      requires Valid() && Covers(order, db.uploads)
      requires |ids| >= |order| && NoDup(ids) && forall j | 0 <= j < |ids| :: ids[j] !in sys.used
      modifies this`sys, db, store
      ensures Valid() && Follows(cfg, old(sys), sys)
      ensures fails == {} ==> ViewOf(sys) == Target(ViewOf(old(sys)), now, order)
      ensures fails == {} ==> FinalizingIds(db.uploads) == {} && ExpiredIds(db.uploads, now) == {}
      ensures BothPasses(old(db.Contents()), old(store.staging), old(store.objects), t1, st1, db.Contents(),
                         store.staging, store.objects, now, fails)
    {
      hide Step, Follows, OnCourse, Covers, Inv, NoDup, Target, ExpiredSoFar, ResolvedSoFar, ViewOf;
      FollowsSelf(cfg, sys);
      ghost var aim := Target(ViewOf(sys), now, order);
      ExpireStale(now, order, aim, fails);
      t1, st1 := db.Contents(), store.staging;
      ResolveInterrupted(now, order, ids, aim, fails);
      EndDoes(cfg, sys);
      if fails == {} { CourseEnd(cfg, sys, order, now, aim); }
      Do(EndReconcile);
    }

    method ExpireStale(now: int, order: seq<Id>, ghost aim: View, fails: set<(Id, Call)>)
      requires Valid() && Covers(order, db.uploads) && aim == Target(ViewOf(sys), now, order)
      modifies this`sys, db, store
      ensures Working(order, now, aim, fails) && sys.pc == Expiring([], now) && sys.used == old(sys.used)
      ensures forall s {:trigger Follows(cfg, s, old(sys))} :: Follows(cfg, s, old(sys)) ==> Follows(cfg, s, sys)
      ensures db.nodes == old(db.nodes) && db.files == old(db.files) && db.shares == old(db.shares)
      ensures store.objects == old(store.objects)
      ensures ExpiredSoFar(old(db.uploads), old(store.staging), db.uploads, store.staging,
                           ExpiredIds(old(db.uploads), now), fails)
    {
      hide Step, Follows, OnCourse, Inv, ExpiredSoFar, Covers, NoDup, ExpiredIds;
      SelectAll(order, db.uploads, now);
      StartOf(cfg, sys);
      ExpireNone(db.uploads, store.staging, fails);
      assert Elems<Id>([]) == {};
      var expired := SelectIds(order, ExpiredIds(db.uploads, now));
      CourseBegin(cfg, sys, order, now);
      Do(BeginReconcile(now, expired));
      for i := 0 to |expired|
        invariant Working(order, now, aim, fails) && sys.pc == Expiring(expired[i..], now) && sys.used == old(sys.used)
        invariant forall s {:trigger Follows(cfg, s, old(sys))} :: Follows(cfg, s, old(sys)) ==> Follows(cfg, s, sys)
        invariant db.nodes == old(db.nodes) && db.files == old(db.files) && db.shares == old(db.shares)
        invariant store.objects == old(store.objects)
        invariant ExpiredSoFar(old(db.uploads), old(store.staging), db.uploads, store.staging, Elems(expired[..i]),
          fails)
      {
        HeadTail(expired, i);
        HeadFresh(expired, i);
        ghost var us, st := db.uploads, store.staging;
        ExpireOne(expired[i], expired[i + 1..], order, now, aim, fails);
        ExpireMore(old(db.uploads), old(store.staging), us, st, Elems(expired[..i]), expired[i], db.uploads,
                   store.staging, fails);
      }
      assert expired[..|expired|] == expired;
      assert Elems(expired) == ExpiredIds(old(db.uploads), now);
    }

    /** The row, then its staging file; neither error stops the other write. */
    method ExpireOne(id: Id, ghost rest: seq<Id>, ghost order: seq<Id>, ghost now: int, ghost aim: View,
        fails: set<(Id, Call)>)
      requires Working(order, now, aim, fails) && sys.pc == Expiring([id] + rest, now)
      modifies this`sys, db, store
      ensures Working(order, now, aim, fails) && sys.pc == Expiring(rest, now) && sys.used == old(sys.used)
      ensures forall s {:trigger Follows(cfg, s, old(sys))} :: Follows(cfg, s, old(sys)) ==> Follows(cfg, s, sys)
      ensures id in old(db.uploads) && var u := old(db.uploads)[id];
        && db.nodes == old(db.nodes) && db.files == old(db.files) && db.shares == old(db.shares)
        && store.objects == old(store.objects)
        && db.uploads == (if (id, UpdateRow) in fails then old(db.uploads)
                          else old(db.uploads)[id := u.(state := Expired, reservation := 0)])
        && store.staging == if (id, RemoveFile) in fails then old(store.staging)
          else old(store.staging) - {u.stagingKey}
    {
      hide Step, Follows, OnCourse, Inv, HexKey;
      RowExpirable(cfg, sys, id, rest, now);
      RowNamed(cfg, sys, id);
      var key := db.uploads[id].stagingKey;
      HexPaths("", key);
      ExpireDoes(cfg, sys, id, rest, now);
      if (id, UpdateRow) in fails {
        ExpireFailsDoes(cfg, sys, id, rest, now);
        ExpireSkips(cfg, sys, id, rest, now);
        var gone := store.RemoveStagingFile(key, (id, RemoveFile) !in fails);
        if gone { Advance(ExpireFails, order, now, aim, fails); } else { Advance(GiveUp, order, now, aim, fails); }
        return;
      }
      db.uploads := db.uploads[id := db.uploads[id].(state := Expired, reservation := 0)];
      Advance(ExpireNext, order, now, aim, fails);
      ghost var there := key in store.staging;
      var removed := store.RemoveStagingFile(key, (id, RemoveFile) !in fails);
      if there {
        ExpiredRowDoes(cfg, sys);
        if removed { Advance(RemoveStaging, order, now, aim, fails); } else { Advance(GiveUp, order, now, aim, fails); }
      }
    }

    /** SELECT ... WHERE state = 'finalizing'. */
    method CollectInterrupted(now: int, order: seq<Id>, ghost aim: View, fails: set<(Id, Call)>)
        returns (finalizing: seq<Id>)
      requires Working(order, now, aim, fails) && sys.pc == Expiring([], now)
      modifies this`sys
      ensures Working(order, now, aim, fails) && sys.pc == Resolving(finalizing) && sys.used == old(sys.used)
      ensures forall s {:trigger Follows(cfg, s, old(sys))} :: Follows(cfg, s, old(sys)) ==> Follows(cfg, s, sys)
      ensures NoDup(finalizing) && Elems(finalizing) == FinalizingIds(db.uploads) && |finalizing| <= |order|
      ensures DistinctKeys(db.uploads)
    {
      hide Step, Follows, OnCourse, Inv, Covers, NoDup, FinalizingIds, DistinctKeys;
      SelectAll(order, db.uploads, now);
      StartOf(cfg, sys);
      finalizing := SelectIds(order, FinalizingIds(db.uploads));
      BeginResolving(cfg, sys, order, now);
      Advance(CollectFinalizing(finalizing), order, now, aim, fails);
      SelectSize(order, FinalizingIds(db.uploads));
    }

    method ResolveInterrupted(now: int, order: seq<Id>, ids: seq<Id>, ghost aim: View, fails: set<(Id, Call)>)
      requires Working(order, now, aim, fails) && sys.pc == Expiring([], now)
      requires |ids| >= |order| && NoDup(ids) && forall j | 0 <= j < |ids| :: ids[j] !in sys.used
      modifies this`sys, db, store
      ensures Working(order, now, aim, fails) && sys.pc == Resolving([])
      ensures forall s {:trigger Follows(cfg, s, old(sys))} :: Follows(cfg, s, old(sys)) ==> Follows(cfg, s, sys)
      ensures ResolvedSoFar(old(db.Contents()), old(store.staging), old(store.objects), db.Contents(), store.staging,
                            store.objects, FinalizingIds(old(db.uploads)), fails)
    {
      hide Step, Follows, OnCourse, Inv, ResolvedSoFar, Covers, NoDup, FinalizingIds, DistinctKeys;
      ghost var t0, st0, ob0 := db.Contents(), store.staging, store.objects;
      ResolveNone(t0, st0, ob0, fails);
      assert Elems<Id>([]) == {};
      var finalizing := CollectInterrupted(now, order, aim, fails);
      for i := 0 to |finalizing|
        invariant Working(order, now, aim, fails) && sys.pc == Resolving(finalizing[i..])
        invariant forall j | i <= j < |ids| :: ids[j] !in sys.used
        invariant forall s {:trigger Follows(cfg, s, old(sys))} :: Follows(cfg, s, old(sys)) ==> Follows(cfg, s, sys)
        invariant ResolvedSoFar(t0, st0, ob0, db.Contents(), store.staging, store.objects, Elems(finalizing[..i]),
          fails)
      {
        HeadTail(finalizing, i);
        HeadFresh(finalizing, i);
        ghost var used := sys.used;
        ResolveNextRow(finalizing[i], ids[i], finalizing[i + 1..], order, now, aim, fails, t0, st0, ob0,
                       Elems(finalizing[..i]));
        StillFresh(ids, i, used, sys.used);
      }
      assert finalizing[..|finalizing|] == finalizing;
      assert Elems(finalizing) == FinalizingIds(old(db.uploads));
    }

    /** One interrupted finalisation, added to what the pass has done so far. */
    method ResolveNextRow(id: Id, node: Id, ghost rest: seq<Id>, ghost order: seq<Id>, ghost now: int, ghost aim: View,
        fails: set<(Id, Call)>, ghost t0: Tables, ghost st0: map<Key, Bytes>, ghost ob0: map<Key, Bytes>,
        ghost done: set<Id>)
      requires Working(order, now, aim, fails) && sys.pc == Resolving([id] + rest) && node !in sys.used
      requires ResolvedSoFar(t0, st0, ob0, db.Contents(), store.staging, store.objects, done, fails)
      requires DistinctKeys(t0.uploads) && id !in done
      modifies this`sys, db, store
      ensures Working(order, now, aim, fails) && sys.pc == Resolving(rest) && sys.used <= old(sys.used) + {node}
      ensures forall s {:trigger Follows(cfg, s, old(sys))} :: Follows(cfg, s, old(sys)) ==> Follows(cfg, s, sys)
      ensures ResolvedSoFar(t0, st0, ob0, db.Contents(), store.staging, store.objects, done + {id}, fails)
    {
      hide Step, Follows, OnCourse, Inv, ResolvedRow, KeyStored, DistinctKeys, BytesSoFar, FilesSoFar, Completes,
        Covers;
      ghost var t, st, ob := db.Contents(), store.staging, store.objects;
      Interrupted(cfg, sys, id, rest, node);
      ResolveOne(id, node, rest, order, now, aim, fails);
      ResolveMore(t0, st0, ob0, t, st, ob, done, id, node, db.Contents(), store.staging, store.objects, fails);
    }

    /** The four cases of one interrupted finalisation. */
    method ResolveOne(id: Id, node: Id, ghost rest: seq<Id>, ghost order: seq<Id>, ghost now: int, ghost aim: View,
                      fails: set<(Id, Call)>)
      requires Working(order, now, aim, fails) && sys.pc == Resolving([id] + rest) && node !in sys.used
      modifies this`sys, db, store
      ensures Working(order, now, aim, fails) && sys.pc == Resolving(rest) && sys.used <= old(sys.used) + {node}
      ensures forall s {:trigger Follows(cfg, s, old(sys))} :: Follows(cfg, s, old(sys)) ==> Follows(cfg, s, sys)
      ensures id in old(db.uploads) && ResolvedRow(old(db.Contents()), old(store.staging), old(store.objects), id, node,
                                                   db.Contents(), store.staging, store.objects, fails)
    {
      hide Step, Follows, OnCourse, Inv, HexKey, RepairFile, KeyStored;
      RowResolvable(cfg, sys, id, rest);
      RowNamed(cfg, sys, id);
      var u := db.uploads[id];
      if u.finalKey in store.objects {
        if (id, MetadataTx) in fails || (id, UpdateRow) in fails { ObjectAlone(cfg, sys, id); }
        ResolvePresent(id, node, rest, order, now, aim, fails);
      } else if u.stagingKey in store.staging {
        ResolveStaged(id, node, rest, order, now, aim, fails);
      } else {
        ResolveLostDoes(cfg, sys, id, node, rest);
        ResolveGivesUp(cfg, sys, id, rest);
        if (id, UpdateRow) in fails {
          Advance(GiveUp, order, now, aim, fails);
        } else {
          db.uploads := db.uploads[id := u.(state := Failed, reservation := 0)];
          Advance(ResolveNext(node), order, now, aim, fails);
        }
      }
    }

    /** The object is in place: commit its file unless that has happened, complete the row, drop a leftover copy. */
    method ResolvePresent(id: Id, node: Id, ghost rest: seq<Id>, ghost order: seq<Id>, ghost now: int, ghost aim: View,
                          fails: set<(Id, Call)>)
      requires Working(order, now, aim, fails) && sys.pc == Resolving([id] + rest) && node !in sys.used
      requires id in sys.t.uploads && id in sys.hist && sys.t.uploads[id].finalKey in sys.objects
      requires HexKey(sys.t.uploads[id].stagingKey)
      requires (id, MetadataTx) in fails || (id, UpdateRow) in fails ==> sys.t.uploads[id].stagingKey !in sys.staging
      modifies this`sys, db, store
      ensures Working(order, now, aim, fails) && sys.pc == Resolving(rest) && sys.used <= old(sys.used) + {node}
      ensures forall s {:trigger Follows(cfg, s, old(sys))} :: Follows(cfg, s, old(sys)) ==> Follows(cfg, s, sys)
      ensures ResolvedRow(old(db.Contents()), old(store.staging), old(store.objects), id, node, db.Contents(),
                          store.staging, store.objects, fails)
    {
      hide Step, Follows, OnCourse, Inv, HexKey, Covers;
      var stagingKey := db.uploads[id].stagingKey;
      HexPaths("", stagingKey);
      var stagingExists := stagingKey in store.staging;
      var completed := CompletePresent(id, node, rest, order, now, aim, fails);
      if stagingExists {
        var removed := store.RemoveStagingFile(stagingKey, (id, RemoveFile) !in fails);
        if completed {
          LeftoverDoes(cfg, sys);
          if removed {
            Advance(RemoveStaging, order, now, aim, fails);
          } else {
            Advance(GiveUp, order, now, aim, fails);
          }
        }
      }
    }

    method CompletePresent(id: Id, node: Id, ghost rest: seq<Id>, ghost order: seq<Id>, ghost now: int, ghost aim: View,
                           fails: set<(Id, Call)>) returns (completed: bool)
      requires Working(order, now, aim, fails) && sys.pc == Resolving([id] + rest) && node !in sys.used
      requires id in sys.t.uploads && id in sys.hist && sys.t.uploads[id].finalKey in sys.objects
      modifies this`sys, db
      ensures Working(order, now, aim, fails) && sys.used <= old(sys.used) + {node}
      ensures var sk := old(db.uploads)[id].stagingKey;
        sys.pc == if completed && sk in store.staging then Leftover(sk, rest) else Resolving(rest)
      ensures !completed ==> (id, MetadataTx) in fails || (id, UpdateRow) in fails
      ensures !KeyStored(old(db.files), old(db.uploads)[id].finalKey) ==>
        db.Contents() == if (id, MetadataTx) in fails then old(db.Contents())
          else RepairFile(old(db.Contents()), id, node)
      ensures forall s {:trigger Follows(cfg, s, old(sys))} :: Follows(cfg, s, old(sys)) ==> Follows(cfg, s, sys)
    {
      hide Step, Follows, OnCourse, Inv, KeyStored, RepairFile;
      ResolvePresentDoes(cfg, sys, id, node, rest);
      ResolveGivesUp(cfg, sys, id, rest);
      RepairedRow(sys, id, node);
      var u := db.uploads[id];
      var count := if KeyStored(db.files, u.finalKey) then 1 else 0;
      completed := (id, if count == 0 then MetadataTx else UpdateRow) !in fails;
      if !completed {
        Advance(GiveUp, order, now, aim, fails);
        return;
      }
      if count == 0 {
        db.Commit(RepairFile(db.Contents(), id, node));
      } else {
        db.uploads := db.uploads[id := u.(state := Complete, reservation := 0)];
      }
      Advance(ResolveNext(node), order, now, aim, fails);
    }

    /** Only the staging file is there: repeat the rename, then commit. */
    method ResolveStaged(id: Id, node: Id, ghost rest: seq<Id>, ghost order: seq<Id>, ghost now: int, ghost aim: View,
                         fails: set<(Id, Call)>)
      requires Working(order, now, aim, fails) && sys.pc == Resolving([id] + rest) && node !in sys.used
      requires id in sys.t.uploads && id in sys.hist && HexKey(sys.t.uploads[id].stagingKey)
        && HexKey(sys.t.uploads[id].finalKey)
      requires sys.t.uploads[id].finalKey !in sys.objects && sys.t.uploads[id].stagingKey in sys.staging
      modifies this`sys, db, store
      ensures Working(order, now, aim, fails) && sys.pc == Resolving(rest) && sys.used <= old(sys.used) + {node}
      ensures forall s {:trigger Follows(cfg, s, old(sys))} :: Follows(cfg, s, old(sys)) ==> Follows(cfg, s, sys)
      ensures ResolvedRow(old(db.Contents()), old(store.staging), old(store.objects), id, node, db.Contents(),
                          store.staging, store.objects, fails)
    {
      hide Step, Follows, OnCourse, Inv, HexKey, RepairFile, KeyStored;
      var u := db.uploads[id];
      HexPaths("", u.stagingKey);
      HexPaths("", u.finalKey);
      ResolveStagedDoes(cfg, sys, id, node, rest);
      ResolveGivesUp(cfg, sys, id, rest);
      var moved := store.MoveStagingToObject(u.stagingKey, u.finalKey, (id, Rename) !in fails);
      if !moved {
        Advance(GiveUp, order, now, aim, fails);
        return;
      }
      Advance(ResolveNext(node), order, now, aim, fails);
      RetryMetadata(id, node, rest, order, now, aim, fails);
    }

    /** The repair transaction after a repeated rename. */
    method RetryMetadata(id: Id, node: Id, ghost rest: seq<Id>, ghost order: seq<Id>, ghost now: int, ghost aim: View,
                         fails: set<(Id, Call)>)
      requires Working(order, now, aim, fails) && sys.pc == Moved(id, rest) && node !in sys.used
      requires id in sys.t.uploads && id in sys.hist
      modifies this`sys, db
      ensures Working(order, now, aim, fails) && sys.pc == Resolving(rest) && sys.used <= old(sys.used) + {node}
      ensures db.Contents() ==
        if (id, MetadataTx) in fails then old(db.Contents()) else RepairFile(old(db.Contents()), id, node)
      ensures forall s {:trigger Follows(cfg, s, old(sys))} :: Follows(cfg, s, old(sys)) ==> Follows(cfg, s, sys)
    {
      hide Step, Follows, OnCourse, Inv, RepairFile, KeyStored;
      CommitMovedDoes(cfg, sys, node);
      RepairedRow(sys, id, node);
      if (id, MetadataTx) in fails {
        Advance(GiveUp, order, now, aim, fails);
      } else {
        db.Commit(RepairFile(db.Contents(), id, node));
        Advance(CommitMoved(node), order, now, aim, fails);
      }
    }
  }

  lemma SelectAll(order: seq<Id>, us: Uploads, now: int)
    requires Covers(order, us)
    ensures NoDup(Select(order, ExpiredIds(us, now)))
      && Elems(Select(order, ExpiredIds(us, now))) == ExpiredIds(us, now)
    ensures NoDup(Select(order, FinalizingIds(us))) && Elems(Select(order, FinalizingIds(us))) == FinalizingIds(us)
  {
    SelectFrom(order, ExpiredIds(us, now));
    SelectFrom(order, FinalizingIds(us));
  }

  /** What is known of an interrupted row that comes next. */
  lemma Interrupted(cfg: Config, s: Sys, id: Id, rest: seq<Id>, node: Id)
    requires Sane(cfg) && Reached(cfg, s) && s.pc == Resolving([id] + rest) && node !in s.used
    ensures id in s.t.uploads && var u := s.t.uploads[id];
      && node !in s.t.nodes && node !in s.t.files && u.parent in s.t.nodes && u.sha.Some?
      && !KeyStored(s.t.files, u.finalKey) && (u.finalKey in s.objects <==> u.stagingKey !in s.staging)
  {
    hide DistinctKeys, FilesOk, DoomedOk, WithinQuota, Reached, TablesInv, UsedOk, KeyStored;
    ReachedInv(cfg, s);
    assert s.pc.todo[0] == id;
    assert UploadAt(cfg, s, id);
    UnfinishedKey(cfg, s, id);
    FreshEverywhere(s, id, node);
  }

  lemma FreshEverywhere(s: Sys, id: Id, node: Id)
    requires TablesInv(s.t) && UsedOk(s) && node !in s.used && id in s.t.uploads
    ensures node !in s.t.nodes && node !in s.t.files && s.t.uploads[id].parent in s.t.nodes
  {
    assert s.t.uploads[id].parent in UploadParents(s.t.uploads);
  }

  lemma StartOf(cfg: Config, s: Sys)
    requires Sane(cfg) && Reached(cfg, s)
    ensures DistinctKeys(s.t.uploads)
  {
    hide TablesInv, UsedOk, DistinctKeys, UploadsOk, FilesOk, DoomedOk, WithinQuota, PcOk, Reached;
    ReachedInv(cfg, s);
  }

  /** An upload being finalised has no leftover staging file once its object is in place. */
  lemma ObjectAlone(cfg: Config, s: Sys, id: Id)
    requires Sane(cfg) && Reached(cfg, s) && id in s.t.uploads && s.t.uploads[id].state == Finalizing
    requires s.t.uploads[id].finalKey in s.objects
    ensures s.t.uploads[id].stagingKey !in s.staging
  {
    hide TablesInv, UsedOk, DistinctKeys, FilesOk, DoomedOk, WithinQuota, PcOk, Reached;
    ReachedInv(cfg, s);
    assert UploadAt(cfg, s, id);
  }

  ghost predicate OnCourse(cfg: Config, s: Sys, order: seq<Id>, now: int, aim: View) {
    && Sane(cfg) && Reached(cfg, s) && OnTrack(s, order, now) && Covers(order, s.t.uploads)
    && Sweeping(s, now) && Target(ViewOf(s), now, order) == aim
  }

  lemma CourseStep(cfg: Config, s: Sys, a: Action, order: seq<Id>, now: int, aim: View)
    requires OnCourse(cfg, s, order, now, aim) && Inside(a)
    requires a.CollectFinalizing? ==> a.todo == Select(order, FinalizingIds(s.t.uploads))
    ensures OnCourse(cfg, Step(cfg, s, a), order, now, aim)
  {
    hide Step, Follows, OnTrack, Sweeping, Inv;
    ReachedInv(cfg, s);
    AimStep(cfg, s, a, order, now);
    SweepStep(cfg, s, a, now);
    FollowsStep(cfg, INITIAL_SYS, s, a);
  }

  lemma CourseBegin(cfg: Config, s: Sys, order: seq<Id>, now: int)
    requires Sane(cfg) && Reached(cfg, s) && s.pc.Idle? && Covers(order, s.t.uploads)
    ensures var expired := Select(order, ExpiredIds(s.t.uploads, now)); var s1 := s.(pc := Expiring(expired, now));
      Step(cfg, s, BeginReconcile(now, expired)) == s1 && OnCourse(cfg, s1, order, now, Target(ViewOf(s), now, order))
  {
    hide Follows, Step, Inv, Target, Slots, Catalog, FoldersOf, Pending;
    var expired := Select(order, ExpiredIds(s.t.uploads, now));
    SelectFrom(order, ExpiredIds(s.t.uploads, now));
    BeginReconcileDoes(cfg, s, now, expired);
    FollowsStep(cfg, INITIAL_SYS, s, BeginReconcile(now, expired));
    forall i | 0 <= i < |expired| ensures expired[i] in s.t.uploads && s.t.uploads[expired[i]].expiresAt < now {
      assert expired[i] in expired;
    }
  }

  lemma CourseEnd(cfg: Config, s: Sys, order: seq<Id>, now: int, aim: View)
    requires OnCourse(cfg, s, order, now, aim) && s.pc == Resolving([])
    ensures var s1 := s.(pc := Idle);
      ViewOf(s1) == aim && FinalizingIds(s1.t.uploads) == {} && ExpiredIds(s1.t.uploads, now) == {}
  {
    hide Follows;
    NothingFinalizing(s, order, now);
    TargetOfDone(ViewOf(s), now, order);
  }

  lemma NothingFinalizing(s: Sys, order: seq<Id>, now: int)
    requires s.pc == Resolving([]) && OnTrack(s, order, now) && Covers(order, s.t.uploads)
    ensures FinalizingIds(s.t.uploads) == {}
  {
    SelectFrom(order, FinalizingIds(s.t.uploads));
    forall x | x in order ensures x !in FinalizingIds(s.t.uploads) {
      assert x !in Select(order, FinalizingIds(s.t.uploads));
    }
    assert forall x | x in FinalizingIds(s.t.uploads) :: x in order;
  }

  lemma BeginResolving(cfg: Config, s: Sys, order: seq<Id>, now: int)
    requires s.pc == Expiring([], now) && Covers(order, s.t.uploads)
    ensures var todo := Select(order, FinalizingIds(s.t.uploads));
      Step(cfg, s, CollectFinalizing(todo)) == s.(pc := Resolving(todo))
  {
    hide Step;
    SelectFrom(order, FinalizingIds(s.t.uploads));
    CollectDoes(cfg, s, Select(order, FinalizingIds(s.t.uploads)));
  }

  lemma {:induction false} SelectSize(order: seq<Id>, S: set<Id>)
    ensures |Select(order, S)| <= |order|
  {
    if order != [] { SelectSize(order[1..], S); }
  }

  lemma RowExpirable(cfg: Config, s: Sys, id: Id, rest: seq<Id>, now: int)
    requires Sane(cfg) && Reached(cfg, s) && s.pc == Expiring([id] + rest, now)
    ensures id in s.t.uploads
  {
    hide TablesInv, UsedOk, DistinctKeys, UploadsOk, FilesOk, DoomedOk, WithinQuota, Reached;
    ReachedInv(cfg, s);
    assert s.pc.todo[0] == id;
  }

  lemma RowResolvable(cfg: Config, s: Sys, id: Id, rest: seq<Id>)
    requires Sane(cfg) && Reached(cfg, s) && s.pc == Resolving([id] + rest)
    ensures id in s.t.uploads && id in s.hist && s.t.uploads[id].state == Finalizing
  {
    hide TablesInv, UsedOk, DistinctKeys, FilesOk, DoomedOk, WithinQuota, Reached;
    ReachedInv(cfg, s);
    assert s.pc.todo[0] == id;
    assert UploadAt(cfg, s, id);
  }

  lemma FreshStaging(cfg: Config, s: Sys, sk: Key)
    requires Sane(cfg) && Reached(cfg, s) && sk !in s.used
    ensures sk !in s.staging
  {
    hide TablesInv, DistinctKeys, UploadsOk, FilesOk, DoomedOk, PcOk, Reached;
    ReachedInv(cfg, s);
  }

  /** Every row has a history and generated keys. */
  lemma RowNamed(cfg: Config, s: Sys, id: Id)
    requires Sane(cfg) && Reached(cfg, s) && id in s.t.uploads
    ensures id in s.hist && HexKey(s.t.uploads[id].stagingKey) && HexKey(s.t.uploads[id].finalKey)
  {
    hide TablesInv, DistinctKeys, UploadAt, FilesOk, DoomedOk, PcOk, Reached, HexKey;
    ReachedInv(cfg, s);
    assert KeysDrawn(s.used, s.t.uploads[id]);
  }
}
