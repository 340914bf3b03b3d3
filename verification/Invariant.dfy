/** The invariant of every run of the machine. */
module Invariant {
  import opened Basics
  import opened Schema
  import opened Tree
  import opened Purge
  import opened Machine

  /** The quota is meant for non-negative limits whose sum fits an int64. */
  predicate Sane(cfg: Config) {
    0 <= cfg.maxStorage && 0 <= cfg.maxFile && cfg.maxStorage + cfg.maxFile < 0x8000_0000_0000_0000
  }

  /** Bytes on disk against the history of their upload: the stray bytes make up the difference in length, and
      without any the bytes are exactly the accepted chunks. */
  predicate Holding(bytes: Bytes, h: History) {
    |bytes| == |h.accepted| + h.stray && (h.stray == 0 ==> bytes == h.accepted)
  }

  /** Bookkeeping of one upload row, and which of its two files exists. */
  predicate UploadOk(cfg: Config, u: Upload, h: History, staging: map<Key, Bytes>, objects: map<Key, Bytes>) {
    && u.received <= u.expected && |h.accepted| == u.received
    && u.reservation == (if Active(u.state) then u.expected else 0)
    && (u.state == Created ==> u.received == 0)
    && (u.state in {Verifying, Finalizing, Complete} ==> u.received == u.expected)
    && u.state != Failed
    && h.commits <= (if u.state == Complete then 1 else 0)
    && (Open(u.state) ==>
          && u.finalKey !in objects && (u.stagingKey in staging <==> !h.dropped)
          && (if h.dropped then Accepting(u.state) else Holding(staging[u.stagingKey], h)))
    && (u.state == Finalizing ==>
          ((u.stagingKey in staging) <==> (u.finalKey !in objects)) &&
          Settled(cfg, u, h, if u.stagingKey in staging then staging[u.stagingKey]
                             else if u.finalKey in objects then objects[u.finalKey] else []))
  }

  predicate Settled(cfg: Config, u: Upload, h: History, bytes: Bytes) {
    Holding(bytes, h) && u.sha == Some(cfg.sha(bytes))
  }

  predicate UploadAt(cfg: Config, s: Sys, id: Id) {
    id in s.t.uploads && id in s.hist && UploadOk(cfg, s.t.uploads[id], s.hist[id], s.staging, s.objects)
  }

  ghost predicate UploadsOk(cfg: Config, s: Sys) {
    s.t.uploads.Keys == s.hist.Keys && forall id {:trigger UploadAt(cfg, s, id)} | id in s.t.uploads ::
      UploadAt(cfg, s, id)
  }

  ghost predicate DistinctKeys(us: Uploads) {
    forall i, j {:trigger Apart(us, i, j)} | i in us && j in us && i != j :: Apart(us, i, j)
  }

  predicate Apart(us: Uploads, i: Id, j: Id)
    requires i in us && j in us
  {
    us[i].stagingKey != us[j].stagingKey && us[i].finalKey != us[j].finalKey
  }

  /** The committed file `f` belongs to the completed upload `id`, and its object is on disk. */
  predicate FileOf(cfg: Config, s: Sys, f: FileObject, id: Id) {
    && id in s.t.uploads && id in s.hist && s.t.uploads[id].finalKey == f.storageKey
    && s.t.uploads[id].state == Complete && s.hist[id].commits == 1
    && f.size == s.t.uploads[id].expected == |s.hist[id].accepted|
    && f.storageKey in s.objects
    && f.sha == cfg.sha(s.objects[f.storageKey]) && Holding(s.objects[f.storageKey], s.hist[id])
  }

  ghost predicate FilesOk(cfg: Config, s: Sys) {
    forall n {:trigger FileOk(cfg, s, n)} | n in s.t.files :: FileOk(cfg, s, n)
  }

  ghost predicate FileOk(cfg: Config, s: Sys, n: Id)
    requires n in s.t.files
  {
    exists id :: FileOf(cfg, s, s.t.files[n], id)
  }

  /** A key whose removal is owed names no committed file, and its upload is over. */
  ghost predicate DoomedOk(s: Sys) {
    forall k | k in s.doomed :: !KeyStored(s.t.files, k) && Spent(s.t.uploads, k)
  }

  ghost predicate Spent(us: Uploads, k: Key) {
    forall id {:trigger us[id]} | id in us && us[id].finalKey == k :: us[id].state == Complete
  }

  /** Removing this staging file can hurt no upload. */
  ghost predicate Disposable(us: Uploads, sk: Key) {
    forall id {:trigger us[id]} | id in us && us[id].stagingKey == sk :: !Active(us[id].state)
  }

  ghost predicate AllIn(us: Uploads, todo: seq<Id>, states: set<UploadState>) {
    NoDup(todo) && forall i | 0 <= i < |todo| :: todo[i] in us && us[todo[i]].state in states
  }

  ghost predicate RoomFor(cfg: Config, t: Tables, size: nat) {
    StoredBytes(t) + ReservedBytes(t) + size <= cfg.maxStorage
  }

  ghost predicate PcOk(cfg: Config, s: Sys) {
    match s.pc
    case Idle => true
    case Admitting(req) => req.parent in s.seen && req.size <= cfg.maxFile
    case Weighing(req, stored) =>
      && req.parent in s.seen && req.size <= cfg.maxFile
      && (s.blind || (StoredBytes(s.t) <= stored && stored + ReservedBytes(s.t) <= cfg.maxStorage))
    case Admitted(req) => req.parent in s.seen && (s.blind || RoomFor(cfg, s.t, req.size))
    case Staged(req, sk, fk) =>
      && req.parent in s.seen && (s.blind || RoomFor(cfg, s.t, req.size))
      && sk in s.staging && s.staging[sk] == [] && fk !in s.objects && fk !in s.doomed
      && sk in s.used && fk in s.used && HexKey(sk) && HexKey(fk)
      && forall id {:trigger s.t.uploads[id]} | id in s.t.uploads ::
        s.t.uploads[id].stagingKey != sk && s.t.uploads[id].finalKey != fk
    case Unstaging(sk) => Disposable(s.t.uploads, sk)
    case Appended(id, chunk) =>
      && id in s.t.uploads && id in s.hist && Accepting(s.t.uploads[id].state) && |chunk| <= s.hist[id].stray
      && s.t.uploads[id].stagingKey in s.staging
      && (s.hist[id].stray == |chunk| ==> s.staging[s.t.uploads[id].stagingKey] == s.hist[id].accepted + chunk)
    case Verified(id) => id in s.t.uploads && s.t.uploads[id].state == Verifying
    case Intent(id) => id in s.t.uploads && s.t.uploads[id].state == Finalizing
      && s.t.uploads[id].stagingKey in s.staging
    case Renamed(id) => id in s.t.uploads && s.t.uploads[id].state == Finalizing
      && s.t.uploads[id].finalKey in s.objects
    case Expiring(todo, now) => AllIn(s.t.uploads, todo, {Created, Receiving})
    case ExpiredRow(sk, todo, now) => AllIn(s.t.uploads, todo, {Created, Receiving}) && Disposable(s.t.uploads, sk)
    case Resolving(todo) => AllIn(s.t.uploads, todo, {Finalizing})
    case Moved(id, todo) =>
      && id in s.t.uploads && s.t.uploads[id].state == Finalizing && s.t.uploads[id].finalKey in s.objects
      && AllIn(s.t.uploads, todo, {Finalizing}) && id !in todo
    case Leftover(sk, todo) => AllIn(s.t.uploads, todo, {Finalizing}) && Disposable(s.t.uploads, sk)
  }

  predicate KeysDrawn(used: set<string>, u: Upload) {
    u.stagingKey in used && u.finalKey in used && HexKey(u.stagingKey) && HexKey(u.finalKey)
  }

  /** Every identifier in the system was drawn from the random source at some time. */
  ghost predicate UsedOk(s: Sys) {
    && "" in s.used && s.t.nodes.Keys <= s.used && s.t.uploads.Keys <= s.used && s.seen <= s.used && s.doomed <= s.used
    && s.staging.Keys <= s.used && s.objects.Keys <= s.used && s.t.shares.Keys <= s.used
    && (forall id {:trigger s.t.uploads[id]} | id in s.t.uploads :: KeysDrawn(s.used, s.t.uploads[id]))
    && (forall h {:trigger s.t.shares[h]} | h in s.t.shares :: s.t.shares[h].tokenHash in s.used)
    && (forall p | p in s.seen && p in s.t.nodes :: s.t.nodes[p].kind == Folder)
  }

  ghost predicate WithinQuota(cfg: Config, t: Tables) {
    StoredBytes(t) + ReservedBytes(t) <= cfg.maxStorage
  }

  ghost predicate Inv(cfg: Config, s: Sys) {
    && TablesInv(s.t) && UsedOk(s)
    && DistinctKeys(s.t.uploads) && UploadsOk(cfg, s) && FilesOk(cfg, s) && DoomedOk(s)
    && (s.blind || WithinQuota(cfg, s.t)) && PcOk(cfg, s)
  }

  lemma InitialInv(cfg: Config)
    requires Sane(cfg)
    ensures Inv(cfg, INITIAL_SYS)
  {
    InitialTree();
    assert UploadParents(INITIAL.uploads) == {};
    assert Sizes(INITIAL.files) == map[] && Holds(INITIAL.uploads) == map[];
  }

  // ---------------------------------------------------------------- frames

  predicate SameAt<V(==)>(m: map<Key, V>, m2: map<Key, V>, k: Key) {
    ((k in m) <==> (k in m2)) && (k in m && k in m2 ==> m[k] == m2[k])
  }

  /** Committed files stay good while their uploads, histories and objects do. */
  lemma FilesCarry(cfg: Config, s: Sys, s2: Sys)
    requires FilesOk(cfg, s)
    requires forall n {:trigger s2.t.files[n]} | n in s2.t.files ::
      n in s.t.files && s2.t.files[n] == s.t.files[n] && SameAt(s.objects, s2.objects, s.t.files[n].storageKey)
    requires forall id {:trigger s.t.uploads[id]} | id in s.t.uploads && id in s.hist
      && s.t.uploads[id].state == Complete ::
      id in s2.t.uploads && s2.t.uploads[id] == s.t.uploads[id] && id in s2.hist && s2.hist[id] == s.hist[id]
    ensures FilesOk(cfg, s2)
  {
    forall n | n in s2.t.files ensures FileOk(cfg, s2, n) {
      assert FileOk(cfg, s, n);
      var id :| FileOf(cfg, s, s.t.files[n], id);
      assert s.t.uploads[id] == s2.t.uploads[id];
      assert FileOf(cfg, s2, s2.t.files[n], id);
    }
  }

  /** The final key of an upload that is not complete names no committed file. */
  lemma UnfinishedKey(cfg: Config, s: Sys, id: Id)
    requires FilesOk(cfg, s) && DistinctKeys(s.t.uploads) && id in s.t.uploads && s.t.uploads[id].state != Complete
    ensures !KeyStored(s.t.files, s.t.uploads[id].finalKey)
  {
    forall n | n in s.t.files ensures s.t.files[n].storageKey != s.t.uploads[id].finalKey {
      assert FileOk(cfg, s, n);
      var j :| FileOf(cfg, s, s.t.files[n], j);
      assert j != id;
      assert Apart(s.t.uploads, j, id);
    }
  }

  lemma SameParents(us: Uploads, id: Id, u: Upload)
    requires id in us && u.parent == us[id].parent
    ensures UploadParents(us[id := u]) == UploadParents(us)
  {
    var us2 := us[id := u];
    forall p ensures p in UploadParents(us2) <==> p in UploadParents(us) {
      if p in UploadParents(us) {
        var j :| j in us && us[j].parent == p;
        assert j in us2 && us2[j].parent == p;
      }
    }
  }

  lemma SameRefs(t: Tables, id: Id, u: Upload)
    requires TablesInv(t) && id in t.uploads && u.parent == t.uploads[id].parent
    ensures TablesInv(t.(uploads := t.uploads[id := u]))
  {
    SameParents(t.uploads, id, u);
  }

  lemma HoldsPut(us: Uploads, id: Id, u: Upload)
    ensures Sum(Holds(us[id := u])) ==
            Sum(Holds(us)) - (if id in us && Active(us[id].state) then us[id].reservation else 0)
            + (if Active(u.state) then u.reservation else 0)
  {
    SumPut(Holds(us), id, if Active(u.state) then u.reservation else 0);
    assert Holds(us[id := u]) == Holds(us)[id := if Active(u.state) then u.reservation else 0];
  }

  /** `s2` differs from `s` in one unfinished upload row, its history and its own two files. */
  predicate OneRow(s: Sys, s2: Sys, id: Id, u: Upload, h: History) {
    && id in s.t.uploads && id in s.hist
    && s2.t == s.t.(uploads := s.t.uploads[id := u]) && s2.hist == s.hist[id := h]
    && s2.used == s.used && s2.seen == s.seen && s2.doomed == s.doomed && s2.blind == s.blind
    && s2.staging - {u.stagingKey} == s.staging - {u.stagingKey}
    && s2.objects - {u.finalKey} == s.objects - {u.finalKey}
    && u.stagingKey == s.t.uploads[id].stagingKey && u.finalKey == s.t.uploads[id].finalKey
    && u.parent == s.t.uploads[id].parent
  }

  lemma SameElsewhere<V>(m: map<Key, V>, m2: map<Key, V>, k: Key, j: Key)
    requires m2 - {k} == m - {k} && j != k
    ensures SameAt(m, m2, j)
  {
    assert j in m <==> j in m - {k};
    assert j in m2 <==> j in m2 - {k};
  }

  lemma OtherUploadsOk(cfg: Config, s: Sys, s2: Sys, id: Id, u: Upload, h: History)
    requires UploadsOk(cfg, s) && DistinctKeys(s.t.uploads) && OneRow(s, s2, id, u, h)
    requires UploadOk(cfg, u, h, s2.staging, s2.objects)
    ensures UploadsOk(cfg, s2) && DistinctKeys(s2.t.uploads)
  {
    forall j | j in s2.t.uploads ensures UploadAt(cfg, s2, j) {
      assert UploadAt(cfg, s, j);
      if j != id {
        var v := s.t.uploads[j];
        assert Apart(s.t.uploads, id, j);
        SameElsewhere(s.staging, s2.staging, u.stagingKey, v.stagingKey);
        SameElsewhere(s.objects, s2.objects, u.finalKey, v.finalKey);
      }
    }
    forall i, j | i in s2.t.uploads && j in s2.t.uploads && i != j ensures Apart(s2.t.uploads, i, j) {
      assert Apart(s.t.uploads, i, j);
    }
  }

  lemma OneRowFiles(cfg: Config, s: Sys, s2: Sys, id: Id, u: Upload, h: History)
    requires FilesOk(cfg, s) && DistinctKeys(s.t.uploads) && OneRow(s, s2, id, u, h)
      && s.t.uploads[id].state != Complete
    ensures FilesOk(cfg, s2)
  {
    UnfinishedKey(cfg, s, id);
    forall n | n in s2.t.files ensures SameAt(s.objects, s2.objects, s.t.files[n].storageKey) {
      SameElsewhere(s.objects, s2.objects, u.finalKey, s.t.files[n].storageKey);
    }
    FilesCarry(cfg, s, s2);
  }

  lemma OneRowDoomed(s: Sys, s2: Sys, id: Id, u: Upload, h: History)
    requires DoomedOk(s) && OneRow(s, s2, id, u, h) && s.t.uploads[id].state != Complete
    ensures DoomedOk(s2)
  {
    forall k | k in s2.doomed ensures !KeyStored(s2.t.files, k) && Spent(s2.t.uploads, k) {
      assert Spent(s.t.uploads, k) && s.t.uploads[id].finalKey != k;
      forall j | j in s2.t.uploads && s2.t.uploads[j].finalKey == k ensures s2.t.uploads[j].state == Complete {
        assert s.t.uploads[j] == s2.t.uploads[j];
      }
    }
  }

  lemma OneRowUsed(s: Sys, s2: Sys, id: Id, u: Upload, h: History)
    requires UsedOk(s) && OneRow(s, s2, id, u, h)
    requires s2.staging.Keys <= s2.used && s2.objects.Keys <= s2.used
    ensures UsedOk(s2)
  {
    forall j | j in s2.t.uploads ensures KeysDrawn(s2.used, s2.t.uploads[j]) {
      assert KeysDrawn(s.used, s.t.uploads[j]);
    }
  }

  /** Rewriting one unfinished upload keeps everything, provided its own bookkeeping is right again, it reserves no
      more than before, and `pc` is right. */
  lemma OneRowKeeps(cfg: Config, s: Sys, s2: Sys, id: Id, u: Upload, h: History)
    requires Inv(cfg, s) && OneRow(s, s2, id, u, h) && s.t.uploads[id].state != Complete && u.state != Complete
    requires UploadOk(cfg, u, h, s2.staging, s2.objects) && PcOk(cfg, s2)
    requires u.expected == s.t.uploads[id].expected && (Active(u.state) ==> Active(s.t.uploads[id].state))
    requires s2.staging.Keys <= s2.used && s2.objects.Keys <= s2.used
    ensures Inv(cfg, s2)
  {
    SameRefs(s.t, id, u);
    OtherUploadsOk(cfg, s, s2, id, u, h);
    OneRowFiles(cfg, s, s2, id, u, h);
    OneRowDoomed(s, s2, id, u, h);
    OneRowUsed(s, s2, id, u, h);
    HoldsPut(s.t.uploads, id, u);
    assert UploadAt(cfg, s, id);
  }

  /** Deleting a staging file that no active upload needs. */
  lemma UnstageKeeps(cfg: Config, s: Sys, s2: Sys, sk: Key)
    requires Inv(cfg, s) && Disposable(s.t.uploads, sk)
    requires s2 == s.(staging := s.staging - {sk}, pc := s2.pc) && PcOk(cfg, s2)
    ensures Inv(cfg, s2)
  {
    hide TablesInv, DistinctKeys, FileOk, WithinQuota, HexKey;
    forall j | j in s2.t.uploads ensures UploadAt(cfg, s2, j) {
      assert UploadAt(cfg, s, j);
    }
    FilesCarry(cfg, s, s2);
  }

  /** Moving on without a durable write. */
  lemma PcKeeps(cfg: Config, s: Sys, s2: Sys)
    requires Inv(cfg, s) && s2 == s.(pc := s2.pc, left := s2.left) && PcOk(cfg, s2)
    ensures Inv(cfg, s2)
  {
    FilesCarry(cfg, s, s2);
    forall j | j in s2.t.uploads ensures UploadAt(cfg, s2, j) {
      assert UploadAt(cfg, s, j);
    }
  }
}
