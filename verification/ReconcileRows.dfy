/** What the two passes of a reconciliation have done, row by row, once they have dealt with some of their rows. */
module ReconcileRows {
  import opened Basics
  import opened Schema
  import opened Purge
  import opened Machine
  import opened Invariant
  import TreeEdits

  /** The calls of an operation that may meet an error. */
  datatype Call =
    | Lookup | ConflictQuery | StoredSum | ReservedSum | CreateFile | InsertRow | RemoveFile
    | OpenFile | ReadBody | UpdateRow | Checksum | IntentUpdate | Rename | MetadataTx | ReadBack

  /** What an expiry pass has done once it has dealt with the rows in `done`. */
  ghost predicate ExpiredSoFar(us0: Uploads, st0: map<Key, Bytes>, us: Uploads, st: map<Key, Bytes>, done: set<Id>,
                               fails: set<(Id, Call)>)
  {
    && us.Keys == us0.Keys
    && (forall id | id in us0 :: us[id] == if id in done && (id, UpdateRow) !in fails
                                           then us0[id].(state := Expired, reservation := 0) else us0[id])
    && (forall k :: k in st <==>
          k in st0 && forall id | id in us0 && us0[id].stagingKey == k :: id in done ==> (id, RemoveFile) in fails)
    && (forall k | k in st :: st[k] == st0[k])
  }

  lemma ExpireNone(us: Uploads, st: map<Key, Bytes>, fails: set<(Id, Call)>)
    ensures ExpiredSoFar(us, st, us, st, {}, fails)
  {
  }

  lemma ExpireMore(us0: Uploads, st0: map<Key, Bytes>, us: Uploads, st: map<Key, Bytes>, done: set<Id>, id: Id,
                   us2: Uploads, st2: map<Key, Bytes>, fails: set<(Id, Call)>)
    requires ExpiredSoFar(us0, st0, us, st, done, fails) && DistinctKeys(us0) && id !in done && id in us
    requires us2 == if (id, UpdateRow) in fails then us else us[id := us[id].(state := Expired, reservation := 0)]
    requires st2 == if (id, RemoveFile) in fails then st else st - {us[id].stagingKey}
    ensures ExpiredSoFar(us0, st0, us2, st2, done + {id}, fails)
  {
    assert us[id] == us0[id];
    forall k ensures k in st2 <==> k in st0 && forall j | j in us0 && us0[j].stagingKey == k ::
      j in done + {id} ==> (j, RemoveFile) in fails {
      assert us0[id].stagingKey == k || forall j | j in us0 && us0[j].stagingKey == k :: j != id;
    }
  }

  lemma HeadFresh(s: seq<Id>, i: nat)
    requires i < |s| && NoDup(s)
    ensures s[i] !in Elems(s[..i]) && Elems(s[..i + 1]) == Elems(s[..i]) + {s[i]}
  {
    assert s[..i + 1] == s[..i] + [s[i]];
  }

  /** How one interrupted finalisation is resolved if exactly one of its two files is there and no file row is. */
  ghost predicate ResolvedRow(t: Tables, st: map<Key, Bytes>, ob: map<Key, Bytes>, id: Id, node: Id, t2: Tables,
                              st2: map<Key, Bytes>, ob2: map<Key, Bytes>, fails: set<(Id, Call)>)
    requires id in t.uploads
  {
    var u := t.uploads[id];
    var t3 := if (id, MetadataTx) in fails then t else RepairFile(t, id, node);
    !KeyStored(t.files, u.finalKey) ==>
      && (u.finalKey in ob && u.stagingKey !in st ==> t2 == t3 && st2 == st && ob2 == ob)
      && (u.finalKey !in ob && u.stagingKey in st ==>
            if (id, Rename) in fails then t2 == t && st2 == st && ob2 == ob
            else t2 == t3 && st2 == st - {u.stagingKey} && ob2 == ob[u.finalKey := st[u.stagingKey]])
  }

  /** Whether the calls for an interrupted row let it be completed. */
  predicate Completes(t: Tables, ob: map<Key, Bytes>, id: Id, fails: set<(Id, Call)>)
    requires id in t.uploads
  {
    (id, MetadataTx) !in fails && (t.uploads[id].finalKey in ob || (id, Rename) !in fails)
  }

  predicate Taken(ns: Nodes, u: Upload) {
    exists y | y in ns :: !ns[y].trashed && ns[y].parent == Some(u.parent) && ns[y].name.key == u.name.key
  }

  /** The file row and the node of a completed upload. */
  predicate FileFor(t: Tables, x: Id, u: Upload) {
    && x in t.files && x in t.nodes && u.sha.Some?
    && t.files[x] == FileObject(u.finalKey, u.expected, u.sha.value)
    && t.nodes[x] == Node(Some(u.parent), File, u.name, false, None, false)
  }

  /** What the second pass has done once it has dealt with the rows in `done`. */
  ghost predicate ResolvedSoFar(t0: Tables, st0: map<Key, Bytes>, ob0: map<Key, Bytes>, t: Tables, st: map<Key, Bytes>,
                                ob: map<Key, Bytes>, done: set<Id>, fails: set<(Id, Call)>)
  {
    && t.shares == t0.shares && t.uploads.Keys == t0.uploads.Keys
    && (forall id | id in t0.uploads :: t.uploads[id] == if id in done && Completes(t0, ob0, id, fails)
          then t0.uploads[id].(state := Complete, reservation := 0) else t0.uploads[id])
    && BytesSoFar(t0.uploads, st0, ob0, st, ob, done, fails) && FilesSoFar(t0, ob0, t, done, fails)
  }

  /** A staging file that no successful rename has taken. */
  predicate StagedStill(us: Uploads, st0: map<Key, Bytes>, done: set<Id>, fails: set<(Id, Call)>, k: Key) {
    k in st0 && forall id | id in us && us[id].stagingKey == k :: id in done ==> (id, Rename) in fails
  }

  predicate Renamed(us: Uploads, done: set<Id>, fails: set<(Id, Call)>, k: Key) {
    exists id | id in us :: id in done && us[id].finalKey == k && (id, Rename) !in fails
  }

  ghost predicate BytesSoFar(us: Uploads, st0: map<Key, Bytes>, ob0: map<Key, Bytes>, st: map<Key, Bytes>,
                             ob: map<Key, Bytes>, done: set<Id>, fails: set<(Id, Call)>)
  {
    && (forall k :: k in st <==> StagedStill(us, st0, done, fails, k))
    && (forall k | k in st :: st[k] == st0[k])
    && (forall k :: k in ob <==> k in ob0 || Renamed(us, done, fails, k))
    && (forall k | k in ob0 :: ob[k] == ob0[k])
    && (forall id | id in done && id in us :: us[id].finalKey !in ob0 && (id, Rename) !in fails ==>
          us[id].finalKey in ob && us[id].stagingKey in st0 && ob[us[id].finalKey] == st0[us[id].stagingKey])
  }

  ghost predicate FilesSoFar(t0: Tables, ob0: map<Key, Bytes>, t: Tables, done: set<Id>, fails: set<(Id, Call)>) {
    && (forall x | x in t0.nodes :: x in t.nodes && t.nodes[x] == t0.nodes[x])
    && (forall x | x in t0.files :: x in t.files && t.files[x] == t0.files[x])
    && t.nodes.Keys - t0.nodes.Keys == t.files.Keys - t0.files.Keys
    && (forall x | x in t.files && x !in t0.files :: FileGained(t0, ob0, t, x, done, fails))
    && (forall id | id in done && id in t0.uploads && Completes(t0, ob0, id, fails) ::
          KeyStored(t.files, t0.uploads[id].finalKey) || Taken(t.nodes, t0.uploads[id]))
  }

  /** The file `x` is that of a completed upload whose name was free. */
  predicate FileGained(t0: Tables, ob0: map<Key, Bytes>, t: Tables, x: Id, done: set<Id>, fails: set<(Id, Call)>) {
    exists id | id in t0.uploads :: id in done && Completes(t0, ob0, id, fails) && FileFor(t, x, t0.uploads[id])
      && !Taken(t0.nodes, t0.uploads[id])
  }

  lemma ResolveNone(t: Tables, st: map<Key, Bytes>, ob: map<Key, Bytes>, fails: set<(Id, Call)>)
    ensures ResolvedSoFar(t, st, ob, t, st, ob, {}, fails)
  {
  }

  /** The repair transaction in full. */
  lemma RepairMeans(t: Tables, id: Id, node: Id)
    requires id in t.uploads && node !in t.nodes && node !in t.files && t.uploads[id].parent in t.nodes
    requires !KeyStored(t.files, t.uploads[id].finalKey) && t.uploads[id].sha.Some?
    ensures var u := t.uploads[id]; var us := t.uploads[id := u.(state := Complete, reservation := 0)];
      RepairFile(t, id, node) ==
        if Taken(t.nodes, u) then Tables(t.nodes, t.files, us, t.shares)
        else Tables(t.nodes[node := Node(Some(u.parent), File, u.name, false, None, false)],
                    t.files[node := FileObject(u.finalKey, u.expected, u.sha.value)], us, t.shares)
  {
    TreeEdits.FitsIff(t.nodes, node, FileRow(t.uploads[id]), t.uploads[id].parent);
  }

  /** The two cases in one: what one resolution makes of rows, files and bytes. */
  lemma ResolvedTo(t: Tables, st: map<Key, Bytes>, ob: map<Key, Bytes>, id: Id, node: Id, t2: Tables,
                   st2: map<Key, Bytes>, ob2: map<Key, Bytes>, fails: set<(Id, Call)>)
    requires id in t.uploads && node !in t.nodes && node !in t.files
    requires t.uploads[id].parent in t.nodes && t.uploads[id].sha.Some? && !KeyStored(t.files, t.uploads[id].finalKey)
    requires t.uploads[id].finalKey in ob <==> t.uploads[id].stagingKey !in st
    requires ResolvedRow(t, st, ob, id, node, t2, st2, ob2, fails)
    ensures var u := t.uploads[id]; var full := Completes(t, ob, id, fails);
      && (if u.finalKey in ob || (id, Rename) in fails then st2 == st && ob2 == ob
          else st2 == st - {u.stagingKey} && ob2 == ob[u.finalKey := st[u.stagingKey]])
      && t2.shares == t.shares
      && t2.uploads == (if full then t.uploads[id := u.(state := Complete, reservation := 0)] else t.uploads)
      && (if full && !Taken(t.nodes, u)
          then && t2.nodes == t.nodes[node := Node(Some(u.parent), File, u.name, false, None, false)]
               && t2.files == t.files[node := FileObject(u.finalKey, u.expected, u.sha.value)]
          else t2.nodes == t.nodes && t2.files == t.files)
  {
    hide RepairFile, KeyStored, Taken;
    RepairMeans(t, id, node);
  }

  /** One more row: its own two keys and its own file, and nothing else. */
  lemma ResolveMore(t0: Tables, st0: map<Key, Bytes>, ob0: map<Key, Bytes>, t: Tables, st: map<Key, Bytes>,
                    ob: map<Key, Bytes>, done: set<Id>, id: Id, node: Id, t2: Tables, st2: map<Key, Bytes>,
                    ob2: map<Key, Bytes>, fails: set<(Id, Call)>)
    requires ResolvedSoFar(t0, st0, ob0, t, st, ob, done, fails) && DistinctKeys(t0.uploads)
    requires id in t0.uploads && id !in done && id in t.uploads && node !in t.nodes && node !in t.files
    requires t.uploads[id].parent in t.nodes && t.uploads[id].sha.Some? && !KeyStored(t.files, t.uploads[id].finalKey)
    requires t.uploads[id].finalKey in ob <==> t.uploads[id].stagingKey !in st
    requires ResolvedRow(t, st, ob, id, node, t2, st2, ob2, fails)
    ensures ResolvedSoFar(t0, st0, ob0, t2, st2, ob2, done + {id}, fails)
  {
    hide FilesSoFar, KeyStored, BytesSoFar, Taken, DistinctKeys, ResolvedRow;
    var u := t0.uploads[id];
    ResolvedTo(t, st, ob, id, node, t2, st2, ob2, fails);
    OwnKeys(t0.uploads, st0, ob0, st, ob, done, id, fails);
    MoreBytes(t0.uploads, st0, ob0, st, ob, done, id, st2, ob2, fails);
    if Completes(t0, ob0, id, fails) && !Taken(t.nodes, u) {
      NewFile(t0, ob0, t, done, id, node, t2, fails);
    } else {
      SameFiles(t0, ob0, t, done, id, t2, fails);
    }
  }

  /** The rows dealt with so far have not touched the keys of another. */
  lemma OwnKeys(us: Uploads, st0: map<Key, Bytes>, ob0: map<Key, Bytes>, st: map<Key, Bytes>, ob: map<Key, Bytes>,
                done: set<Id>, id: Id, fails: set<(Id, Call)>)
    requires BytesSoFar(us, st0, ob0, st, ob, done, fails) && DistinctKeys(us) && id in us && id !in done
    ensures us[id].finalKey in ob <==> us[id].finalKey in ob0
    ensures us[id].stagingKey in st <==> us[id].stagingKey in st0
  {
    forall j | j in us && j != id
      ensures us[j].stagingKey != us[id].stagingKey && us[j].finalKey != us[id].finalKey { assert Apart(us, j, id); }
  }

  lemma MoreBytes(us: Uploads, st0: map<Key, Bytes>, ob0: map<Key, Bytes>, st: map<Key, Bytes>, ob: map<Key, Bytes>,
                  done: set<Id>, id: Id, st2: map<Key, Bytes>, ob2: map<Key, Bytes>, fails: set<(Id, Call)>)
    requires BytesSoFar(us, st0, ob0, st, ob, done, fails) && DistinctKeys(us) && id in us && id !in done
    requires var u := us[id];
      if u.finalKey in ob || (id, Rename) in fails
      then st2 == st && ob2 == ob && (u.finalKey in ob ==> u.stagingKey !in st)
      else u.stagingKey in st && st2 == st - {u.stagingKey} && ob2 == ob[u.finalKey := st[u.stagingKey]]
    ensures BytesSoFar(us, st0, ob0, st2, ob2, done + {id}, fails)
  {
    var u := us[id];
    OwnKeys(us, st0, ob0, st, ob, done, id, fails);
    forall j | j in us && j != id ensures us[j].stagingKey != u.stagingKey && us[j].finalKey != u.finalKey {
      assert Apart(us, j, id);
    }
    forall k ensures k in st2 <==> StagedStill(us, st0, done + {id}, fails, k) {
      assert k in st <==> StagedStill(us, st0, done, fails, k);
      if k == u.stagingKey { assert us[id].stagingKey == k; }
    }
    forall k ensures k in ob2 <==> k in ob0 || Renamed(us, done + {id}, fails, k) {
      assert k in ob <==> k in ob0 || Renamed(us, done, fails, k);
      if k == u.finalKey { assert us[id].finalKey == k; }
    }
  }

  lemma SameFiles(t0: Tables, ob0: map<Key, Bytes>, t: Tables, done: set<Id>, id: Id, t2: Tables,
                  fails: set<(Id, Call)>)
    requires FilesSoFar(t0, ob0, t, done, fails) && id in t0.uploads && t2.nodes == t.nodes && t2.files == t.files
    requires Completes(t0, ob0, id, fails) ==> Taken(t.nodes, t0.uploads[id])
    ensures FilesSoFar(t0, ob0, t2, done + {id}, fails)
  {
    hide Completes, Taken, KeyStored, FileGained;
    forall x | x in t2.files && x !in t0.files ensures FileGained(t0, ob0, t2, x, done + {id}, fails) {
      GainedStill(t0, ob0, t, t2, x, done, id, fails);
    }
  }

  lemma NewFile(t0: Tables, ob0: map<Key, Bytes>, t: Tables, done: set<Id>, id: Id, node: Id, t2: Tables,
                fails: set<(Id, Call)>)
    requires FilesSoFar(t0, ob0, t, done, fails) && id in t0.uploads && node !in t.nodes && node !in t.files
    requires t0.uploads[id].sha.Some? && Completes(t0, ob0, id, fails) && !Taken(t.nodes, t0.uploads[id])
    requires var u := t0.uploads[id];
      && t2.nodes == t.nodes[node := Node(Some(u.parent), File, u.name, false, None, false)]
      && t2.files == t.files[node := FileObject(u.finalKey, u.expected, u.sha.value)]
    ensures FilesSoFar(t0, ob0, t2, done + {id}, fails)
  {
    hide Completes, Taken, KeyStored, FileGained;
    var u := t0.uploads[id];
    NotTakenBefore(t0, t, u);
    forall x | x in t2.files && x !in t0.files ensures FileGained(t0, ob0, t2, x, done + {id}, fails) {
      if x == node {
        GainedBy(t0, ob0, t2, x, done, id, fails);
      } else {
        GainedStill(t0, ob0, t, t2, x, done, id, fails);
      }
    }
    forall j | j in done + {id} && j in t0.uploads && Completes(t0, ob0, j, fails)
      ensures KeyStored(t2.files, t0.uploads[j].finalKey) || Taken(t2.nodes, t0.uploads[j]) {
      if j == id { StoredNow(t2.files, node); } else { StillThere(t, t2, t0.uploads[j]); }
    }
    assert t2.nodes.Keys - t0.nodes.Keys == t2.files.Keys - t0.files.Keys by {
      NewKeys(t0.nodes.Keys, t.nodes.Keys, t0.files.Keys, t.files.Keys, node);
      assert t2.nodes.Keys == t.nodes.Keys + {node} && t2.files.Keys == t.files.Keys + {node};
    }
  }

  lemma NewKeys(ns0: set<Id>, ns: set<Id>, fs0: set<Id>, fs: set<Id>, node: Id)
    requires ns0 <= ns && fs0 <= fs && ns - ns0 == fs - fs0 && node !in ns && node !in fs
    ensures (ns + {node}) - ns0 == (fs + {node}) - fs0
  {
    assert (ns + {node}) - ns0 == (ns - ns0) + {node};
    assert (fs + {node}) - fs0 == (fs - fs0) + {node};
  }

  lemma GainedBy(t0: Tables, ob0: map<Key, Bytes>, t2: Tables, x: Id, done: set<Id>, id: Id, fails: set<(Id, Call)>)
    requires id in t0.uploads && Completes(t0, ob0, id, fails) && FileFor(t2, x, t0.uploads[id])
    requires !Taken(t0.nodes, t0.uploads[id])
    ensures FileGained(t0, ob0, t2, x, done + {id}, fails)
  {
  }

  lemma GainedStill(t0: Tables, ob0: map<Key, Bytes>, t: Tables, t2: Tables, x: Id, done: set<Id>, id: Id,
                    fails: set<(Id, Call)>)
    requires FileGained(t0, ob0, t, x, done, fails)
    requires x in t.nodes ==> x in t2.nodes && t2.nodes[x] == t.nodes[x]
    requires x in t.files ==> x in t2.files && t2.files[x] == t.files[x]
    ensures FileGained(t0, ob0, t2, x, done + {id}, fails)
  {
    hide Completes, Taken;
    var j :| j in t0.uploads && j in done && Completes(t0, ob0, j, fails) && FileFor(t, x, t0.uploads[j])
      && !Taken(t0.nodes, t0.uploads[j]);
    assert FileFor(t2, x, t0.uploads[j]);
  }

  lemma StoredNow(fs: FileObjects, x: Id)
    requires x in fs
    ensures KeyStored(fs, fs[x].storageKey)
  {
  }

  lemma NotTakenBefore(t0: Tables, t: Tables, u: Upload)
    requires (forall x | x in t0.nodes :: x in t.nodes && t.nodes[x] == t0.nodes[x]) && !Taken(t.nodes, u)
    ensures !Taken(t0.nodes, u)
  {
  }

  lemma StillThere(t: Tables, t2: Tables, u: Upload)
    requires KeyStored(t.files, u.finalKey) || Taken(t.nodes, u)
    requires forall x | x in t.nodes :: x in t2.nodes && t2.nodes[x] == t.nodes[x]
    requires forall x | x in t.files :: x in t2.files && t2.files[x] == t.files[x]
    ensures KeyStored(t2.files, u.finalKey) || Taken(t2.nodes, u)
  {
    if x :| x in t.files && t.files[x].storageKey == u.finalKey {
      assert t2.files[x].storageKey == u.finalKey;
    } else {
      var y :| y in t.nodes && !t.nodes[y].trashed && t.nodes[y].parent == Some(u.parent)
        && t.nodes[y].name.key == u.name.key;
      assert t2.nodes[y] == t.nodes[y];
    }
  }

  // ---------------------------------------------------------------- both passes

  /** Both passes, from the rows `us0` before the first. */
  ghost predicate BothPasses(t0: Tables, st0: map<Key, Bytes>, ob0: map<Key, Bytes>, t1: Tables, st1: map<Key, Bytes>,
                             t: Tables, st: map<Key, Bytes>, ob: map<Key, Bytes>, now: int, fails: set<(Id, Call)>)
  {
    && t1.nodes == t0.nodes && t1.files == t0.files && t1.shares == t0.shares
    && ExpiredSoFar(t0.uploads, st0, t1.uploads, st1, ExpiredIds(t0.uploads, now), fails)
    && ResolvedSoFar(t1, st1, ob0, t, st, ob, FinalizingIds(t1.uploads), fails)
  }

  lemma NothingElse(t0: Tables, st0: map<Key, Bytes>, ob0: map<Key, Bytes>, t1: Tables, st1: map<Key, Bytes>, t: Tables,
                    st: map<Key, Bytes>, ob: map<Key, Bytes>, now: int, fails: set<(Id, Call)>)
    requires BothPasses(t0, st0, ob0, t1, st1, t, st, ob, now, fails)
    ensures t.shares == t0.shares && t.nodes.Keys - t0.nodes.Keys == t.files.Keys - t0.files.Keys
    ensures forall x | x in t0.nodes :: x in t.nodes && t.nodes[x] == t0.nodes[x]
    ensures forall x | x in t0.files :: x in t.files && t.files[x] == t0.files[x]
    ensures forall k | k in st :: k in st0 && st[k] == st0[k]
    ensures forall k | k in ob0 :: k in ob && ob[k] == ob0[k]
  {
  }

  lemma RowsEnd(t0: Tables, st0: map<Key, Bytes>, ob0: map<Key, Bytes>, t1: Tables, st1: map<Key, Bytes>, t: Tables,
                st: map<Key, Bytes>, ob: map<Key, Bytes>, now: int, fails: set<(Id, Call)>)
    requires BothPasses(t0, st0, ob0, t1, st1, t, st, ob, now, fails)
    ensures t.uploads.Keys == t0.uploads.Keys && forall id | id in t.uploads :: var u := t0.uploads[id];
      t.uploads[id] ==
        if u.state in {Created, Receiving} && u.expiresAt < now && (id, UpdateRow) !in fails
        then u.(state := Expired, reservation := 0)
        else if u.state == Finalizing && (id, MetadataTx) !in fails && (u.finalKey in ob0 || (id, Rename) !in fails)
        then u.(state := Complete, reservation := 0)
        else u
  {
    hide BytesSoFar, FilesSoFar;
  }

  lemma StagingEnd(t0: Tables, st0: map<Key, Bytes>, ob0: map<Key, Bytes>, t1: Tables, st1: map<Key, Bytes>, t: Tables,
                   st: map<Key, Bytes>, ob: map<Key, Bytes>, now: int, fails: set<(Id, Call)>)
    requires BothPasses(t0, st0, ob0, t1, st1, t, st, ob, now, fails)
    ensures forall k :: k in st <==>
      && k in st0
      && forall id | id in t0.uploads && t0.uploads[id].stagingKey == k :: var u := t0.uploads[id];
           && (u.state in {Created, Receiving} && u.expiresAt < now ==> (id, RemoveFile) in fails)
           && (u.state == Finalizing ==> (id, Rename) in fails)
  {
    hide FilesSoFar, Renamed;
    SameFinalizing(t0, st0, t1, st1, now, fails);
    forall k ensures k in st <==> StagedStill(t1.uploads, st1, FinalizingIds(t1.uploads), fails, k) {}
    forall id | id in t0.uploads ensures t1.uploads[id].stagingKey == t0.uploads[id].stagingKey {}
  }

  /** An expiry touches no row that is being finalised. */
  lemma SameFinalizing(t0: Tables, st0: map<Key, Bytes>, t1: Tables, st1: map<Key, Bytes>, now: int,
                       fails: set<(Id, Call)>)
    requires ExpiredSoFar(t0.uploads, st0, t1.uploads, st1, ExpiredIds(t0.uploads, now), fails)
    ensures FinalizingIds(t1.uploads) == FinalizingIds(t0.uploads)
    ensures forall id | id in FinalizingIds(t0.uploads) :: t1.uploads[id] == t0.uploads[id]
  {
  }

  lemma ObjectsEnd(t0: Tables, st0: map<Key, Bytes>, ob0: map<Key, Bytes>, t1: Tables, st1: map<Key, Bytes>, t: Tables,
                   st: map<Key, Bytes>, ob: map<Key, Bytes>, now: int, fails: set<(Id, Call)>)
    requires BothPasses(t0, st0, ob0, t1, st1, t, st, ob, now, fails)
    ensures forall k :: k in ob <==>
      || k in ob0
      || exists id | id in t0.uploads :: t0.uploads[id].state == Finalizing && t0.uploads[id].finalKey == k
           && (id, Rename) !in fails
    ensures forall id | id in t0.uploads && t0.uploads[id].state == Finalizing :: var u := t0.uploads[id];
      u.finalKey !in ob0 && (id, Rename) !in fails ==>
        u.finalKey in ob && u.stagingKey in st0 && ob[u.finalKey] == st0[u.stagingKey]
  {
    hide FilesSoFar, StagedStill;
    SameFinalizing(t0, st0, t1, st1, now, fails);
    forall k ensures k in ob <==> k in ob0 || Renamed(t1.uploads, FinalizingIds(t1.uploads), fails, k) {}
    forall id | id in t0.uploads && t0.uploads[id].state == Finalizing ensures id in FinalizingIds(t1.uploads) {}
  }

  lemma FilesEnd(t0: Tables, st0: map<Key, Bytes>, ob0: map<Key, Bytes>, t1: Tables, st1: map<Key, Bytes>, t: Tables,
                 st: map<Key, Bytes>, ob: map<Key, Bytes>, now: int, fails: set<(Id, Call)>)
    requires BothPasses(t0, st0, ob0, t1, st1, t, st, ob, now, fails)
    ensures forall x | x in t.files && x !in t0.files ::
      x in t.nodes && exists id | id in t0.uploads :: var u := t0.uploads[id];
        && u.state == Finalizing && t.uploads[id].state == Complete && u.sha.Some?
        && t.files[x] == FileObject(u.finalKey, u.expected, u.sha.value)
        && t.nodes[x] == Node(Some(u.parent), File, u.name, false, None, false)
        && forall y | y in t0.nodes && !t0.nodes[y].trashed && t0.nodes[y].parent == Some(u.parent) ::
             t0.nodes[y].name.key != u.name.key
    ensures forall id | id in t0.uploads && t0.uploads[id].state == Finalizing && t.uploads[id].state == Complete ::
      var u := t0.uploads[id];
      || (exists x | x in t.files :: t.files[x].storageKey == u.finalKey)
      || exists y | y in t.nodes :: !t.nodes[y].trashed && t.nodes[y].parent == Some(u.parent)
           && t.nodes[y].name.key == u.name.key
  {
    hide BytesSoFar;
    SameFinalizing(t0, st0, t1, st1, now, fails);
    forall x | x in t.files && x !in t0.files ensures FileGained(t1, ob0, t, x, FinalizingIds(t1.uploads), fails) {}
    forall id | id in t0.uploads && t0.uploads[id].state == Finalizing && t.uploads[id].state == Complete
      ensures KeyStored(t.files, t0.uploads[id].finalKey) || Taken(t.nodes, t0.uploads[id]) {
      assert id in FinalizingIds(t1.uploads) && Completes(t1, ob0, id, fails);
    }
  }
}
