/** The purge handler: first commit the deletion of the rows, then remove the objects one by one. */
module PurgeHandler {
  import opened Basics
  import opened Schema
  import opened Forest
  import opened Purge
  import opened Storage
  import FilesService

  class Api {
    const files: FilesService.Service
    const store: Store

    constructor (files: FilesService.Service, store: Store)
      ensures this.files == files && this.store == store
    {
      this.files, this.store := files, store;
    }

    /** On success exactly the objects of the purged files are gone, except those whose key is not read or whose removal
        fails, both of which go unnoticed; no file that remains loses its object. */
    method HandlePurgeNode(id: Id, order: seq<Id>, unread: set<Key>, fails: set<Key>)
      returns (r: Result<(), Error>, ghost keys: seq<Key>)
      requires files.db.Valid()
      requires id in files.db.nodes ==> Enumerates(order, Subtree(files.db.nodes, id))
      modifies files.db, store`objects
      ensures files.db.Valid()
      ensures match PurgeNode(old(files.db.Contents()), id, order)
        case Ok(t) => r == Ok(()) && files.db.Contents() == t
                      && Enumerates(keys, SubtreeKeys(old(files.db.Contents()), id))
                      && store.objects ==
                         old(store.objects) - Removable(SubtreeKeys(old(files.db.Contents()), id), unread + fails)
        case Err(e) => r == Err(e) && files.db.Contents() == old(files.db.Contents())
                       && store.objects == old(store.objects)
      ensures r.Ok? ==> forall k :: k in store.objects <==>
        && k in old(store.objects)
        && !(k !in unread && k !in fails && |k| >= 4 && '/' !in k && exists x | x in old(files.db.files) ::
               Within(old(files.db.nodes), id, x) && old(files.db.files)[x].storageKey == k)
      ensures forall k | k in store.objects :: k in old(store.objects) && store.objects[k] == old(store.objects)[k]
      ensures forall n | n in files.db.files && files.db.files[n].storageKey in old(store.objects) ::
        files.db.files[n].storageKey in store.objects
    {
      hide TablesInv, DeleteNodes, Subtree, SubtreeKeys, ObjectPath, Within, PurgeNode;
      var purged;
      purged, keys := files.PurgeNode(id, order, unread);
      if purged.Err? { r := Err(purged.error); return; }
      var storageKeys := purged.value;
      ghost var dead := SubtreeKeys(old(files.db.Contents()), id);
      for i := 0 to |storageKeys|
        modifies store`objects
        invariant store.objects == old(store.objects) - Removable(Elems(storageKeys[..i]), fails)
      {
        assert Elems(storageKeys[..i + 1]) == Elems(storageKeys[..i]) + {storageKeys[i]} by {
          assert storageKeys[..i + 1] == storageKeys[..i] + [storageKeys[i]];
        }
        PathsMean("", storageKeys[i]);
        var removed := store.RemoveObject(storageKeys[i], storageKeys[i] !in fails);
      }
      assert storageKeys[..|storageKeys|] == storageKeys;
      assert Elems(storageKeys) == dead - unread;
      assert Removable(dead - unread, fails) == Removable(dead, unread + fails);
      forall n | n in files.db.files ensures files.db.files[n].storageKey !in dead {
        KeyGone(old(files.db.Contents()), id, order, n);
      }
      ghost var t := old(files.db.Contents());
      forall k ensures k in Removable(dead, unread + fails) <==>
        && k !in unread && k !in fails && |k| >= 4 && '/' !in k
        && exists x | x in t.files :: Within(t.nodes, id, x) && t.files[x].storageKey == k
      {
        RemovableMeans(t, id, unread, fails, k);
      }
      r := Ok(());
    }
  }

  /** The keys whose removal goes through. */
  function Removable(keys: set<Key>, fails: set<Key>): set<Key> {
    set k | k in keys && k !in fails && ObjectPath("", k).Some?
  }

  lemma RemovableMeans(t: Tables, id: Id, unread: set<Key>, fails: set<Key>, k: Key)
    requires TablesInv(t)
    ensures k in Removable(SubtreeKeys(t, id), unread + fails) <==>
      && k !in unread && k !in fails && |k| >= 4 && '/' !in k
      && exists x | x in t.files :: Within(t.nodes, id, x) && t.files[x].storageKey == k
  {
    hide Within;
    if x :| x in t.files && Within(t.nodes, id, x) && t.files[x].storageKey == k { assert x in Subtree(t.nodes, id); }
  }

  lemma KeyGone(t: Tables, id: Id, order: seq<Id>, n: Id)
    requires TablesInv(t) && PurgeNode(t, id, order).Ok? && Enumerates(order, Subtree(t.nodes, id))
    requires n in PurgeNode(t, id, order).value.files
    ensures PurgeNode(t, id, order).value.files[n].storageKey !in SubtreeKeys(t, id)
  {
    PurgeKeysExact(t, id, order, PurgeNode(t, id, order).value.files[n].storageKey);
  }
}
