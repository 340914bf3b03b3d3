/** The disk half: path layout, and the staging and object areas as mutable maps keyed by opaque key. */
module Storage {
  import opened Basics
  import opened Schema

  /** filepath.Base(key) == key, for keys without a separator. */
  predicate PlainName(key: Key) {
    key != "" && '/' !in key
  }

  function StagingPath(stagingDir: string, key: Key): Option<string> {
    if |key| < 4 || !PlainName(key) then None else Some(stagingDir + "/" + key)
  }

  /** Objects are sharded by the first two characters of their key. */
  function ObjectPath(objectsDir: string, key: Key): Option<string> {
    if |key| < 4 || !PlainName(key) then None else Some(objectsDir + "/" + key[..2] + "/" + key)
  }

  /** Every generated key has a path, and distinct keys have distinct paths: the areas may be seen as maps. */
  lemma PathsInjective(dir: string, k1: Key, k2: Key)
    requires HexKey(k1) && HexKey(k2)
    ensures ObjectPath(dir, k1).Some? && StagingPath(dir, k1).Some?
    ensures ObjectPath(dir, k1) == ObjectPath(dir, k2) <==> k1 == k2
    ensures StagingPath(dir, k1) == StagingPath(dir, k2) <==> k1 == k2
  {
    Suffix(dir + "/", k1);
    Suffix(dir + "/", k2);
    Suffix(dir + "/" + k1[..2] + "/", k1);
    Suffix(dir + "/" + k2[..2] + "/", k2);
  }

  /** Which keys have paths, and where these lie: in the area's own directory, objects one level down. */
  lemma PathsMean(dir: string, key: Key)
    ensures StagingPath(dir, key).None? <==> |key| < 4 || '/' in key
    ensures ObjectPath(dir, key).None? <==> |key| < 4 || '/' in key
    ensures StagingPath(dir, key).Some? ==> StagingPath(dir, key).value == dir + "/" + key
    ensures ObjectPath(dir, key).Some? ==> ObjectPath(dir, key).value == dir + "/" + [key[0], key[1]] + "/" + key
  {
    if |key| >= 4 { assert key[..2] == [key[0], key[1]]; }
  }

  /** A generated key always has its paths. */
  lemma HexPaths(dir: string, key: Key)
    requires HexKey(key)
    ensures StagingPath(dir, key).Some? && ObjectPath(dir, key).Some?
  {
  }

  lemma Suffix(front: string, key: Key)
    ensures (front + key)[|front + key| - |key|..] == key
  {
  }

  /** The two areas, as maps from key to content. `io` says whether the file system lets a call succeed. */
  class Store {
    var staging: map<Key, Bytes>
    var objects: map<Key, Bytes>

    constructor ()
      ensures staging == map[] && objects == map[]
    {
      staging, objects := map[], map[];
    }

    /** O_CREATE | O_EXCL: an existing file is an error. */
    method CreateStagingFile(key: Key, io: bool) returns (ok: bool)
      modifies this`staging
      ensures ok <==> io && |key| >= 4 && '/' !in key && key !in old(staging)
      ensures staging == if ok then old(staging)[key := []] else old(staging)
    {
      ok := io && StagingPath("", key).Some? && key !in staging;
      if ok { staging := staging[key := []]; }
    }

    /** Opens an existing file for appending and copies `bytes` to its end. */
    method AppendStaging(key: Key, bytes: Bytes, io: bool) returns (ok: bool)
      modifies this`staging
      ensures ok <==> io && |key| >= 4 && '/' !in key && key in old(staging)
      ensures staging == if ok then old(staging)[key := old(staging)[key] + bytes] else old(staging)
    {
      ok := io && StagingPath("", key).Some? && key in staging;
      if ok { staging := staging[key := staging[key] + bytes]; }
    }

    /** Removing what is not there is no error. */
    method RemoveStagingFile(key: Key, io: bool) returns (ok: bool)
      modifies this`staging
      ensures ok <==> |key| >= 4 && '/' !in key && (io || key !in old(staging))
      ensures staging == if ok then old(staging) - {key} else old(staging)
    {
      ok := StagingPath("", key).Some? && (io || key !in staging);
      if ok { staging := staging - {key}; }
    }

    /** rename(2), which replaces an existing destination. */
    method MoveStagingToObject(stagingKey: Key, objectKey: Key, io: bool) returns (ok: bool)
      modifies this`staging, this`objects
      ensures ok <==>
        && io && |stagingKey| >= 4 && '/' !in stagingKey && |objectKey| >= 4 && '/' !in objectKey
        && stagingKey in old(staging)
      ensures ok ==>
        objects == old(objects)[objectKey := old(staging)[stagingKey]] && staging == old(staging) - {stagingKey}
      ensures !ok ==> objects == old(objects) && staging == old(staging)
    {
      ok := io && StagingPath("", stagingKey).Some? && ObjectPath("", objectKey).Some? && stagingKey in staging;
      if ok {
        objects := objects[objectKey := staging[stagingKey]];
        staging := staging - {stagingKey};
      }
    }

    method RemoveObject(key: Key, io: bool) returns (ok: bool)
      modifies this`objects
      ensures ok <==> |key| >= 4 && '/' !in key && (io || key !in old(objects))
      ensures objects == if ok then old(objects) - {key} else old(objects)
    {
      ok := ObjectPath("", key).Some? && (io || key !in objects);
      if ok { objects := objects - {key}; }
    }
  }
}
