/** The database connection all services share: mutable tables and the atomic commit. */
module Db {
  import opened Schema
  import opened Tree
  import opened Purge

  class Database {
    var nodes: Nodes
    var files: FileObjects
    var uploads: Uploads
    var shares: Shares

    constructor ()
      ensures Contents() == INITIAL && Valid()
    {
      nodes, files, uploads, shares := INITIAL.nodes, map[], map[], map[];
      new;
      InitialTree();
      assert UploadParents(uploads) == {};
    }

    function Contents(): Tables
      reads this
    {
      Tables(nodes, files, uploads, shares)
    }

    ghost predicate Valid()
      reads this
    {
      TablesInv(Contents())
    }

    method Commit(t: Tables)
      modifies this
      ensures Contents() == t
    {
      nodes, files, uploads, shares := t.nodes, t.files, t.uploads, t.shares;
    }
  }
}
