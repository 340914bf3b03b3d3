/** The rows of the SQLite schema, and its constraints as guards on single-row statements.
    A table is a map from primary key to row; a failed statement leaves the table as it was.
    Timestamps that are only ever compared with NULL are booleans. */
module Schema {
  import opened Basics

  type Id = string
  type Key = string
  type Digest = string
  type Bytes = seq<bv8>

  /** What GenerateOpaqueKey returns: sixteen random bytes in lower-case hexadecimal. */
  predicate HexKey(key: Key) {
    |key| == 32 && forall i | 0 <= i < 32 :: '0' <= key[i] <= '9' || 'a' <= key[i] <= 'f'
  }

  const ROOT: Id := "ROOT"
  const TRASH: Id := "TRASH_ROOT"

  datatype Kind = File | Folder

  /** A normalised name: what is displayed, and the folded key used for sibling uniqueness. */
  datatype Name = Name(display: string, key: string)

  datatype Node = Node(parent: Option<Id>, kind: Kind, name: Name, trashed: bool,
                       restoreTo: Option<Id>, system: bool)

  type Nodes = map<Id, Node>

  datatype FileObject = FileObject(storageKey: Key, size: nat, sha: Digest)

  type FileObjects = map<Id, FileObject>

  datatype UploadState =
    Created | Receiving | Verifying | Finalizing | Complete | Failed | Expired | Terminated

  datatype Upload = Upload(parent: Id, name: Name, expected: nat, received: nat, reservation: nat,
                           stagingKey: Key, finalKey: Key, state: UploadState, sha: Option<Digest>,
                           expiresAt: int)

  type Uploads = map<Id, Upload>

  datatype Share = Share(target: Id, tokenHash: string, password: Option<string>, expiresAt: Option<int>,
                         revoked: bool, authVersion: int, epoch: int)

  type Shares = map<Id, Share>

  datatype Tables = Tables(nodes: Nodes, files: FileObjects, uploads: Uploads, shares: Shares)

  datatype Error =
    | NotFound | AlreadyExists | InvalidName | CycleDetected | SystemProtected | InvalidOperation | Internal

  const ROOT_ROW := Node(None, Folder, Name("Root", "root"), false, None, true)
  const TRASH_ROW := Node(None, Folder, Name("Trash", "trash"), false, None, true)

  /** The tables as the migration leaves them: the two permanent system folders. */
  const INITIAL := Tables(map[ROOT := ROOT_ROW, TRASH := TRASH_ROW], map[], map[], map[])

  /** Two rows that the partial unique indexes do not allow side by side. */
  predicate Clash(r: Node, s: Node) {
    !r.trashed && !s.trashed && r.parent == s.parent && r.name.key == s.name.key
  }

  /** The partial unique indexes: no other row clashes with `row` stored under `id`. */
  predicate RowFits(ns: Nodes, id: Id, row: Node) {
    forall y {:trigger Clash(row, ns[y])} | y in ns && y != id :: !Clash(row, ns[y])
  }

  /** No active child of `parent`, other than `id` itself, has this name key. */
  predicate SlotFree(ns: Nodes, id: Id, parent: Id, key: string) {
    forall y | y in ns && y != id && !ns[y].trashed && ns[y].parent == Some(parent) :: ns[y].name.key != key
  }

  /** INSERT INTO nodes: primary key, parent foreign key, active-sibling index. */
  function InsertNode(ns: Nodes, id: Id, row: Node): (r: Result<Nodes, Error>) {
    if id in ns || (row.parent.Some? && row.parent.value !in ns) || !RowFits(ns, id, row) then Err(AlreadyExists)
    else Ok(ns[id := row])
  }

  /** UPDATE of one existing node row. */
  function UpdateNode(ns: Nodes, id: Id, row: Node): (r: Result<Nodes, Error>)
    requires id in ns
  {
    if RowFits(ns, id, row) then Ok(ns[id := row]) else Err(AlreadyExists)
  }

  /** The parents that upload rows point at; uploads.parent_id is ON DELETE RESTRICT. */
  function UploadParents(us: Uploads): set<Id> {
    set u | u in us :: us[u].parent
  }
}
