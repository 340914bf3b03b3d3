/** Share rows: creation, lookup and revocation as functions on the tables. */
module Shares {
  import opened Basics
  import opened Schema
  import opened Purge

  datatype LookupError = ShareNotFound | ShareRevoked | ShareExpired

  predicate TokenTaken(hs: Shares, tokenHash: string) {
    exists h :: h in hs && hs[h].tokenHash == tokenHash
  }

  function CreateShare(t: Tables, id: Id, target: Id, tokenHash: string, password: Option<string>,
                       expiresAt: Option<int>, epoch: int): Result<Tables, Error>
  {
    if target !in t.nodes then Err(NotFound)
    else if t.nodes[target].trashed || t.nodes[target].system then Err(InvalidOperation)
    else if id in t.shares || TokenTaken(t.shares, tokenHash) then Err(Internal)
    else Ok(t.(shares := t.shares[id := Share(target, tokenHash, password, expiresAt, false, 1, epoch)]))
  }

  /** A second revocation still bumps the version. */
  function RevokeShare(t: Tables, id: Id): Result<Tables, Error> {
    if id !in t.shares then Err(NotFound)
    else
      var h := t.shares[id];
      Ok(t.(shares := t.shares[id := h.(revoked := true, authVersion := h.authVersion + 1)]))
  }

  /** The share a row is good for: neither revoked nor expired, and of the deployment's current epoch. */
  function Usable(h: Share, epoch: int, now: int): Result<Share, LookupError> {
    if h.revoked then Err(ShareRevoked)
    else if h.expiresAt.Some? && now > h.expiresAt.value then Err(ShareExpired)
    else if h.epoch != epoch then Err(ShareRevoked)
    else Ok(h)
  }

  /** The row a token leads to; the UNIQUE constraint on token_hash leaves at most one. */
  ghost function Lookup(hs: Shares, tokenHash: string, epoch: int, now: int): Result<Id, LookupError> {
    if !TokenTaken(hs, tokenHash) then Err(ShareNotFound)
    else
      var h :| h in hs && hs[h].tokenHash == tokenHash;
      match Usable(hs[h], epoch, now)
      case Ok(_) => Ok(h)
      case Err(e) => Err(e)
  }

  ghost predicate UniqueTokens(hs: Shares) {
    forall h, k | h in hs && k in hs && hs[h].tokenHash == hs[k].tokenHash :: h == k
  }

  /** A lookup succeeds for a share exactly when its row carries the token, unrevoked, unexpired and of this epoch. */
  lemma LookupExact(hs: Shares, tokenHash: string, epoch: int, now: int, id: Id)
    requires UniqueTokens(hs)
    ensures Lookup(hs, tokenHash, epoch, now) == Ok(id) <==>
            && id in hs && hs[id].tokenHash == tokenHash && !hs[id].revoked && hs[id].epoch == epoch
            && (hs[id].expiresAt.Some? ==> now <= hs[id].expiresAt.value)
  {
  }

  lemma CreateShareKeeps(t: Tables, id: Id, target: Id, tokenHash: string, password: Option<string>,
                         expiresAt: Option<int>, epoch: int)
    requires TablesInv(t) && UniqueTokens(t.shares)
    requires CreateShare(t, id, target, tokenHash, password, expiresAt, epoch).Ok?
    ensures var t2 := CreateShare(t, id, target, tokenHash, password, expiresAt, epoch).value;
      TablesInv(t2) && UniqueTokens(t2.shares)
  {
  }

  lemma RevokeShareKeeps(t: Tables, id: Id)
    requires TablesInv(t) && UniqueTokens(t.shares) && RevokeShare(t, id).Ok?
    ensures TablesInv(RevokeShare(t, id).value) && UniqueTokens(RevokeShare(t, id).value.shares)
  {
  }
}
