/** The shares service over mutable tables. Random tokens, ids, the keyed hash of tokens, password hashing and the
    clock are parameters. */
module SharesService {
  import opened Basics
  import opened Schema
  import opened Forest
  import opened Db
  import opened Shares
  import opened Session
  import opened Purge
  import Files = FilesService

  datatype AccessError = NodeNotFound | AccessDenied

  datatype UnlockError = Unusable(error: LookupError) | NoPassword | InvalidPassword

  const SESSION_SECONDS := 24 * 60 * 60

  class Service {
    const db: Database
    const epoch: int
    const hashToken: string -> string
    const cookieMac: string -> Bytes
    const verifyPassword: (string, string) -> bool

    constructor (db: Database, epoch: int, hashToken: string -> string, cookieMac: string -> Bytes,
                 verifyPassword: (string, string) -> bool)
      ensures this.db == db && this.epoch == epoch
      ensures this.hashToken == hashToken && this.cookieMac == cookieMac && this.verifyPassword == verifyPassword
    {
      this.db, this.epoch, this.hashToken, this.cookieMac, this.verifyPassword :=
        db, epoch, hashToken, cookieMac, verifyPassword;
    }

    ghost predicate Valid()
      reads this, db
    {
      db.Valid() && UniqueTokens(db.shares)
    }

    /** `hashed` is the salted hash of the password; no password is the empty text. */
    method CreateShare(target: Id, password: string, hashed: string, expiresAt: Option<int>, id: Id, token: string)
      returns (r: Result<Id, Error>)
      requires Valid()
      modifies db`shares
      ensures Valid()
      ensures match Shares.CreateShare(old(db.Contents()), id, target, hashToken(token),
                                       if password != "" then Some(hashed) else None, expiresAt, epoch)
        case Ok(t) => db.Contents() == t && r == Ok(id)
        case Err(e) => db.shares == old(db.shares) && r == Err(e)
      ensures r == if target !in db.nodes then Err(NotFound)
                   else if db.nodes[target].trashed || db.nodes[target].system then Err(InvalidOperation)
                   else if id in old(db.shares) then Err(Internal)
                   else if exists h | h in old(db.shares) :: old(db.shares)[h].tokenHash == hashToken(token)
                   then Err(Internal) else Ok(id)
      ensures r.Ok? ==>
        && db.shares.Keys == old(db.shares).Keys + {id}
        && (forall h | h in old(db.shares) :: db.shares[h] == old(db.shares)[h])
        && db.shares[id].target == target && db.shares[id].tokenHash == hashToken(token)
        && db.shares[id].password == (if password == "" then None else Some(hashed))
        && db.shares[id].expiresAt == expiresAt && !db.shares[id].revoked && db.shares[id].authVersion == 1
        && db.shares[id].epoch == epoch
      ensures r.Err? ==> db.shares == old(db.shares)
    {
      hide TablesInv, UniqueTokens;
      if target !in db.nodes { return Err(NotFound); }
      if db.nodes[target].trashed || db.nodes[target].system { return Err(InvalidOperation); }
      var passwordHash := None;
      if password != "" { passwordHash := Some(hashed); }
      var row := RowOfToken(hashToken(token));
      if id in db.shares || row.Some? { return Err(Internal); }
      CreateShareKeeps(db.Contents(), id, target, hashToken(token), passwordHash, expiresAt, epoch);
      db.shares := db.shares[id := Share(target, hashToken(token), passwordHash, expiresAt, false, 1, epoch)];
      r := Ok(id);
    }

    /** SELECT ... WHERE token_hash = ?. */
    method RowOfToken(tokenHash: string) returns (row: Option<Id>)
      ensures row.None? <==> !TokenTaken(db.shares, tokenHash)
      ensures row.Some? ==> row.value in db.shares && db.shares[row.value].tokenHash == tokenHash
    {
      row := None;
      var left := db.shares.Keys;
      while left != {} && row.None?
        invariant left <= db.shares.Keys
        invariant row.None? ==> forall h | h in db.shares && h !in left :: db.shares[h].tokenHash != tokenHash
        invariant row.Some? ==> row.value in db.shares && db.shares[row.value].tokenHash == tokenHash
        decreases |left|
      {
        var h :| h in left;
        if db.shares[h].tokenHash == tokenHash { row := Some(h); }
        left := left - {h};
      }
    }

    method GetShareByToken(token: string, now: int) returns (r: Result<Id, LookupError>)
      requires Valid()
      ensures r == Lookup(db.shares, hashToken(token), epoch, now)
      ensures r == Err(ShareNotFound) <==>
        forall row | row in db.shares :: db.shares[row].tokenHash != hashToken(token)
      ensures forall row | row in db.shares && db.shares[row].tokenHash == hashToken(token) :: var h := db.shares[row];
        r == if h.revoked then Err(ShareRevoked)
             else if h.expiresAt.Some? && h.expiresAt.value < now then Err(ShareExpired)
             else if h.epoch != epoch then Err(ShareRevoked) else Ok(row)
    {
      var row := RowOfToken(hashToken(token));
      if row.None? { return Err(ShareNotFound); }
      var h := db.shares[row.value];
      if h.revoked { return Err(ShareRevoked); }
      if h.expiresAt.Some? && now > h.expiresAt.value { return Err(ShareExpired); }
      if h.epoch != epoch { return Err(ShareRevoked); }
      r := Ok(row.value);
    }

    method RevokeShare(id: Id) returns (r: Result<(), Error>)
      requires Valid()
      modifies db`shares
      ensures Valid()
      ensures match Shares.RevokeShare(old(db.Contents()), id)
        case Ok(t) => db.Contents() == t && r == Ok(())
        case Err(e) => db.shares == old(db.shares) && r == Err(e)
      ensures r == if id in old(db.shares) then Ok(()) else Err(NotFound)
      ensures db.shares.Keys == old(db.shares).Keys && forall h | h in db.shares :: var was := old(db.shares)[h];
        db.shares[h] == if h == id then was.(revoked := true, authVersion := was.authVersion + 1) else was
    {
      hide TablesInv, UniqueTokens;
      if id !in db.shares { return Err(NotFound); }
      RevokeShareKeeps(db.Contents(), id);
      var h := db.shares[id];
      db.shares := db.shares[id := h.(revoked := true, authVersion := h.authVersion + 1)];
      r := Ok(());
    }

    /** The cookie it returns is accepted for the same share for a day, as long as the row stays as it is. */
    method UnlockWithPassword(token: string, password: string, now: int) returns (r: Result<string, UnlockError>)
      requires Valid()
      ensures match Lookup(db.shares, hashToken(token), epoch, now)
        case Err(e) => r == Err(Unusable(e))
        case Ok(id) =>
          var h := db.shares[id];
          if h.password == None || h.password == Some("") then r == Err(NoPassword)
          else if !verifyPassword(password, h.password.value) then r == Err(InvalidPassword)
          else
            var day := now + 86400;
            var text := id + "." + Decimal(h.authVersion) + "." + Decimal(h.epoch) + "." + Decimal(day);
            && r == Ok(text + "." + Hex(cookieMac(text)))
            && (Dotless(id) && Int64(h.authVersion) && Int64(h.epoch) && Int64(day) ==>
                  forall t :: ValidateSessionCookie(cookieMac, id, h, r.value, t) <==> t <= day)
    {
      var id := GetShareByToken(token, now);
      if id.Err? { return Err(Unusable(id.error)); }
      var h := db.shares[id.value];
      if !NeedsPassword(h) { return Err(NoPassword); }
      if !verifyPassword(password, h.password.value) { return Err(InvalidPassword); }
      var cookie := CreateSessionToken(cookieMac, id.value, h.authVersion, h.epoch, now + SESSION_SECONDS);
      if Dotless(id.value) && Int64(h.authVersion) && Int64(h.epoch) && Int64(now + SESSION_SECONDS) {
        forall t ensures ValidateSessionCookie(cookieMac, id.value, h, cookie, t) <==> t <= now + SESSION_SECONDS {
          PrintedTokenAccepted(cookieMac, id.value, h.authVersion, h.epoch, now + SESSION_SECONDS, id.value, h, t);
        }
      }
      r := Ok(cookie);
    }

    /** A node is in the share exactly when it is untrashed and the upward walk from it meets the share's target. */
    method CheckNodeInShare(target: Id, node: Id) returns (r: Result<Node, AccessError>)
      requires Valid()
      ensures r ==
        if node !in db.nodes || db.nodes[node].trashed then Err(NodeNotFound)
        else if Within(db.nodes, target, node) then Ok(db.nodes[node])
        else Err(AccessDenied)
    {
      if node !in db.nodes || db.nodes[node].trashed { return Err(NodeNotFound); }
      WithinSelf(db.nodes, target);
      if node == target { return Ok(db.nodes[node]); }
      var below := Files.Subnodes(db.nodes, target);
      var inTree := node in below;
      r := if inTree then Ok(db.nodes[node]) else Err(AccessDenied);
    }
  }
}
