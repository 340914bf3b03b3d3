/** Shares over whole runs: what a share row can become, and that a revocation is for ever. */
module Revocation {
  import opened Schema
  import opened Forest
  import opened Purge
  import opened Tree
  import opened Shares
  import opened Session
  import opened Machine
  import opened Invariant
  import opened Reconciling
  import opened Frames
  import Safety

  /** How often `id` is revoked in `actions`. */
  function Revocations(actions: seq<Action>, id: Id): nat {
    if actions == [] then 0 else (if actions[0] == DoRevokeShare(id) then 1 else 0) + Revocations(actions[1..], id)
  }

  /** The row after `n` more revocations: nothing but the version and the flag ever changes. */
  function Revoked(h: Share, n: nat): Share {
    h.(authVersion := h.authVersion + n, revoked := h.revoked || n > 0)
  }

  /** One step leaves a share row alone, revokes it, or deletes it by a purge; and every row it adds has a fresh id
      and a fresh token. */
  ghost predicate RowsEvolve(s: Sys, s2: Sys, a: Action) {
    && s.used <= s2.used
    && (forall h {:trigger s2.t.shares[h]} | h in s2.t.shares && h in s.t.shares ::
          s2.t.shares[h] == Revoked(s.t.shares[h], if a == DoRevokeShare(h) then 1 else 0))
    && (forall h {:trigger s2.t.shares[h]} | h in s2.t.shares && h !in s.t.shares ::
          a.DoCreateShare? && h == a.id && h !in s.used && s2.t.shares[h].tokenHash == a.tokenHash
            && a.tokenHash !in s.used)
  }

  lemma StepEvolves(cfg: Config, s: Sys, a: Action)
    requires TablesInv(s.t)
    ensures RowsEvolve(s, Step(cfg, s, a), a)
  {
    hide StepFree, StepUpload, StepReconcile, TablesInv;
    if !LockFree(a) {
      LockedLeavesTree(cfg, s, a);
    } else if a.DoPurge? {
      PurgeEvolves(s, a);
      FreePurges(cfg, s, a);
    } else {
      hide RowsEvolve;
      FreeEvolves(cfg, s, a);
    }
  }

  lemma FreePurges(cfg: Config, s: Sys, a: Action)
    requires a.DoPurge?
    ensures StepFree(cfg, s, a) == StepPurge(s, a.id, a.order)
  {
  }

  lemma FreeEvolves(cfg: Config, s: Sys, a: Action)
    requires LockFree(a) && !a.DoPurge?
    ensures RowsEvolve(s, StepFree(cfg, s, a), a)
  {
    hide StepFree, RowsEvolve;
    if a.DoCreateShare? { CreateEvolves(cfg, s, a); }
    else if a.DoRevokeShare? { RevokeEvolves(cfg, s, a); }
    else { OthersEvolve(cfg, s, a); }
  }

  lemma CreateEvolves(cfg: Config, s: Sys, a: Action)
    requires a.DoCreateShare?
    ensures RowsEvolve(s, StepFree(cfg, s, a), a)
  {
  }

  lemma RevokeEvolves(cfg: Config, s: Sys, a: Action)
    requires a.DoRevokeShare?
    ensures RowsEvolve(s, StepFree(cfg, s, a), a)
  {
  }

  lemma OthersEvolve(cfg: Config, s: Sys, a: Action)
    requires !a.DoPurge? && !a.DoCreateShare? && !a.DoRevokeShare?
    ensures RowsEvolve(s, StepFree(cfg, s, a), a)
  {
    hide StepFree;
    FreeLeavesShares(cfg, s, a);
  }

  lemma PurgeEvolves(s: Sys, a: Action)
    requires TablesInv(s.t) && a.DoPurge?
    ensures RowsEvolve(s, StepPurge(s, a.id, a.order), a)
  {
    hide TreeInv, RefsSound;
    if StepPurge(s, a.id, a.order) != s { PurgeCommits(s.t, a.id, a.order); }
  }

  /** Over any run a share row either is gone for good or is the old row with one more version for each revocation. */
  lemma {:induction false} RowHistory(cfg: Config, s: Sys, actions: seq<Action>, id: Id)
    requires Sane(cfg) && Inv(cfg, s) && id in s.used
    ensures var s2 := Run(cfg, s, actions);
      id in s2.t.shares ==> id in s.t.shares && s2.t.shares[id] == Revoked(s.t.shares[id], Revocations(actions, id))
    decreases |actions|
  {
    hide TablesInv, DistinctKeys, UploadsOk, FilesOk, DoomedOk, WithinQuota, PcOk, Step;
    if actions != [] {
      var s1 := Step(cfg, s, actions[0]);
      StepEvolves(cfg, s, actions[0]);
      StepKeeps(cfg, s, actions[0]);
      RowHistory(cfg, s1, actions[1..], id);
    }
  }

  /** A share row disappears only in a purge, and only in one whose subtree holds its target. */
  lemma SharesOutlive(cfg: Config, actions: seq<Action>, a: Action, h: Id)
    requires Sane(cfg) && h in Safety.After(cfg, actions).t.shares
    ensures var s := Safety.After(cfg, actions);
      h !in Step(cfg, s, a).t.shares ==>
        a.DoPurge? && a.id in s.t.nodes && s.t.nodes[a.id].trashed && Within(s.t.nodes, a.id, s.t.shares[h].target)
  {
    hide TablesInv, UsedOk, DistinctKeys, UploadsOk, FilesOk, DoomedOk, WithinQuota, PcOk, StepFree, StepUpload,
      StepReconcile;
    var s := Safety.After(cfg, actions);
    Safety.Reachable(cfg, actions);
    if !LockFree(a) {
      LockedLeavesTree(cfg, s, a);
    } else if a.DoPurge? {
      FreePurges(cfg, s, a);
      if h !in StepPurge(s, a.id, a.order).t.shares { PurgeSpares(s, a.id, a.order, h); }
    } else if a.DoCreateShare? {
      CreateEvolves(cfg, s, a);
      SharesAdded(cfg, s, a, h);
    } else if a.DoRevokeShare? {
      SharesAdded(cfg, s, a, h);
    } else {
      FreeLeavesShares(cfg, s, a);
    }
  }

  lemma SharesAdded(cfg: Config, s: Sys, a: Action, h: Id)
    requires (a.DoCreateShare? || a.DoRevokeShare?) && h in s.t.shares
    ensures h in StepFree(cfg, s, a).t.shares
  {
  }

  lemma PurgeSpares(s: Sys, id: Id, order: seq<Id>, h: Id)
    requires TablesInv(s.t) && h in s.t.shares && h !in StepPurge(s, id, order).t.shares
    ensures id in s.t.nodes && s.t.nodes[id].trashed && Within(s.t.nodes, id, s.t.shares[h].target)
  {
    hide TreeInv, RefsSound, Within;
    PurgeDecided(s.t, id, order);
  }

  /** No row but a revoked one carries the token, and none ever will. */
  ghost predicate TokenDead(s: Sys, tokenHash: string) {
    tokenHash in s.used && forall h | h in s.t.shares && s.t.shares[h].tokenHash == tokenHash :: s.t.shares[h].revoked
  }

  lemma {:induction false} StaysDead(cfg: Config, s: Sys, actions: seq<Action>, tokenHash: string)
    requires Sane(cfg) && Inv(cfg, s) && TokenDead(s, tokenHash)
    ensures TokenDead(Run(cfg, s, actions), tokenHash)
    decreases |actions|
  {
    hide TablesInv, DistinctKeys, UploadsOk, FilesOk, DoomedOk, WithinQuota, PcOk, Step;
    if actions != [] {
      var s1 := Step(cfg, s, actions[0]);
      StepEvolves(cfg, s, actions[0]);
      StepKeeps(cfg, s, actions[0]);
      forall h | h in s1.t.shares && s1.t.shares[h].tokenHash == tokenHash ensures s1.t.shares[h].revoked {}
      StaysDead(cfg, s1, actions[1..], tokenHash);
    }
  }

  /** Tokens are distinct in every run, as the UNIQUE constraint demands. */
  lemma {:induction false} TokensStayUnique(cfg: Config, s: Sys, actions: seq<Action>)
    requires Sane(cfg) && Inv(cfg, s) && UniqueTokens(s.t.shares)
    ensures UniqueTokens(Run(cfg, s, actions).t.shares)
    decreases |actions|
  {
    hide TablesInv, DistinctKeys, UploadsOk, FilesOk, DoomedOk, WithinQuota, PcOk, Step;
    if actions != [] {
      var s1 := Step(cfg, s, actions[0]);
      StepEvolves(cfg, s, actions[0]);
      StepKeeps(cfg, s, actions[0]);
      forall h, k | h in s1.t.shares && k in s1.t.shares && s1.t.shares[h].tokenHash == s1.t.shares[k].tokenHash
        ensures h == k
      {}
      TokensStayUnique(cfg, s1, actions[1..]);
    }
  }

  /** Revocation is permanent: once a share is revoked, its token fails lookup after every further run, at any time
      and under any epoch the deployment may be set to. */
  lemma RevokedForEver(cfg: Config, before: seq<Action>, after: seq<Action>, id: Id, epoch: int, now: int)
    requires Sane(cfg) && id in Safety.After(cfg, before).t.shares
    ensures var s := Safety.After(cfg, before);
      Lookup(Run(cfg, Step(cfg, s, DoRevokeShare(id)), after).t.shares, s.t.shares[id].tokenHash, epoch, now).Err?
  {
    hide TablesInv, DistinctKeys, UploadsOk, FilesOk, DoomedOk, WithinQuota, PcOk;
    var s := Safety.After(cfg, before);
    var s1 := Step(cfg, s, DoRevokeShare(id));
    Safety.Reachable(cfg, before);
    InitialInv(cfg);
    TokensStayUnique(cfg, INITIAL_SYS, before);
    StepEvolves(cfg, s, DoRevokeShare(id));
    StepKeeps(cfg, s, DoRevokeShare(id));
    assert TokenDead(s1, s.t.shares[id].tokenHash);
    StaysDead(cfg, s1, after, s.t.shares[id].tokenHash);
  }

  /** A cookie issued for a share is accepted after any further run, while the share still exists, if and only if the
      share needs no password, or it was not revoked meanwhile and the cookie's day is not over. The epoch on the row
      never changes. */
  lemma CookieValidIff(cfg: Config, before: seq<Action>, after: seq<Action>, id: Id, mac: string -> Bytes, expiry: int,
      now: int)
    requires Sane(cfg) && id in Safety.After(cfg, before).t.shares && Dotless(id)
    requires var h := Safety.After(cfg, before).t.shares[id]; Int64(h.authVersion) && Int64(h.epoch) && Int64(expiry)
    requires id in Run(cfg, Safety.After(cfg, before), after).t.shares
    ensures var h := Safety.After(cfg, before).t.shares[id];
      var cookie := CreateSessionToken(mac, id, h.authVersion, h.epoch, expiry);
      ValidateSessionCookie(mac, id, Run(cfg, Safety.After(cfg, before), after).t.shares[id], cookie, now) <==>
      !NeedsPassword(h) || (Revocations(after, id) == 0 && now <= expiry)
  {
    hide Step, Run, TablesInv, DistinctKeys, UploadsOk, FilesOk, DoomedOk, WithinQuota, PcOk;
    var s := Safety.After(cfg, before);
    Safety.Reachable(cfg, before);
    RowHistory(cfg, s, after, id);
    var h := s.t.shares[id];
    PrintedTokenAccepted(mac, id, h.authVersion, h.epoch, expiry, id, Run(cfg, s, after).t.shares[id], now);
  }
}
