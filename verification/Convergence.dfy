/** The machine's reconciliation steps move towards a fixed target, so every interrupted reconciliation that is
    later completed ends where an uninterrupted one does. */
module Convergence {
  import opened Basics
  import opened Schema
  import opened Purge
  import opened Machine
  import opened Invariant
  import opened Steps
  import opened Reconciling
  import opened Recovery

  /** `order` lists every upload row: the fixed order in which queries return rows. */
  ghost predicate Covers(order: seq<Id>, us: Uploads) {
    NoDup(order) && forall id | id in us :: id in order
  }

  /** Where a reconciliation that started at or before `now` may stand. */
  ghost predicate OnTrack(s: Sys, order: seq<Id>, now: int) {
    match s.pc
    case Idle => true
    case Expiring(todo, n) => n <= now && AllExpired(s.t.uploads, todo, n)
    case ExpiredRow(_, todo, n) => n <= now && AllExpired(s.t.uploads, todo, n)
    case Resolving(todo) => todo == Select(order, FinalizingIds(s.t.uploads))
    case Leftover(_, todo) => todo == Select(order, FinalizingIds(s.t.uploads))
    case Moved(id, todo) => [id] + todo == Select(order, FinalizingIds(s.t.uploads))
    case _ => false
  }

  ghost predicate AllExpired(us: Uploads, todo: seq<Id>, n: int) {
    forall i | 0 <= i < |todo| :: todo[i] in us && us[todo[i]].expiresAt < n
  }

  /** The steps of reconciliations that meet no I/O error, and crashes between any two of them. */
  ghost predicate Recovering(s: Sys, a: Action, order: seq<Id>, now: int) {
    match a
    case BeginReconcile(n, _) => n <= now
    case CollectFinalizing(todo) => todo == Select(order, FinalizingIds(s.t.uploads))
    case ExpireNext => true
    case RemoveStaging => true
    case ResolveNext(_) => true
    case CommitMoved(_) => true
    case EndReconcile => true
    case Crash => true
    case _ => false
  }

  ghost predicate RecoveryRun(cfg: Config, s: Sys, actions: seq<Action>, order: seq<Id>, now: int)
    decreases |actions|
  {
    actions == [] ||
    (Recovering(s, actions[0], order, now) && RecoveryRun(cfg, Step(cfg, s, actions[0]), actions[1..], order, now))
  }

  // ---------------------------------------------------------------- steps seen through the view

  lemma ViewMove(cfg: Config, s: Sys, id: Id, pc: Pc)
    requires Inv(cfg, s) && id in s.t.uploads && s.t.uploads[id].state == Finalizing
      && s.t.uploads[id].stagingKey in s.staging
    ensures ViewOf(MoveStagingToObject(s, s.t.uploads[id], pc)) == MoveBytes(ViewOf(s), s.t.uploads[id])
  {
    var u := s.t.uploads[id];
    assert UploadAt(cfg, s, id);
    assert u.stagingKey in Needed(s.t.uploads);
    assert Pending(s.t.uploads, s.staging - {u.stagingKey}) == Pending(s.t.uploads, s.staging) - {u.stagingKey};
  }

  /** Closing a row that is being finalised drops only its own staging key from those needed. */
  lemma NeededAfterClose(us: Uploads, id: Id, u: Upload)
    requires DistinctKeys(us) && id in us && us[id].state == Finalizing && u.state != Finalizing
    ensures Needed(us[id := u]) == Needed(us) - {us[id].stagingKey}
  {
    forall k ensures k in Needed(us[id := u]) <==> k in Needed(us) - {us[id].stagingKey} {
      if k in Needed(us) && k != us[id].stagingKey {
        var j :| j in us && us[j].state == Finalizing && us[j].stagingKey == k;
        assert j in us[id := u] && us[id := u][j].state == Finalizing;
      }
      if k in Needed(us[id := u]) {
        var j :| j in us[id := u] && us[id := u][j].state == Finalizing && us[id := u][j].stagingKey == k;
        assert Apart(us, j, id);
      }
    }
  }

  lemma PendingAfterClose(s: Sys, id: Id, u: Upload)
    requires DistinctKeys(s.t.uploads) && id in s.t.uploads && s.t.uploads[id].state == Finalizing
      && u.state != Finalizing
    requires s.t.uploads[id].stagingKey !in s.staging
    ensures Pending(s.t.uploads[id := u], s.staging) == Pending(s.t.uploads, s.staging)
  {
    NeededAfterClose(s.t.uploads, id, u);
  }

  lemma CatalogAfterCommit(t: Tables, id: Id, node: Id)
    requires id in t.uploads && node !in t.nodes && node !in t.files
    ensures Catalog(Committed(t, id, node)) == Catalog(t) + {NewEntry(t.uploads[id])}
    ensures Slots(Committed(t, id, node).nodes) == Slots(t.nodes) + {(t.uploads[id].parent, t.uploads[id].name.key)}
    ensures FoldersOf(Committed(t, id, node).nodes) == FoldersOf(t.nodes)
  {
    var t2 := Committed(t, id, node);
    forall e | e in Catalog(t) ensures e in Catalog(t2) {
      var n :| n in t.files && n in t.nodes && EntryOf(t.nodes[n], t.files[n]) == e;
      assert EntryOf(t2.nodes[n], t2.files[n]) == e;
    }
    assert EntryOf(t2.nodes[node], t2.files[node]) == NewEntry(t.uploads[id]);
    forall p | p in Slots(t.nodes) ensures p in Slots(t2.nodes) {
      var n :| n in t.nodes && !t.nodes[n].trashed && t.nodes[n].parent.Some?
        && (t.nodes[n].parent.value, t.nodes[n].name.key) == p;
      assert (t2.nodes[n].parent.value, t2.nodes[n].name.key) == p;
    }
    assert t2.nodes[node].parent == Some(t.uploads[id].parent);
  }

  lemma SlotFreeIff(ns: Nodes, node: Id, u: Upload)
    requires node !in ns
    ensures RowFits(ns, node, FileRow(u)) <==> (u.parent, u.name.key) !in Slots(ns)
  {
    forall y | y in ns && Clash(FileRow(u), ns[y]) ensures (u.parent, u.name.key) in Slots(ns) {
      assert ns[y].parent == Some(u.parent);
    }
    if (u.parent, u.name.key) in Slots(ns) {
      var n :| n in ns && !ns[n].trashed && ns[n].parent.Some?
        && (ns[n].parent.value, ns[n].name.key) == (u.parent, u.name.key);
      assert Clash(FileRow(u), ns[n]);
    }
  }

  /** The repair transaction on the tables is the completion of the row in the view. */
  lemma ViewRepair(cfg: Config, s: Sys, id: Id, node: Id, pc: Pc)
    requires Inv(cfg, s) && id in s.t.uploads && s.t.uploads[id].state == Finalizing && node !in s.used
    requires s.t.uploads[id].finalKey in s.objects
    ensures id in s.hist && ViewOf(Repair(s, id, node, pc)) == ResolveRow(ViewOf(s), id)
  {
    assert UploadAt(cfg, s, id);
    RepairIsCommit(cfg, s, id, node);
    SlotFreeIff(s.t.nodes, node, s.t.uploads[id]);
    PendingAfterClose(s, id, Closed(s.t.uploads[id], Complete));
    CatalogAfterCommit(s.t, id, node);
    assert MoveBytes(ViewOf(s), s.t.uploads[id]) == ViewOf(s);
  }

  lemma ViewUnstage(s: Sys, sk: Key, pc: Pc)
    requires Disposable(s.t.uploads, sk)
    ensures ViewOf(s.(staging := s.staging - {sk}, pc := pc)) == ViewOf(s)
  {
    assert Pending(s.t.uploads, s.staging - {sk}) == Pending(s.t.uploads, s.staging);
  }

  lemma ViewExpire(s: Sys, id: Id, pc: Pc)
    requires id in s.t.uploads && Accepting(s.t.uploads[id].state)
    ensures ViewOf(s.(t := Close(s.t, id, Expired), pc := pc))
            == ViewOf(s).(uploads := s.t.uploads[id := Closed(s.t.uploads[id], Expired)])
  {
    var us2 := Close(s.t, id, Expired).uploads;
    assert forall j | j in us2 && us2[j].state == Finalizing :: j != id;
    forall k ensures k in Needed(us2) <==> k in Needed(s.t.uploads) {
      if k in Needed(s.t.uploads) {
        var j :| j in s.t.uploads && s.t.uploads[j].state == Finalizing && s.t.uploads[j].stagingKey == k;
        assert us2[j].stagingKey == k;
      }
    }
    assert Needed(us2) == Needed(s.t.uploads);
  }

  // ---------------------------------------------------------------- the target does not move

  ghost predicate Aimed(s: Sys, s2: Sys, order: seq<Id>, now: int) {
    && Target(ViewOf(s2), now, order) == Target(ViewOf(s), now, order)
    && OnTrack(s2, order, now) && s2.t.uploads.Keys == s.t.uploads.Keys
  }

  lemma AimExpire(cfg: Config, s: Sys, order: seq<Id>, now: int)
    requires Inv(cfg, s) && OnTrack(s, order, now)
    ensures Aimed(s, StepExpireNext(s), order, now)
  {
    hide TablesInv, UsedOk, DistinctKeys, UploadsOk, FilesOk, DoomedOk, WithinQuota, Slots, Catalog, FoldersOf, Needed;
    if s.pc.Expiring? && s.pc.todo != [] {
      hide Target;
      var id := s.pc.todo[0];
      assert Accepting(s.t.uploads[id].state) && s.t.uploads[id].expiresAt < now;
      ViewExpire(s, id, StepExpireNext(s).pc);
      TargetAfterExpire(ViewOf(s), now, order, id);
    }
  }

  lemma FinalizingAfterClose(us: Uploads, id: Id, u: Upload)
    requires u.state != Finalizing
    ensures FinalizingIds(us[id := u]) == FinalizingIds(us) - {id}
  {
  }

  lemma AimRepair(cfg: Config, s: Sys, id: Id, rest: seq<Id>, node: Id, order: seq<Id>, now: int)
    requires Inv(cfg, s) && Covers(order, s.t.uploads) && node !in s.used
    requires Select(order, FinalizingIds(s.t.uploads)) == [id] + rest
    requires id in s.t.uploads && s.t.uploads[id].finalKey in s.objects
    ensures id in s.hist && s.t.uploads[id].state == Finalizing
    ensures Aimed(s, Repair(s, id, node, Resolving(rest)), order, now)
  {
    hide TablesInv, UsedOk, UploadsOk, FilesOk, DoomedOk, WithinQuota, PcOk, Target, Slots, Catalog, FoldersOf, Pending,
      RepairFile, KeyStored;
    SelectFrom(order, FinalizingIds(s.t.uploads));
    assert id in FinalizingIds(s.t.uploads);
    ViewRepair(cfg, s, id, node, Resolving(rest));
    TargetAfterResolve(ViewOf(s), now, order);
    RepairedRow(s, id, node);
    FinalizingAfterClose(s.t.uploads, id, Closed(s.t.uploads[id], Complete));
    SelectRest(order, FinalizingIds(s.t.uploads));
  }

  lemma AimMove(cfg: Config, s: Sys, id: Id, rest: seq<Id>, order: seq<Id>, now: int)
    requires Inv(cfg, s) && Covers(order, s.t.uploads)
    requires Select(order, FinalizingIds(s.t.uploads)) == [id] + rest
    requires id in s.t.uploads && s.t.uploads[id].state == Finalizing && s.t.uploads[id].stagingKey in s.staging
    ensures Aimed(s, MoveStagingToObject(s, s.t.uploads[id], Moved(id, rest)), order, now)
  {
    ViewMove(cfg, s, id, Moved(id, rest));
    TargetAfterMove(ViewOf(s), now, order, id);
  }

  lemma AimResolve(cfg: Config, s: Sys, node: Id, order: seq<Id>, now: int)
    requires Inv(cfg, s) && OnTrack(s, order, now) && Covers(order, s.t.uploads)
    ensures Aimed(s, StepResolveNext(s, node), order, now)
  {
    hide Inv, Covers, Repair, KeyStored, MoveStagingToObject;
    if s.pc.Resolving? && s.pc.todo != [] && node !in s.used { AimResolveRow(cfg, s, node, order, now); }
  }

  lemma AimResolveRow(cfg: Config, s: Sys, node: Id, order: seq<Id>, now: int)
    requires Inv(cfg, s) && OnTrack(s, order, now) && Covers(order, s.t.uploads)
    requires s.pc.Resolving? && s.pc.todo != [] && node !in s.used
    ensures Aimed(s, StepResolveNext(s, node), order, now)
  {
    hide TablesInv, UsedOk, DoomedOk, WithinQuota, Aimed, Repair, MoveStagingToObject, Covers;
    var id, rest := s.pc.todo[0], s.pc.todo[1..];
    assert s.pc.todo == [id] + rest && s.t.uploads[id].state == Finalizing;
    assert UploadAt(cfg, s, id);
    UnfinishedKey(cfg, s, id);
    if s.t.uploads[id].finalKey in s.objects {
      AimRepair(cfg, s, id, rest, node, order, now);
    } else {
      AimMove(cfg, s, id, rest, order, now);
    }
  }

  lemma AimUnstage(cfg: Config, s: Sys, order: seq<Id>, now: int)
    requires Inv(cfg, s) && OnTrack(s, order, now)
    ensures Aimed(s, StepRemoveStaging(s), order, now)
  {
    match s.pc
    case ExpiredRow(sk, todo, n) => ViewUnstage(s, sk, Expiring(todo, n));
    case Leftover(sk, todo) => ViewUnstage(s, sk, Resolving(todo));
    case _ =>
  }

  lemma AimOther(cfg: Config, s: Sys, a: Action, order: seq<Id>, now: int)
    requires OnTrack(s, order, now) && Recovering(s, a, order, now)
    requires a.BeginReconcile? || a.CollectFinalizing? || a.EndReconcile? || a.Crash?
    ensures Aimed(s, Step(cfg, s, a), order, now)
  {
    if a.BeginReconcile? && s.pc.Idle? && Enumerates(a.expired, ExpiredIds(s.t.uploads, a.now)) {
      forall i | 0 <= i < |a.expired|
        ensures a.expired[i] in s.t.uploads && s.t.uploads[a.expired[i]].expiresAt < a.now {
        assert a.expired[i] in a.expired;
      }
    }
  }

  /** One step of a recovery, crash included, leaves the target where it is. */
  lemma AimStep(cfg: Config, s: Sys, a: Action, order: seq<Id>, now: int)
    requires Inv(cfg, s) && OnTrack(s, order, now) && Covers(order, s.t.uploads) && Recovering(s, a, order, now)
    ensures Aimed(s, Step(cfg, s, a), order, now)
  {
    hide Inv, OnTrack, Covers, Aimed, StepFree, StepExpireNext, StepRemoveStaging, StepResolveNext, StepCommitMoved;
    match a
    case ExpireNext => AimExpire(cfg, s, order, now);
    case RemoveStaging => AimUnstage(cfg, s, order, now);
    case ResolveNext(node) => AimResolve(cfg, s, node, order, now);
    case CommitMoved(node) => AimCommitMoved(cfg, s, node, order, now);
    case BeginReconcile(_, _) => AimOther(cfg, s, a, order, now);
    case CollectFinalizing(_) => AimOther(cfg, s, a, order, now);
    case EndReconcile => AimOther(cfg, s, a, order, now);
    case Crash => AimOther(cfg, s, a, order, now);
  }

  lemma AimCommitMoved(cfg: Config, s: Sys, node: Id, order: seq<Id>, now: int)
    requires Inv(cfg, s) && OnTrack(s, order, now) && Covers(order, s.t.uploads)
    ensures Aimed(s, StepCommitMoved(s, node), order, now)
  {
    hide TablesInv, UsedOk, DistinctKeys, UploadAt, FilesOk, DoomedOk, WithinQuota, Repair, Covers;
    if s.pc.Moved? && node !in s.used { AimRepair(cfg, s, s.pc.id, s.pc.todo, node, order, now); }
  }

  lemma {:induction false} AimRun(cfg: Config, s: Sys, actions: seq<Action>, order: seq<Id>, now: int)
    requires Sane(cfg) && Inv(cfg, s) && OnTrack(s, order, now) && Covers(order, s.t.uploads)
    requires RecoveryRun(cfg, s, actions, order, now)
    ensures Inv(cfg, Run(cfg, s, actions)) && Aimed(s, Run(cfg, s, actions), order, now)
    decreases |actions|
  {
    hide Inv, Step, Target, ViewOf, OnTrack;
    if actions != [] {
      AimStep(cfg, s, actions[0], order, now);
      StepKeeps(cfg, s, actions[0]);
      AimRun(cfg, Step(cfg, s, actions[0]), actions[1..], order, now);
    }
  }

  // ---------------------------------------------------------------- a reconciliation that runs to its end

  /** One uninterrupted reconciliation at time `now` is under way: whatever is stale is still on its list, or there
      is nothing stale left. */
  ghost predicate Sweeping(s: Sys, now: int) {
    match s.pc
    case Expiring(todo, n) => n == now && ExpiredIds(s.t.uploads, now) <= Elems(todo)
    case ExpiredRow(_, todo, n) => n == now && ExpiredIds(s.t.uploads, now) <= Elems(todo)
    case Resolving(_) => ExpiredIds(s.t.uploads, now) == {}
    case Leftover(_, _) => ExpiredIds(s.t.uploads, now) == {}
    case Moved(_, _) => ExpiredIds(s.t.uploads, now) == {}
    case _ => false
  }

  /** Steps inside one reconciliation. */
  ghost predicate Inside(a: Action) {
    a.ExpireNext? || a.CollectFinalizing? || a.RemoveStaging? || a.ResolveNext? || a.CommitMoved?
  }

  /** A complete reconciliation: it begins, works through steps of its own, and ends because its list is empty. */
  ghost predicate RunsToEnd(cfg: Config, s: Sys, run: seq<Action>, order: seq<Id>, now: int) {
    && s.pc.Idle? && |run| >= 2 && RecoveryRun(cfg, s, run, order, now)
    && run[0].BeginReconcile? && run[0].now == now && Step(cfg, s, run[0]).pc.Expiring?
    && (forall i | 1 <= i < |run| - 1 :: Inside(run[i]))
    && run[|run| - 1].EndReconcile? && Run(cfg, s, run[..|run| - 1]).pc == Resolving([])
  }

  lemma SweepExpire(cfg: Config, s: Sys, now: int)
    requires Inv(cfg, s) && Sweeping(s, now)
    ensures Sweeping(StepExpireNext(s), now)
  {
    hide TablesInv, UsedOk, DistinctKeys, UploadsOk, FilesOk, DoomedOk, WithinQuota;
    if s.pc.Expiring? && s.pc.todo != [] {
      var id := s.pc.todo[0];
      assert s.pc.todo == [id] + s.pc.todo[1..];
      assert ExpiredIds(Close(s.t, id, Expired).uploads, now) == ExpiredIds(s.t.uploads, now) - {id};
    }
  }

  lemma SweepRepair(cfg: Config, s: Sys, id: Id, node: Id, now: int)
    requires id in s.t.uploads && !Accepting(s.t.uploads[id].state)
    ensures ExpiredIds(RepairFile(s.t, id, node).uploads, now) == ExpiredIds(s.t.uploads, now)
  {
    RepairedRow(s, id, node);
  }

  lemma SweepResolve(cfg: Config, s: Sys, node: Id, now: int)
    requires Inv(cfg, s) && Sweeping(s, now)
    ensures Sweeping(StepResolveNext(s, node), now)
  {
    if s.pc.Resolving? && s.pc.todo != [] && node !in s.used {
      var id := s.pc.todo[0];
      assert s.t.uploads[id].state == Finalizing;
      assert UploadAt(cfg, s, id);
      SweepRepair(cfg, s, id, node, now);
      UnfinishedKey(cfg, s, id);
    }
  }

  lemma SweepMoved(cfg: Config, s: Sys, node: Id, now: int)
    requires Inv(cfg, s) && Sweeping(s, now)
    ensures Sweeping(StepCommitMoved(s, node), now)
  {
    if s.pc.Moved? { SweepRepair(cfg, s, s.pc.id, node, now); }
  }

  lemma SweepStep(cfg: Config, s: Sys, a: Action, now: int)
    requires Inv(cfg, s) && Sweeping(s, now) && Inside(a)
    ensures Sweeping(Step(cfg, s, a), now)
  {
    hide Inv, Sweeping, StepFree, StepExpireNext, StepRemoveStaging, StepResolveNext, StepCommitMoved, StepCollect;
    match a
    case ExpireNext => SweepExpire(cfg, s, now);
    case CollectFinalizing(todo) => SweepCollect(s, todo, now);
    case RemoveStaging => SweepUnstage(s, now);
    case ResolveNext(node) => SweepResolve(cfg, s, node, now);
    case CommitMoved(node) => SweepMoved(cfg, s, node, now);
  }

  lemma SweepCollect(s: Sys, todo: seq<Id>, now: int)
    requires Sweeping(s, now)
    ensures Sweeping(StepCollect(s, todo), now)
  {
    hide FinalizingIds, ExpiredIds;
  }

  lemma SweepUnstage(s: Sys, now: int)
    requires Sweeping(s, now)
    ensures Sweeping(StepRemoveStaging(s), now)
  {
    hide FinalizingIds, ExpiredIds;
  }

  lemma {:induction false} SweepRun(cfg: Config, s: Sys, actions: seq<Action>, now: int)
    requires Sane(cfg) && Inv(cfg, s) && Sweeping(s, now) && forall i | 0 <= i < |actions| :: Inside(actions[i])
    ensures Sweeping(Run(cfg, s, actions), now)
    decreases |actions|
  {
    hide Inv, Sweeping, Step;
    if actions != [] {
      SweepStep(cfg, s, actions[0], now);
      StepKeeps(cfg, s, actions[0]);
      SweepRun(cfg, Step(cfg, s, actions[0]), actions[1..], now);
    }
  }

  lemma {:induction false} RunConcat(cfg: Config, s: Sys, a: seq<Action>, b: seq<Action>)
    ensures Run(cfg, s, a + b) == Run(cfg, Run(cfg, s, a), b)
    decreases |a|
  {
    if a == [] {
      assert a + b == b;
    } else {
      assert (a + b)[0] == a[0] && (a + b)[1..] == a[1..] + b;
      RunConcat(cfg, Step(cfg, s, a[0]), a[1..], b);
    }
  }

  lemma BeginSweeps(cfg: Config, s: Sys, a: Action, now: int)
    requires s.pc.Idle? && a.BeginReconcile? && a.now == now && Step(cfg, s, a).pc.Expiring?
    ensures Sweeping(Step(cfg, s, a), now)
  {
    assert Elems(a.expired) == ExpiredIds(s.t.uploads, now);
  }

  lemma EndStep(cfg: Config, s: Sys)
    requires s.pc == Resolving([])
    ensures Run(cfg, s, [EndReconcile]) == s.(pc := Idle)
  {
    assert Run(cfg, s, [EndReconcile]) == Run(cfg, Step(cfg, s, EndReconcile), []);
  }

  lemma RunOne(cfg: Config, s: Sys, a: Action)
    ensures Run(cfg, s, [a]) == Step(cfg, s, a)
  {
    assert Run(cfg, s, [a]) == Run(cfg, Step(cfg, s, a), []);
  }

  lemma LastSweeps(cfg: Config, s: Sys, run: seq<Action>, order: seq<Id>, now: int)
    requires Sane(cfg) && Inv(cfg, s) && RunsToEnd(cfg, s, run, order, now)
    ensures Sweeping(Run(cfg, s, run[..|run| - 1]), now)
    ensures Run(cfg, s, run) == Run(cfg, s, run[..|run| - 1]).(pc := Idle)
  {
    hide Inv, Sweeping;
    var mid := run[1..|run| - 1];
    assert run[..|run| - 1] == [run[0]] + mid && run == run[..|run| - 1] + [EndReconcile];
    StepKeeps(cfg, s, run[0]);
    BeginSweeps(cfg, s, run[0], now);
    SweepRun(cfg, Step(cfg, s, run[0]), mid, now);
    RunOne(cfg, s, run[0]);
    RunConcat(cfg, s, [run[0]], mid);
    RunConcat(cfg, s, run[..|run| - 1], [EndReconcile]);
    EndStep(cfg, Run(cfg, s, run[..|run| - 1]));
  }

  /** A complete reconciliation reaches the target of the state it started from, and leaves nothing to do: no row
      is being finalised and none is stale. */
  lemma CompleteReaches(cfg: Config, s: Sys, run: seq<Action>, order: seq<Id>, now: int)
    requires Sane(cfg) && Inv(cfg, s) && Covers(order, s.t.uploads) && RunsToEnd(cfg, s, run, order, now)
    ensures Run(cfg, s, run).pc.Idle? && ViewOf(Run(cfg, s, run)) == Target(ViewOf(s), now, order)
    ensures FinalizingIds(Run(cfg, s, run).t.uploads) == {} && ExpiredIds(Run(cfg, s, run).t.uploads, now) == {}
  {
    LastSweeps(cfg, s, run, order, now);
    AimRun(cfg, s, run, order, now);
    NothingLeft(cfg, s, run, Run(cfg, s, run[..|run| - 1]), order, now);
  }

  lemma NothingLeft(cfg: Config, s: Sys, run: seq<Action>, s9: Sys, order: seq<Id>, now: int)
    requires Sane(cfg) && Inv(cfg, s) && Covers(order, s.t.uploads) && OnTrack(s, order, now)
    requires run != [] && s9 == Run(cfg, s, run[..|run| - 1]) && RecoveryRun(cfg, s, run, order, now)
    requires s9.pc == Resolving([]) && Sweeping(s9, now) && Run(cfg, s, run) == s9.(pc := Idle)
    requires Target(ViewOf(Run(cfg, s, run)), now, order) == Target(ViewOf(s), now, order)
    ensures ViewOf(Run(cfg, s, run)) == Target(ViewOf(s), now, order)
    ensures FinalizingIds(Run(cfg, s, run).t.uploads) == {} && ExpiredIds(Run(cfg, s, run).t.uploads, now) == {}
  {
    RecoveryPrefix(cfg, s, run, |run| - 1, order, now);
    AimRun(cfg, s, run[..|run| - 1], order, now);
    SelectFrom(order, FinalizingIds(s9.t.uploads));
    assert FinalizingIds(s9.t.uploads) == {} by {
      forall x | x in order ensures x !in FinalizingIds(s9.t.uploads) {
        assert x !in Select(order, FinalizingIds(s9.t.uploads));
      }
      assert forall x | x in FinalizingIds(s9.t.uploads) :: x in order;
    }
    TargetOfDone(ViewOf(s9.(pc := Idle)), now, order);
  }

  lemma {:induction false} RecoveryPrefix(cfg: Config, s: Sys, run: seq<Action>, k: nat, order: seq<Id>, now: int)
    requires k <= |run| && RecoveryRun(cfg, s, run, order, now)
    ensures RecoveryRun(cfg, s, run[..k], order, now)
    decreases k
  {
    if k > 0 {
      assert run[..k][1..] == run[1..][..k - 1];
      RecoveryPrefix(cfg, Step(cfg, s, run[0]), run[1..], k - 1, order, now);
    }
  }

  /** Crash-recovery convergence. Let reconciliations be interrupted by crashes at any points and as often as may be
      (`attempts`), at times up to `now`; let one at `now` then run to its end (`final`). The state reached has the
      view that an uninterrupted reconciliation at `now` (`direct`) reaches from the start, whatever identifiers
      either draws. */
  lemma RecoveryConverges(cfg: Config, s: Sys, attempts: seq<Action>, final: seq<Action>, direct: seq<Action>,
                          order: seq<Id>, now: int)
    requires Sane(cfg) && Inv(cfg, s) && s.pc.Idle? && Covers(order, s.t.uploads)
    requires RecoveryRun(cfg, s, attempts, order, now)
    requires RunsToEnd(cfg, Run(cfg, s, attempts), final, order, now)
    requires RunsToEnd(cfg, s, direct, order, now)
    ensures ViewOf(Run(cfg, Run(cfg, s, attempts), final)) == ViewOf(Run(cfg, s, direct))
    ensures FinalizingIds(Run(cfg, Run(cfg, s, attempts), final).t.uploads) == {}
  {
    AimRun(cfg, s, attempts, order, now);
    CompleteReaches(cfg, Run(cfg, s, attempts), final, order, now);
    CompleteReaches(cfg, s, direct, order, now);
  }

  /** A crash after phase A recovers to the same view whether phase B had happened or not. */
  lemma PhaseBImmaterial(cfg: Config, s: Sys, order: seq<Id>, now: int)
    requires Inv(cfg, s) && s.pc.Intent? && Covers(order, s.t.uploads)
    ensures Target(ViewOf(StepPhaseB(s)), now, order) == Target(ViewOf(s), now, order)
  {
    ViewMove(cfg, s, s.pc.id, Renamed(s.pc.id));
    TargetAfterMove(ViewOf(s), now, order, s.pc.id);
  }

  /** An upload being finalised gains its file exactly when its name is free on its turn, that is, after the rows
      before it have been dealt with. */
  lemma FileGainedIff(cfg: Config, s: Sys, pre: seq<Id>, id: Id, post: seq<Id>, now: int)
    requires Inv(cfg, s) && Covers(pre + [id] + post, s.t.uploads)
    requires id in s.t.uploads && s.t.uploads[id].state == Finalizing
    ensures var u := s.t.uploads[id]; var turn := Target(ViewOf(s), now, pre);
      KeyIn(Target(ViewOf(s), now, pre + [id] + post), u.finalKey) <==> (u.parent, u.name.key) !in turn.slots
  {
    var v := ExpireAll(ViewOf(s), now);
    var order := pre + [id] + post;
    OnceIn(pre, id, post);
    ExpireKeepsFinalizing(ViewOf(s), now);
    assert id in FinalizingIds(v.uploads);
    NoEntryYet(cfg, s, id);
    GainedIff(v, pre, id, post);
  }

  /** What a reconciliation makes of each row: stale rows expire, rows being finalised complete, and all others,
      among them rows left in verifying by a crash, stay as they are. */
  lemma RowOutcome(cfg: Config, s: Sys, pre: seq<Id>, id: Id, post: seq<Id>, now: int)
    requires Inv(cfg, s) && Covers(pre + [id] + post, s.t.uploads) && id in s.t.uploads
    ensures var u := s.t.uploads[id]; var after := Target(ViewOf(s), now, pre + [id] + post).uploads;
      id in after && after[id] ==
        if u.state == Finalizing then Closed(u, Complete)
        else if Accepting(u.state) && u.expiresAt < now then Closed(u, Expired) else u
  {
    hide TablesInv, UsedOk, UploadsOk, FilesOk, DoomedOk, WithinQuota, PcOk, Slots, Catalog, FoldersOf, Pending;
    var v := ExpireAll(ViewOf(s), now);
    OnceIn(pre, id, post);
    ExpireKeepsFinalizing(ViewOf(s), now);
    if s.t.uploads[id].state == Finalizing { NoEntryYet(cfg, s, id); }
    OwnOutcome(v, pre, id, post);
  }

  lemma OnceIn(pre: seq<Id>, id: Id, post: seq<Id>)
    requires NoDup(pre + [id] + post)
    ensures id !in pre && id !in post
  {
    var order := pre + [id] + post;
    assert order[|pre|] == id;
    forall i | 0 <= i < |pre| ensures pre[i] != id { assert order[i] == pre[i]; }
    forall i | 0 <= i < |post| ensures post[i] != id { assert order[|pre| + 1 + i] == post[i]; }
  }

  lemma OwnOutcome(v: View, pre: seq<Id>, id: Id, post: seq<Id>)
    requires DistinctIn(v) && id in v.uploads && id !in pre && id !in post
    requires v.uploads[id].state == Finalizing ==>
      v.uploads[id].finalKey in v.objects || v.uploads[id].stagingKey in v.pending
    ensures var u := v.uploads[id]; var after := ResolveAll(v, pre + [id] + post).uploads;
      id in after && after[id] == if u.state == Finalizing then Closed(u, Complete) else u
  {
    var u := v.uploads[id];
    OthersLeaveAlone(v, pre, id, u);
    var turn := ResolveAll(v, pre);
    var done := ResolveRow(turn, id);
    DistinctAfter(turn, id);
    OthersLeaveAlone(done, post, id, done.uploads[id]);
    ResolveConcat(v, pre, [id] + post);
    assert pre + ([id] + post) == pre + [id] + post;
    assert ([id] + post)[0] == id && ([id] + post)[1..] == post;
    assert ResolveAll(turn, [id] + post) == ResolveAll(done, post);
  }

  lemma GainedIff(v: View, pre: seq<Id>, id: Id, post: seq<Id>)
    requires DistinctIn(v) && id in v.uploads && v.uploads[id].state == Finalizing && id !in pre && id !in post
    requires !KeyIn(v, v.uploads[id].finalKey)
    requires v.uploads[id].finalKey in v.objects || v.uploads[id].stagingKey in v.pending
    ensures var u := v.uploads[id];
      KeyIn(ResolveAll(v, pre + [id] + post), u.finalKey) <==> (u.parent, u.name.key) !in ResolveAll(v, pre).slots
  {
    var u := v.uploads[id];
    OthersLeaveAlone(v, pre, id, u);
    var turn := ResolveAll(v, pre);
    var done := ResolveRow(turn, id);
    RowGainsIff(turn, id);
    DistinctAfter(turn, id);
    OthersLeaveAlone(done, post, id, done.uploads[id]);
    ResolveConcat(v, pre, [id] + post);
    assert pre + ([id] + post) == pre + [id] + post;
    assert ([id] + post)[0] == id && ([id] + post)[1..] == post;
    assert ResolveAll(turn, [id] + post) == ResolveAll(done, post);
  }

  lemma RowGainsIff(v: View, id: Id)
    requires id in v.uploads && v.uploads[id].state == Finalizing && !KeyIn(v, v.uploads[id].finalKey)
    requires v.uploads[id].finalKey in v.objects || v.uploads[id].stagingKey in v.pending
    ensures var u := v.uploads[id];
      && (KeyIn(ResolveRow(v, id), u.finalKey) <==> (u.parent, u.name.key) !in v.slots)
      && id in ResolveRow(v, id).uploads && ResolveRow(v, id).uploads[id].finalKey == u.finalKey
  {
    var u := v.uploads[id];
    assert NewEntry(u).key == u.finalKey;
    if (u.parent, u.name.key) !in v.slots { assert NewEntry(u) in ResolveRow(v, id).catalog; }
  }

  lemma NoEntryYet(cfg: Config, s: Sys, id: Id)
    requires Inv(cfg, s) && id in s.t.uploads && s.t.uploads[id].state == Finalizing
    ensures forall e | e in Catalog(s.t) :: e.key != s.t.uploads[id].finalKey
    ensures var u := s.t.uploads[id]; u.finalKey in s.objects || u.stagingKey in Pending(s.t.uploads, s.staging)
  {
    UnfinishedKey(cfg, s, id);
    assert UploadAt(cfg, s, id);
    assert s.t.uploads[id].stagingKey in Needed(s.t.uploads);
  }

  ghost predicate KeyIn(v: View, k: Key) {
    exists e :: e in v.catalog && e.key == k
  }

  lemma OtherLeavesAlone(v: View, x: Id, id: Id, u: Upload)
    requires DistinctIn(v) && id != x && id in v.uploads && v.uploads[id] == u
    ensures var w := ResolveRow(v, x);
      && id in w.uploads && w.uploads[id] == u
      && (KeyIn(w, u.finalKey) <==> KeyIn(v, u.finalKey))
      && (u.finalKey in w.objects <==> u.finalKey in v.objects)
      && (u.stagingKey in v.pending ==> u.stagingKey in w.pending)
  {
    if x in v.uploads { assert Apart(v.uploads, x, id); }
    assert KeyIn(ResolveRow(v, x), u.finalKey) <==> KeyIn(v, u.finalKey);
  }

  /** Resolving other rows changes nothing that the row of `id` depends on, except that names may be taken. */
  lemma {:induction false} OthersLeaveAlone(v: View, order: seq<Id>, id: Id, u: Upload)
    requires DistinctIn(v) && id !in order && id in v.uploads && v.uploads[id] == u
    ensures var w := ResolveAll(v, order);
      && DistinctIn(w) && id in w.uploads && w.uploads[id] == u
      && (KeyIn(w, u.finalKey) <==> KeyIn(v, u.finalKey))
      && (u.finalKey in v.objects ==> u.finalKey in w.objects)
      && (u.finalKey !in v.objects ==> u.finalKey !in w.objects)
      && (u.stagingKey in v.pending ==> u.stagingKey in w.pending)
    decreases |order|
  {
    hide ResolveRow, KeyIn;
    if order != [] {
      var x := order[0];
      assert order == [x] + order[1..];
      OtherLeavesAlone(v, x, id, u);
      DistinctAfter(v, x);
      OthersLeaveAlone(ResolveRow(v, x), order[1..], id, u);
    }
  }

  lemma {:induction false} ResolveConcat(v: View, a: seq<Id>, b: seq<Id>)
    ensures ResolveAll(v, a + b) == ResolveAll(ResolveAll(v, a), b)
    decreases |a|
  {
    if a == [] {
      assert a + b == b;
    } else {
      assert (a + b)[0] == a[0] && (a + b)[1..] == a[1..] + b;
      ResolveConcat(ResolveRow(v, a[0]), a[1..], b);
    }
  }
}
