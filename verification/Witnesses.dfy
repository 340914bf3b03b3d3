/** Concrete runs from the freshly migrated system: each way in which an object or a staging file is left behind, and
    the runs in which a guarantee that depends on a condition fails because the condition does. */
module Witnesses {
  import opened Basics
  import opened Schema
  import opened Forest
  import opened Tree
  import opened Purge
  import opened Machine
  import opened Convergence
  import opened OpRuns
  import opened Safety
  import opened Orphans
  import Invariant

  /** A deployment with room for one byte. */
  const CFG := Config(1, 1, 60, 1, (b: Bytes) => "checksum")

  const SK: Key := "aaaaaaaaaaaaaaaaaaaaaaaaaaaaaaaa"
  const FK: Key := "bbbbbbbbbbbbbbbbbbbbbbbbbbbbbbbb"
  const SK2: Key := "cccccccccccccccccccccccccccccccc"
  const FK2: Key := "dddddddddddddddddddddddddddddddd"

  const NAME := Name("A", "a")
  const NAME2 := Name("B", "b")

  /** The upload "u" of the state, its commits and how it stands. */
  predicate Stands(s: Sys, st: UploadState, commits: nat) {
    s.pc.Idle? && "u" in s.t.uploads && "u" in s.hist && s.t.uploads["u"].state == st && s.hist["u"].commits == commits
  }

  /** The object of "u" is there, without a file row and without a removal owed. */
  predicate Orphan(s: Sys) {
    FK in s.objects && !KeyStored(s.t.files, FK) && FK !in s.doomed
  }

  /** The staging file is there, and nobody will remove it. */
  predicate Left(s: Sys) {
    SK in s.staging && SK in s.left && SK !in Held(s.pc)
  }

  lemma AfterThat(actions: seq<Action>, a: Action)
    ensures After(CFG, actions + [a]) == Step(CFG, After(CFG, actions), a)
  {
    hide Step;
    RunConcat(CFG, INITIAL_SYS, actions, [a]);
    RunOne(CFG, After(CFG, actions), a);
  }

  lemma CrashDoes(s: Sys)
    ensures Step(CFG, s, Crash) == StepCrash(s)
  {
    hide StepUpload, StepReconcile, StepCrash;
  }

  // ---------------------------------------------------------------- creating the upload "u"

  /** Up to the staging file of an upload of `n` bytes. */
  function Staging(n: nat): seq<Action> {
    [] + [CheckParent(ROOT)] + [BeginCreate(Request(ROOT, NAME, n))] + [ReadStored] + [ReadReserved(true)]
      + [CreateStaging(SK, FK)]
  }

  function Creation(n: nat): seq<Action> {
    Staging(n) + [InsertUpload("u", 0)]
  }

  function Used(): set<string> {
    {"", ROOT, TRASH} + {SK, FK}
  }

  function StagingState(n: nat): Sys {
    Sys(INITIAL, map[SK := []], map[], Staged(Request(ROOT, NAME, n), SK, FK), {}, {ROOT}, Used(), map[], {}, {}, {},
        false)
  }

  function Fresh(n: nat): Upload {
    Upload(ROOT, NAME, n, 0, n, SK, FK, Created, None, 60)
  }

  function With(u: Upload): Tables {
    INITIAL.(uploads := map["u" := u])
  }

  function CreatedState(n: nat): Sys {
    Sys(With(Fresh(n)), map[SK := []], map[], Idle, {}, {ROOT}, Used() + {"u"}, map["u" := NO_HISTORY], {}, {}, {},
        false)
  }

  lemma EmptySums()
    ensures StoredBytes(INITIAL) == 0 && ReservedBytes(INITIAL) == 0
  {
    assert Sizes(INITIAL.files) == map[] && Holds(INITIAL.uploads) == map[];
  }

  lemma StagingRun(n: nat)
    requires n <= 1
    ensures After(CFG, Staging(n)) == StagingState(n)
  {
    hide Step, Sum;
    var req := Request(ROOT, NAME, n);
    var r1 := [] + [CheckParent(ROOT)];
    var r2 := r1 + [BeginCreate(req)];
    var r3 := r2 + [ReadStored];
    var r4 := r3 + [ReadReserved(true)];
    AfterThat([], CheckParent(ROOT));
    AfterThat(r1, BeginCreate(req));
    AfterThat(r2, ReadStored);
    AfterThat(r3, ReadReserved(true));
    AfterThat(r4, CreateStaging(SK, FK));
    var s1 := INITIAL_SYS.(seen := {ROOT});
    var s2 := s1.(pc := Admitting(req));
    CheckParentDoes(CFG, INITIAL_SYS, ROOT);
    BeginCreateDoes(CFG, s1, req);
    EmptySums();
    ReadSumsDo(CFG, s2, false, false, true);
    var s4 := s1.(pc := Admitted(req));
    assert Step(CFG, Step(CFG, s2, ReadStored), ReadReserved(true)) == s4;
    FirstDraw(s4);
    CreateStagingDoes(CFG, s4, SK, FK);
    assert After(CFG, []) == INITIAL_SYS;
    assert INITIAL_SYS.(seen := INITIAL_SYS.seen + {ROOT}) == s1;
    assert After(CFG, r4) == s4;
    assert s4.(staging := s4.staging[SK := []], used := s4.used + {SK, FK}, pc := Staged(req, SK, FK))
      == StagingState(n);
  }

  lemma FirstDraw(s: Sys)
    requires s.used == {"", ROOT, TRASH}
    ensures MayDraw(s, SK, FK)
  {
    assert SK[0] == 'a' && FK[0] == 'b';
  }

  lemma CreationRun(n: nat)
    requires n <= 1
    ensures After(CFG, Creation(n)) == CreatedState(n)
  {
    hide Step;
    StagingRun(n);
    AfterThat(Staging(n), InsertUpload("u", 0));
    assert SK[0] == 'a' && FK[0] == 'b';
    InsertUploadDoes(CFG, StagingState(n), "u", 0);
  }

  // ---------------------------------------------------------------- sending its bytes

  /** A torn write of `junk`, then the one chunk that completes the upload. */
  function Sending(junk: Bytes, chunk: Bytes): seq<Action> {
    Creation(|chunk|) + [AppendTorn("u", 0, junk, 0)] + [Append("u", 0, chunk, 0)] + [Record]
  }

  function Full(n: nat): Upload {
    Fresh(n).(received := n, state := Verifying)
  }

  function SentState(junk: Bytes, chunk: Bytes): Sys {
    CreatedState(|chunk|).(t := With(Full(|chunk|)), staging := map[SK := junk + chunk], pc := Verified("u"),
                           hist := map["u" := History(chunk, |junk|, 0, false)])
  }

  function TornState(junk: Bytes, n: nat): Sys {
    CreatedState(n).(staging := map[SK := junk], hist := map["u" := History([], |junk|, 0, false)])
  }

  function ChunkState(junk: Bytes, chunk: Bytes): Sys {
    CreatedState(|chunk|).(staging := map[SK := junk + chunk],
      hist := map["u" := History([], |junk| + |chunk|, 0, false)], pc := Appended("u", chunk))
  }

  lemma SendingRun(junk: Bytes, chunk: Bytes)
    requires |chunk| <= 1
    ensures After(CFG, Sending(junk, chunk)) == SentState(junk, chunk)
  {
    hide Step, Creation, CreatedState, TornState, ChunkState, SentState, After;
    CreationRun(|chunk|);
    var r1 := Creation(|chunk|) + [AppendTorn("u", 0, junk, 0)];
    var r2 := r1 + [Append("u", 0, chunk, 0)];
    AfterThat(Creation(|chunk|), AppendTorn("u", 0, junk, 0));
    AfterThat(r1, Append("u", 0, chunk, 0));
    AfterThat(r2, Record);
    TornDoes(junk, |chunk|);
    ChunkDoes(junk, chunk);
    SentDoes(junk, chunk);
  }

  lemma TornDoes(junk: Bytes, n: nat)
    ensures Step(CFG, CreatedState(n), AppendTorn("u", 0, junk, 0)) == TornState(junk, n)
  {
    hide Step;
    AppendDoes(CFG, CreatedState(n), "u", 0, junk, 0, true);
    assert [] + junk == junk;
  }

  lemma ChunkDoes(junk: Bytes, chunk: Bytes)
    ensures Step(CFG, TornState(junk, |chunk|), Append("u", 0, chunk, 0)) == ChunkState(junk, chunk)
  {
    hide Step;
    AppendDoes(CFG, TornState(junk, |chunk|), "u", 0, chunk, 0, false);
  }

  lemma SentDoes(junk: Bytes, chunk: Bytes)
    requires |chunk| <= 1
    ensures Step(CFG, ChunkState(junk, chunk), Record) == SentState(junk, chunk)
  {
    hide StepFree, StepReconcile;
    assert [] + chunk == chunk;
    assert StepRecord(ChunkState(junk, chunk)) == SentState(junk, chunk);
  }

  function Intending(junk: Bytes, chunk: Bytes): seq<Action> {
    Sending(junk, chunk) + [PhaseA]
  }

  function Sealed(n: nat): Upload {
    Full(n).(state := Finalizing, sha := Some("checksum"))
  }

  function IntentState(junk: Bytes, chunk: Bytes): Sys {
    SentState(junk, chunk).(t := With(Sealed(|chunk|)), pc := Intent("u"))
  }

  lemma IntendingRun(junk: Bytes, chunk: Bytes)
    requires |chunk| <= 1
    ensures After(CFG, Intending(junk, chunk)) == IntentState(junk, chunk)
  {
    hide Step;
    SendingRun(junk, chunk);
    AfterThat(Sending(junk, chunk), PhaseA);
    PhaseADoes(CFG, SentState(junk, chunk));
  }

  function Renaming(junk: Bytes, chunk: Bytes): seq<Action> {
    Intending(junk, chunk) + [PhaseB]
  }

  function RenamedState(junk: Bytes, chunk: Bytes): Sys {
    IntentState(junk, chunk).(staging := map[], objects := map[FK := junk + chunk], renamed := {FK}, pc := Renamed("u"))
  }

  lemma RenamingRun(junk: Bytes, chunk: Bytes)
    requires |chunk| <= 1
    ensures After(CFG, Renaming(junk, chunk)) == RenamedState(junk, chunk)
  {
    hide Step;
    IntendingRun(junk, chunk);
    AfterThat(Intending(junk, chunk), PhaseB);
    PhaseBDoes(CFG, IntentState(junk, chunk));
    assert map[SK := junk + chunk] - {SK} == map[];
  }

  function Committing(junk: Bytes, chunk: Bytes): seq<Action> {
    Renaming(junk, chunk) + [PhaseC("n")]
  }

  function Done(n: nat): Tables {
    Tables(INITIAL.nodes["n" := FileRow(Sealed(n))], map["n" := FileObject(FK, n, "checksum")],
           map["u" := Sealed(n).(state := Complete, reservation := 0)], map[])
  }

  function DoneState(junk: Bytes, chunk: Bytes): Sys {
    RenamedState(junk, chunk).(t := Done(|chunk|), pc := Idle, used := Used() + {"u"} + {"n"},
                               hist := map["u" := History(chunk, |junk|, 1, false)])
  }

  lemma CommittingRun(junk: Bytes, chunk: Bytes)
    requires |chunk| <= 1
    ensures After(CFG, Committing(junk, chunk)) == DoneState(junk, chunk)
  {
    hide Step, RenamedState, DoneState, Renaming, After;
    RenamingRun(junk, chunk);
    AfterThat(Renaming(junk, chunk), PhaseC("n"));
    CommitDoes(junk, chunk);
  }

  lemma CommitDoes(junk: Bytes, chunk: Bytes)
    ensures Step(CFG, RenamedState(junk, chunk), PhaseC("n")) == DoneState(junk, chunk)
  {
    hide StepFree, StepReconcile, CommitFile;
    assert SK[0] == 'a' && FK[0] == 'b';
    DoneTables(|chunk|);
  }

  lemma DoneTables(n: nat)
    ensures CommitFile(With(Sealed(n)), "u", "n", "checksum") == Ok(Done(n))
  {
    var t := With(Sealed(n));
    assert InsertNode(t.nodes, "n", FileRow(Sealed(n))) == Ok(Done(n).nodes);
    assert map[]["n" := FileObject(FK, n, "checksum")] == Done(n).files;
    assert InsertFile(t.(nodes := Done(n).nodes), "n", FileObject(FK, n, "checksum"))
           == Ok(t.(nodes := Done(n).nodes, files := Done(n).files));
    assert t.uploads["u" := Sealed(n).(state := Complete, reservation := 0)] == Done(n).uploads;
  }

  // ---------------------------------------------------------------- spoilt content

  /** One torn byte, then the one byte of the upload: the committed file says one byte, its object holds two. */
  lemma ContentSpoilt()
    ensures var s := After(CFG, Committing([7], [8]));
      && "n" in s.t.files && s.t.files["n"].size == 1 && s.t.files["n"].storageKey in s.objects
      && s.objects[s.t.files["n"].storageKey] == [7, 8] && "u" in s.hist && s.hist["u"].accepted == [8]
  {
    CommittingRun([7], [8]);
  }

  // ---------------------------------------------------------------- orphaned objects

  /** A crash after the rename. */
  lemma OrphanByCrash()
    ensures var s := After(CFG, Renaming([], []) + [Crash]);
      Stands(s, Finalizing, 0) && Orphan(s) && Orphaned(s, "u")
  {
    hide Step;
    RenamingRun([], []);
    AfterThat(Renaming([], []), Crash);
    CrashDoes(RenamedState([], []));
  }

  /** Then the upload is terminated; its staging file is gone, and nothing else is removed. */
  lemma OrphanByTermination()
    ensures var s := After(CFG, Renaming([], []) + [Crash] + [Terminate("u")]);
      Stands(s, Terminated, 0) && s.hist["u"].stray == 0 && Orphan(s) && Orphaned(s, "u")
  {
    hide Step;
    RenamingRun([], []);
    var r1 := Renaming([], []) + [Crash];
    AfterThat(Renaming([], []), Crash);
    AfterThat(r1, Terminate("u"));
    CrashDoes(RenamedState([], []));
    TerminateDoes(CFG, StepCrash(RenamedState([], [])), "u");
  }

  /** The upload crashes before the rename, a folder takes its name, and the reconciler completes it without a file. */
  function NameTaken(): seq<Action> {
    Intending([], []) + [Crash] + [DoCreateFolder(Some(ROOT), Some(NAME), "f")] + [BeginReconcile(1, [])]
      + [CollectFinalizing(["u"])]
    + [ResolveNext("m")] + [CommitMoved("n")] + [EndReconcile]
  }

  lemma OrphanByTakenName()
    ensures var s := After(CFG, NameTaken());
      Stands(s, Complete, 0) && s.t.files == map[] && Orphan(s) && Orphaned(s, "u")
  {
    hide Step, Intending, IntentState, After, Stands, Orphan;
    IntendingRun([], []);
    var r1 := Intending([], []) + [Crash];
    var r2 := r1 + [DoCreateFolder(Some(ROOT), Some(NAME), "f")];
    var r3 := r2 + [BeginReconcile(1, [])];
    var r4 := r3 + [CollectFinalizing(["u"])];
    var r5 := r4 + [ResolveNext("m")];
    var r6 := r5 + [CommitMoved("n")];
    AfterThat(Intending([], []), Crash);
    AfterThat(r1, DoCreateFolder(Some(ROOT), Some(NAME), "f"));
    AfterThat(r2, BeginReconcile(1, []));
    AfterThat(r3, CollectFinalizing(["u"]));
    AfterThat(r4, ResolveNext("m"));
    AfterThat(r5, CommitMoved("n"));
    AfterThat(r6, EndReconcile);
    TakenSteps();
    NeverCommitted(After(CFG, NameTaken()));
  }

  lemma NeverCommitted(s: Sys)
    requires Stands(s, Complete, 0)
    ensures Orphaned(s, "u")
  {
  }

  lemma TakenSteps()
    ensures var s2 := Step(CFG, Step(CFG, IntentState([], []), Crash), DoCreateFolder(Some(ROOT), Some(NAME), "f"));
      var s7 := Step(CFG, Step(CFG, Step(CFG, Step(CFG, Step(CFG, s2, BeginReconcile(1, [])), CollectFinalizing(["u"])),
                           ResolveNext("m")), CommitMoved("n")), EndReconcile);
      Stands(s7, Complete, 0) && s7.t.files == map[] && Orphan(s7)
  {
    hide Step, Stands, Orphan;
    CrashDoes(IntentState([], []));
    var s1 := StepCrash(IntentState([], []));
    var folder := Node(Some(ROOT), Folder, NAME, false, None, false);
    var s2 := s1.(t := s1.t.(nodes := s1.t.nodes["f" := folder]), used := s1.used + {"f"});
    FolderTakesName(s1, s2);
    ReconcileTaken(s2);
  }

  lemma FolderTakesName(s1: Sys, s2: Sys)
    requires s1 == StepCrash(IntentState([], []))
    requires s2 == s1.(t := s1.t.(nodes := s1.t.nodes["f" := Node(Some(ROOT), Folder, NAME, false, None, false)]),
      used := s1.used + {"f"})
    ensures Step(CFG, s1, DoCreateFolder(Some(ROOT), Some(NAME), "f")) == s2
  {
    hide StepUpload, StepReconcile;
    assert SK[0] == 'a' && FK[0] == 'b';
    assert SK != "f" && FK != "f";
    assert InsertNode(s1.t.nodes, "f", Node(Some(ROOT), Folder, NAME, false, None, false)) == Ok(s2.t.nodes);
  }

  lemma ReconcileTaken(s2: Sys)
    requires s2.t.uploads == With(Sealed(0)).uploads && s2.t.files == map[] && s2.pc.Idle? && s2.hist.Keys == {"u"}
      && s2.hist["u"].commits == 0
    requires s2.staging == map[SK := []] && s2.objects == map[] && s2.doomed == {} && "m" !in s2.used && "n" !in s2.used
    requires "f" in s2.t.nodes && s2.t.nodes["f"] == Node(Some(ROOT), Folder, NAME, false, None, false)
      && "n" !in s2.t.nodes
    ensures var s4 := Step(CFG, Step(CFG, s2, BeginReconcile(1, [])), CollectFinalizing(["u"]));
      var s7 := Step(CFG, Step(CFG, Step(CFG, s4, ResolveNext("m")), CommitMoved("n")), EndReconcile);
      Stands(s7, Complete, 0) && s7.t.files == map[] && Orphan(s7)
  {
    hide Step;
    NothingStale(s2);
    var s4 := s2.(pc := Resolving(["u"]));
    assert ["u"] == ["u"] + [];
    ResolveStagedDoes(CFG, s4, "u", "m", []);
    var s5 := MoveStagingToObject(s4, s4.t.uploads["u"], Moved("u", []));
    CommitMovedDoes(CFG, s5, "n");
    NoFileForTaken(s5);
    EndDoes(CFG, Repair(s5, "u", "n", Resolving([])));
  }

  lemma NothingStale(s: Sys)
    requires s.pc.Idle? && s.t.uploads == With(Sealed(0)).uploads
    ensures Step(CFG, Step(CFG, s, BeginReconcile(1, [])), CollectFinalizing(["u"])) == s.(pc := Resolving(["u"]))
  {
    hide Step;
    assert ExpiredIds(s.t.uploads, 1) == {};
    BeginReconcileDoes(CFG, s, 1, []);
    assert FinalizingIds(s.t.uploads) == {"u"};
    CollectDoes(CFG, s.(pc := Expiring([], 1)), ["u"]);
  }

  lemma NoFileForTaken(s: Sys)
    requires s.t.uploads == With(Sealed(0)).uploads && s.t.files == map[] && "u" in s.hist && s.hist["u"].commits == 0
    requires "f" in s.t.nodes && s.t.nodes["f"] == Node(Some(ROOT), Folder, NAME, false, None, false)
      && "n" !in s.t.nodes
    ensures var r := Repair(s, "u", "n", Resolving([]));
      r.t.files == map[] && "u" in r.t.uploads && r.t.uploads["u"].state == Complete && "u" in r.hist
        && r.hist["u"].commits == 0
  {
    var row := FileRow(s.t.uploads["u"]);
    assert Clash(row, s.t.nodes["f"]);
    assert !RowFits(s.t.nodes, "n", row);
  }

  /** The file is committed, trashed and purged, and a crash comes before its object is removed. */
  lemma OrphanByLostRemoval()
    ensures var s := After(CFG, Committing([], []) + [DoTrash("n")] + [DoPurge("n", ["n"])] + [Crash]);
      Stands(s, Complete, 1) && s.t.files == map[] && Orphan(s) && Orphaned(s, "u")
  {
    hide Step;
    CommittingRun([], []);
    var r1 := Committing([], []) + [DoTrash("n")];
    var r2 := r1 + [DoPurge("n", ["n"])];
    AfterThat(Committing([], []), DoTrash("n"));
    AfterThat(r1, DoPurge("n", ["n"]));
    AfterThat(r2, Crash);
    var s0 := DoneState([], []);
    var row := FileRow(Sealed(0)).(trashed := true, restoreTo := Some(ROOT), parent := Some(TRASH));
    var s1 := s0.(t := s0.t.(nodes := s0.t.nodes["n" := row]));
    TrashFileDoes(s0, s1, row);
    var s2 := s1.(t := Without(s1.t, {"n"}), doomed := {FK});
    PurgeFileDoes(s1, row);
    CrashDoes(s2);
  }

  lemma TrashFileDoes(s0: Sys, s1: Sys, row: Node)
    requires s0 == DoneState([], []) && s1 == s0.(t := s0.t.(nodes := s0.t.nodes["n" := row]))
    requires row == FileRow(Sealed(0)).(trashed := true, restoreTo := Some(ROOT), parent := Some(TRASH))
    ensures Step(CFG, s0, DoTrash("n")) == s1
  {
    hide StepUpload, StepReconcile;
    assert Trash(s0.t.nodes, "n") == Ok(s1.t.nodes);
  }

  lemma PurgeFileDoes(s: Sys, row: Node)
    requires s == DoneState([], []).(t := Done(0).(nodes := Done(0).nodes["n" := row]))
    requires row == FileRow(Sealed(0)).(trashed := true, restoreTo := Some(ROOT), parent := Some(TRASH))
    ensures Step(CFG, s, DoPurge("n", ["n"])) == s.(t := Without(s.t, {"n"}), doomed := {FK})
    ensures Without(s.t, {"n"}).files == map[] && Without(s.t, {"n"}).uploads == s.t.uploads
  {
    hide Step, StepPurge, Subtree, DeleteNodes, SubtreeKeys, Without, Enumerates;
    OnlyFile(s.t.nodes, row);
    OneRowGone(s.t);
    DeletesOne(s.t);
    PurgesOne(s);
    PurgesInStep(s);
  }

  lemma PurgesInStep(s: Sys)
    ensures Step(CFG, s, DoPurge("n", ["n"])) == StepPurge(s, "n", ["n"])
  {
    hide StepUpload, StepReconcile, StepPurge;
  }

  lemma PurgesOne(s: Sys)
    requires "n" in s.t.nodes && Enumerates(["n"], Subtree(s.t.nodes, "n")) && SubtreeKeys(s.t, "n") == {FK}
      && s.doomed == {}
    requires !s.t.nodes["n"].system && s.t.nodes["n"].trashed && DeleteNodes(s.t, ["n"]) == Ok(Without(s.t, {"n"}))
    ensures StepPurge(s, "n", ["n"]) == s.(t := Without(s.t, {"n"}), doomed := {FK})
  {
    hide Subtree, DeleteNodes, SubtreeKeys, Without, Enumerates;
  }

  lemma OneRowGone(t: Tables)
    requires t.files == Done(0).files && Subtree(t.nodes, "n") == {"n"}
    ensures SubtreeKeys(t, "n") == {FK}
    ensures Without(t, {"n"}).files == map[] && Without(t, {"n"}).uploads == t.uploads
  {
    hide Subtree;
    assert t.files["n"].storageKey == FK;
  }

  lemma DeletesOne(t: Tables)
    requires !HasChild(t.nodes, "n") && "n" !in UploadParents(t.uploads)
    ensures DeleteNodes(t, ["n"]) == Ok(Without(t, {"n"}))
  {
    hide Without;
    assert ["n"][1..] == [];
    assert DeleteNode(t, "n") == Ok(Without(t, {"n"}));
  }

  lemma OnlyFile(ns: Nodes, row: Node)
    requires ns == INITIAL.nodes["n" := row] && row.parent == Some(TRASH)
    ensures Subtree(ns, "n") == {"n"} && Enumerates(["n"], Subtree(ns, "n"))
  {
    WithinSelf(ns, "n");
    WithinStep(ns, "n", ROOT);
    WithinStep(ns, "n", TRASH);
  }

  // ---------------------------------------------------------------- staging files left behind

  /** A crash between the creation of the staging file and the insertion of the row. */
  lemma StagingWithoutRow()
    ensures var s := After(CFG, Staging(0) + [Crash]); s.pc.Idle? && Left(s) && s.t.uploads == map[]
  {
    hide Step;
    StagingRun(0);
    AfterThat(Staging(0), Crash);
    CrashDoes(StagingState(0));
  }

  /** A crash between the termination of the row and the removal of its staging file. */
  lemma StagingOfTerminated()
    ensures var s := After(CFG, Creation(0) + [Terminate("u")] + [Crash]);
      Stands(s, Terminated, 0) && s.t.uploads["u"].stagingKey == SK && Left(s)
  {
    hide Step;
    TerminatingRun();
    AfterThat(Creation(0) + [Terminate("u")], Crash);
    CrashDoes(TerminatingState());
  }

  /** The row is terminated and the removal of its staging file fails. */
  lemma StagingOfFailedRemoval()
    ensures var s := After(CFG, Creation(0) + [Terminate("u")] + [GiveUp]);
      Stands(s, Terminated, 0) && s.t.uploads["u"].stagingKey == SK && Left(s)
  {
    hide Step;
    TerminatingRun();
    AfterThat(Creation(0) + [Terminate("u")], GiveUp);
    GiveUpDoes(CFG, TerminatingState());
  }

  function TerminatingState(): Sys {
    CreatedState(0).(t := Close(CreatedState(0).t, "u", Terminated), pc := Unstaging(SK))
  }

  lemma TerminatingRun()
    ensures After(CFG, Creation(0) + [Terminate("u")]) == TerminatingState()
  {
    hide Step;
    CreationRun(0);
    AfterThat(Creation(0), Terminate("u"));
    TerminateDoes(CFG, CreatedState(0), "u");
    assert {} - {SK} == {};
  }

  /** The row can not be inserted, and the removal of its staging file fails as well. */
  lemma StagingOfFailedInsert()
    ensures var s := After(CFG, Staging(0) + [GiveUp] + [GiveUp]); s.pc.Idle? && Left(s) && s.t.uploads == map[]
  {
    hide Step;
    StagingRun(0);
    AfterThat(Staging(0), GiveUp);
    AfterThat(Staging(0) + [GiveUp], GiveUp);
    GiveUpDoes(CFG, StagingState(0));
    GiveUpDoes(CFG, StagingState(0).(pc := Unstaging(SK)));
  }

  /** A stale row expires and the removal of its staging file fails. */
  lemma StagingOfExpired()
    ensures var s := After(CFG, Creation(1) + [BeginReconcile(61, ["u"])] + [ExpireNext] + [GiveUp]);
      "u" in s.t.uploads && s.t.uploads["u"].state == Expired && s.t.uploads["u"].stagingKey == SK && Left(s)
  {
    hide Step;
    CreationRun(1);
    var r1 := Creation(1) + [BeginReconcile(61, ["u"])];
    AfterThat(Creation(1), BeginReconcile(61, ["u"]));
    AfterThat(r1, ExpireNext);
    AfterThat(r1 + [ExpireNext], GiveUp);
    StaleDoes(CreatedState(1));
    var s1 := CreatedState(1).(pc := Expiring(["u"], 61));
    assert ["u"] == ["u"] + [];
    ExpireDoes(CFG, s1, "u", [], 61);
    ExpiredRowDoes(CFG, s1.(t := Close(s1.t, "u", Expired), pc := ExpiredRow(SK, [], 61)));
  }

  // ---------------------------------------------------------------- failures whose errors are dropped

  /** The query for the reservations fails: a second upload of one byte is admitted although the first has the room. */
  function Overbooked(): seq<Action> {
    Creation(1) + [CheckParent(ROOT)] + [BeginCreate(Request(ROOT, NAME2, 1))] + [ReadStored]
      + [ReadReservedFails(true)]
    + [CreateStaging(SK2, FK2)] + [InsertUpload("v", 0)]
  }

  lemma QuotaBroken()
    ensures StoredBytes(After(CFG, Overbooked()).t) + ReservedBytes(After(CFG, Overbooked()).t) > CFG.maxStorage
  {
    hide Step, Sum;
    CreationRun(1);
    var req := Request(ROOT, NAME2, 1);
    var r1 := Creation(1) + [CheckParent(ROOT)];
    var r2 := r1 + [BeginCreate(req)];
    var r3 := r2 + [ReadStored];
    var r4 := r3 + [ReadReservedFails(true)];
    var r5 := r4 + [CreateStaging(SK2, FK2)];
    AfterThat(Creation(1), CheckParent(ROOT));
    AfterThat(r1, BeginCreate(req));
    AfterThat(r2, ReadStored);
    AfterThat(r3, ReadReservedFails(true));
    AfterThat(r4, CreateStaging(SK2, FK2));
    AfterThat(r5, InsertUpload("v", 0));
    OverbookingSteps(req);
  }

  lemma OverbookingSteps(req: Request)
    requires req == Request(ROOT, NAME2, 1)
    ensures var s3 := Step(CFG, Step(CFG, Step(CFG, CreatedState(1), CheckParent(ROOT)), BeginCreate(req)), ReadStored);
      var s := Step(CFG, Step(CFG, Step(CFG, s3, ReadReservedFails(true)), CreateStaging(SK2, FK2)),
                    InsertUpload("v", 0));
      StoredBytes(s.t) + ReservedBytes(s.t) == 2
  {
    hide Step, Sum;
    var s1 := CreatedState(1);
    CheckParentDoes(CFG, s1, ROOT);
    assert s1.(seen := s1.seen + {ROOT}) == s1;
    BeginCreateDoes(CFG, s1, req);
    OneByteSums();
    ReadSumsDo(CFG, s1.(pc := Admitting(req)), false, true, true);
    OverbookedRow(req, s1.(pc := Admitted(req), blind := true));
  }

  lemma OverbookedRow(req: Request, s: Sys)
    requires req == Request(ROOT, NAME2, 1) && s == CreatedState(1).(pc := Admitted(req), blind := true)
    ensures var s2 := Step(CFG, Step(CFG, s, CreateStaging(SK2, FK2)), InsertUpload("v", 0));
      StoredBytes(s2.t) + ReservedBytes(s2.t) == 2
  {
    hide Step, StoredBytes, ReservedBytes, HexKey;
    Drawable();
    CreateStagingDoes(CFG, s, SK2, FK2);
    var s5 := s.(staging := s.staging[SK2 := []], used := s.used + {SK2, FK2}, pc := Staged(req, SK2, FK2));
    InsertUploadDoes(CFG, s5, "v", 0);
    TwoByteSums(NewUpload(CFG, req, SK2, FK2, 0));
  }

  lemma Drawable()
    ensures MayDraw(CreatedState(1), SK2, FK2) && "v" !in CreatedState(1).used && "v" != SK2 && "v" != FK2
  {
    assert SK2[0] == 'c' && FK2[0] == 'd' && SK[0] == 'a' && FK[0] == 'b';
  }

  lemma OneByteSums()
    ensures StoredBytes(With(Fresh(1))) == 0 && ReservedBytes(With(Fresh(1))) == 1
  {
    EmptySums();
    assert map["u" := Fresh(1)] == map[]["u" := Fresh(1)];
    Invariant.HoldsPut(map[], "u", Fresh(1));
  }

  lemma TwoByteSums(v: Upload)
    requires v.reservation == 1 && v.state == Created
    ensures var t := With(Fresh(1)).(uploads := With(Fresh(1)).uploads["v" := v]);
      StoredBytes(t) + ReservedBytes(t) == 2
  {
    OneByteSums();
    Invariant.HoldsPut(With(Fresh(1)).uploads, "v", v);
  }

  /** The update of a stale row fails, and its staging file is removed all the same. */
  lemma StagingLost()
    ensures var s := After(CFG, Creation(1) + [BeginReconcile(61, ["u"])] + [ExpireFails]);
      "u" in s.t.uploads && s.t.uploads["u"].state == Created && s.t.uploads["u"].stagingKey !in s.staging
  {
    hide Step;
    CreationRun(1);
    var r1 := Creation(1) + [BeginReconcile(61, ["u"])];
    AfterThat(Creation(1), BeginReconcile(61, ["u"]));
    AfterThat(r1, ExpireFails);
    StaleDoes(CreatedState(1));
    assert ["u"] == ["u"] + [];
    ExpireFailsDoes(CFG, CreatedState(1).(pc := Expiring(["u"], 61)), "u", [], 61);
  }

  lemma StaleDoes(s: Sys)
    requires s == CreatedState(1)
    ensures Step(CFG, s, BeginReconcile(61, ["u"])) == s.(pc := Expiring(["u"], 61))
  {
    hide Step;
    assert ExpiredIds(s.t.uploads, 61) == {"u"};
    BeginReconcileDoes(CFG, s, 61, ["u"]);
  }

  // ---------------------------------------------------------------- verifying for good

  /** A crash between the last chunk and the durable intent leaves the upload verifying, holding its reservation. */
  lemma VerifyingStays()
    ensures var s := After(CFG, Sending([], [8]) + [Crash]);
      Stands(s, Verifying, 0) && s.t.uploads["u"].reservation == 1
  {
    hide Step;
    SendingRun([], [8]);
    AfterThat(Sending([], [8]), Crash);
    CrashDoes(SentState([], [8]));
  }
}
