/** Concrete runs from the empty system that reach the failures the other modules characterise: a rollback
    that loses its data, an upload that a restart loses, and a create that removes its own version. */
module Witnesses {
  import opened Sequences
  import opened Keys
  import opened Records
  import opened Bucket
  import opened VersionCatalog
  import opened Download
  import opened Cluster
  import opened ClusterInvariant
  import opened ClusterTheorems
  import opened ChunkUpload
  import opened UploadRuns
  import S = StorageProtocol
  import Sched = Scheduler
  import Chunker
  import Retention
  import RetentionGaps
  import ClusterRestart
  import ClusterGaps
  import ClusterLiveness
  import UploadRestart
  import ReadYourWrites
  import OwnVersion
  import VersionLists

  // --------------------------------------------------------------- one online node

  const NODE: NodeRecord :=
    NodeRecord("n", "host", 1, Online, "/data", 0, 0, 0, 0.0, 0.0, 0.0, 0.0, 0.0, 0.0, 0, 0, 0, 0)

  const NODES: map<string, NodeRecord> := map["n" := NODE]

  lemma OneNodeSelected()
    ensures Sched.Keyed(NODES) && Sched.IsSelection(NODES, 1, {}, [NODE])
    ensures Sched.NodeIDs([NODE]) == ["n"]
  {
    assert Sched.EligibleIDs(NODES, {}) == {"n"};
    assert Sched.IDs([NODE]) == {"n"};
    hide Sched.ScoreNode;
  }

  // ------------------------------------------------------------------- time stamps

  function Power(n: nat): nat { if n == 0 then 1 else 10 * Power(n - 1) }

  lemma {:induction false} DecimalLength(n: nat, k: nat)
    requires k > 0 && (k > 1 ==> Power(k - 1) <= n) && n < Power(k)
    ensures |Decimal(n)| == k
  {
    if k > 1 {
      assert Power(k - 1) >= 10 by { PowerGrows(k - 1); }
      DecimalLength(n / 10, k - 1);
    } else {
      assert Power(1) == 10 * Power(0);
    }
  }

  lemma {:induction false} PowerGrows(k: nat)
    requires k > 0
    ensures Power(k) >= 10
  {
    if k > 1 { PowerGrows(k - 1); }
  }

  /** A time stamp of our era. */
  function T(i: nat): nat { 1_000_000_000_000_000_000 + i }

  lemma StampsOk(i: nat)
    requires i < 10
    ensures Retention.StampOk(T(i))
  {
    assert Power(18) == 1_000_000_000_000_000_000 by { Powers(); }
    assert Power(19) == 10 * Power(18);
    DecimalLength(T(i), 19);
  }

  lemma Powers()
    ensures Power(18) == 1_000_000_000_000_000_000
  {
    assert Power(6) == 1_000_000;
    assert Power(12) == 1_000_000_000_000;
  }

  // ------------------------------------------------------- writes, then versions of "f"

  function Key(i: nat): string { ChunkKey("f", T(i)) }

  lemma KeysDiffer(i: nat, j: nat)
    requires Key(i) == Key(j)
    ensures i == j
  {
    ChunkKeyInjective("f", T(i), "f", T(j));
  }

  function WriteAct(i: nat): Action { Write("f", 1, 1, [NODE], T(i)) }

  function CreateOp(i: nat): Op { Create("f", "", "", [Key(i)], [], 1, "", T(i)) }

  /** One node registers, m chunks are prepared, then n versions of one chunk each are created. */
  function Run(n: nat, m: nat): seq<Action>
    decreases n, m
  {
    if n > 0 then Run(n - 1, m) + [Manage(CreateOp(n))]
    else if m > 0 then Run(0, m - 1) + [WriteAct(m)]
    else [Churn(NODES)]
  }

  /** The first n versions. */
  function First(n: nat): (list: seq<Version>)
    ensures |list| == n && forall i :: 0 <= i < n ==> list[i].number == i + 1 && list[i].chunkIDs == [Key(i + 1)]
  {
    if n == 0 then [] else First(n - 1) + [Version(VersionID(T(n)), "f", n, 1, "", [Key(n)], [])]
  }

  /** The state after Run(n, m). */
  ghost predicate At(c: Cluster, n: nat, m: nat) {
    && c.net.nodes == NODES && c.up.owner == map[]
    && c.w.h.clock == (if m == 0 then 0 else T(m)) && c.j.clock == (if n == 0 then 0 else T(n))
    && (forall i :: 1 <= i <= m ==> Key(i) in c.w.h.prepared)
    && (forall id :: id in c.j.listed ==> exists i :: 1 <= i <= n && id == Key(i))
    && FileAt(c.cat, n)
  }

  ghost predicate FileAt(cat: Catalog, n: nat) {
    && (n == 0 ==> "f" !in cat.files)
    && (n > 0 ==> "f" in cat.files && cat.files["f"].latestVersion == n && cat.files["f"].maxVersions == 3 && cat.files["f"].fileID == "f")
    && (n <= 3 ==> ListOf(cat.versions, "f") == First(n))
  }

  lemma WriteStep(c: Cluster, m: nat)
    requires At(c, 0, m)
    ensures Enabled(c, WriteAct(m + 1)) && At(Next(c, WriteAct(m + 1)), 0, m + 1)
  {
    OneNodeSelected();
    Sched.SelectionShape(NODES, 1, {}, [NODE]);
    hide Sched.IsSelection, ChunkKey, FileAt;
  }

  lemma FileStep(cat: Catalog, n: nat)
    requires FileAt(cat, n)
    ensures FileAt(Apply(cat, CreateOp(n + 1)), n + 1)
    ensures Created(cat, CreateOp(n + 1)).Some? && Created(cat, CreateOp(n + 1)).value.chunkIDs == [Key(n + 1)]
  {
    var op := CreateOp(n + 1);
    var v := Created(cat, op).value;
    hide ChunkKey, VersionID, Put, SortByNumber, Key;
    assert n < 3 ==> ListOf(cat.versions, "f") + [v] == First(n + 1);
  }

  lemma CreateEnabled(c: Cluster, n: nat, m: nat)
    requires At(c, n, m) && n < m
    ensures Enabled(c, Manage(CreateOp(n + 1)))
  {
    forall i | 1 <= i <= n ensures Key(i) != Key(n + 1) {
      if Key(i) == Key(n + 1) { KeysDiffer(i, n + 1); }
    }
    hide Key, FileAt;
    assert Distinct([Key(n + 1)]);
  }

  lemma CreateStep(c: Cluster, n: nat, m: nat)
    requires Inv(c) && At(c, n, m) && n < m
    ensures Enabled(c, Manage(CreateOp(n + 1))) && At(Next(c, Manage(CreateOp(n + 1))), n + 1, m)
  {
    hide *;
    var op := CreateOp(n + 1);
    CreateEnabled(c, n, m);
    FileAtOf(c, n, m);
    FileStep(c.cat, n);
    ManageIs(c, op);
    CreateRest(c, n);
    AtNext(c, Next(c, Manage(op)), n, m);
  }

  lemma FileAtOf(c: Cluster, n: nat, m: nat)
    requires At(c, n, m)
    ensures FileAt(c.cat, n)
  {
  }

  /** What a create leaves as it was. */
  lemma CreateRest(c: Cluster, n: nat)
    requires Inv(c) && Created(c.cat, CreateOp(n + 1)).Some? && Created(c.cat, CreateOp(n + 1)).value.chunkIDs == [Key(n + 1)]
    ensures var c' := DoManage(c, CreateOp(n + 1));
            && c'.net == c.net && c'.up == c.up && c'.w.h.clock == c.w.h.clock && c'.w.h.prepared == c.w.h.prepared
            && c'.j.clock == T(n + 1) && c'.j.listed == c.j.listed + {Key(n + 1)}
  {
    DeleteOpsEffect(c.w, Removed(c.cat, CreateOp(n + 1)));
    hide Inv, S.Inv, Key, Apply, Removed, Created, S.Final;
    assert Elements([Key(n + 1)]) == {Key(n + 1)};
  }

  lemma AtNext(c: Cluster, c': Cluster, n: nat, m: nat)
    requires At(c, n, m) && FileAt(c'.cat, n + 1)
    requires c'.net == c.net && c'.up == c.up && c'.w.h.clock == c.w.h.clock && c'.w.h.prepared == c.w.h.prepared
    requires c'.j.clock == T(n + 1) && c'.j.listed == c.j.listed + {Key(n + 1)}
    ensures At(c', n + 1, m)
  {
    hide Key, FileAt;
  }

  lemma Snoc(run: seq<Action>, a: Action)
    requires Legal(GENESIS, run) && Enabled(Final(GENESIS, run), a)
    ensures Legal(GENESIS, run + [a]) && Final(GENESIS, run + [a]) == Next(Final(GENESIS, run), a)
  {
    hide Enabled, Next;
    Single(Final(GENESIS, run), a);
    Join(GENESIS, run, [a]);
  }

  lemma {:induction false} Reached(n: nat, m: nat)
    requires n <= m
    ensures Legal(GENESIS, Run(n, m)) && At(Final(GENESIS, Run(n, m)), n, m)
    decreases n, m
  {
    if n > 0 {
      Reached(n - 1, m);
      hide Enabled, Next, At, Legal, Final, Inv;
      ReachableInv(Run(n - 1, m));
      CreateStep(Final(GENESIS, Run(n - 1, m)), n - 1, m);
      Snoc(Run(n - 1, m), Manage(CreateOp(n)));
    } else if m > 0 {
      Reached(0, m - 1);
      hide Enabled, Next, At, Legal, Final, Inv;
      WriteStep(Final(GENESIS, Run(0, m - 1)), m - 1);
      Snoc(Run(0, m - 1), WriteAct(m));
    } else {
      Started();
    }
  }

  lemma Started()
    ensures Legal(GENESIS, [Churn(NODES)]) && Final(GENESIS, [Churn(NODES)]) == Next(GENESIS, Churn(NODES))
    ensures Enabled(GENESIS, Churn(NODES)) && At(Next(GENESIS, Churn(NODES)), 0, 0)
  {
    OneNodeSelected();
    assert Enabled(GENESIS, Churn(NODES));
    hide Enabled;
    Single(GENESIS, Churn(NODES));
  }

  lemma {:induction false} RunIsPlain(n: nat, m: nat)
    ensures ClusterLiveness.Plain(Run(n, m))
    ensures m < 10 && n < 10 ==> forall a :: a in Run(n, m) ==> ClusterGaps.KeepsFile(a, "f")
    decreases n, m
  {
    if n > 0 {
      RunIsPlain(n - 1, m);
      if n < 10 { StampsOk(n); }
    } else if m > 0 {
      RunIsPlain(0, m - 1);
    }
  }

  // ------------------------------------------------------------ a rollback loses data

  /** Three versions of one chunk each, then a rollback to the first. Every step is legal, nothing failed,
      and yet the new latest version is dead: no download of the file succeeds any more. */
  lemma RollbackLosesData(up: set<string>)
    ensures var run, back := Run(3, 3), Manage(Rollback("f", 1, T(4)));
            && Legal(GENESIS, run + [back]) && ClusterLiveness.Plain(run)
            && var c := Final(GENESIS, run + [back]);
               && Created(Final(GENESIS, run).cat, back.op).Some?
               && !ClusterLiveness.Live(c.w.s.chunks, Created(Final(GENESIS, run).cat, back.op).value)
               && Target(c.cat, "f", 0) == Created(Final(GENESIS, run).cat, back.op)
               && Read(c.cat, c.w.s.chunks, FabricOf(c, up), "f", 0).None?
  {
    hide *;
    var run, op := Run(3, 3), Rollback("f", 1, T(4));
    Reached(3, 3);
    RunIsPlain(3, 3);
    var c0 := Final(GENESIS, run);
    RollbackReady(c0);
    ClusterLiveness.FirstRollbackIff(run, op);
    Snoc(run, Manage(op));
    var c := Final(GENESIS, run + [Manage(op)]);
    RolledBack(c0, c, op, up);
  }

  lemma RollbackReady(c: Cluster)
    requires At(c, 3, 3)
    ensures var op := Rollback("f", 1, T(4));
            && Enabled(c, Manage(op)) && Created(c.cat, op).Some? && "f" in c.cat.files
            && Created(c.cat, op).value.chunkIDs != []
            && !ClusterLiveness.SurvivesCleanup(c.cat.files["f"], ListOf(c.cat.versions, "f"), 1)
  {
    hide Key, VersionID;
    var list := ListOf(c.cat.versions, "f");
    assert list == First(3) && list[0].number == 1;
    assert Find(list, 1) == Some(list[0]) && FindIndex(list, 1) == 0;
  }

  lemma RolledBack(c: Cluster, c': Cluster, op: Op, up: set<string>)
    requires At(c, 3, 3) && op == Rollback("f", 1, T(4)) && Enabled(c, Manage(op)) && c' == Next(c, Manage(op))
    requires Created(c.cat, op).Some? && !ClusterLiveness.Live(c'.w.s.chunks, Created(c.cat, op).value)
    ensures Target(c'.cat, "f", 0) == Created(c.cat, op)
    ensures Read(c'.cat, c'.w.s.chunks, FabricOf(c', up), "f", 0).None?
  {
    hide *;
    ManageIs(c, op);
    LatestIsNew(c, op);
    DeadUnread(c', Created(c.cat, op).value, up);
  }

  lemma DeadUnread(c: Cluster, v: Version, up: set<string>)
    requires Target(c.cat, "f", 0) == Some(v) && !ClusterLiveness.Live(c.w.s.chunks, v)
    ensures Read(c.cat, c.w.s.chunks, FabricOf(c, up), "f", 0).None?
  {
    hide Target, Read, Serves;
    ReadSucceedsIff(c, up, "f", 0);
    var id :| id in v.chunkIDs && id !in c.w.s.chunks;
    assert !Available(c.w.s.chunks, FabricOf(c, up), id);
  }

  lemma LatestIsNew(c: Cluster, op: Op)
    requires At(c, 3, 3) && op == Rollback("f", 1, T(4)) && Created(c.cat, op).Some?
    ensures Target(Apply(c.cat, op), "f", 0) == Created(c.cat, op)
  {
    var list, v := First(3), Created(c.cat, op).value;
    var file := c.cat.files["f"];
    assert v.number == 4;
    ListIncreasing(3);
    VersionListsKept(file, list, v, v.size);
    hide Kept, Put, Key, VersionID;
    assert LastN(list + [v], 3) == list[1..] + [v];
  }

  lemma {:induction false} ListIncreasing(n: nat)
    ensures Increasing(First(n))
  {
  }

  lemma VersionListsKept(file: FileRecord, list: seq<Version>, v: Version, size: int)
    requires Increasing(list) && |list| == 3 == file.latestVersion && v.number == 4 && file.maxVersions == 3
    requires forall i :: 0 <= i < |list| ==> list[i].number == i + 1
    ensures Kept(Bump(file, size), list + [v]) == LastN(list + [v], 3)
  {
    RetentionGaps.NumberedIncreasing(list);
    assert forall x :: x in list ==> x.number <= file.latestVersion;
    VersionLists.AppendKeeps(file, list, v, size);
  }

  // ----------------------------------------------------- a create removes its own version

  /** The file is deleted and the server restarted: four versions are back, their file record is not. */
  function Again(): seq<Action> { Run(4, 5) + [Manage(Op.DeleteFile("f"))] + [RestartServer] }

  /** A client uploads the file again. Its version is number 1 below three greater numbers, so the clean-up
      of the same request removes it and deletes its chunk. */
  lemma CreateRemovesItself()
    ensures var run, op := Again(), CreateOp(5);
            && Legal(GENESIS, run + [Manage(op)])
            && var c, c' := Final(GENESIS, run), Final(GENESIS, run + [Manage(op)]);
               && Created(c.cat, op).Some?
               && Created(c.cat, op).value !in ListOf(c'.cat.versions, "f")
               && Key(5) in c.w.s.chunks && Key(5) !in c'.w.s.chunks
  {
    hide *;
    var run4, op := Run(4, 5), CreateOp(5);
    Reached(4, 5);
    RunIsPlain(4, 5);
    ClusterGaps.GenesisGapped("f");
    ClusterGaps.RunKeepsGapped(GENESIS, [], "f", run4);
    var c4, created := Final(GENESIS, run4), ClusterRestart.AllCreated(GENESIS, [], run4);
    var delete := Manage(Op.DeleteFile("f"));
    DeleteEnabled(c4);
    Snoc(run4, delete);
    var c5 := Next(c4, delete);
    RestartEnabled(c5);
    Snoc(run4 + [delete], RestartServer);
    var c6 := Next(c5, RestartServer);
    AgainIs();
    ReachableInv(run4);
    ReachableInv(Again());
    BackAgain(c4, c5, c6, created);
    CreateEnabledAgain(c4, c5, c6);
    Snoc(Again(), Manage(op));
    ManageIs(c6, op);
    OwnIsOne(c6);
    ReadYourWrites.CreateKeepsOwnIff(c6, op);
    FifthLives(c4, c5, c6);
  }

  lemma AgainIs()
    ensures Again() == Run(4, 5) + [Manage(Op.DeleteFile("f"))] + [RestartServer]
  {
  }

  lemma DeleteEnabled(c: Cluster)
    ensures Enabled(c, Manage(Op.DeleteFile("f")))
  {
  }

  lemma RestartEnabled(c: Cluster)
    ensures Enabled(c, RestartServer)
  {
  }

  lemma ManageIs(c: Cluster, op: Op)
    requires Enabled(c, Manage(op))
    ensures Next(c, Manage(op)) == DoManage(c, op) && DoManage(c, op).cat == Apply(c.cat, op)
  {
    hide Apply, Removed, S.Final;
  }

  lemma BackAgain(c4: Cluster, c5: Cluster, c6: Cluster, created: seq<Version>)
    requires At(c4, 4, 5) && ClusterGaps.Gapped(c4, created, "f")
    requires Enabled(c4, Manage(Op.DeleteFile("f"))) && c5 == Next(c4, Manage(Op.DeleteFile("f")))
    requires Enabled(c5, RestartServer) && c6 == Next(c5, RestartServer)
    ensures "f" !in c6.cat.files
    ensures var list := ListOf(c6.cat.versions, "f"); |list| == 4 && Retention.Numbered(list)
  {
    hide *;
    ManageIs(c4, Op.DeleteFile("f"));
    RestartIs(c5);
    FourLogged(c4, created);
    BackFromLog(c4.cat);
  }

  lemma FourLogged(c: Cluster, created: seq<Version>)
    requires At(c, 4, 5) && ClusterGaps.Gapped(c, created, "f")
    ensures |OfFile(c.cat.log, "f")| == 4 && Retention.Numbered(OfFile(c.cat.log, "f")) && c.cat.savedFiles == c.cat.files
  {
    hide Inv, ClusterRestart.Accounted, ClusterRestart.FilesKeyed, Retention.History, RetentionGaps.Within;
    assert OfFile(c.cat.log, "f") == Retention.History(created, "f");
  }

  /** Deleting the file and restarting: the record is gone, the log is not. */
  lemma BackFromLog(cat: Catalog)
    requires cat.savedFiles == cat.files
    ensures var back := Apply(Apply(cat, Op.DeleteFile("f")), Restart);
            "f" !in back.files && ListOf(back.versions, "f") == OfFile(cat.log, "f")
  {
    OfFileGrouped(cat.log, "f");
    hide OfFile, Grouped;
  }

  lemma SameRest(c4: Cluster, c5: Cluster, c6: Cluster)
    requires Inv(c4) && At(c4, 4, 5)
    requires Enabled(c4, Manage(Op.DeleteFile("f"))) && c5 == Next(c4, Manage(Op.DeleteFile("f")))
    requires Enabled(c5, RestartServer) && c6 == Next(c5, RestartServer)
    ensures c6.w.h.prepared == c4.w.h.prepared && c6.j.listed == c4.j.listed && c6.j.clock == c4.j.clock && c6.up.owner == map[]
    ensures c6.j.removed == c4.j.removed + Elements(ListOf(c4.cat.versions, "f"))
  {
    hide *;
    ManageIs(c4, Op.DeleteFile("f"));
    RestartIs(c5);
    DeleteFileRest(c4);
    RestartRest(c5);
    NoOwner(c4);
  }

  lemma NoOwner(c: Cluster)
    requires At(c, 4, 5)
    ensures "f" in c.cat.files && c.up.owner == map[]
  {
  }

  lemma DeleteFileRest(c: Cluster)
    requires Inv(c)
    ensures var c' := DoManage(c, Op.DeleteFile("f"));
            && c'.w.h.prepared == c.w.h.prepared && c'.j.listed == c.j.listed && c'.j.clock == c.j.clock && c'.up == c.up
            && ("f" in c.cat.files ==> c'.j.removed == c.j.removed + Elements(ListOf(c.cat.versions, "f")))
  {
    DeleteOpsEffect(c.w, Removed(c.cat, Op.DeleteFile("f")));
    hide Inv, S.Inv, Apply, S.Final, ListOf;
  }

  lemma RestartRest(c: Cluster)
    ensures var c' := Restarted(c);
            c'.w.h.prepared == c.w.h.prepared && c'.j == c.j && c'.up.owner == c.up.owner
  {
    hide Apply;
  }

  lemma CreateEnabledAgain(c4: Cluster, c5: Cluster, c6: Cluster)
    requires Inv(c4) && At(c4, 4, 5)
    requires Enabled(c4, Manage(Op.DeleteFile("f"))) && c5 == Next(c4, Manage(Op.DeleteFile("f")))
    requires Enabled(c5, RestartServer) && c6 == Next(c5, RestartServer)
    ensures Enabled(c6, Manage(CreateOp(5))) && c6.j.clock < T(5) && Key(5) in c6.w.h.prepared && Key(5) !in c6.j.listed
  {
    hide *;
    SameRest(c4, c5, c6);
    FifthUnlisted(c4);
    ClockAtFour(c4);
    OneMayCreate(c6, 5);
  }

  lemma OneMayCreate(c: Cluster, i: nat)
    requires Key(i) in c.w.h.prepared && Key(i) !in c.j.listed && c.up.owner == map[] && c.j.clock < T(i)
    ensures Enabled(c, Manage(CreateOp(i)))
  {
    hide Key;
    assert Distinct([Key(i)]);
  }

  lemma ClockAtFour(c: Cluster)
    requires At(c, 4, 5)
    ensures c.j.clock == T(4) < T(5)
  {
  }

  lemma FifthUnlisted(c: Cluster)
    requires At(c, 4, 5)
    ensures Key(5) in c.w.h.prepared && Key(5) !in c.j.listed
  {
    forall i | 1 <= i <= 4 ensures Key(i) != Key(5) {
      if Key(i) == Key(5) { KeysDiffer(i, 5); }
    }
    hide Key, FileAt;
  }

  /** Three of the four versions are numbered above 1. */
  lemma OwnIsOne(c: Cluster)
    requires "f" !in c.cat.files
    requires var list := ListOf(c.cat.versions, "f"); |list| == 4 && Retention.Numbered(list)
    ensures var op := CreateOp(5);
            && op.Create? && op.fileID == "f" && op.stamp == T(5) && op.chunkIDs == [Key(5)] && Created(c.cat, op).Some?
            && !(OwnVersion.Above(ListOf(c.cat.versions, "f"), FileFor(c.cat, op).latestVersion + 1) < FileFor(c.cat, op).maxVersions)
  {
    hide Key, VersionID;
    var list := ListOf(c.cat.versions, "f");
    var l3, l2, l1 := list[..3], list[..2], list[..1];
    assert l3[..2] == l2 && l2[..1] == l1 && l1[..0] == [];
    assert OwnVersion.Above(l1, 1) == 0 && OwnVersion.Above(l2, 1) == 1 && OwnVersion.Above(l3, 1) == 2;
  }

  /** The fifth chunk has been prepared and listed by nobody. */
  lemma FifthLives(c4: Cluster, c5: Cluster, c6: Cluster)
    requires Inv(c4) && Inv(c6) && At(c4, 4, 5)
    requires Enabled(c4, Manage(Op.DeleteFile("f"))) && c5 == Next(c4, Manage(Op.DeleteFile("f")))
    requires Enabled(c5, RestartServer) && c6 == Next(c5, RestartServer)
    ensures Key(5) in c6.w.s.chunks
  {
    hide *;
    CreateEnabledAgain(c4, c5, c6);
    UnlistedLives(c6, Key(5));
  }

  lemma UnlistedLives(c: Cluster, id: string)
    requires Inv(c) && id in c.w.h.prepared && id !in c.j.listed
    ensures id in c.w.s.chunks
  {
    hide NetOk, SessionsOk, VersionsOk;
  }

  // ---------------------------------------------------------- an upload lost by a restart

  const DATA: Bytes := [7]

  function OneChunk(): Job { Job("f", true, 1, NODES, [DATA], _ => 1, (_, _) => Acked) }

  function OneSent(): seq<Sent> { [Sent(DATA, [NODE], 1, "")] }

  /** A one-byte file uploaded through the server, step by step. */
  function SendingRun(): seq<Action> {
    [BeginServer("f", DATA)] + UploadActions(0, 1, true, OneSent())
  }

  const FINISH: Action := UploadFinish(0, "", "", 1, "", 1)

  lemma OneChunkOk()
    ensures ServerPieces(DATA) == [DATA] && |DATA| == 1 && !Chunker.Overflows(1)
    ensures AllSent(OneChunk(), OneSent()) && Ticking(0, OneSent()) && |OneSent()| == 1
    ensures Others(OneSent()) == [] && SentIDs("f", OneSent()) == [ChunkKey("f", 1)]
  {
    OneNodeSelected();
    hide Sched.IsSelection, ChunkKey;
    assert Placed(NODES, 1, OneSent()[0]) && Written(OneChunk(), 0, [NODE]);
  }

  /** The node registers and everything is sent; the request is about to finish. */
  lemma SendingReached()
    ensures var run := [Churn(NODES)] + SendingRun();
            && Legal(GENESIS, run)
            && var c := Final(GENESIS, run);
               && Idle(c, 0) && 0 in c.up.open && c.up.open[0].viaServer && c.up.open[0].data == DATA && c.up.open[0].fileID == "f"
               && c.up.open[0].done == [ChunkKey("f", 1)] && c.up.open[0].others == [] && |c.up.open[0].pieces| == 1
               && c.cat == GENESIS.cat && c.j.clock == 0
  {
    hide *;
    Started();
    OneChunkOk();
    var c0 := Next(GENESIS, Churn(NODES));
    StartShape(c0);
    var job := OneChunk();
    JobShape();
    ServerBegins(c0, job, DATA);
    Single(c0, BeginServer("f", DATA));
    var c1 := Next(c0, BeginServer("f", DATA));
    UploadRun(c1, 0, job, OneSent());
    UploadedState(c1, Final(c1, UploadActions(0, 1, true, OneSent())), 0, job, OneSent());
    Join(c0, [BeginServer("f", DATA)], UploadActions(0, 1, true, OneSent()));
    SendingShape();
    Join(GENESIS, [Churn(NODES)], SendingRun());
  }

  lemma SendingShape()
    ensures SendingRun() == [BeginServer("f", DATA)] + UploadActions(0, 1, true, OneSent())
    ensures ServerRun(GENESIS, "f", DATA, 1, OneSent(), "", "", "", 1) == SendingRun() + [FINISH]
  {
    hide UploadActions;
  }

  lemma StartShape(c: Cluster)
    requires Enabled(GENESIS, Churn(NODES)) && c == Next(GENESIS, Churn(NODES))
    ensures c.net.nodes == NODES && c.cat == GENESIS.cat && c.w.h.clock == 0 && c.j.clock == 0 && c.up.count == 0
    ensures "f" !in c.cat.files && ListOf(c.cat.versions, "f") == []
  {
  }

  lemma JobShape()
    ensures var job := OneChunk();
            && job.viaServer && job.nodes == NODES && job.pieces == [DATA] && job.fileID == "f" && job.requested == 1
            && DATA != [] && |DATA| <= Chunker.MAX_INT64
  {
  }

  /** The upload succeeds and can be read. Then the server restarts, and the file, though still listed, can
      never be read again, whichever nodes answer. */
  lemma UploadLostByRestart(up: set<string>)
    ensures var run := [Churn(NODES)] + SendingRun() + [FINISH];
            && Legal(GENESIS, run + [RestartServer])
            && var c, c' := Final(GENESIS, run), Final(GENESIS, run + [RestartServer]);
               && Read(c.cat, c.w.s.chunks, FabricOf(c, {Address(NODE)}), "f", 0) == Some(DATA)
               && Target(c'.cat, "f", 0).Some?
               && Read(c'.cat, c'.w.s.chunks, FabricOf(c', up), "f", 0).None?
  {
    hide *;
    var run2 := [Churn(NODES)] + SendingRun();
    SendingReached();
    var c2 := Final(GENESIS, run2);
    NothingListed();
    ServerFinish(c2, 0, "", "", "", 1);
    FinishIs(c2);
    Snoc(run2, FINISH);
    var c3 := Next(c2, FINISH);
    RestartEnabled(c3);
    Snoc(run2 + [FINISH], RestartServer);
    var c4 := Next(c3, RestartServer);
    RestartIs(c3);
    ReadBefore(c3);
    ReachableInv(run2);
    NoSteps(c3);
    UploadRestart.UploadThenRestart(c2, FINISH, [], FabricOf(c4, up));
    NobodyListed(c3, c2.up.open[0], FabricOf(c4, up));
    TargetAfterRestart(c3.cat, c4.cat);
    ReadsNothing(c4, up);
  }

  lemma NothingListed()
    ensures "f" !in GENESIS.cat.files && ListOf(GENESIS.cat.versions, "f") == []
  {
  }

  lemma FinishIs(c: Cluster)
    ensures FINISH == UploadFinish(0, "", "", |DATA|, "", 1) && FINISH.k == 0 && |DATA| == 1
  {
  }

  lemma RestartIs(c: Cluster)
    requires Enabled(c, RestartServer)
    ensures Next(c, RestartServer) == Restarted(c) && Restarted(c).cat == Apply(c.cat, Restart)
  {
    hide Apply;
  }

  lemma NoSteps(c: Cluster)
    ensures Legal(c, []) && Final(c, []) == c && UploadRestart.NoRestart([])
    ensures UploadRestart.BeforeRestart([]) == [] && forall id :: !UploadRestart.Resaved([], id)
  {
  }

  /** Before the restart the file reads back: the run is the handler's. */
  lemma ReadBefore(c3: Cluster)
    requires Legal(GENESIS, [Churn(NODES)] + SendingRun() + [FINISH])
    requires c3 == Final(GENESIS, [Churn(NODES)] + SendingRun() + [FINISH])
    ensures Read(c3.cat, c3.w.s.chunks, FabricOf(c3, {Address(NODE)}), "f", 0) == Some(DATA)
  {
    hide *;
    Started();
    OneChunkOk();
    var c0 := Next(GENESIS, Churn(NODES));
    StartShape(c0);
    JobShape();
    ReachableInv([Churn(NODES)]);
    SentShape();
    ReadYourWrites.ServerUploadReads(c0, OneChunk(), DATA, OneSent(), "", "", "", 1, {Address(NODE)});
    SendingShape();
    SameRun(c0);
    FinalConcat(GENESIS, [Churn(NODES)], SendingRun() + [FINISH]);
    assert [Churn(NODES)] + (SendingRun() + [FINISH]) == [Churn(NODES)] + SendingRun() + [FINISH];
  }

  lemma SentShape()
    ensures |OneSent()| == 1 && OneSent()[0].sel == [NODE]
  {
  }

  lemma SameRun(c: Cluster)
    requires c.up.count == 0
    ensures ServerRun(c, "f", DATA, 1, OneSent(), "", "", "", 1) == ServerRun(GENESIS, "f", DATA, 1, OneSent(), "", "", "", 1)
  {
    hide UploadActions;
  }

  lemma TargetAfterRestart(cat: Catalog, cat': Catalog)
    requires cat == Apply(GENESIS.cat, Create("f", "", "", [ChunkKey("f", 1)], [], 1, "", 1)) && cat' == Apply(cat, Restart)
    ensures Target(cat', "f", 0).Some? && Target(cat', "f", 0).value.chunkIDs == [ChunkKey("f", 1)]
  {
    hide ChunkKey, VersionID, VersionKey;
    OfFileGrouped(cat.log, "f");
    assert cat.log[1..] == [];
  }

  /** The partial record of a chunk with a single replica names nobody. */
  lemma NobodyListed(c: Cluster, u: Upload, fabric: Fabric)
    requires u.others == [] && u.done == [ChunkKey("f", 1)]
    ensures !forall id :: id in u.done ==>
              id in c.w.s.chunks && exists n :: n in UploadRestart.RestartReplicas(c, u, [], id) && Serves(fabric, n, id)
  {
    hide ChunkKey, Serves;
    assert u.done[0] in u.done;
  }

  lemma ReadsNothing(c: Cluster, up: set<string>)
    requires Target(c.cat, "f", 0).Some? && Target(c.cat, "f", 0).value.chunkIDs == [ChunkKey("f", 1)]
    requires ReadAll(c.w.s.chunks, FabricOf(c, up), [ChunkKey("f", 1)]).None?
    ensures Read(c.cat, c.w.s.chunks, FabricOf(c, up), "f", 0).None?
  {
    hide Target, ReadAll;
  }
}
