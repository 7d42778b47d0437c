/** What a restart costs when versions have been deleted: the versions it makes the next clean-up drop,
    and exactly their chunks. */
module ClusterGaps {
  import opened Sequences
  import opened Keys
  import opened Records
  import opened Bucket
  import opened VersionCatalog
  import opened Download
  import opened Cluster
  import opened ClusterInvariant
  import opened ClusterTheorems
  import opened ClusterRestart
  import S = StorageProtocol
  import Sched = Scheduler
  import Retention
  import RetentionGaps

  /** Cluster states of runs in which file f is not deleted. */
  ghost predicate Gapped(c: Cluster, created: seq<Version>, f: string) {
    && Inv(c)
    && FilesKeyed(c.cat) && Accounted(c.cat, c.j.removed)
    && RetentionGaps.Inv(Retention.World(c.cat, created, c.j.clock), f)
  }

  /** An action of such a run. Versions of f, and other files, may be deleted. */
  ghost predicate KeepsFile(a: Action, f: string) {
    && (a.Manage? ==> a.op != Op.DeleteFile(f))
    && (a.Manage? && (a.op.Create? || a.op.CreateMeta? || a.op.Rollback?) ==> Retention.StampOk(a.op.stamp))
    && (a.UploadFinish? ==> Retention.StampOk(a.stamp))
  }

  lemma GapsEnabled(c: Cluster, created: seq<Version>, f: string, a: Action)
    requires Enabled(c, a) && KeepsFile(a, f) && CatalogOp(c, a).Some?
    ensures RetentionGaps.Enabled(Retention.World(c.cat, created, c.j.clock), f, CatalogOp(c, a).value)
  {
    hide Sched.IsSelection, S.Enabled, FreshChunks, Held, Retention.StampOk;
  }

  lemma StepKeepsGapped(c: Cluster, created: seq<Version>, f: string, a: Action)
    requires Gapped(c, created, f) && Enabled(c, a) && KeepsFile(a, f)
    ensures Gapped(Next(c, a), CreatedAfter(c, created, a), f)
  {
    hide *;
    GappedParts(c, created, f);
    StepKeepsInv(c, a);
    CatalogStep(c, a);
    var c', w := Next(c, a), Retention.World(c.cat, created, c.j.clock);
    if CatalogOp(c, a).Some? {
      var op := CatalogOp(c, a).value;
      GapsEnabled(c, created, f, a);
      ApplyAccounts(c.cat, op, c.j.removed);
      RetentionGaps.StepKeepsInv(w, f, op);
      SameWorld(c, c', created, a, op);
    } else {
      NothingCreated(c, created, a);
    }
    GappedWhole(c', CreatedAfter(c, created, a), f);
  }

  lemma GappedParts(c: Cluster, created: seq<Version>, f: string)
    requires Gapped(c, created, f)
    ensures Inv(c) && FilesKeyed(c.cat) && Accounted(c.cat, c.j.removed)
    ensures RetentionGaps.Inv(Retention.World(c.cat, created, c.j.clock), f)
  {
  }

  lemma GappedWhole(c: Cluster, created: seq<Version>, f: string)
    requires Inv(c) && FilesKeyed(c.cat) && Accounted(c.cat, c.j.removed)
    requires RetentionGaps.Inv(Retention.World(c.cat, created, c.j.clock), f)
    ensures Gapped(c, created, f)
  {
  }

  lemma SameWorld(c: Cluster, c': Cluster, created: seq<Version>, a: Action, op: Op)
    requires Enabled(c, a) && CatalogOp(c, a) == Some(op) && c'.cat == Apply(c.cat, op) && c'.j.clock == ClockAfter(c.j.clock, op)
    ensures Retention.Next(Retention.World(c.cat, created, c.j.clock), op)
            == Retention.World(c'.cat, CreatedAfter(c, created, a), c'.j.clock)
  {
    hide Apply, Created, CatalogOp, Enabled;
  }

  lemma NothingCreated(c: Cluster, created: seq<Version>, a: Action)
    requires Enabled(c, a) && CatalogOp(c, a).None?
    ensures CreatedAfter(c, created, a) == created
  {
    hide CatalogOp, Enabled;
  }

  lemma {:induction false} RunKeepsGapped(c: Cluster, created: seq<Version>, f: string, run: seq<Action>)
    requires Gapped(c, created, f) && Legal(c, run) && forall a :: a in run ==> KeepsFile(a, f)
    ensures Gapped(Final(c, run), AllCreated(c, created, run), f)
    decreases run
  {
    hide Gapped, Enabled, Next, KeepsFile, CreatedAfter;
    if run != [] {
      assert run[0] in run;
      assert forall a :: a in run[1..] ==> a in run;
      StepKeepsGapped(c, created, f, run[0]);
      RunKeepsGapped(Next(c, run[0]), CreatedAfter(c, created, run[0]), f, run[1..]);
    }
  }

  lemma GenesisGapped(f: string)
    ensures Gapped(GENESIS, [], f)
  {
    GenesisInv();
    RetentionGaps.GenesisInv(f);
  }

  // ------------------------------------------------------------------- what is dropped

  /** An append drops exactly what it does not keep. */
  lemma DroppedIff(file: FileRecord, f: string, list: seq<Version>, h: seq<Version>, v: Version, size: int, x: Version)
    requires RetentionGaps.GapsOk(file, f, list, h) && v.number == file.latestVersion + 1
    ensures x in Dropped(Bump(file, size), list + [v])
            <==> x in list + [v] && x !in Kept(Bump(file, size), list + [v])
  {
    RetentionGaps.AppendGaps(file, f, list, h, v, size);
    var front, back := Dropped(Bump(file, size), list + [v]), Kept(Bump(file, size), list + [v]);
    hide Kept, Dropped, LastN, RetentionGaps.GapsOk;
    Separate(list + [v], front, back, x);
    assert x in list + [v] <==> x in front || x in back;
  }

  /** What is dropped without the restart is dropped with it; what is dropped only with it was retained
      otherwise, or was not in the list any more. */
  lemma DropsCompared(file: FileRecord, f: string, list: seq<Version>, h: seq<Version>, v: Version, size: int, x: Version)
    requires RetentionGaps.GapsOk(file, f, list, h) && v.number == file.latestVersion + 1
    ensures var bumped := Bump(file, size);
            var lost := x in Kept(bumped, list + [v]) && x !in Kept(bumped, h + [v]);
            && (x in Dropped(bumped, list + [v]) || lost ==> x in Dropped(bumped, h + [v]))
            && (x in Dropped(bumped, h + [v]) ==> x in Dropped(bumped, list + [v]) || lost || (x in h && x !in list))
  {
    hide *;
    RetentionGaps.HistoryGaps(file, f, list, h);
    DroppedIff(file, f, list, h, v, size, x);
    DroppedIff(file, f, h, h, v, size, x);
    RetentionGaps.AppendGaps(file, f, list, h, v, size);
    RetentionGaps.AppendGaps(file, f, h, h, v, size);
    WithinMember(list + [v], h + [v], x);
    if x in list + [v] && x in LastN(h + [v], file.maxVersions) {
      RetentionGaps.EndMonotone(list + [v], h + [v], file.maxVersions, x);
    }
    KeptIn(Bump(file, size), list + [v], x);
    assert x in list + [v] <==> x in list || x == v;
    assert x in h + [v] <==> x in h || x == v;
  }

  lemma WithinMember(list: seq<Version>, h: seq<Version>, x: Version)
    requires RetentionGaps.Within(list, h)
    ensures x in list ==> x in h
  {
  }

  lemma KeptIn(file: FileRecord, list: seq<Version>, x: Version)
    ensures x in Kept(file, list) ==> x in list
  {
    KeptMember(file, list, x);
  }

  lemma HistoryLogged(c: Cluster, created: seq<Version>, f: string, v: Version)
    requires Gapped(c, created, f) && v in Retention.History(created, f)
    ensures v in ListOf(c.cat.versions, f) || v in c.j.removed
  {
    hide Inv, FilesKeyed, RetentionGaps.OneFile, Retention.History;
    assert OfFile(c.cat.log, f) == Retention.History(created, f);
    OfFileAbsent(c.cat.log, f);
    var e :| e in c.cat.log && e.value == v;
  }

  // ------------------------------------------------------------------------- theorem

  /** The versions retained without a restart that are dropped with one. */
  function Lost(straight: seq<Version>, restarted: seq<Version>): set<Version> {
    set v | v in straight && v !in restarted
  }

  /** After any run that does not delete file f itself, compare the next create or rollback of f with a
      restart followed by it. The lists agree if and only if none of the newest maxVersions - 1 version
      numbers has been deleted. And the restart costs exactly the chunks of the versions it loses. */
  lemma RestartWithDeletions(run: seq<Action>, f: string, op: Op)
    requires Legal(GENESIS, run) && (forall a :: a in run ==> KeepsFile(a, f))
    requires var c := Final(GENESIS, run);
             Enabled(c, Manage(op)) && KeepsFile(Manage(op), f) && (op.Create? || op.Rollback?) && op.fileID == f
             && Created(c.cat, op).Some?
    ensures var c := Final(GENESIS, run);
            var straight, restarted := DoManage(c, op), DoManage(Restarted(c), op);
            && (ListOf(restarted.cat.versions, f) == ListOf(straight.cat.versions, f)
                <==> RetentionGaps.Unbroken(ListOf(c.cat.versions, f), RetentionGaps.LatestFor(c.cat, f), Retention.MaxFor(c.cat, f) - 1))
            && restarted.w.s.chunks.Keys
               == straight.w.s.chunks.Keys - ListedBy(Lost(ListOf(straight.cat.versions, f), ListOf(restarted.cat.versions, f)))
  {
    hide *;
    GenesisGapped(f);
    RunKeepsGapped(GENESIS, [], f, run);
    CompareFrom(Final(GENESIS, run), AllCreated(GENESIS, [], run), f, op);
  }

  lemma RestartGapped(c: Cluster, created: seq<Version>, f: string)
    requires Gapped(c, created, f)
    ensures Gapped(Restarted(c), created, f)
  {
    assert CreatedAfter(c, created, RestartServer) == created + [] == created;
    assert Next(c, RestartServer) == Restarted(c);
    hide Gapped, Restarted, CreatedAfter;
    StepKeepsGapped(c, created, f, RestartServer);
  }

  lemma CompareFrom(c: Cluster, created: seq<Version>, f: string, op: Op)
    requires Gapped(c, created, f)
    requires (op.Create? || op.Rollback?) && op.fileID == f && Created(c.cat, op).Some?
    ensures var straight, restarted := DoManage(c, op), DoManage(Restarted(c), op);
            && (ListOf(restarted.cat.versions, f) == ListOf(straight.cat.versions, f)
                <==> RetentionGaps.Unbroken(ListOf(c.cat.versions, f), RetentionGaps.LatestFor(c.cat, f), Retention.MaxFor(c.cat, f) - 1))
            && restarted.w.s.chunks.Keys
               == straight.w.s.chunks.Keys - ListedBy(Lost(ListOf(straight.cat.versions, f), ListOf(restarted.cat.versions, f)))
  {
    var r := Restarted(c);
    RestartGapped(c, created, f);
    ListsCompared(c, created, f, op);
    GappedInv(c, created, f);
    GappedInv(r, created, f);
    RestartedParts(c);
    ManagedChunks(c, op);
    ManagedChunks(r, op);
    hide *;
    forall x ensures RemovalsCompared(c, r, f, op, x) {
      RemovedCompared(c, r, created, f, op, x);
    }
    ChunksCompared(c, r, f, op);
  }

  lemma GappedInv(c: Cluster, created: seq<Version>, f: string)
    requires Gapped(c, created, f)
    ensures Inv(c)
  {
  }

  lemma ListsCompared(c: Cluster, created: seq<Version>, f: string, op: Op)
    requires Gapped(c, created, f) && (op.Create? || op.Rollback?) && op.fileID == f && Created(c.cat, op).Some?
    ensures ListOf(DoManage(Restarted(c), op).cat.versions, f) == ListOf(DoManage(c, op).cat.versions, f)
            <==> RetentionGaps.Unbroken(ListOf(c.cat.versions, f), RetentionGaps.LatestFor(c.cat, f), Retention.MaxFor(c.cat, f) - 1)
  {
    var w := Retention.World(c.cat, created, c.j.clock);
    RetentionGaps.HealsIffFrom(w, f, op);
    hide Gapped, Apply, Created, ListOf, RetentionGaps.Unbroken;
    assert Retention.Next(w, Restart).cat == Restarted(c).cat;
    assert Retention.Next(w, op).cat == DoManage(c, op).cat;
    assert Retention.Next(Retention.Next(w, Restart), op).cat == DoManage(Restarted(c), op).cat;
  }

  /** How removing version x differs with and without the restart. */
  ghost predicate RemovalsCompared(c: Cluster, r: Cluster, f: string, op: Op, x: Version) {
    var lost := x in Lost(ListOf(Apply(c.cat, op).versions, f), ListOf(Apply(r.cat, op).versions, f));
    && (x in Removed(c.cat, op) || lost ==> x in Removed(r.cat, op))
    && (x in Removed(r.cat, op) ==> x in Removed(c.cat, op) || lost || x in c.j.removed)
  }

  lemma RemovedCompared(c: Cluster, r: Cluster, created: seq<Version>, f: string, op: Op, x: Version)
    requires Gapped(c, created, f) && Gapped(r, created, f) && r.cat == Apply(c.cat, Restart)
    requires (op.Create? || op.Rollback?) && op.fileID == f && Created(c.cat, op).Some?
    ensures RemovalsCompared(c, r, f, op, x)
  {
    var w, w' := Retention.World(c.cat, created, c.j.clock), Retention.World(r.cat, created, r.j.clock);
    var h := Retention.History(created, f);
    GapsInv(c, created, f);
    GapsInv(r, created, f);
    RestartedBase(c, r, created, f, op);
    RetentionGaps.BaseGaps(w, f, op);
    RetentionGaps.BaseGaps(w', f, op);
    var file := if op.Create? then FileFor(c.cat, op) else c.cat.files[f];
    var v := Created(c.cat, op).value;
    var size := if op.Create? then op.size else v.size;
    if x in h { HistoryLogged(c, created, f, x); }
    hide Gapped, Kept, Dropped, Retention.History, Created, Removed, Apply, RetentionGaps.Inv, FileFor;
    DropsCompared(file, f, ListOf(c.cat.versions, f), h, v, size, x);
    assert Retention.Next(w, op).cat == Apply(c.cat, op) && Retention.Next(w', op).cat == Apply(r.cat, op);
  }

  lemma GapsInv(c: Cluster, created: seq<Version>, f: string)
    requires Gapped(c, created, f)
    ensures RetentionGaps.Inv(Retention.World(c.cat, created, c.j.clock), f)
  {
  }

  lemma RestartedBase(c: Cluster, r: Cluster, created: seq<Version>, f: string, op: Op)
    requires Gapped(c, created, f) && r.cat == Apply(c.cat, Restart)
    requires (op.Create? || op.Rollback?) && op.fileID == f && Created(c.cat, op).Some?
    ensures Created(r.cat, op) == Created(c.cat, op) && r.cat.files == c.cat.files
    ensures ListOf(r.cat.versions, f) == Retention.History(created, f)
  {
    var w := Retention.World(c.cat, created, c.j.clock);
    RetentionGaps.SameVersionMade(w, f, op);
    RetentionGaps.RestartKeepsInv(w, f);
    assert Retention.Next(w, Restart).cat == r.cat;
    hide Inv, Accounted, FilesKeyed, Retention.LogOk, RetentionGaps.OneFile, Created;
  }

  lemma ChunksCompared(c: Cluster, r: Cluster, f: string, op: Op)
    requires Inv(c) && r.w.s.chunks == c.w.s.bucket
    requires forall x :: RemovalsCompared(c, r, f, op, x)
    ensures r.w.s.chunks.Keys - ListedBy(Elements(Removed(r.cat, op)))
            == c.w.s.chunks.Keys - ListedBy(Elements(Removed(c.cat, op)))
               - ListedBy(Lost(ListOf(Apply(c.cat, op).versions, f), ListOf(Apply(r.cat, op).versions, f)))
  {
    LiveKeys(c);
    var rs, rr := Elements(Removed(c.cat, op)), Elements(Removed(r.cat, op));
    var lost := Lost(ListOf(Apply(c.cat, op).versions, f), ListOf(Apply(r.cat, op).versions, f));
    hide Inv, Removed, Lost, Apply, ListOf;
    assert forall x :: RemovalsCompared(c, r, f, op, x);
    forall x ensures (x in rs || x in lost ==> x in rr) && (x in rr ==> x in rs || x in lost || x in c.j.removed) {
      assert RemovalsCompared(c, r, f, op, x);
    }
    hide RemovalsCompared;
    assert ListedBy(rr) <= ListedBy(rs) + ListedBy(lost) + ListedBy(c.j.removed);
    assert ListedBy(rs) <= ListedBy(rr) && ListedBy(lost) <= ListedBy(rr);
  }

  lemma LiveKeys(c: Cluster)
    requires Inv(c)
    ensures c.w.s.chunks.Keys == c.w.s.bucket.Keys == c.w.h.prepared.Keys - ListedBy(c.j.removed)
  {
    hide NetOk, SessionsOk, VersionsOk;
  }
}
