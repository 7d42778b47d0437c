/** What a server restart does to the whole system. */
module ClusterRestart {
  import opened Sequences
  import opened Keys
  import opened Records
  import opened Bucket
  import opened VersionCatalog
  import opened Download
  import opened Cluster
  import opened ClusterInvariant
  import opened ClusterTheorems
  import S = StorageProtocol
  import Sched = Scheduler
  import VersionLists
  import Retention

  lemma RestartReads(c: Cluster)
    ensures Restarted(c).w.s.chunks == c.w.s.bucket
  {
  }

  // -------------------------------------------------------- every logged version

  ghost predicate FilesKeyed(cat: Catalog) {
    && (forall f :: f in cat.files ==> cat.files[f].fileID == f)
    && (forall f :: f in cat.savedFiles ==> cat.savedFiles[f].fileID == f)
  }

  /** A logged version is either retained in its file's list or has been removed. */
  ghost predicate Accounted(cat: Catalog, removed: set<Version>) {
    forall e :: e in cat.log ==> e.value in ListOf(cat.versions, e.value.fileID) || e.value in removed
  }

  lemma KeptOrDropped(file: FileRecord, list: seq<Version>, v: Version)
    requires v in list
    ensures v in Kept(file, list) || v in Dropped(file, list)
  {
    if Excess(file, list) > 0 {
      SortSpec(list);
      var s, n := SortByNumber(list), Excess(file, list);
      assert v in multiset(s);
      assert s == s[..n] + s[n..];
      assert v in s[..n] || v in s[n..];
    }
  }

  lemma AppendAccounts(cat: Catalog, fileID: string, file: FileRecord, x: Version, size: int, g: string, v: Version)
    requires v in ListOf(cat.versions, g) || (g == fileID && v == x)
    ensures v in ListOf(Append(cat, fileID, file, x, size).versions, g)
            || v in Dropped(Bump(file, size), ListOf(cat.versions, fileID) + [x])
  {
    if g == fileID { KeptOrDropped(Bump(file, size), ListOf(cat.versions, fileID) + [x], v); }
  }

  /** No operation loses a version: it stays in its list or is removed with its chunks. */
  lemma ListFate(cat: Catalog, op: Op, g: string, v: Version)
    requires FilesKeyed(cat) && !op.Restart?
    requires v in ListOf(cat.versions, g) || (Created(cat, op) == Some(v) && v.fileID == g)
    ensures v in ListOf(Apply(cat, op).versions, g) || v in Removed(cat, op)
  {
    hide Kept, Dropped;
    match op
    case Create(f, _, _, _, _, size, _, _) => AppendAccounts(cat, f, FileFor(cat, op), Created(cat, op).value, size, g, v);
    case Rollback(f, _, _) =>
      if Created(cat, op).Some? {
        var x := Created(cat, op).value;
        assert Apply(cat, op) == Append(cat, f, cat.files[f], x, x.size);
        AppendAccounts(cat, f, cat.files[f], x, x.size, g, v);
      }
    case DeleteVersion(f, number) =>
      var list := ListOf(cat.versions, f);
      var i := FindIndex(list, number);
      if f in cat.files && i < |list| && g == f {
        assert list == list[..i] + [list[i]] + list[i + 1..];
      }
    case _ =>
  }

  lemma {:induction false} OfFileHas(log: seq<Entry<Version>>, e: Entry<Version>)
    requires e in log
    ensures e.value in OfFile(log, e.value.fileID)
  {
    if e != log[0] {
      assert e in log[1..];
      OfFileHas(log[1..], e);
    }
  }

  lemma ApplyAccounts(cat: Catalog, op: Op, removed: set<Version>)
    requires FilesKeyed(cat) && Accounted(cat, removed)
    ensures FilesKeyed(Apply(cat, op)) && Accounted(Apply(cat, op), removed + Elements(Removed(cat, op)))
  {
    ApplyKeyed(cat, op);
    var cat' := Apply(cat, op);
    forall e | e in cat'.log
      ensures e.value in ListOf(cat'.versions, e.value.fileID) || e.value in removed + Elements(Removed(cat, op))
    {
      LogMember(cat, op, e);
      var g := e.value.fileID;
      if op.Restart? {
        OfFileHas(cat.log, e);
        OfFileGrouped(cat.log, g);
      } else if e.value in ListOf(cat.versions, g) || Created(cat, op) == Some(e.value) {
        ListFate(cat, op, g, e.value);
      }
    }
  }

  lemma ApplyKeyed(cat: Catalog, op: Op)
    requires FilesKeyed(cat)
    ensures FilesKeyed(Apply(cat, op))
  {
    hide Kept, Put, Excess;
  }

  lemma LogMember(cat: Catalog, op: Op, e: Entry<Version>)
    requires e in Apply(cat, op).log
    ensures e in cat.log || Created(cat, op) == Some(e.value)
  {
    hide Kept, CleanedUp;
    if op.Create? {
      var x := Created(cat, op).value;
      PutMember(cat.log, VersionKey(op.fileID, x.versionID), x, e);
    } else if op.CreateMeta? {
      var x := Created(cat, op).value;
      PutMember(cat.log, VersionKey(op.fileID, x.versionID), x, e);
    } else if op.Rollback? && Created(cat, op).Some? {
      var x := Created(cat, op).value;
      PutMember(cat.log, VersionKey(op.fileID, x.versionID), x, e);
    }
  }

  // --------------------------------------------------------- healing, chunks included

  /** Cluster states of runs in which nothing is deleted explicitly. */
  ghost predicate Undeleted(c: Cluster, created: seq<Version>) {
    && Inv(c)
    && FilesKeyed(c.cat) && Accounted(c.cat, c.j.removed)
    && Retention.Inv(Retention.World(c.cat, created, c.j.clock))
  }

  /** An action of such a run: stamps have 19 digits, no version or file is deleted. */
  ghost predicate KeepsVersions(a: Action) {
    && (a.Manage? ==> !a.op.DeleteVersion? && !a.op.DeleteFile?)
    && (a.Manage? && (a.op.Create? || a.op.CreateMeta? || a.op.Rollback?) ==> Retention.StampOk(a.op.stamp))
    && (a.UploadFinish? ==> Retention.StampOk(a.stamp))
  }

  /** The catalog operation an action performs, if any. */
  ghost function CatalogOp(c: Cluster, a: Action): Option<Op>
    requires Enabled(c, a)
  {
    if a.Manage? then Some(a.op)
    else if a.UploadFinish? then Some(FinishOp(c, a))
    else if a.RestartServer? then Some(Restart)
    else None
  }

  lemma CatalogStep(c: Cluster, a: Action)
    requires Enabled(c, a)
    ensures match CatalogOp(c, a)
            case None => Next(c, a).cat == c.cat && Next(c, a).j.removed == c.j.removed && Next(c, a).j.clock == c.j.clock
            case Some(op) =>
              Next(c, a).cat == Apply(c.cat, op)
              && Next(c, a).j.removed == c.j.removed + Elements(Removed(c.cat, op))
              && Next(c, a).j.clock == ClockAfter(c.j.clock, op)
  {
    hide Sched.IsSelection, S.Enabled, S.Next, FreshChunks, Held, Store, Apply, Flatten;
  }

  lemma StepKeepsUndeleted(c: Cluster, created: seq<Version>, a: Action)
    requires Undeleted(c, created) && Enabled(c, a) && KeepsVersions(a)
    ensures Undeleted(Next(c, a), CreatedAfter(c, created, a))
  {
    StepKeepsInv(c, a);
    CatalogStep(c, a);
    var c' := Next(c, a);
    if CatalogOp(c, a).Some? {
      var op := CatalogOp(c, a).value;
      RetentionEnabled(c, created, a);
      hide Next, Enabled, Inv, Accounted, FilesKeyed, Removed, Apply, Retention.Inv, Retention.Enabled, KeepsVersions, CatalogOp;
      ApplyAccounts(c.cat, op, c.j.removed);
      var w := Retention.World(c.cat, created, c.j.clock);
      Retention.StepKeepsInv(w, op);
      assert Retention.Next(w, op) == Retention.World(c'.cat, CreatedAfter(c, created, a), c'.j.clock);
    } else {
      hide Next, Enabled, Inv, Accounted, FilesKeyed, Retention.Inv;
      assert created + [] == created;
    }
  }

  ghost function CreatedAfter(c: Cluster, created: seq<Version>, a: Action): seq<Version>
    requires Enabled(c, a)
  {
    match CatalogOp(c, a)
    case None => created
    case Some(op) => created + (match Created(c.cat, op) case None => [] case Some(v) => [v])
  }

  lemma RetentionEnabled(c: Cluster, created: seq<Version>, a: Action)
    requires Enabled(c, a) && KeepsVersions(a) && CatalogOp(c, a).Some?
    ensures Retention.Enabled(Retention.World(c.cat, created, c.j.clock), CatalogOp(c, a).value)
  {
    hide Sched.IsSelection, S.Enabled, FreshChunks, Held;
  }

  ghost function AllCreated(c: Cluster, created: seq<Version>, run: seq<Action>): seq<Version>
    decreases run
  {
    if run == [] || !Enabled(c, run[0]) then created
    else AllCreated(Next(c, run[0]), CreatedAfter(c, created, run[0]), run[1..])
  }

  lemma {:induction false} RunKeepsUndeleted(c: Cluster, created: seq<Version>, run: seq<Action>)
    requires Undeleted(c, created) && Legal(c, run) && forall a :: a in run ==> KeepsVersions(a)
    ensures Undeleted(Final(c, run), AllCreated(c, created, run))
    decreases run
  {
    hide Undeleted, Enabled, Next, KeepsVersions, CreatedAfter;
    if run != [] {
      assert run[0] in run;
      assert forall a :: a in run[1..] ==> a in run;
      StepKeepsUndeleted(c, created, run[0]);
      RunKeepsUndeleted(Next(c, run[0]), CreatedAfter(c, created, run[0]), run[1..]);
    }
  }

  /** With numbered histories, an append drops exactly what it does not keep. */
  lemma DroppedIffNotKept(file: FileRecord, fileID: string, list: seq<Version>, h: seq<Version>, x: Version, size: int, v: Version)
    requires Retention.FileOk(file, fileID, list, h) && x.number == file.latestVersion + 1
    ensures v in Dropped(Bump(file, size), list + [x])
            <==> v in list + [x] && v !in LastN(h + [x], file.maxVersions)
  {
    assert forall i :: 0 <= i < |list| ==> list[i] == h[|h| - |list| + i];
    assert Increasing(list);
    Retention.AppendRetains(file, fileID, list, h, x, size);
    VersionLists.AppendKeeps(file, list, x, size);
    VersionLists.IncreasingAppend(list, x);
    var front, back := Dropped(Bump(file, size), list + [x]), Kept(Bump(file, size), list + [x]);
    hide Kept, Dropped, LastN, Retention.FileOk;
    assert front + back == list + [x];
    assert v in list + [x] <==> v in front || v in back;
    Separate(list + [x], front, back, v);
  }

  lemma Separate(all: seq<Version>, front: seq<Version>, back: seq<Version>, v: Version)
    requires Increasing(all) && front + back == all
    ensures !(v in front && v in back)
  {
    forall i, j | 0 <= i < |front| && 0 <= j < |back| ensures front[i] != back[j] {
      assert all[i] == front[i] && all[|front| + j] == back[j];
    }
  }

  /** The record an appending operation appends to. */
  function Base(cat: Catalog, op: Op): FileRecord
    requires op.Create? || op.Rollback?
    requires op.Rollback? ==> op.fileID in cat.files
  {
    if op.Create? then FileFor(cat, op) else cat.files[op.fileID]
  }

  lemma RemovedShape(c: Cluster, created: seq<Version>, op: Op, v: Version)
    requires Undeleted(c, created) && (op.Create? || op.Rollback?) && Created(c.cat, op).Some?
    ensures var x := Created(c.cat, op).value;
            v in Removed(c.cat, op)
            <==> v in ListOf(c.cat.versions, op.fileID) + [x]
                 && v !in LastN(Retention.History(created, op.fileID) + [x], Base(c.cat, op).maxVersions)
  {
    hide Inv, Accounted, FilesKeyed, Retention.LogOk;
    var f, x := op.fileID, Created(c.cat, op).value;
    var w := Retention.World(c.cat, created, c.j.clock);
    if op.Create? && f !in c.cat.files { Retention.NewFileOk(w, f, op.name, op.path, 0); }
    var size := if op.Create? then op.size else x.size;
    DroppedIffNotKept(Base(c.cat, op), f, ListOf(c.cat.versions, f), Retention.History(created, f), x, size, v);
    hide Dropped, LastN, Retention.FilesOk, Retention.History;
  }

  lemma BaseAfterRestart(c: Cluster, created: seq<Version>, op: Op)
    requires Undeleted(c, created) && (op.Create? || op.Rollback?) && Created(c.cat, op).Some?
    requires Retention.Enabled(Retention.World(c.cat, created, c.j.clock), op)
    ensures var r := Apply(c.cat, Restart);
            && Created(r, op) == Created(c.cat, op)
            && Base(r, op) == Base(c.cat, op)
            && ListOf(r.versions, op.fileID) == Retention.History(created, op.fileID)
  {
    var w := Retention.World(c.cat, created, c.j.clock);
    hide Inv, Accounted, FilesKeyed;
    Retention.SameVersionCreated(w, op);
    Retention.RestartKeepsInv(w);
    assert Retention.Next(w, Restart).cat == Apply(c.cat, Restart);
    assert c.cat.savedFiles == c.cat.files;
    hide Retention.Inv, Retention.History, Created;
  }

  lemma HistoryIsLogged(c: Cluster, created: seq<Version>, f: string, v: Version)
    requires Undeleted(c, created) && v in Retention.History(created, f)
    ensures v in ListOf(c.cat.versions, f) || v in c.j.removed
  {
    hide Inv, FilesKeyed, Retention.FilesOk, Retention.History;
    assert OfFile(c.cat.log, f) == Retention.History(created, f);
    OfFileAbsent(c.cat.log, f);
    var e :| e in c.cat.log && e.value == v;
  }

  lemma HistoryHasList(c: Cluster, created: seq<Version>, f: string, v: Version)
    requires Undeleted(c, created) && v in ListOf(c.cat.versions, f)
    ensures v in Retention.History(created, f)
  {
    hide Inv, FilesKeyed, Accounted, Retention.LogOk, Retention.History;
    var list, h := ListOf(c.cat.versions, f), Retention.History(created, f);
    if f in c.cat.files {
      assert Retention.FileOk(c.cat.files[f], f, list, h);
    }
    var i :| 0 <= i < |list| && list[i] == v;
    assert h[|h| - |list| + i] == v;
  }

  /** What an append removes after a restart, beyond what it removes without one, had been
      removed before. */
  lemma SameRemovals(c: Cluster, r: Cluster, created: seq<Version>, op: Op, v: Version)
    requires Undeleted(c, created) && Undeleted(r, created) && r.cat == Apply(c.cat, Restart)
    requires (op.Create? || op.Rollback?) && Created(c.cat, op).Some?
    requires Retention.Enabled(Retention.World(c.cat, created, c.j.clock), op)
    ensures v in Removed(r.cat, op) ==> v in Removed(c.cat, op) || v in c.j.removed
    ensures v in Removed(c.cat, op) ==> v in Removed(r.cat, op)
  {
    hide *;
    BaseAfterRestart(c, created, op);
    RemovedShape(c, created, op, v);
    RemovedShape(r, created, op, v);
    if v in Retention.History(created, op.fileID) { HistoryIsLogged(c, created, op.fileID, v); }
    if v in ListOf(c.cat.versions, op.fileID) { HistoryHasList(c, created, op.fileID, v); }
  }

  /** Restart heals retention completely: with or without a restart in between, the next create
      or rollback leaves the same version list and the same live chunks. */
  lemma RestartHealsAll(run: seq<Action>, op: Op)
    requires Legal(GENESIS, run) && (forall a :: a in run ==> KeepsVersions(a))
    requires var c := Final(GENESIS, run);
             Enabled(c, Manage(op)) && KeepsVersions(Manage(op)) && (op.Create? || op.Rollback?) && Created(c.cat, op).Some?
    ensures var c := Final(GENESIS, run);
            var straight, restarted := DoManage(c, op), DoManage(Restarted(c), op);
            && ListOf(restarted.cat.versions, op.fileID) == ListOf(straight.cat.versions, op.fileID)
            && restarted.w.s.chunks.Keys == straight.w.s.chunks.Keys
  {
    GenesisUndeleted();
    RunKeepsUndeleted(GENESIS, [], run);
    hide Legal, Final, AllCreated;
    HealsAllFrom(Final(GENESIS, run), AllCreated(GENESIS, [], run), op);
  }

  lemma GenesisUndeleted()
    ensures Undeleted(GENESIS, [])
  {
    GenesisInv();
    Retention.GenesisInv();
  }

  lemma RestartUndeleted(c: Cluster, created: seq<Version>)
    requires Undeleted(c, created)
    ensures Undeleted(Restarted(c), created)
  {
    assert CreatedAfter(c, created, RestartServer) == created + [] == created;
    assert Next(c, RestartServer) == Restarted(c);
    hide Undeleted, Restarted, CreatedAfter;
    StepKeepsUndeleted(c, created, RestartServer);
  }

  lemma HealsAllFrom(c: Cluster, created: seq<Version>, op: Op)
    requires Undeleted(c, created)
    requires Enabled(c, Manage(op)) && KeepsVersions(Manage(op)) && (op.Create? || op.Rollback?) && Created(c.cat, op).Some?
    ensures var straight, restarted := DoManage(c, op), DoManage(Restarted(c), op);
            && ListOf(restarted.cat.versions, op.fileID) == ListOf(straight.cat.versions, op.fileID)
            && restarted.w.s.chunks.Keys == straight.w.s.chunks.Keys
  {
    var r := Restarted(c);
    RetentionEnabled(c, created, Manage(op));
    SameLists(c, created, op);
    RestartUndeleted(c, created);
    RestartedParts(c);
    ManagedChunks(c, op);
    assert Undeleted(c, created) ==> Inv(c);
    assert Undeleted(r, created) ==> Inv(r);
    hide *;
    ManagedChunks(r, op);
    forall v ensures v in Removed(r.cat, op) ==> v in Removed(c.cat, op) || v in c.j.removed
      ensures v in Removed(c.cat, op) ==> v in Removed(r.cat, op)
    {
      SameRemovals(c, r, created, op, v);
    }
    SameDeletions(c, op, r);
  }

  lemma RestartedParts(c: Cluster)
    ensures Restarted(c).cat == Apply(c.cat, Restart) && Restarted(c).w.s.chunks == c.w.s.bucket
    ensures Restarted(c).j == c.j
  {
    hide Apply;
  }

  lemma ManagedChunks(c: Cluster, op: Op)
    requires Inv(c)
    ensures DoManage(c, op).w.s.chunks.Keys == c.w.s.chunks.Keys - ListedBy(Elements(Removed(c.cat, op)))
  {
    DeleteOpsEffect(c.w, Removed(c.cat, op));
    hide Inv, S.Inv, Removed, ListedBy, S.Final;
  }

  lemma SameLists(c: Cluster, created: seq<Version>, op: Op)
    requires Undeleted(c, created) && (op.Create? || op.Rollback?) && Created(c.cat, op).Some?
    requires Retention.Enabled(Retention.World(c.cat, created, c.j.clock), op)
    ensures ListOf(DoManage(Restarted(c), op).cat.versions, op.fileID) == ListOf(DoManage(c, op).cat.versions, op.fileID)
  {
    var w := Retention.World(c.cat, created, c.j.clock);
    Retention.HealsFrom(w, op);
    hide Undeleted, Apply, Created, ListOf, Retention.Enabled;
    assert Retention.Next(w, Restart).cat == Restarted(c).cat;
    assert Retention.Next(w, op).cat == DoManage(c, op).cat;
    assert Retention.Next(Retention.Next(w, Restart), op).cat == DoManage(Restarted(c), op).cat;
  }

  lemma SameDeletions(c: Cluster, op: Op, r: Cluster)
    requires Inv(c) && r.w.s.chunks == c.w.s.bucket
    requires forall v :: v in Removed(r.cat, op) ==> v in Removed(c.cat, op) || v in c.j.removed
    requires forall v :: v in Removed(c.cat, op) ==> v in Removed(r.cat, op)
    ensures c.w.s.chunks.Keys - ListedBy(Elements(Removed(c.cat, op)))
            == r.w.s.chunks.Keys - ListedBy(Elements(Removed(r.cat, op)))
  {
    hide NetOk, SessionsOk, VersionsOk, Removed;
    assert c.w.s.chunks.Keys == c.w.s.bucket.Keys == c.w.h.prepared.Keys - ListedBy(c.j.removed);
    var a, b := ListedBy(Elements(Removed(c.cat, op))), ListedBy(Elements(Removed(r.cat, op)));
    assert a <= b;
    assert b <= a + ListedBy(c.j.removed);
  }
}
