/** Which chunks are alive. Deletion is not reference-counted and rollback shares chunks, so
    liveness is stated exactly: what is gone is what removed versions listed. */
module ClusterLiveness {
  import opened Sequences
  import opened Keys
  import opened Records
  import opened VersionCatalog
  import opened Download
  import opened Cluster
  import opened ClusterInvariant
  import opened ClusterTheorems
  import S = StorageProtocol
  import Sched = Scheduler
  import VersionLists

  /** Every chunk of the version is known to the server. */
  predicate Live(chunks: map<string, Chunk>, v: Version) {
    forall id :: id in v.chunkIDs ==> id in chunks
  }

  predicate Shares(v: Version, w: Version) {
    exists id :: id in v.chunkIDs && id in w.chunkIDs
  }

  // ------------------------------------------------------------------- exact liveness

  /** In every run the live chunks, in memory and on disk, are exactly the prepared ones minus
      those listed by some removed version. */
  lemma LiveExactly(run: seq<Action>)
    requires Legal(GENESIS, run)
    ensures var c := Final(GENESIS, run);
            && c.w.s.chunks.Keys == c.w.h.prepared.Keys - ListedBy(c.j.removed)
            && c.w.s.bucket.Keys == c.w.s.chunks.Keys
  {
    ReachableInv(run);
    hide Legal, Final, NetOk, SessionsOk, VersionsOk, ListedBy;
  }

  lemma LiveFrom(c: Cluster, v: Version)
    requires Inv(c) && InCatalog(c.cat, v)
    ensures Live(c.w.s.chunks, v) <==> forall w :: w in c.j.removed ==> !Shares(v, w)
  {
    hide NetOk, SessionsOk, InCatalog, Stamped, Contents;
    assert VersionOk(v, c.j);
    assert c.w.s.chunks.Keys == c.w.h.prepared.Keys - ListedBy(c.j.removed);
    if Live(c.w.s.chunks, v) {
      forall w | w in c.j.removed ensures !Shares(v, w) {
        assert forall id :: id in w.chunkIDs ==> id in ListedBy(c.j.removed);
      }
    } else {
      var id :| id in v.chunkIDs && id !in c.w.s.chunks;
      assert id in ListedBy(c.j.removed);
      var w :| w in c.j.removed && id in w.chunkIDs;
      assert Shares(v, w);
    }
  }

  /** A version in a list (or in the log) is fully live exactly when it shares no chunk with a
      removed version. */
  lemma RetainedLiveIff(run: seq<Action>, v: Version)
    requires Legal(GENESIS, run) && InCatalog(Final(GENESIS, run).cat, v)
    ensures var c := Final(GENESIS, run);
            Live(c.w.s.chunks, v) <==> forall w :: w in c.j.removed ==> !Shares(v, w)
  {
    ReachableInv(run);
    hide Legal, Final, Inv, InCatalog, Live, Shares;
    LiveFrom(Final(GENESIS, run), v);
  }

  // ----------------------------------------------------------- without sharing

  /** Retained versions share no chunks with each other or with removed ones. */
  ghost predicate Unshared(c: Cluster) {
    && (forall f, v, w :: v in ListOf(c.cat.versions, f) && w in c.j.removed ==> !Shares(v, w))
    && (forall f, g, v, w :: v in ListOf(c.cat.versions, f) && w in ListOf(c.cat.versions, g) && v != w ==> !Shares(v, w))
  }

  ghost predicate Tidy(c: Cluster) { Inv(c) && VersionLists.Inv(c.cat) && Unshared(c) }

  /** The run neither rolls back nor restarts. */
  ghost predicate Plain(run: seq<Action>) {
    forall a :: a in run ==> !a.RestartServer? && !(a.Manage? && a.op.Rollback?)
  }

  /** A new version's chunks have never been listed, so nothing in the catalog or among the
      removed versions shares them. */
  lemma FreshShares(c: Cluster, op: Op, v: Version, w: Version)
    requires Inv(c) && Manageable(c, op) && (op.Create? || op.CreateMeta?)
    requires Created(c.cat, op) == Some(v)
    requires InCatalog(c.cat, w) || w in c.j.removed
    ensures !Shares(v, w) && !Shares(w, v)
  {
    hide S.Inv, NetOk, SessionsOk, Contents, Stamped;
    CreatedShape(c, op);
    if InCatalog(c.cat, w) {
      assert VersionOk(w, c.j);
    } else {
      assert forall id :: id in w.chunkIDs ==> id in ListedBy(c.j.removed);
    }
  }

  /** One catalog operation, seen from the lists: every version kept was there or is new, every
      version removed likewise, and nothing is both kept and removed. */
  lemma ListsAfter(cat: Catalog, op: Op, f: string, v: Version)
    requires VersionLists.Inv(cat) && VersionLists.Enabled(cat, op)
    requires v in ListOf(Apply(cat, op).versions, f)
    ensures v in ListOf(cat.versions, f) || Created(cat, op) == Some(v)
    ensures v !in Removed(cat, op)
  {
    hide VersionLists.ListOk;
    match op
    case Create(g, _, _, _, _, size, _, _) =>
      var x := Created(cat, op).value;
      if g == f { KeptNotDropped(cat, FileFor(cat, op), f, x, size, v); } else { OtherList(cat, op, f, g, v); }
    case Rollback(g, _, _) =>
      if Created(cat, op).Some? {
        var x := Created(cat, op).value;
        assert Apply(cat, op) == Append(cat, g, cat.files[g], x, x.size);
        if g == f { KeptNotDropped(cat, cat.files[g], f, x, x.size, v); } else { OtherList(cat, op, f, g, v); }
      }
    case DeleteVersion(g, number) => DeletedGone(cat, op, f, v);
    case DeleteFile(g) =>
      if f != g {
        forall w | w in Removed(cat, op) ensures w != v { DifferentFiles(cat, f, g, v, w); }
      }
    case _ =>
  }

  lemma DifferentFiles(cat: Catalog, f: string, g: string, v: Version, w: Version)
    requires VersionLists.Inv(cat) && v in ListOf(cat.versions, f) && w in ListOf(cat.versions, g) && f != g
    ensures v != w
  {
    assert VersionLists.ListOk(cat.files[f], ListOf(cat.versions, f));
    assert VersionLists.ListOk(cat.files[g], ListOf(cat.versions, g));
  }

  lemma PartsDisjoint(all: seq<Version>, front: seq<Version>, back: seq<Version>, v: Version)
    requires Increasing(all) && front + back == all && v in back
    ensures v !in front
  {
    var j :| 0 <= j < |back| && back[j] == v;
    forall i | 0 <= i < |front| ensures front[i] != v {
      assert all[i] == front[i] && all[|front| + j] == v;
    }
  }

  lemma KeptNotDropped(cat: Catalog, file: FileRecord, f: string, x: Version, size: int, v: Version)
    requires VersionLists.Inv(cat) && file.fileID == f && x.number == file.latestVersion + 1
    requires file == (if f in cat.files then cat.files[f] else file) && (f !in cat.files ==> file.latestVersion >= 0)
    requires v in Kept(Bump(file, size), ListOf(cat.versions, f) + [x])
    ensures v in ListOf(cat.versions, f) || v == x
    ensures v !in Dropped(Bump(file, size), ListOf(cat.versions, f) + [x])
  {
    var list := ListOf(cat.versions, f);
    if f in cat.files { assert VersionLists.ListOk(cat.files[f], list); }
    VersionLists.AppendKeeps(file, list, x, size);
    VersionLists.IncreasingAppend(list, x);
    var dropped, kept := Dropped(Bump(file, size), list + [x]), Kept(Bump(file, size), list + [x]);
    hide Kept, Dropped, VersionLists.Inv;
    assert dropped + kept == list + [x];
    assert v in list + [x];
    PartsDisjoint(list + [x], dropped, kept, v);
  }

  lemma OtherList(cat: Catalog, op: Op, f: string, g: string, v: Version)
    requires VersionLists.Inv(cat) && f != g && (op.Create? || op.Rollback?) && op.fileID == g
    requires Created(cat, op).Some? && v in ListOf(Apply(cat, op).versions, f)
    ensures v in ListOf(cat.versions, f) && v !in Removed(cat, op)
  {
    var x := Created(cat, op).value;
    assert ListOf(Apply(cat, op).versions, f) == ListOf(cat.versions, f) by { hide Kept; }
    assert VersionLists.ListOk(cat.files[f], ListOf(cat.versions, f));
    assert v.fileID == f && x.fileID == g;
    var file := if op.Create? then FileFor(cat, op) else cat.files[g];
    var size := if op.Create? then op.size else x.size;
    forall w | w in Removed(cat, op) ensures w != v {
      KeptMember(Bump(file, size), ListOf(cat.versions, g) + [x], w);
      if w != x { DifferentFiles(cat, f, g, v, w); }
    }
  }

  lemma DeletedGone(cat: Catalog, op: Op, f: string, v: Version)
    requires VersionLists.Inv(cat) && op.DeleteVersion? && v in ListOf(Apply(cat, op).versions, f)
    ensures v in ListOf(cat.versions, f) && v !in Removed(cat, op)
  {
    var g, list := op.fileID, ListOf(cat.versions, op.fileID);
    var i := FindIndex(list, op.number);
    hide FindIndex;
    if g in cat.files && i < |list| {
      assert list[i] in list;
      if f == g {
        assert VersionLists.ListOk(cat.files[g], list);
        OthersRemain(list, i, v);
      } else {
        DifferentFiles(cat, f, g, v, list[i]);
      }
    }
  }

  /** What is left of an increasing list without its i-th entry. */
  lemma OthersRemain(list: seq<Version>, i: nat, v: Version)
    requires Increasing(list) && i < |list| && v in list[..i] + list[i + 1..]
    ensures v in list && v != list[i]
  {
    var rest := list[..i] + list[i + 1..];
    var m :| 0 <= m < |rest| && rest[m] == v;
    assert v == list[if m < i then m else m + 1];
  }

  lemma ManageKeepsTidy(c: Cluster, op: Op)
    requires Tidy(c) && Manageable(c, op) && !op.Rollback? && VersionLists.Enabled(c.cat, op)
    ensures VersionLists.Inv(DoManage(c, op).cat) && Unshared(DoManage(c, op))
  {
    VersionLists.StepKeepsInv(c.cat, op);
    var c' := DoManage(c, op);
    assert c'.cat == Apply(c.cat, op) && c'.j.removed == c.j.removed + Elements(Removed(c.cat, op));
    hide VersionLists.Inv, DoManage, Removed, Created, Shares, InCatalog, VersionLists.Enabled, Apply, Manageable;
    forall f, v, w | v in ListOf(c'.cat.versions, f) && w in c'.j.removed ensures !Shares(v, w) {
      ListsAfter(c.cat, op, f, v);
      if w in Removed(c.cat, op) { RemovedMember(c.cat, op, w); }
      KeptAndRemoved(c, op, f, v, w);
    }
    forall f, g, v, w | v in ListOf(c'.cat.versions, f) && w in ListOf(c'.cat.versions, g) && v != w
      ensures !Shares(v, w)
    {
      ListsAfter(c.cat, op, f, v);
      ListsAfter(c.cat, op, g, w);
      KeptAndKept(c, op, f, g, v, w);
    }
  }

  /** Removed versions come from a list. */
  lemma RemovedList(cat: Catalog, op: Op, w: Version)
    requires w in Removed(cat, op)
    ensures Created(cat, op) == Some(w) || w in ListOf(cat.versions, op.fileID)
    ensures !op.Restart?
  {
    hide SortByNumber, Excess;
    if op.Create? {
      KeptMember(Bump(FileFor(cat, op), op.size), ListOf(cat.versions, op.fileID) + [Created(cat, op).value], w);
    } else if op.Rollback? {
      var x := Created(cat, op).value;
      KeptMember(Bump(cat.files[op.fileID], x.size), ListOf(cat.versions, op.fileID) + [x], w);
    }
  }

  lemma CreatedByCreate(c: Cluster, op: Op)
    requires Created(c.cat, op).Some? && !op.Rollback?
    ensures op.Create? || op.CreateMeta?
  {
  }

  lemma KeptAndRemoved(c: Cluster, op: Op, f: string, v: Version, w: Version)
    requires Tidy(c) && Manageable(c, op) && !op.Rollback?
    requires v in ListOf(c.cat.versions, f) || Created(c.cat, op) == Some(v)
    requires v !in Removed(c.cat, op)
    requires w in c.j.removed || w in Removed(c.cat, op)
    ensures !Shares(v, w)
  {
    if w in Removed(c.cat, op) { RemovedList(c.cat, op, w); }
    if Created(c.cat, op).Some? { CreatedByCreate(c, op); }
    hide Removed, Created, Shares, Manageable, VersionLists.Inv, InCatalog;
    if Created(c.cat, op) == Some(v) {
      if w !in c.j.removed { ListMember(c.cat, op.fileID, w); }
      FreshShares(c, op, v, w);
    } else if w !in c.j.removed && Created(c.cat, op) == Some(w) {
      ListMember(c.cat, f, v);
      FreshShares(c, op, w, v);
    }
  }

  lemma KeptAndKept(c: Cluster, op: Op, f: string, g: string, v: Version, w: Version)
    requires Tidy(c) && Manageable(c, op) && !op.Rollback? && v != w
    requires v in ListOf(c.cat.versions, f) || Created(c.cat, op) == Some(v)
    requires w in ListOf(c.cat.versions, g) || Created(c.cat, op) == Some(w)
    ensures !Shares(v, w)
  {
    if Created(c.cat, op).Some? { CreatedByCreate(c, op); }
    hide Created, Shares, Manageable, VersionLists.Inv, InCatalog;
    if Created(c.cat, op) == Some(v) {
      ListMember(c.cat, g, w);
      FreshShares(c, op, v, w);
    } else if Created(c.cat, op) == Some(w) {
      ListMember(c.cat, f, v);
      FreshShares(c, op, w, v);
    }
  }

  lemma SameCatalogTidy(c: Cluster, c': Cluster)
    requires Tidy(c) && c'.cat == c.cat && c'.j.removed == c.j.removed
    ensures VersionLists.Inv(c'.cat) && Unshared(c')
  {
    hide Inv, VersionLists.Inv, Shares;
  }

  lemma StepKeepsTidy(c: Cluster, a: Action)
    requires Tidy(c) && Enabled(c, a) && !a.RestartServer? && !(a.Manage? && a.op.Rollback?)
    ensures Tidy(Next(c, a))
  {
    StepKeepsInv(c, a);
    hide Inv, Unshared, VersionLists.Inv, Manageable, DoManage;
    if a.Manage? {
      FreshManageable(c, a.op);
      ManageKeepsTidy(c, a.op);
    } else if a.UploadFinish? {
      FinishKeepsTidy(c, a);
    } else {
      CatalogUntouched(c, a);
      hide Next, Enabled;
      SameCatalogTidy(c, Next(c, a));
    }
  }

  lemma CatalogUntouched(c: Cluster, a: Action)
    requires Enabled(c, a) && !a.Manage? && !a.UploadFinish? && !a.RestartServer?
    ensures Next(c, a).cat == c.cat && Next(c, a).j.removed == c.j.removed
  {
    hide Sched.IsSelection, S.Enabled, S.Next, FreshChunks, Held, Store, Flatten;
  }

  lemma FinishKeepsTidy(c: Cluster, a: Action)
    requires Tidy(c) && Enabled(c, a) && a.UploadFinish?
    ensures VersionLists.Inv(Next(c, a).cat) && Unshared(Next(c, a))
  {
    var c1, op := CloseUpload(c, a.k), FinishOp(c, a);
    FinishManageable(c, a);
    CloseUploadKeepsInv(c, a.k);
    assert Next(c, a).cat == DoManage(c1, op).cat && Next(c, a).j.removed == DoManage(c1, op).j.removed;
    hide Next, Enabled, Inv, VersionLists.Inv, DoManage, Manageable;
    SameCatalogTidy(c, c1);
    ManageKeepsTidy(c1, op);
    hide Shares;
  }

  lemma {:induction false} RunKeepsTidy(c: Cluster, run: seq<Action>)
    requires Tidy(c) && Legal(c, run) && Plain(run)
    ensures Tidy(Final(c, run))
    decreases run
  {
    hide Tidy, Enabled, Next;
    if run != [] {
      assert run[0] in run;
      assert forall a :: a in run[1..] ==> a in run;
      StepKeepsTidy(c, run[0]);
      RunKeepsTidy(Next(c, run[0]), run[1..]);
    }
  }

  lemma GenesisTidy()
    ensures Tidy(GENESIS)
  {
    GenesisInv();
  }

  /** Without rollback and restart, every retained version is always fully live, and no two
      retained versions share a chunk. */
  lemma PlainRunsStayLive(run: seq<Action>, f: string, v: Version)
    requires Legal(GENESIS, run) && Plain(run) && v in ListOf(Final(GENESIS, run).cat.versions, f)
    ensures Live(Final(GENESIS, run).w.s.chunks, v)
    ensures Unshared(Final(GENESIS, run))
  {
    GenesisTidy();
    RunKeepsTidy(GENESIS, run);
    var c := Final(GENESIS, run);
    ListMember(c.cat, f, v);
    hide Legal, Final, Inv, Live, Shares, InCatalog, Plain, VersionLists.Inv;
    LiveFrom(c, v);
  }

  // ---------------------------------------------------------------------- rollback

  /** Chunks after a handler are those before minus the ones the removed versions list. */
  lemma ManageChunks(c: Cluster, op: Op)
    requires Inv(c)
    ensures DoManage(c, op).w.s.chunks.Keys == c.w.s.chunks.Keys - ListedBy(Elements(Removed(c.cat, op)))
  {
    hide NetOk, SessionsOk, JournalOk, VersionsOk, S.Inv, Removed;
    DeleteOpsEffect(c.w, Removed(c.cat, op));
  }

  lemma SparedShares(t: Version, gone: seq<Version>, w: Version)
    requires w in gone && forall id :: id in t.chunkIDs ==> id !in ListedBy(Elements(gone))
    ensures !Shares(t, w)
  {
    assert w in Elements(gone);
    assert forall id :: id in w.chunkIDs ==> id in ListedBy(Elements(gone));
  }

  /** In any state, a rollback yields a fully live version exactly when its target was fully live
      and shares no chunk with a version the same clean-up removes. */
  lemma RollbackLiveIff(c: Cluster, op: Op)
    requires Inv(c) && op.Rollback? && Created(c.cat, op).Some?
    ensures Find(ListOf(c.cat.versions, op.fileID), op.number).Some?
    ensures var t := Find(ListOf(c.cat.versions, op.fileID), op.number).value;
            Live(DoManage(c, op).w.s.chunks, Created(c.cat, op).value)
            <==> Live(c.w.s.chunks, t) && forall w :: w in Removed(c.cat, op) ==> !Shares(t, w)
  {
    RollbackTarget(c, op);
    ManageChunks(c, op);
    var t := Find(ListOf(c.cat.versions, op.fileID), op.number).value;
    var x, gone := Created(c.cat, op).value, Removed(c.cat, op);
    hide Inv, InCatalog, VersionOk, Created, Removed, Find, DoManage;
    assert Live(DoManage(c, op).w.s.chunks, x) ==> forall id :: id in t.chunkIDs ==> id !in ListedBy(Elements(gone));
    if Live(DoManage(c, op).w.s.chunks, x) {
      forall w | w in gone ensures !Shares(t, w) { SparedShares(t, gone, w); }
    } else {
      var id :| id in x.chunkIDs && id !in DoManage(c, op).w.s.chunks;
      if id in c.w.s.chunks {
        var w :| w in Elements(gone) && id in w.chunkIDs;
        assert Shares(t, w);
      }
    }
  }

  /** The guard a caller can check: the target's position in the list is not among those that
      the clean-up after the rollback cuts off. */
  predicate SurvivesCleanup(file: FileRecord, list: seq<Version>, number: int) {
    FindIndex(list, number) + file.maxVersions >= |list| + 1
  }

  lemma FindAtIndex(list: seq<Version>, number: int)
    ensures Find(list, number) == if FindIndex(list, number) < |list| then Some(list[FindIndex(list, number)]) else None
  {
  }

  /** The design promises that a rollback creates a version with the target's content. From an
      all-live state without sharing it does so exactly when the target survives the clean-up
      of that same rollback (or lists no chunks at all): rolling back to the oldest of
      maxVersions versions deletes the very chunks it reuses. */
  lemma RollbackKeepsContentIff(c: Cluster, op: Op)
    requires Tidy(c) && op.Rollback? && Created(c.cat, op).Some?
    requires forall f, v :: v in ListOf(c.cat.versions, f) ==> Live(c.w.s.chunks, v)
    ensures op.fileID in c.cat.files
    ensures var list := ListOf(c.cat.versions, op.fileID);
            Live(DoManage(c, op).w.s.chunks, Created(c.cat, op).value)
            <==> SurvivesCleanup(c.cat.files[op.fileID], list, op.number) || Created(c.cat, op).value.chunkIDs == []
  {
    hide *;
    TidyParts(c);
    RollbackLiveIff(c, op);
    RollbackGone(c, op);
    var list, number := ListOf(c.cat.versions, op.fileID), op.number;
    var i, gone := FindIndex(list, number), Removed(c.cat, op);
    assert list[i] in list;
    if i < |gone| {
      assert gone[i] == list[i] && gone[i] in gone;
      if list[i].chunkIDs != [] { SharesItself(list[i]); }
    } else {
      forall w | w in gone ensures !Shares(list[i], w) {
        GonePosition(list, Created(c.cat, op).value, gone, i, w);
        Apart(c, op.fileID, list[i], w);
      }
    }
    if list[i].chunkIDs == [] { NoChunks(c, list[i]); }
  }

  lemma TidyParts(c: Cluster)
    requires Tidy(c)
    ensures Inv(c) && VersionLists.Inv(c.cat) && Unshared(c)
  {
    hide Inv, VersionLists.Inv, Unshared;
  }

  /** Listed versions share nothing. */
  lemma Apart(c: Cluster, f: string, t: Version, w: Version)
    requires Unshared(c) && t in ListOf(c.cat.versions, f) && w in ListOf(c.cat.versions, f) && t != w
    ensures !Shares(t, w)
  {
    hide Shares;
  }

  /** The target's place, and what the rollback's clean-up removes. */
  lemma RollbackGone(c: Cluster, op: Op)
    requires VersionLists.Inv(c.cat) && op.Rollback? && Created(c.cat, op).Some?
    ensures op.fileID in c.cat.files
    ensures var list := ListOf(c.cat.versions, op.fileID);
            var i := FindIndex(list, op.number);
            var x, gone := Created(c.cat, op).value, Removed(c.cat, op);
            && Increasing(list) && i < |list| && Find(list, op.number) == Some(list[i])
            && x.chunkIDs == list[i].chunkIDs
            && |gone| <= |list| + 1 && gone == (list + [x])[..|gone|]
            && (SurvivesCleanup(c.cat.files[op.fileID], list, op.number) <==> |gone| <= i)
  {
    var file, list := c.cat.files[op.fileID], ListOf(c.cat.versions, op.fileID);
    var x := Created(c.cat, op).value;
    FindAtIndex(list, op.number);
    assert VersionLists.ListOk(file, list);
    VersionLists.AppendKeeps(file, list, x, x.size);
    hide Find, FindIndex, Kept, Dropped, VersionLists.Inv;
  }

  /** So after every run without an earlier rollback or restart, the next rollback keeps the target's
      content exactly when the target survives the clean-up. */
  lemma FirstRollbackIff(run: seq<Action>, op: Op)
    requires Legal(GENESIS, run) && Plain(run)
    requires op.Rollback? && Enabled(Final(GENESIS, run), Manage(op)) && Created(Final(GENESIS, run).cat, op).Some?
    ensures var c := Final(GENESIS, run);
            op.fileID in c.cat.files
            && (Live(Next(c, Manage(op)).w.s.chunks, Created(c.cat, op).value)
                <==> SurvivesCleanup(c.cat.files[op.fileID], ListOf(c.cat.versions, op.fileID), op.number)
                     || Created(c.cat, op).value.chunkIDs == [])
  {
    var c := Final(GENESIS, run);
    assert Next(c, Manage(op)) == DoManage(c, op);
    GenesisTidy();
    RunKeepsTidy(GENESIS, run);
    hide Tidy, Enabled, Next, Live, Created, DoManage;
    forall f, v | v in ListOf(c.cat.versions, f) ensures Live(c.w.s.chunks, v) {
      PlainRunsStayLive(run, f, v);
    }
    RollbackKeepsContentIff(c, op);
  }

  lemma SharesItself(t: Version)
    requires t.chunkIDs != []
    ensures Shares(t, t)
  {
    assert t.chunkIDs[0] in t.chunkIDs;
  }

  lemma NoChunks(c: Cluster, t: Version)
    requires t.chunkIDs == []
    ensures Live(c.w.s.chunks, t) && forall w :: !Shares(t, w)
  {
  }

  /** A version cut off before position i is not the one at position i. */
  lemma GonePosition(list: seq<Version>, x: Version, gone: seq<Version>, i: nat, w: Version)
    requires Increasing(list) && i < |list| && |gone| <= i && gone == (list + [x])[..|gone|]
    requires w in gone
    ensures w in list && w != list[i]
  {
    var m :| 0 <= m < |gone| && gone[m] == w;
    assert list[m] == w;
  }
}
