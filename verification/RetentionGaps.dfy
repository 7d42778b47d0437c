/** Retention across restarts when versions are deleted explicitly. Deleting a version leaves its record
    in the log, so a restart brings it back, and the next clean-up counts it again. */
module RetentionGaps {
  import opened Sequences
  import opened Keys
  import opened Records
  import opened Bucket
  import opened VersionCatalog
  import opened Retention
  import VersionLists

  // ------------------------------------------------------- ends of two increasing lists

  ghost predicate Within(list: seq<Version>, h: seq<Version>) {
    Increasing(list) && Increasing(h) && forall v :: v in list ==> v in h
  }

  /** Every one of the last n of the history is still in the list. */
  ghost predicate EndKept(list: seq<Version>, h: seq<Version>, n: nat) {
    forall v :: v in LastN(h, n) ==> v in list
  }

  lemma WithinFront(list: seq<Version>, h: seq<Version>)
    requires Within(list, h) && h != []
    ensures h[|h| - 1] in list ==>
              list != [] && list[|list| - 1] == h[|h| - 1] && Within(list[..|list| - 1], h[..|h| - 1])
    ensures h[|h| - 1] !in list ==> Within(list, h[..|h| - 1])
  {
    var front, last := h[..|h| - 1], h[|h| - 1];
    assert h == front + [last];
    if last in list {
      var i :| 0 <= i < |list| && list[i] == last;
      var n := |list| - 1;
      assert list[n] in h;
      var j :| 0 <= j < |h| && h[j] == list[n];
      assert i == n;
      forall v | v in list[..n] ensures v in front {
        var m :| 0 <= m < n && list[m] == v;
        assert v.number < last.number && v in h;
      }
    }
  }

  lemma LastNFront<T>(s: seq<T>, n: nat)
    requires s != [] && n > 0
    ensures LastN(s, n) == LastN(s[..|s| - 1], n - 1) + [s[|s| - 1]]
  {
  }

  lemma EndKeptFront(list: seq<Version>, h: seq<Version>, n: nat)
    requires Within(list, h) && h != [] && n > 0 && list != [] && list[|list| - 1] == h[|h| - 1]
    ensures EndKept(list, h, n) <==> EndKept(list[..|list| - 1], h[..|h| - 1], n - 1)
  {
    var rest, front, last := list[..|list| - 1], h[..|h| - 1], h[|h| - 1];
    LastNFront(h, n);
    assert list == rest + [last];
    forall v | v in LastN(front, n - 1) ensures v != last && v in LastN(h, n) {
      assert v in front;
      NotLast(h, v);
    }
    hide Within, LastN;
    assert forall v :: v in list <==> v in rest || v == last;
    assert forall v :: v in LastN(h, n) <==> v in LastN(front, n - 1) || v == last;
  }

  /** Two such lists end alike exactly when the history's end is still there. */
  lemma {:induction false} EndsAgree(list: seq<Version>, h: seq<Version>, n: nat)
    requires Within(list, h)
    ensures LastN(list, n) == LastN(h, n) <==> EndKept(list, h, n)
    decreases |h|
  {
    if h == [] {
      NothingWithin(list);
    } else if n > 0 {
      var last := h[|h| - 1];
      WithinFront(list, h);
      LastNFront(h, n);
      if last in list {
        LastNFront(list, n);
        EndsAgree(list[..|list| - 1], h[..|h| - 1], n - 1);
        EndKeptFront(list, h, n);
      } else {
        assert last in LastN(h, n);
        assert forall v :: v in LastN(list, n) ==> v in list;
      }
      hide Within, LastN, EndKept;
    }
  }

  lemma NothingWithin(list: seq<Version>)
    requires Within(list, [])
    ensures list == []
  {
    SomeMember(list);
  }

  lemma SomeMember<T>(s: seq<T>)
    ensures s != [] ==> exists x :: x in s
  {
    if s != [] { assert s[0] in s; }
  }

  lemma NotLast(h: seq<Version>, v: Version)
    requires Increasing(h) && h != [] && v in h[..|h| - 1]
    ensures v != h[|h| - 1]
  {
  }

  /** What the end of the history keeps, the end of the list keeps. */
  lemma {:induction false} EndMonotone(list: seq<Version>, h: seq<Version>, n: nat, v: Version)
    requires Within(list, h) && v in list && v in LastN(h, n)
    ensures v in LastN(list, n)
    decreases |h|
  {
    if n > 0 && h != [] {
      var front, last := h[..|h| - 1], h[|h| - 1];
      WithinFront(list, h);
      LastNFront(h, n);
      if last in list {
        LastNFront(list, n);
        var rest := list[..|list| - 1];
        assert list == rest + [last];
        if v != last { EndMonotone(rest, front, n - 1, v); }
      } else {
        assert v in LastN(front, n - 1);
        EndMonotone(list, front, n - 1, v);
        assert forall x :: x in LastN(list, n - 1) ==> x in LastN(list, n);
      }
    }
  }

  // ---------------------------------------------------------------------- one file

  /** What holds of file f as long as it is not deleted, whatever versions are. */
  ghost predicate GapsOk(file: FileRecord, f: string, list: seq<Version>, h: seq<Version>) {
    file.fileID == f && Numbered(h) && |h| == file.latestVersion && Within(list, h)
  }

  ghost predicate OneFile(cat: Catalog, created: seq<Version>, f: string) {
    if f in cat.files then GapsOk(cat.files[f], f, ListOf(cat.versions, f), History(created, f))
    else ListOf(cat.versions, f) == [] && History(created, f) == []
  }

  ghost predicate Inv(w: World, f: string) {
    && LogOk(w) && w.cat.savedFiles == w.cat.files
    && (forall g :: g in w.cat.files ==> w.cat.files[g].fileID == g)
    && OneFile(w.cat, w.created, f)
  }

  /** Any operation but the deletion of f itself; metadata only for new files. */
  predicate Enabled(w: World, f: string, op: Op) {
    && op != Op.DeleteFile(f)
    && (op.CreateMeta? ==> op.fileID !in w.cat.files)
    && (op.Create? || op.CreateMeta? || op.Rollback? ==> w.clock < op.stamp && StampOk(op.stamp))
  }

  lemma NumberedIncreasing(h: seq<Version>)
    requires Numbered(h)
    ensures Increasing(h)
  {
  }

  lemma MembersBounded(file: FileRecord, f: string, list: seq<Version>, h: seq<Version>)
    requires GapsOk(file, f, list, h)
    ensures forall v :: v in h ==> v.number <= file.latestVersion
    ensures forall v :: v in list ==> v.number <= file.latestVersion
  {
  }

  /** A create or rollback leaves the newest maxVersions of whatever the list was. */
  lemma AppendGaps(file: FileRecord, f: string, list: seq<Version>, h: seq<Version>, v: Version, size: int)
    requires GapsOk(file, f, list, h) && v.number == file.latestVersion + 1
    ensures var bumped := Bump(file, size);
            && Kept(bumped, list + [v]) == LastN(list + [v], file.maxVersions)
            && Dropped(bumped, list + [v]) + Kept(bumped, list + [v]) == list + [v]
            && Within(list + [v], h + [v])
            && GapsOk(CleanedUp(bumped, list + [v]), f, Kept(bumped, list + [v]), h + [v])
  {
    MembersBounded(file, f, list, h);
    VersionLists.AppendKeeps(file, list, v, size);
    VersionLists.IncreasingAppend(list, v);
    VersionLists.IncreasingAppend(h, v);
    VersionLists.LastNIncreasing(list + [v], file.maxVersions);
    NumberedAppend(h, v);
    hide Kept, Dropped, Increasing, Numbered;
    assert forall x :: x in LastN(list + [v], file.maxVersions) ==> x in list + [v];
  }

  // ---------------------------------------------------------------------- preservation

  /** The file's parts that an operation on another file leaves alone. */
  lemma OtherFile(w: World, g: string, file: FileRecord, v: Version, size: int, f: string)
    requires v.fileID == g && f != g && OneFile(w.cat, w.created, f)
    ensures OneFile(Append(w.cat, g, file, v, size), w.created + [v], f)
  {
    HistoryAppend(w.created, v, f);
    assert History(w.created + [v], f) == History(w.created, f);
    hide GapsOk, Kept, Put, History;
  }

  lemma ThisFile(w: World, f: string, file: FileRecord, v: Version, size: int)
    requires v.fileID == f && v.number == file.latestVersion + 1
    requires GapsOk(file, f, ListOf(w.cat.versions, f), History(w.created, f))
    ensures OneFile(Append(w.cat, f, file, v, size), w.created + [v], f)
  {
    AppendGaps(file, f, ListOf(w.cat.versions, f), History(w.created, f), v, size);
    HistoryAppend(w.created, v, f);
    hide GapsOk, Kept, Put, History, LastN, Within;
  }

  lemma AppendKeyed(cat: Catalog, g: string, file: FileRecord, v: Version, size: int)
    requires cat.savedFiles == cat.files && (forall x :: x in cat.files ==> cat.files[x].fileID == x) && file.fileID == g
    ensures var cat' := Append(cat, g, file, v, size);
            cat'.savedFiles == cat'.files && forall x :: x in cat'.files ==> cat'.files[x].fileID == x
  {
    hide Kept, Put;
  }

  lemma AppendKeepsInv(w: World, f: string, g: string, file: FileRecord, v: Version, size: int, stamp: nat)
    requires Inv(w, f) && w.clock < stamp && StampOk(stamp) && file.fileID == g
    requires g == f ==> GapsOk(file, f, ListOf(w.cat.versions, f), History(w.created, f))
    requires v.number == file.latestVersion + 1 && v.fileID == g && v.versionID == VersionID(stamp)
    ensures Inv(World(Append(w.cat, g, file, v, size), w.created + [v], stamp), f)
  {
    AppendLogOk(w, g, file, v, size, stamp);
    AppendKeyed(w.cat, g, file, v, size);
    if g == f { ThisFile(w, f, file, v, size); } else { OtherFile(w, g, file, v, size, f); }
    hide LogOk, GapsOk, OneFile, Append, History, StampOk, VersionID;
  }

  lemma NewFileGaps(cat: Catalog, created: seq<Version>, f: string, name: string, path: string, size: int)
    requires OneFile(cat, created, f) && f !in cat.files
    ensures GapsOk(NewFile(f, name, path, size), f, ListOf(cat.versions, f), History(created, f))
  {
  }

  lemma RestartKeepsInv(w: World, f: string)
    requires Inv(w, f)
    ensures Inv(Next(w, Restart), f) && ListOf(Next(w, Restart).cat.versions, f) == History(w.created, f)
  {
    OfFileGrouped(w.cat.log, f);
    assert w.created + [] == w.created;
    assert OfFile(w.cat.log, f) == History(w.created, f);
    hide LogOk, OfFile, Grouped, History;
  }

  /** Deleting a version takes it out of the list, not out of the history. */
  lemma GapMade(file: FileRecord, f: string, list: seq<Version>, h: seq<Version>, i: nat)
    requires GapsOk(file, f, list, h) && i < |list|
    ensures GapsOk(file.(versionCount := file.versionCount - 1), f, list[..i] + list[i + 1..], h)
  {
    assert forall v :: v in list[..i] + list[i + 1..] ==> v in list;
  }

  lemma DeleteKeepsInv(w: World, f: string, op: Op)
    requires Inv(w, f) && Enabled(w, f, op) && (op.DeleteVersion? || op.DeleteFile?)
    ensures Inv(Next(w, op), f)
  {
    assert w.created + [] == w.created;
    if op.DeleteVersion? && op.fileID == f && f in w.cat.files {
      var list := ListOf(w.cat.versions, f);
      var i := FindIndex(list, op.number);
      if i < |list| { GapMade(w.cat.files[f], f, list, History(w.created, f), i); }
    }
    hide LogOk, GapsOk, History, FindIndex;
  }

  lemma LaterStamp(w: World, f: string, stamp: nat)
    requires Inv(w, f) && w.clock <= stamp
    ensures Inv(w.(clock := stamp), f) && w.created + [] == w.created
  {
    forall e | e in w.cat.log ensures EntryOk(e, stamp) { assert EntryOk(e, w.clock); }
  }

  lemma StepKeepsInv(w: World, f: string, op: Op)
    requires Inv(w, f) && Enabled(w, f, op)
    ensures Inv(Next(w, op), f)
  {
    match op
    case Restart => RestartKeepsInv(w, f);
    case DeleteVersion(_, _) => DeleteKeepsInv(w, f, op);
    case DeleteFile(_) => DeleteKeepsInv(w, f, op);
    case Create(g, name, path, _, _, size, _, stamp) =>
      if g == f && f !in w.cat.files { NewFileGaps(w.cat, w.created, f, name, path, 0); }
      AppendKeepsInv(w, f, g, FileFor(w.cat, op), Created(w.cat, op).value, size, stamp);
    case CreateMeta(g, name, path, _, _, size, stamp) =>
      if g == f { NewFileGaps(w.cat, w.created, f, name, path, size); }
      MetaKeepsInv(w, f, op);
    case Rollback(g, _, stamp) =>
      if Created(w.cat, op).Some? {
        var v := Created(w.cat, op).value;
        assert Apply(w.cat, op) == Append(w.cat, g, w.cat.files[g], v, v.size);
        AppendKeepsInv(w, f, g, w.cat.files[g], v, v.size, stamp);
      } else {
        LaterStamp(w, f, stamp);
      }
  }

  /** Posting metadata for a new file cleans nothing up. For f itself the list is empty before. */
  lemma MetaKeepsInv(w: World, f: string, op: Op)
    requires Inv(w, f) && Enabled(w, f, op) && op.CreateMeta?
    ensures Inv(Next(w, op), f)
  {
    MetaLogOk(w, f, op);
    MetaOneFile(w, f, op);
    hide LogOk, OneFile, Next;
  }

  lemma MetaLogOk(w: World, f: string, op: Op)
    requires Inv(w, f) && Enabled(w, f, op) && op.CreateMeta?
    ensures var w' := Next(w, op);
            LogOk(w') && w'.cat.savedFiles == w'.cat.files && forall g :: g in w'.cat.files ==> w'.cat.files[g].fileID == g
  {
    LogAppend(w, op.fileID, Created(w.cat, op).value, op.stamp);
    hide LogOk, OneFile, StampOk, VersionID, VersionKey, Put;
  }

  /** A new file's list and history are the one version; other files keep theirs. */
  lemma MetaOneFile(w: World, f: string, op: Op)
    requires OneFile(w.cat, w.created, f) && op.CreateMeta? && op.fileID !in w.cat.files
    ensures OneFile(Next(w, op).cat, Next(w, op).created, f)
  {
    hide *;
    MetaFields(w, op);
    var v, w' := Created(w.cat, op).value, Next(w, op);
    HistoryAppend(w.created, v, f);
    if op.fileID == f {
      NothingYet(w.cat, w.created, f);
      OneVersion(w'.cat.files[f], f, v);
      assert ListOf(w'.cat.versions, f) == [v] == History(w'.created, f);
      KnownFile(w'.cat, w'.created, f);
    } else {
      SameFile(w.cat, w.created, w'.cat, w'.created, f);
    }
  }

  lemma MetaFields(w: World, op: Op)
    requires op.CreateMeta?
    ensures Created(w.cat, op).Some?
    ensures var v, w' := Created(w.cat, op).value, Next(w, op);
            && v.fileID == op.fileID && v.number == 1 && w'.created == w.created + [v]
            && w'.cat.files.Keys == w.cat.files.Keys + {op.fileID}
            && w'.cat.files[op.fileID].fileID == op.fileID && w'.cat.files[op.fileID].latestVersion == 1
            && ListOf(w'.cat.versions, op.fileID) == ListOf(w.cat.versions, op.fileID) + [v]
            && forall g :: g != op.fileID ==>
                 ListOf(w'.cat.versions, g) == ListOf(w.cat.versions, g)
                 && (g in w.cat.files ==> w'.cat.files[g] == w.cat.files[g])
  {
    hide VersionID, VersionKey, Put;
  }

  lemma NothingYet(cat: Catalog, created: seq<Version>, f: string)
    requires OneFile(cat, created, f) && f !in cat.files
    ensures ListOf(cat.versions, f) == [] && History(created, f) == []
  {
    hide History, ListOf;
  }

  lemma KnownFile(cat: Catalog, created: seq<Version>, f: string)
    requires f in cat.files && GapsOk(cat.files[f], f, ListOf(cat.versions, f), History(created, f))
    ensures OneFile(cat, created, f)
  {
    hide GapsOk, History, ListOf;
  }

  lemma SameFile(cat: Catalog, created: seq<Version>, cat': Catalog, created': seq<Version>, f: string)
    requires OneFile(cat, created, f) && (f in cat'.files <==> f in cat.files)
    requires f in cat.files ==> cat'.files[f] == cat.files[f]
    requires ListOf(cat'.versions, f) == ListOf(cat.versions, f) && History(created', f) == History(created, f)
    ensures OneFile(cat', created', f)
  {
    hide GapsOk, History, ListOf;
  }

  lemma OneVersion(file: FileRecord, f: string, v: Version)
    requires file.fileID == f && v.number == 1 == file.latestVersion
    ensures GapsOk(file, f, [v], [v])
  {
  }

  ghost predicate Legal(w: World, f: string, run: seq<Op>)
    decreases run
  {
    run == [] || (Enabled(w, f, run[0]) && Legal(Next(w, run[0]), f, run[1..]))
  }

  lemma {:induction false} RunKeepsInv(w: World, f: string, run: seq<Op>)
    requires Inv(w, f) && Legal(w, f, run)
    ensures Inv(Final(w, run), f)
    decreases run
  {
    hide Inv, Enabled, Next;
    if run != [] {
      StepKeepsInv(w, f, run[0]);
      RunKeepsInv(Next(w, run[0]), f, run[1..]);
    }
  }

  lemma GenesisInv(f: string)
    ensures Inv(GENESIS, f)
  {
    Retention.GenesisInv();
  }

  // ---------------------------------------------------------------------- theorem

  /** None of the newest n version numbers issued is missing from the list. */
  ghost predicate Unbroken(list: seq<Version>, latest: int, n: int) {
    forall number :: 1 <= number <= latest && latest - n < number ==> Find(list, number).Some?
  }

  /** Version numbers are positions in the history. */
  lemma UnbrokenIsEndKept(list: seq<Version>, h: seq<Version>, n: nat)
    requires Within(list, h) && Numbered(h)
    ensures Unbroken(list, |h|, n) <==> EndKept(list, h, n)
  {
    var m := if n < |h| then n else |h|;
    assert LastN(h, n) == h[|h| - m..];
    if EndKept(list, h, n) {
      forall number | 1 <= number <= |h| && |h| - n < number ensures Find(list, number).Some? {
        assert h[|h| - m..][number - 1 - (|h| - m)] == h[number - 1];
        VersionLists.FindSpec(list, number);
        assert h[number - 1] in list;
      }
    }
    if Unbroken(list, |h|, n) {
      forall v | v in LastN(h, n) ensures v in list {
        var i :| 0 <= i < m && h[|h| - m..][i] == v;
        assert v.number == |h| - m + i + 1;
        VersionLists.FindSpec(list, v.number);
        SameByNumber(h, Find(list, v.number).value, v);
      }
    }
  }

  lemma SameByNumber(h: seq<Version>, v: Version, w: Version)
    requires Numbered(h) && v in h && w in h && v.number == w.number
    ensures v == w
  {
  }

  /** After one create or rollback, the list with and without the restart agree exactly on an unbroken end. */
  lemma AppendAgrees(file: FileRecord, f: string, list: seq<Version>, h: seq<Version>, v: Version, size: int)
    requires GapsOk(file, f, list, h) && v.number == file.latestVersion + 1
    ensures Kept(Bump(file, size), list + [v]) == Kept(Bump(file, size), h + [v])
            <==> Unbroken(list, file.latestVersion, file.maxVersions - 1)
  {
    hide *;
    var max := file.maxVersions;
    HistoryGaps(file, f, list, h);
    AppendGaps(file, f, list, h, v, size);
    AppendGaps(file, f, h, h, v, size);
    if max > 0 {
      UnbrokenIsEndKept(list, h, max - 1);
      EndsAgree(list, h, max - 1);
      AppendedEnd(list, v, max);
      AppendedEnd(h, v, max);
      SameTail(LastN(list, max - 1), LastN(h, max - 1), v);
    } else {
      NothingKept(list + [v]);
      NothingKept(h + [v]);
      NothingMissing(list, file.latestVersion);
    }
  }

  lemma HistoryGaps(file: FileRecord, f: string, list: seq<Version>, h: seq<Version>)
    requires GapsOk(file, f, list, h)
    ensures GapsOk(file, f, h, h) && Within(list, h) && Numbered(h) && |h| == file.latestVersion
  {
  }

  lemma AppendedEnd(list: seq<Version>, v: Version, n: nat)
    requires n > 0
    ensures LastN(list + [v], n) == LastN(list, n - 1) + [v]
  {
    LastNFront(list + [v], n);
    assert (list + [v])[..|list|] == list;
  }

  lemma NothingKept(list: seq<Version>)
    ensures LastN(list, 0) == []
  {
  }

  lemma NothingMissing(list: seq<Version>, latest: int)
    ensures Unbroken(list, latest, -1)
  {
  }

  lemma SameTail(a: seq<Version>, b: seq<Version>, v: Version)
    ensures a + [v] == b + [v] <==> a == b
  {
    if a + [v] == b + [v] {
      assert a == (a + [v])[..|a|] && b == (b + [v])[..|b|];
    }
  }

  /** A restart finds the same version for a rollback that was possible without it. */
  lemma SameVersionMade(w: World, f: string, op: Op)
    requires Inv(w, f) && (op.Create? || op.Rollback?) && op.fileID == f && Created(w.cat, op).Some?
    ensures Created(Next(w, Restart).cat, op) == Created(w.cat, op)
  {
    RestartKeepsInv(w, f);
    if op.Rollback? {
      var list, h := ListOf(w.cat.versions, f), History(w.created, f);
      assert GapsOk(w.cat.files[f], f, list, h);
      var t := Find(list, op.number).value;
      VersionLists.FindSpec(list, op.number);
      VersionLists.FindSpec(h, op.number);
      assert t in h;
      SameByNumber(h, Find(h, op.number).value, t);
    }
    hide Inv, History, Find;
  }

  /** A restart followed by a create or rollback leaves the list that the create or rollback alone leaves,
      if and only if none of the newest maxVersions - 1 version numbers has been deleted. Any creates,
      rollbacks, restarts and deletions may have come before, except the deletion of the file itself. */
  lemma RestartHealsIff(run: seq<Op>, f: string, op: Op)
    requires Legal(GENESIS, f, run) && (op.Create? || op.Rollback?) && op.fileID == f
    requires Created(Final(GENESIS, run).cat, op).Some?
    ensures var w := Final(GENESIS, run);
            ListOf(Next(Next(w, Restart), op).cat.versions, f) == ListOf(Next(w, op).cat.versions, f)
            <==> Unbroken(ListOf(w.cat.versions, f), LatestFor(w.cat, f), MaxFor(w.cat, f) - 1)
  {
    hide *;
    GenesisInv(f);
    RunKeepsInv(GENESIS, f, run);
    HealsIffFrom(Final(GENESIS, run), f, op);
  }

  /** The last version number issued for a file. */
  function LatestFor(cat: Catalog, f: string): int {
    if f in cat.files then cat.files[f].latestVersion else 0
  }

  lemma BaseGaps(w: World, f: string, op: Op)
    requires Inv(w, f) && (op.Create? || op.Rollback?) && op.fileID == f && Created(w.cat, op).Some?
    ensures op.Rollback? ==> f in w.cat.files
    ensures var file := if op.Create? then FileFor(w.cat, op) else w.cat.files[f];
            var v, list := Created(w.cat, op).value, ListOf(w.cat.versions, f);
            var size := if op.Create? then op.size else v.size;
            && GapsOk(file, f, list, History(w.created, f))
            && v.number == file.latestVersion + 1 && v.fileID == f
            && file.latestVersion == LatestFor(w.cat, f) && file.maxVersions == MaxFor(w.cat, f)
            && ListOf(Next(w, op).cat.versions, f) == Kept(Bump(file, size), list + [v])
            && Removed(w.cat, op) == Dropped(Bump(file, size), list + [v])
  {
    if op.Create? && f !in w.cat.files { NewFileGaps(w.cat, w.created, f, op.name, op.path, 0); }
    hide LogOk, GapsOk, Kept, Dropped, History, VersionID;
  }

  lemma HealsIffFrom(w: World, f: string, op: Op)
    requires Inv(w, f) && (op.Create? || op.Rollback?) && op.fileID == f && Created(w.cat, op).Some?
    ensures ListOf(Next(Next(w, Restart), op).cat.versions, f) == ListOf(Next(w, op).cat.versions, f)
            <==> Unbroken(ListOf(w.cat.versions, f), LatestFor(w.cat, f), MaxFor(w.cat, f) - 1)
  {
    var r := Next(w, Restart);
    RestartKeepsInv(w, f);
    SameVersionMade(w, f, op);
    assert r.cat.files == w.cat.files && r.created == w.created by { assert w.created + [] == w.created; }
    var file := if op.Create? then FileFor(w.cat, op) else w.cat.files[f];
    var v := Created(w.cat, op).value;
    var size := if op.Create? then op.size else v.size;
    BaseGaps(w, f, op);
    BaseGaps(r, f, op);
    hide Inv, GapsOk, Kept, History, Created, Unbroken;
    AppendAgrees(file, f, ListOf(w.cat.versions, f), History(w.created, f), v, size);
  }
}
