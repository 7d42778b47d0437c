/** Retention across restarts. Version records are never removed from the "Replicas" bucket, so a
    restart brings every version ever created back into the lists; the next clean-up of a file
    restores exactly the list a server that never stopped would have. */
module Retention {
  import opened Sequences
  import opened Keys
  import opened Records
  import opened Bucket
  import opened VersionCatalog
  import VersionLists

  /** The catalog, all versions created so far in order, and the last time stamp used. */
  datatype World = World(cat: Catalog, created: seq<Version>, clock: nat)

  const GENESIS: World := World(VersionLists.GENESIS, [], 0)

  /** Nanosecond stamps of our era have 19 digits. */
  predicate StampOk(stamp: nat) { |Decimal(stamp)| == 19 }

  function StampOf(op: Op): nat
    requires op.Create? || op.CreateMeta? || op.Rollback?
  {
    op.stamp
  }

  /** Creates, rollbacks and restarts; no explicit deletion; metadata only for new files. */
  predicate Enabled(w: World, op: Op) {
    match op
    case Create(_, _, _, _, _, _, _, stamp) => w.clock < stamp && StampOk(stamp)
    case CreateMeta(fileID, _, _, _, _, _, stamp) => w.clock < stamp && StampOk(stamp) && fileID !in w.cat.files
    case Rollback(_, _, stamp) => w.clock < stamp && StampOk(stamp)
    case Restart => true
    case _ => false
  }

  function Next(w: World, op: Op): World {
    World(Apply(w.cat, op),
          w.created + (match Created(w.cat, op) case None => [] case Some(v) => [v]),
          if op.Create? || op.CreateMeta? || op.Rollback? then StampOf(op) else w.clock)
  }

  ghost predicate Legal(w: World, run: seq<Op>)
    decreases run
  {
    run == [] || (Enabled(w, run[0]) && Legal(Next(w, run[0]), run[1..]))
  }

  ghost function Final(w: World, run: seq<Op>): World
    decreases run
  {
    if run == [] then w else Final(Next(w, run[0]), run[1..])
  }

  /** The whole history of one file. */
  function History(created: seq<Version>, fileID: string): seq<Version> {
    if created == [] then []
    else History(created[..|created| - 1], fileID)
         + if created[|created| - 1].fileID == fileID then [created[|created| - 1]] else []
  }

  lemma HistoryAppend(created: seq<Version>, v: Version, fileID: string)
    ensures History(created + [v], fileID) == History(created, fileID) + if v.fileID == fileID then [v] else []
  {
    assert (created + [v])[..|created|] == created;
  }

  // ------------------------------------------------------------------ invariant

  ghost predicate EntryOk(e: Entry<Version>, clock: nat) {
    exists m: nat :: m <= clock && StampOk(m)
      && e.value.versionID == VersionID(m) && e.key == VersionKey(e.value.fileID, VersionID(m))
  }

  ghost predicate LogOk(w: World) {
    && Ordered(w.cat.log)
    && (forall e :: e in w.cat.log ==> EntryOk(e, w.clock))
    && forall f :: OfFile(w.cat.log, f) == History(w.created, f)
  }

  /** A history numbered 1, 2, 3, ... */
  ghost predicate Numbered(h: seq<Version>) {
    forall i :: 0 <= i < |h| ==> h[i].number == i + 1
  }

  /** The list is the end of the history, and nothing that should be retained is missing. */
  ghost predicate Retains(list: seq<Version>, h: seq<Version>, max: nat) {
    |list| <= |h| && list == h[|h| - |list|..] && (|list| >= max || |list| == |h|)
  }

  ghost predicate FileOk(file: FileRecord, fileID: string, list: seq<Version>, h: seq<Version>) {
    file.fileID == fileID && Numbered(h) && |h| == file.latestVersion && Retains(list, h, file.maxVersions)
  }

  ghost predicate FilesOk(w: World) {
    && w.cat.savedFiles == w.cat.files
    && (forall f :: f in w.cat.files ==> FileOk(w.cat.files[f], f, ListOf(w.cat.versions, f), History(w.created, f)))
    && (forall f :: f !in w.cat.files ==> ListOf(w.cat.versions, f) == [] && History(w.created, f) == [])
  }

  ghost predicate Inv(w: World) { LogOk(w) && FilesOk(w) }

  // ----------------------------------------------------------------- preservation

  lemma LogAppend(w: World, fileID: string, v: Version, stamp: nat)
    requires LogOk(w) && w.clock < stamp && StampOk(stamp)
    requires v.versionID == VersionID(stamp) && v.fileID == fileID
    ensures LogOk(World(w.cat.(log := Put(w.cat.log, VersionKey(fileID, v.versionID), v)), w.created + [v], stamp))
  {
    var key := VersionKey(fileID, v.versionID);
    var log' := Put(w.cat.log, key, v);
    forall e | e in w.cat.log ensures e.key != key && (e.value.fileID == fileID ==> Less(e.key, key)) {
      assert EntryOk(e, w.clock);
      var m: nat :| m <= w.clock && StampOk(m)
        && e.value.versionID == VersionID(m) && e.key == VersionKey(e.value.fileID, VersionID(m));
      if e.key == key { VersionKeyInjective(e.value.fileID, m, fileID, stamp); }
      if e.value.fileID == fileID { VersionKeyOrder(fileID, m, stamp); }
    }
    PutSpec(w.cat.log, key, v);
    forall e | e in log' ensures EntryOk(e, stamp) {
      if e in w.cat.log {
        assert EntryOk(e, w.clock);
      } else {
        assert e == Entry(key, v);
      }
    }
    forall f ensures OfFile(log', f) == History(w.created + [v], f) {
      PutAppends(w.cat.log, key, v, f);
      HistoryAppend(w.created, v, f);
    }
  }

  lemma NumberedAppend(h: seq<Version>, v: Version)
    requires Numbered(h) && v.number == |h| + 1
    ensures Numbered(h + [v])
  {
  }

  /** Whether or not the list still carries reloaded versions, one append and clean-up leaves
      exactly the newest maxVersions of the whole history. */
  lemma AppendRetains(file: FileRecord, fileID: string, list: seq<Version>, h: seq<Version>, v: Version, size: int)
    requires FileOk(file, fileID, list, h) && v.number == file.latestVersion + 1
    ensures var bumped := Bump(file, size);
            && Kept(bumped, list + [v]) == LastN(h + [v], file.maxVersions)
            && FileOk(CleanedUp(bumped, list + [v]), fileID, Kept(bumped, list + [v]), h + [v])
  {
    assert forall i :: 0 <= i < |list| ==> list[i] == h[|h| - |list| + i];
    assert Increasing(list);
    VersionLists.AppendKeeps(file, list, v, size);
    NumberedAppend(h, v);
    SameEnd(list, h, v, file.maxVersions);
  }

  lemma SameEnd(list: seq<Version>, h: seq<Version>, v: Version, max: nat)
    requires Retains(list, h, max)
    ensures LastN(list + [v], max) == LastN(h + [v], max)
    ensures Retains(LastN(h + [v], max), h + [v], max)
  {
    if |list| < |h| {
      var a, b := list + [v], h + [v];
      assert a == b[|b| - |a|..];
      assert a[|a| - max..] == b[|b| - max..];
    } else {
      assert list == h;
    }
  }

  /** The other files are untouched by an append. */
  lemma OtherFileOk(w: World, fileID: string, file: FileRecord, v: Version, size: int, f: string)
    requires FilesOk(w) && v.fileID == fileID && f != fileID
    ensures var cat' := Append(w.cat, fileID, file, v, size);
            && ListOf(cat'.versions, f) == ListOf(w.cat.versions, f)
            && History(w.created + [v], f) == History(w.created, f)
            && (f in cat'.files <==> f in w.cat.files)
            && (f in w.cat.files ==> cat'.files[f] == w.cat.files[f])
  {
    HistoryAppend(w.created, v, f);
    hide FileOk, Kept, Put, History;
  }

  lemma ThisFileOk(w: World, fileID: string, file: FileRecord, v: Version, size: int)
    requires v.fileID == fileID && v.number == file.latestVersion + 1
    requires FileOk(file, fileID, ListOf(w.cat.versions, fileID), History(w.created, fileID))
    ensures var cat' := Append(w.cat, fileID, file, v, size);
            && fileID in cat'.files
            && FileOk(cat'.files[fileID], fileID, ListOf(cat'.versions, fileID), History(w.created + [v], fileID))
            && ListOf(cat'.versions, fileID) == LastN(History(w.created + [v], fileID), file.maxVersions)
  {
    AppendRetains(file, fileID, ListOf(w.cat.versions, fileID), History(w.created, fileID), v, size);
    HistoryAppend(w.created, v, fileID);
    hide FileOk, Kept, Put, History, LastN;
  }

  /** File `f` is in order in a state given by its parts. */
  ghost predicate OneOk(cat: Catalog, created: seq<Version>, f: string) {
    if f in cat.files then FileOk(cat.files[f], f, ListOf(cat.versions, f), History(created, f))
    else ListOf(cat.versions, f) == [] && History(created, f) == []
  }

  lemma AppendOneOk(w: World, fileID: string, file: FileRecord, v: Version, size: int, f: string)
    requires FilesOk(w) && v.fileID == fileID && v.number == file.latestVersion + 1
    requires FileOk(file, fileID, ListOf(w.cat.versions, fileID), History(w.created, fileID))
    ensures OneOk(Append(w.cat, fileID, file, v, size), w.created + [v], f)
  {
    hide FileOk, Append, History, ListOf;
    if f == fileID {
      ThisFileOk(w, fileID, file, v, size);
    } else {
      OtherFileOk(w, fileID, file, v, size, f);
    }
  }

  lemma FilesOkIntro(w: World)
    requires w.cat.savedFiles == w.cat.files
    requires forall f :: OneOk(w.cat, w.created, f)
    ensures FilesOk(w)
  {
    hide FileOk, History, ListOf;
    forall f | f in w.cat.files
      ensures FileOk(w.cat.files[f], f, ListOf(w.cat.versions, f), History(w.created, f))
    {
      assert OneOk(w.cat, w.created, f);
    }
    forall f | f !in w.cat.files ensures ListOf(w.cat.versions, f) == [] && History(w.created, f) == [] {
      assert OneOk(w.cat, w.created, f);
    }
  }

  lemma AppendSaved(w: World, fileID: string, file: FileRecord, v: Version, size: int)
    requires FilesOk(w) && file.fileID == fileID
    ensures var cat' := Append(w.cat, fileID, file, v, size); cat'.savedFiles == cat'.files
  {
    hide FileOk, Kept, Put;
  }

  lemma AppendFilesOk(w: World, fileID: string, file: FileRecord, v: Version, size: int, clock: nat)
    requires FilesOk(w) && file.fileID == fileID && v.fileID == fileID && v.number == file.latestVersion + 1
    requires FileOk(file, fileID, ListOf(w.cat.versions, fileID), History(w.created, fileID))
    ensures FilesOk(World(Append(w.cat, fileID, file, v, size), w.created + [v], clock))
  {
    hide *;
    var w' := World(Append(w.cat, fileID, file, v, size), w.created + [v], clock);
    AppendSaved(w, fileID, file, v, size);
    forall f ensures OneOk(w'.cat, w'.created, f) { AppendOneOk(w, fileID, file, v, size, f); }
    FilesOkIntro(w');
  }

  lemma AppendLogOk(w: World, fileID: string, file: FileRecord, v: Version, size: int, stamp: nat)
    requires LogOk(w) && w.clock < stamp && StampOk(stamp)
    requires v.versionID == VersionID(stamp) && v.fileID == fileID
    ensures LogOk(World(Append(w.cat, fileID, file, v, size), w.created + [v], stamp))
  {
    LogAppend(w, fileID, v, stamp);
    hide EntryOk, OfFile, History, Ordered, Kept, Put;
  }

  lemma AppendKeepsInv(w: World, fileID: string, file: FileRecord, v: Version, size: int, stamp: nat)
    requires Inv(w) && w.clock < stamp && StampOk(stamp)
    requires FileOk(file, fileID, ListOf(w.cat.versions, fileID), History(w.created, fileID))
    requires file.fileID == fileID
    requires v.number == file.latestVersion + 1 && v.fileID == fileID && v.versionID == VersionID(stamp)
    ensures var w' := World(Append(w.cat, fileID, file, v, size), w.created + [v], stamp);
            Inv(w') && ListOf(w'.cat.versions, fileID) == LastN(History(w'.created, fileID), file.maxVersions)
  {
    hide LogOk, FilesOk, FileOk, Append, History, ListOf, LastN, StampOk, VersionID;
    AppendLogOk(w, fileID, file, v, size, stamp);
    AppendFilesOk(w, fileID, file, v, size, stamp);
    ThisFileOk(w, fileID, file, v, size);
  }

  lemma NewFileOk(w: World, fileID: string, name: string, path: string, size: int)
    requires FilesOk(w) && fileID !in w.cat.files
    ensures FileOk(NewFile(fileID, name, path, size), fileID, ListOf(w.cat.versions, fileID), History(w.created, fileID))
  {
  }

  /** Posting metadata for a new file is an append that has nothing to clean up. */
  lemma MetaIsAppend(w: World, op: Op)
    requires FilesOk(w) && op.CreateMeta? && op.fileID !in w.cat.files
    ensures Apply(w.cat, op)
            == Append(w.cat, op.fileID, NewFile(op.fileID, op.name, op.path, op.size), Created(w.cat, op).value, op.size)
  {
    assert ListOf(w.cat.versions, op.fileID) + [Created(w.cat, op).value] == [Created(w.cat, op).value];
  }

  lemma RestartKeepsInv(w: World)
    requires Inv(w)
    ensures Inv(Next(w, Restart))
    ensures forall f :: ListOf(Next(w, Restart).cat.versions, f) == History(w.created, f)
  {
    var w' := Next(w, Restart);
    assert w'.created == w.created;
    forall f ensures ListOf(w'.cat.versions, f) == History(w.created, f) {
      OfFileGrouped(w.cat.log, f);
    }
  }

  /** How many versions of a file are retained. */
  function MaxFor(cat: Catalog, fileID: string): nat {
    if fileID in cat.files then cat.files[fileID].maxVersions else DEFAULT_MAX_VERSIONS
  }

  lemma StepKeepsInv(w: World, op: Op)
    requires Inv(w) && Enabled(w, op)
    ensures Inv(Next(w, op))
    ensures Created(w.cat, op).Some? && !op.CreateMeta? ==>
              ListOf(Next(w, op).cat.versions, op.fileID)
              == LastN(History(Next(w, op).created, op.fileID), MaxFor(w.cat, op.fileID))
  {
    match op
    case Restart => RestartKeepsInv(w);
    case Create(fileID, name, path, _, _, size, _, stamp) =>
      if fileID !in w.cat.files { NewFileOk(w, fileID, name, path, 0); }
      AppendKeepsInv(w, fileID, FileFor(w.cat, op), Created(w.cat, op).value, size, stamp);
    case CreateMeta(fileID, name, path, _, _, size, stamp) =>
      NewFileOk(w, fileID, name, path, size);
      MetaIsAppend(w, op);
      AppendKeepsInv(w, fileID, NewFile(fileID, name, path, size), Created(w.cat, op).value, size, stamp);
    case Rollback(fileID, _, stamp) =>
      if Created(w.cat, op).Some? {
        var v := Created(w.cat, op).value;
        assert Apply(w.cat, op) == Append(w.cat, fileID, w.cat.files[fileID], v, v.size);
        AppendKeepsInv(w, fileID, w.cat.files[fileID], v, v.size, stamp);
      } else {
        LaterClock(w, stamp);
      }
  }

  lemma LaterClock(w: World, stamp: nat)
    requires Inv(w) && w.clock <= stamp
    ensures Inv(w.(clock := stamp)) && w.created + [] == w.created
  {
    forall e | e in w.cat.log ensures EntryOk(e, stamp) { assert EntryOk(e, w.clock); }
  }

  lemma {:induction false} RunKeepsInv(w: World, run: seq<Op>)
    requires Inv(w) && Legal(w, run)
    ensures Inv(Final(w, run))
    decreases run
  {
    if run != [] {
      StepKeepsInv(w, run[0]);
      RunKeepsInv(Next(w, run[0]), run[1..]);
    }
  }

  // --------------------------------------------------------------------- theorems

  /** Whatever creates, rollbacks and restarts came before, a create or a rollback leaves
      exactly the newest maxVersions of the file's whole history. */
  lemma NewestRetained(run: seq<Op>, op: Op)
    requires Legal(GENESIS, run) && Enabled(Final(GENESIS, run), op)
    requires Created(Final(GENESIS, run).cat, op).Some? && !op.CreateMeta?
    ensures var w, w' := Final(GENESIS, run), Next(Final(GENESIS, run), op);
            ListOf(w'.cat.versions, op.fileID)
            == LastN(History(w'.created, op.fileID), MaxFor(w.cat, op.fileID))
  {
    GenesisInv();
    RunKeepsInv(GENESIS, run);
    StepKeepsInv(Final(GENESIS, run), op);
  }

  lemma GenesisInv()
    ensures Inv(GENESIS)
  {
    forall f ensures OfFile(GENESIS.cat.log, f) == History(GENESIS.created, f) {}
  }

  /** A restart does not change which record a rollback to a retained version finds, nor the
      version it creates. */
  lemma SameVersionCreated(w: World, op: Op)
    requires Inv(w) && Enabled(w, op) && Created(w.cat, op).Some?
    ensures Created(Next(w, Restart).cat, op) == Created(w.cat, op)
  {
    assert Next(w, Restart).cat.files == w.cat.files;
    if op.Rollback? {
      RestartedFile(w, op.fileID);
      hide Inv, FileOk, History, Retains;
      SuffixFindIn(w, op.fileID, op.number);
    }
  }

  lemma SuffixFindIn(w: World, f: string, number: int)
    requires Inv(w) && f in w.cat.files && Find(ListOf(w.cat.versions, f), number).Some?
    ensures Find(History(w.created, f), number) == Find(ListOf(w.cat.versions, f), number)
  {
    RestartedFile(w, f);
    hide History, Find, LogOk;
    SuffixFind(ListOf(w.cat.versions, f), History(w.created, f), w.cat.files[f].maxVersions, number);
  }

  lemma SuffixFind(list: seq<Version>, h: seq<Version>, max: nat, number: int)
    requires Retains(list, h, max) && Numbered(h) && Find(list, number).Some?
    ensures Find(h, number) == Find(list, number)
  {
    VersionLists.FindSpec(list, number);
    var t := Find(list, number).value;
    var i :| 0 <= i < |list| && list[i] == t;
    assert h[|h| - |list| + i] == t;
    VersionLists.FindUnique(h, |h| - |list| + i);
  }

  /** Restart heals retention: with or without a restart in between, the next create or rollback
      leaves the same version list. */
  lemma RestartHeals(run: seq<Op>, op: Op)
    requires Legal(GENESIS, run) && Enabled(Final(GENESIS, run), op)
    requires Created(Final(GENESIS, run).cat, op).Some? && !op.CreateMeta?
    ensures var w := Final(GENESIS, run);
            ListOf(Next(Next(w, Restart), op).cat.versions, op.fileID) == ListOf(Next(w, op).cat.versions, op.fileID)
  {
    GenesisInv();
    RunKeepsInv(GENESIS, run);
    HealsFrom(Final(GENESIS, run), op);
  }

  lemma RestartFacts(w: World, op: Op)
    requires Inv(w) && Enabled(w, op)
    ensures var r := Next(w, Restart);
            Enabled(r, op) && r.created == w.created && MaxFor(r.cat, op.fileID) == MaxFor(w.cat, op.fileID)
    requires !op.Restart?
  {
  }

  lemma NextCreated(w: World, op: Op)
    requires Created(w.cat, op).Some?
    ensures Next(w, op).created == w.created + [Created(w.cat, op).value]
  {
  }

  lemma HealsFrom(w: World, op: Op)
    requires Inv(w) && Enabled(w, op) && Created(w.cat, op).Some? && !op.CreateMeta?
    ensures ListOf(Next(Next(w, Restart), op).cat.versions, op.fileID) == ListOf(Next(w, op).cat.versions, op.fileID)
  {
    var r := Next(w, Restart);
    assert !op.Restart?;
    hide *;
    RestartKeepsInv(w);
    RestartFacts(w, op);
    SameVersionCreated(w, op);
    StepKeepsInv(w, op);
    StepKeepsInv(r, op);
    NextCreated(w, op);
    NextCreated(r, op);
  }

  /** The version count does not heal. Starting from a list that agrees with its count, a restart
      followed by a create leaves them in agreement exactly when the history was no longer than
      maxVersions, so that nothing had ever been cleaned up. */
  lemma CountHealsOnlyShortHistories(w: World, op: Op)
    requires Inv(w) && Enabled(w, op) && op.Create? && op.fileID in w.cat.files
    requires VersionLists.ListOk(w.cat.files[op.fileID], ListOf(w.cat.versions, op.fileID))
    ensures var w' := Next(Next(w, Restart), op);
            var h := History(w.created, op.fileID);
            op.fileID in w'.cat.files &&
            (w'.cat.files[op.fileID].versionCount == |ListOf(w'.cat.versions, op.fileID)|
             <==> |h| <= w.cat.files[op.fileID].maxVersions)
  {
    var r, f := Next(w, Restart), op.fileID;
    var file, h := w.cat.files[f], History(w.created, f);
    RestartedFile(w, f);
    var v := Created(r.cat, op).value;
    assert v.number == file.latestVersion + 1;
    assert Apply(r.cat, op) == Append(r.cat, f, file, v, op.size);
    assert |ListOf(w.cat.versions, f)| == file.versionCount <= file.maxVersions;
    hide *;
    AppendRetains(file, f, h, h, v, op.size);
    CountAfter(r.cat, f, file, v, op.size, h);
  }

  /** What a restart leaves of one file: the record as it was, and the whole history as its list. */
  lemma RestartedFile(w: World, f: string)
    requires Inv(w) && f in w.cat.files
    ensures var r, h := Next(w, Restart), History(w.created, f);
            && f in r.cat.files && r.cat.files[f] == w.cat.files[f]
            && ListOf(r.cat.versions, f) == h
            && FileOk(w.cat.files[f], f, h, h)
            && Retains(ListOf(w.cat.versions, f), h, w.cat.files[f].maxVersions)
  {
    RestartKeepsInv(w);
    hide LogOk, History;
    assert FileOk(w.cat.files[f], f, ListOf(w.cat.versions, f), History(w.created, f));
  }

  lemma CountAfter(cat: Catalog, fileID: string, file: FileRecord, v: Version, size: int, list: seq<Version>)
    requires list == ListOf(cat.versions, fileID)
    requires Kept(Bump(file, size), list + [v]) == LastN(list + [v], file.maxVersions)
    ensures var cat' := Append(cat, fileID, file, v, size);
            && fileID in cat'.files
            && cat'.files[fileID].versionCount
               == file.versionCount + 1 - (if |list| + 1 <= file.maxVersions then 0 else |list| + 1 - file.maxVersions)
            && |ListOf(cat'.versions, fileID)| == (if |list| + 1 <= file.maxVersions then |list| + 1 else file.maxVersions)
  {
  }
}
