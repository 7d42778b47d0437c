/** What a run has made of files and versions, said from the run itself: which create a file record and a
    version go back to, and what they carry from it. Any handlers and restarts, in any order. */
module CatalogHistory {
  import opened Sequences
  import opened Keys
  import opened Records
  import opened Bucket
  import opened VersionCatalog
  import VersionLists
  import ClusterInvariant
  import ClusterRestart

  function Final(run: seq<Op>): Catalog
    decreases |run|
  {
    if run == [] then VersionLists.GENESIS else Apply(Final(run[..|run| - 1]), run[|run| - 1])
  }

  // ------------------------------------------------------------------- file records

  /** The operation that made the file's record: the first create after the file was last absent, or the last
      metadata posting. */
  function MadeBy(run: seq<Op>, f: string): Option<Op>
    decreases |run|
  {
    if run == [] then None
    else
      var before, op := MadeBy(run[..|run| - 1], f), run[|run| - 1];
      if op.CreateMeta? && op.fileID == f then Some(op)
      else if op.Create? && op.fileID == f && before.None? then Some(op)
      else if op == Op.DeleteFile(f) then None
      else before
  }

  /** The last version made for the file. */
  function LastMade(run: seq<Op>, f: string): Option<Version>
    decreases |run|
  {
    if run == [] then None
    else
      var front, op := run[..|run| - 1], run[|run| - 1];
      if (op.Create? || op.CreateMeta? || op.Rollback?) && op.fileID == f && Created(Final(front), op).Some? then Created(Final(front), op)
      else if op == Op.DeleteFile(f) then None
      else LastMade(front, f)
  }

  ghost predicate FileFollows(cat: Catalog, f: string, made: Option<Op>, last: Option<Version>) {
    && (f in cat.files <==> made.Some?) && (f in cat.files <==> last.Some?)
    && cat.savedFiles == cat.files
    && (forall g :: g in cat.files ==> cat.files[g].fileID == g)
    && (f in cat.files ==>
          && (made.value.Create? || made.value.CreateMeta?)
          && cat.files[f].name == made.value.name && cat.files[f].path == made.value.path && cat.files[f].maxVersions == 3
          && cat.files[f].size == last.value.size && cat.files[f].latestVersion == last.value.number)
  }

  lemma FileStep(cat: Catalog, op: Op, f: string, made: Option<Op>, last: Option<Version>)
    requires FileFollows(cat, f, made, last)
    ensures FileFollows(Apply(cat, op), f,
                        if op.CreateMeta? && op.fileID == f then Some(op)
                        else if op.Create? && op.fileID == f && made.None? then Some(op)
                        else if op == Op.DeleteFile(f) then None else made,
                        if (op.Create? || op.CreateMeta? || op.Rollback?) && op.fileID == f && Created(cat, op).Some? then Created(cat, op)
                        else if op == Op.DeleteFile(f) then None else last)
  {
    hide Kept, Put, Excess, VersionID, VersionKey, Find, FindIndex;
  }

  /** In every run whatsoever, exactly the files created and not deleted since are known. A file's name and path
      are those of the operation that made its record; its size and latest number are those of the last version
      made for it, by a create, a metadata posting or a rollback. */
  lemma {:induction false} FileFromRun(run: seq<Op>, f: string)
    ensures FileFollows(Final(run), f, MadeBy(run, f), LastMade(run, f))
    decreases |run|
  {
    if run != [] {
      FileFromRun(run[..|run| - 1], f);
      hide FileFollows, Apply, Created;
      FileStep(Final(run[..|run| - 1]), run[|run| - 1], f, MadeBy(run[..|run| - 1], f), LastMade(run[..|run| - 1], f));
    }
  }

  // ------------------------------------------------------------------------ versions

  /** The version has the file, size, hash, chunks and nodes that the operation asked for. */
  predicate Carries(v: Version, op: Op) {
    && (op.Create? || op.CreateMeta?)
    && v.fileID == op.fileID && v.size == op.size && v.chunkIDs == op.chunkIDs && v.nodeIDs == op.nodeIDs
    && v.hash == if op.Create? then op.hash else ""
  }

  /** The version is one that the run made at the stamp of its ID. */
  ghost predicate MadeAt(run: seq<Op>, v: Version, i: int) {
    && 0 <= i < |run| && Created(Final(run[..i]), run[i]) == Some(v)
    && (run[i].Create? || run[i].CreateMeta? || run[i].Rollback?) && v.versionID == "v_" + Decimal(run[i].stamp)
  }

  /** Some create of the run, for the same file, gave the version what it carries. */
  ghost predicate Descends(run: seq<Op>, v: Version) {
    (exists op :: op in run && Carries(v, op)) && exists i :: MadeAt(run, v, i)
  }

  ghost predicate AllDescend(run: seq<Op>, cat: Catalog) {
    && (forall f, v :: v in ListOf(cat.versions, f) ==> v.fileID == f && Descends(run, v))
    && (forall e :: e in cat.log ==> Descends(run, e.value))
    && (forall g :: g in cat.files ==> cat.files[g].fileID == g) && cat.savedFiles == cat.files
  }

  lemma DescendsLater(run: seq<Op>, op: Op, v: Version)
    requires Descends(run, v)
    ensures Descends(run + [op], v)
  {
    var o :| o in run && Carries(v, o);
    assert o in run + [op];
    var i :| MadeAt(run, v, i);
    assert (run + [op])[..i] == run[..i];
    assert MadeAt(run + [op], v, i);
  }

  /** A version just made carries what its create asked for, or what the target it copies carries. */
  lemma NewDescends(run: seq<Op>, op: Op)
    requires AllDescend(run, Final(run)) && Created(Final(run), op).Some?
    ensures Descends(run + [op], Created(Final(run), op).value) && Created(Final(run), op).value.fileID == op.fileID
  {
    var cat, v, more := Final(run), Created(Final(run), op).value, run + [op];
    CreatedFields(cat, op);
    assert more[..|run|] == run && more[|run|] == op;
    assert MadeAt(more, v, |run|);
    if op.Rollback? {
      VersionLists.FindSpec(ListOf(cat.versions, op.fileID), op.number);
      var t := Find(ListOf(cat.versions, op.fileID), op.number).value;
      assert Descends(run, t);
      var o :| o in run && Carries(t, o);
      assert Carries(v, o) && o in more;
    } else {
      assert Carries(v, op) && op in more;
    }
  }

  /** Where a listed version comes from. */
  lemma ListedFrom(cat: Catalog, op: Op, f: string, v: Version)
    requires v in ListOf(Apply(cat, op).versions, f)
    ensures v in ListOf(cat.versions, f) || (Created(cat, op) == Some(v) && op.fileID == f)
            || (op.Restart? && v in OfFile(cat.log, f))
  {
    hide Find, Excess;
    match op
    case Create(g, _, _, _, _, size, _, _) =>
      ClusterInvariant.KeptMember(Bump(FileFor(cat, op), size), ListOf(cat.versions, g) + [Created(cat, op).value], v);
    case Rollback(g, _, _) =>
      if Created(cat, op).Some? {
        var x := Created(cat, op).value;
        ClusterInvariant.KeptMember(Bump(cat.files[g], x.size), ListOf(cat.versions, g) + [x], v);
      }
    case Restart => OfFileGrouped(cat.log, f);
    case _ =>
  }

  lemma LoggedFrom(cat: Catalog, op: Op, e: Entry<Version>)
    requires e in Apply(cat, op).log
    ensures e in cat.log || Created(cat, op) == Some(e.value)
  {
    ClusterRestart.LogMember(cat, op, e);
  }

  lemma ListedDescends(run: seq<Op>, op: Op, f: string, v: Version)
    requires AllDescend(run, Final(run)) && v in ListOf(Apply(Final(run), op).versions, f)
    ensures v.fileID == f && Descends(run + [op], v)
  {
    var cat := Final(run);
    ListedFrom(cat, op, f, v);
    hide Apply, Created, Descends;
    if v in ListOf(cat.versions, f) {
      DescendsLater(run, op, v);
    } else if op.Restart? && v in OfFile(cat.log, f) {
      OfFileAbsent(cat.log, f);
      var e :| e in cat.log && e.value == v;
      DescendsLater(run, op, v);
    } else {
      NewDescends(run, op);
    }
  }

  lemma LoggedDescends(run: seq<Op>, op: Op, e: Entry<Version>)
    requires AllDescend(run, Final(run)) && e in Apply(Final(run), op).log
    ensures Descends(run + [op], e.value)
  {
    LoggedFrom(Final(run), op, e);
    hide Apply, Created, Descends;
    if e in Final(run).log { DescendsLater(run, op, e.value); } else { NewDescends(run, op); }
  }

  lemma AllDescendStep(run: seq<Op>, op: Op)
    requires AllDescend(run, Final(run))
    ensures AllDescend(run + [op], Apply(Final(run), op))
  {
    hide *;
    FilesKeyed(run, op);
    forall f, v | v in ListOf(Apply(Final(run), op).versions, f) ensures v.fileID == f && Descends(run + [op], v) {
      ListedDescends(run, op, f, v);
    }
    forall e | e in Apply(Final(run), op).log ensures Descends(run + [op], e.value) { LoggedDescends(run, op, e); }
    AllDescendIs(run + [op], Apply(Final(run), op));
  }

  lemma FilesKeyed(run: seq<Op>, op: Op)
    ensures var cat := Apply(Final(run), op);
            (forall g :: g in cat.files ==> cat.files[g].fileID == g) && cat.savedFiles == cat.files
  {
    FileFromRun(run + [op], "");
    assert (run + [op])[..|run|] == run;
    hide Apply;
  }

  lemma AllDescendIs(run: seq<Op>, cat: Catalog)
    requires forall f, v :: v in ListOf(cat.versions, f) ==> v.fileID == f && Descends(run, v)
    requires forall e :: e in cat.log ==> Descends(run, e.value)
    requires (forall g :: g in cat.files ==> cat.files[g].fileID == g) && cat.savedFiles == cat.files
    ensures AllDescend(run, cat)
  {
  }

  /** In every run, every version listed or logged was made by the run at the stamp of its ID, and carries the
      file, size, hash, chunks and nodes that some create of the run asked for: rollbacks, clean-ups and restarts
      change none of them. */
  lemma {:induction false} VersionsFromRun(run: seq<Op>)
    ensures AllDescend(run, Final(run))
    decreases |run|
  {
    if run == [] {
    } else {
      var front, op := run[..|run| - 1], run[|run| - 1];
      assert run == front + [op];
      VersionsFromRun(front);
      hide AllDescend, Apply;
      AllDescendStep(front, op);
    }
  }

  // ------------------------------------------------------------- what is removed

  /** A handler removes exactly the versions that were listed, or that it made, and are listed no more. */
  lemma RemovedIff(cat: Catalog, op: Op, v: Version)
    requires VersionLists.Inv(cat) && VersionLists.Enabled(cat, op) && cat.savedFiles == cat.files
    ensures v in Removed(cat, op)
            <==> (v in ListOf(cat.versions, op.fileID) || Created(cat, op) == Some(v)) && v !in ListOf(Apply(cat, op).versions, op.fileID)
  {
    var f := op.fileID;
    var was := v in ListOf(cat.versions, f) || Created(cat, op) == Some(v);
    if was { FateHere(cat, op, v); }
    if v in Removed(cat, op) { GoneHere(cat, op, v); }
  }

  lemma FateHere(cat: Catalog, op: Op, v: Version)
    requires VersionLists.Inv(cat) && VersionLists.Enabled(cat, op) && cat.savedFiles == cat.files
    requires v in ListOf(cat.versions, op.fileID) || Created(cat, op) == Some(v)
    ensures v in ListOf(Apply(cat, op).versions, op.fileID) || v in Removed(cat, op)
  {
    if Created(cat, op) == Some(v) { CreatedFields(cat, op); }
    ClusterRestart.ListFate(cat, op, op.fileID, v);
    hide Apply, Removed, Created;
  }

  /** In an increasing list, what the clean-up drops it does not keep. */
  lemma CutApart(file: FileRecord, list: seq<Version>, x: Version, size: int, v: Version)
    requires VersionLists.ListOk(file, list) && x.number == file.latestVersion + 1
    ensures v in Dropped(Bump(file, size), list + [x]) ==>
              v !in Kept(Bump(file, size), list + [x]) && (v in list || v == x)
  {
    VersionLists.AppendKeeps(file, list, x, size);
    VersionLists.IncreasingAppend(list, x);
    var front, back := Dropped(Bump(file, size), list + [x]), Kept(Bump(file, size), list + [x]);
    hide Kept, Dropped, LastN;
    ClusterRestart.Separate(list + [x], front, back, v);
    assert v in front ==> v in list + [x] by { assert v in front + back <==> v in front || v in back; }
  }

  lemma GoneHere(cat: Catalog, op: Op, v: Version)
    requires VersionLists.Inv(cat) && VersionLists.Enabled(cat, op) && v in Removed(cat, op)
    ensures v in ListOf(cat.versions, op.fileID) || Created(cat, op) == Some(v)
    ensures v !in ListOf(Apply(cat, op).versions, op.fileID)
  {
    var f, list := op.fileID, ListOf(cat.versions, op.fileID);
    CreatedFields(cat, op);
    match op
    case Create(_, _, _, _, _, size, _, _) =>
      assert VersionLists.ListOk(FileFor(cat, op), list);
      CutApart(FileFor(cat, op), list, Created(cat, op).value, size, v);
    case Rollback(_, _, _) =>
      var x := Created(cat, op).value;
      CutApart(cat.files[f], list, x, x.size, v);
    case DeleteVersion(_, number) =>
      var i := FindIndex(list, number);
      NotLeft(list, i);
    case _ =>
  }

  lemma NotLeft(list: seq<Version>, i: nat)
    requires Increasing(list) && i < |list|
    ensures list[i] in list && list[i] !in list[..i] + list[i + 1..]
  {
    var rest := list[..i] + list[i + 1..];
    forall m | 0 <= m < |rest| ensures rest[m] != list[i] {
      assert rest[m] == list[if m < i then m else m + 1];
    }
  }
}
