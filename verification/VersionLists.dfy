/** What every handler keeps true of a file's version list within one server lifetime. */
module VersionLists {
  import opened Sequences
  import opened Records
  import opened Bucket
  import opened VersionCatalog

  ghost predicate ListOk(file: FileRecord, list: seq<Version>) {
    && Increasing(list)
    && (forall v :: v in list ==> 1 <= v.number <= file.latestVersion && v.fileID == file.fileID)
    && 0 <= file.latestVersion
    && |list| == file.versionCount
    && |list| <= file.maxVersions
  }

  ghost predicate Inv(cat: Catalog) {
    && cat.versions.Keys <= cat.files.Keys
    && forall f :: f in cat.files ==> cat.files[f].fileID == f && ListOk(cat.files[f], ListOf(cat.versions, f))
  }

  const GENESIS: Catalog := Catalog(map[], map[], map[], [])

  /** The server stays up, and file metadata is posted only for new files. */
  predicate Enabled(cat: Catalog, op: Op) {
    !op.Restart? && (op.CreateMeta? ==> op.fileID !in cat.files)
  }

  ghost predicate Legal(cat: Catalog, run: seq<Op>)
    decreases run
  {
    run == [] || (Enabled(cat, run[0]) && Legal(Apply(cat, run[0]), run[1..]))
  }

  ghost function Final(cat: Catalog, run: seq<Op>): Catalog
    decreases run
  {
    if run == [] then cat else Final(Apply(cat, run[0]), run[1..])
  }

  lemma IncreasingAppend(list: seq<Version>, v: Version)
    requires Increasing(list) && forall x :: x in list ==> x.number < v.number
    ensures Increasing(list + [v])
  {
    var l := list + [v];
    forall i, j | 0 <= i < j < |l| ensures l[i].number < l[j].number {
      assert l[i] == list[i] && list[i] in list;
    }
  }

  /** Appending the next number and cleaning up keeps exactly the newest maxVersions. */
  lemma AppendKeeps(file: FileRecord, list: seq<Version>, v: Version, size: int)
    requires Increasing(list) && forall x :: x in list ==> x.number <= file.latestVersion
    requires v.number == file.latestVersion + 1
    ensures var bumped := Bump(file, size);
            && Kept(bumped, list + [v]) == LastN(list + [v], file.maxVersions)
            && Dropped(bumped, list + [v]) + Kept(bumped, list + [v]) == list + [v]
  {
    var all := list + [v];
    IncreasingAppend(list, v);
    CutIncreasing(Bump(file, size), all);
    hide Increasing, Kept, Dropped;
    var e := Excess(Bump(file, size), all);
    assert all[..e] + all[e..] == all;
  }

  /** A clean-up cuts an increasing list in two. */
  lemma CutIncreasing(file: FileRecord, list: seq<Version>)
    requires Increasing(list)
    ensures Kept(file, list) == list[Excess(file, list)..] && Dropped(file, list) == list[..Excess(file, list)]
  {
    hide Increasing, SortByNumber;
    SortIncreasing(list);
  }

  lemma AppendMembers(file: FileRecord, list: seq<Version>, v: Version, size: int, x: Version)
    requires Increasing(list) && forall y :: y in list ==> y.number <= file.latestVersion
    requires v.number == file.latestVersion + 1
    requires x in Kept(Bump(file, size), list + [v])
    ensures x in list || x == v
  {
    AppendKeeps(file, list, v, size);
    hide Kept;
    assert x in list + [v];
  }

  lemma LastNIncreasing(list: seq<Version>, n: nat)
    requires Increasing(list)
    ensures Increasing(LastN(list, n))
  {
  }

  lemma AppendListOk(file: FileRecord, list: seq<Version>, v: Version, size: int)
    requires ListOk(file, list) && v.number == file.latestVersion + 1 && v.fileID == file.fileID
    ensures ListOk(CleanedUp(Bump(file, size), list + [v]), Kept(Bump(file, size), list + [v]))
  {
    AppendKeeps(file, list, v, size);
    IncreasingAppend(list, v);
    LastNIncreasing(list + [v], file.maxVersions);
    var kept := Kept(Bump(file, size), list + [v]);
    forall x | x in kept ensures 1 <= x.number <= file.latestVersion + 1 && x.fileID == file.fileID {
      AppendMembers(file, list, v, size, x);
    }
    hide Increasing, Kept;
  }

  lemma RemoveListOk(file: FileRecord, list: seq<Version>, i: nat)
    requires ListOk(file, list) && i < |list|
    ensures ListOk(file.(versionCount := file.versionCount - 1), list[..i] + list[i + 1..])
  {
    var rest := list[..i] + list[i + 1..];
    forall x | x in rest ensures x in list {}
  }

  lemma AppendKeepsInv(cat: Catalog, fileID: string, file: FileRecord, v: Version, size: int)
    requires Inv(cat) && file.fileID == fileID && ListOk(file, ListOf(cat.versions, fileID))
    requires v.number == file.latestVersion + 1 && v.fileID == fileID
    ensures Inv(Append(cat, fileID, file, v, size))
  {
    AppendListOk(file, ListOf(cat.versions, fileID), v, size);
    hide ListOk, Kept, Put;
    var cat' := Append(cat, fileID, file, v, size);
    forall f | f in cat'.files ensures cat'.files[f].fileID == f && ListOk(cat'.files[f], ListOf(cat'.versions, f)) {
      if f != fileID {
        assert cat'.files[f] == cat.files[f] && ListOf(cat'.versions, f) == ListOf(cat.versions, f);
      }
    }
  }

  lemma StepKeepsInv(cat: Catalog, op: Op)
    requires Inv(cat) && Enabled(cat, op)
    ensures Inv(Apply(cat, op))
  {
    hide ListOk, Kept, CleanedUp, Append;
    match op
    case Create(fileID, _, _, _, _, size, _, _) =>
      var file := FileFor(cat, op);
      NewFileListOk(file, cat, op);
      AppendKeepsInv(cat, fileID, file, Created(cat, op).value, size);
    case CreateMeta(fileID, name, path, _, _, size, _) =>
      OneVersionListOk(NewFile(fileID, name, path, size), Created(cat, op).value, size);
      assert ListOf(cat.versions, fileID) + [Created(cat, op).value] == [Created(cat, op).value];
    case Rollback(fileID, _, _) =>
      if Created(cat, op).Some? {
        var v := Created(cat, op).value;
        AppendKeepsInv(cat, fileID, cat.files[fileID], v, v.size);
        assert Apply(cat, op) == Append(cat, fileID, cat.files[fileID], v, v.size);
      }
    case DeleteVersion(fileID, number) =>
      var list := ListOf(cat.versions, fileID);
      if fileID in cat.files && FindIndex(list, number) < |list| {
        RemoveListOk(cat.files[fileID], list, FindIndex(list, number));
      }
    case DeleteFile(fileID) =>
  }

  lemma NewFileListOk(file: FileRecord, cat: Catalog, op: Op)
    requires Inv(cat) && op.Create? && file == FileFor(cat, op)
    ensures file.fileID == op.fileID && ListOk(file, ListOf(cat.versions, op.fileID))
  {
  }

  lemma OneVersionListOk(file: FileRecord, v: Version, size: int)
    requires file.latestVersion == 0 && file.versionCount == 0 && file.maxVersions > 0
    requires v.number == 1 && v.fileID == file.fileID
    ensures ListOk(Bump(file, size), [v])
  {
  }

  lemma {:induction false} RunKeepsInv(cat: Catalog, run: seq<Op>)
    requires Inv(cat) && Legal(cat, run)
    ensures Inv(Final(cat, run))
    decreases run
  {
    if run != [] {
      StepKeepsInv(cat, run[0]);
      RunKeepsInv(Apply(cat, run[0]), run[1..]);
    }
  }

  // ------------------------------------------------------------------- theorems

  /** Every run of creates, rollbacks, deletions and clean-ups keeps every list strictly
      increasing, bounded by LatestVersion, of length VersionCount and at most MaxVersions. */
  lemma ListsAlwaysOk(run: seq<Op>, fileID: string)
    requires Legal(GENESIS, run) && fileID in Final(GENESIS, run).files
    ensures var cat := Final(GENESIS, run); ListOk(cat.files[fileID], ListOf(cat.versions, fileID))
  {
    RunKeepsInv(GENESIS, run);
  }

  lemma StepKeepsNumbers(cat: Catalog, op: Op, fileID: string, x: Version)
    requires Inv(cat) && Enabled(cat, op) && fileID in cat.files
    requires op != DeleteFile(fileID)
    ensures var cat' := Apply(cat, op);
            && fileID in cat'.files && cat'.files[fileID].latestVersion >= cat.files[fileID].latestVersion
            && (x in ListOf(cat'.versions, fileID) ==>
                  x in ListOf(cat.versions, fileID) || x.number > cat.files[fileID].latestVersion)
  {
    hide Kept, Increasing;
    var list := ListOf(cat.versions, fileID);
    if x in ListOf(Apply(cat, op).versions, fileID) {
      match op
      case Create(f, _, _, _, _, size, _, _) =>
        if f == fileID { AppendMembers(cat.files[f], list, Created(cat, op).value, size, x); }
      case Rollback(f, _, _) =>
        if f == fileID && Created(cat, op).Some? {
          AppendMembers(cat.files[f], list, Created(cat, op).value, Created(cat, op).value.size, x);
        }
      case _ =>
    }
  }

  /** A version number is never reused while its file exists, even if the version that had it
      was deleted: whatever a later list contains was there before or is numbered above
      everything issued before. */
  lemma {:induction false} NumbersNeverReused(cat: Catalog, run: seq<Op>, fileID: string, x: Version)
    requires Inv(cat) && Legal(cat, run) && fileID in cat.files && DeleteFile(fileID) !in run
    ensures var cat' := Final(cat, run);
            && fileID in cat'.files && cat'.files[fileID].latestVersion >= cat.files[fileID].latestVersion
            && (x in ListOf(cat'.versions, fileID) ==>
                  x in ListOf(cat.versions, fileID) || x.number > cat.files[fileID].latestVersion)
    decreases run
  {
    hide Inv, Apply;
    if run != [] {
      StepKeepsInv(cat, run[0]);
      StepKeepsNumbers(cat, run[0], fileID, x);
      NumbersNeverReused(Apply(cat, run[0]), run[1..], fileID, x);
    }
  }

  lemma {:induction false} FindSpec(list: seq<Version>, number: int)
    ensures Find(list, number).None? <==> forall v :: v in list ==> v.number != number
    ensures Find(list, number).Some? ==> Find(list, number).value in list && Find(list, number).value.number == number
  {
    if list != [] && list[0].number != number {
      FindSpec(list[1..], number);
      assert list == [list[0]] + list[1..];
    }
  }

  lemma FindUnique(list: seq<Version>, i: nat)
    requires Increasing(list) && i < |list|
    ensures Find(list, list[i].number) == Some(list[i])
  {
    FindSpec(list, list[i].number);
    var v := Find(list, list[i].number).value;
    var j :| 0 <= j < |list| && list[j] == v;
    if j < i {} else if i < j {}
  }

  /** The download shortcut agrees with a search by number except in one situation: the number
      asked for is the latest one issued and that version has been deleted. Then the newest
      remaining version is served in its place. */
  lemma ShortcutExact(file: FileRecord, list: seq<Version>, number: int)
    requires ListOk(file, list) && number != 0
    ensures Choose(file, list, number) == Find(list, number)
            <==> !(list != [] && number == file.latestVersion && list[|list| - 1].number != file.latestVersion)
  {
    FindSpec(list, number);
    if list != [] {
      var n := |list| - 1;
      FindUnique(list, n);
      assert list[n] in list;
    }
  }

  /** Every retained version is found under its own number, and version 0 is the retained
      version with the greatest number. */
  lemma RetainedFound(file: FileRecord, list: seq<Version>, i: nat)
    requires ListOk(file, list) && i < |list|
    ensures Choose(file, list, list[i].number) == Some(list[i])
    ensures Choose(file, list, 0).Some? && Choose(file, list, 0).value in list
            && Choose(file, list, 0).value.number >= list[i].number
  {
    FindUnique(list, i);
    var n := |list| - 1;
    assert list[i] in list && list[n] in list;
    assert i < n ==> list[i].number < list[n].number;
  }

  /** Posting metadata over an existing file restarts its numbering: the list stays well formed
      exactly when it was empty. */
  lemma MetaOverExisting(cat: Catalog, op: Op)
    requires Inv(cat) && op.CreateMeta? && op.fileID in cat.files
    ensures var cat' := Apply(cat, op);
            ListOk(cat'.files[op.fileID], ListOf(cat'.versions, op.fileID))
            <==> ListOf(cat.versions, op.fileID) == []
  {
    var list := ListOf(cat.versions, op.fileID);
    var list' := list + [Created(cat, op).value];
    if list != [] {
      assert list[0] in list;
      assert list'[0] == list[0] && list'[|list|].number == 1;
    }
  }
}
