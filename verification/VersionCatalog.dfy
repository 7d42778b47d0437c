/** Files and their version lists as functions on values: create, roll back, clean up, delete,
    persist, reload. */
module VersionCatalog {
  import opened Sequences
  import opened Keys
  import opened Records
  import opened Bucket

  const DEFAULT_MAX_VERSIONS: nat := 3

  /** The file manager's maps, the "Files" bucket and the "Replicas" bucket, which is an
      append-only log of every version ever created. */
  datatype Catalog = Catalog(
    files: map<string, FileRecord>, versions: map<string, seq<Version>>,
    savedFiles: map<string, FileRecord>, log: seq<Entry<Version>>)

  function ListOf(versions: map<string, seq<Version>>, fileID: string): seq<Version> {
    if fileID in versions then versions[fileID] else []
  }

  // ----------------------------------------------------------- version numbers

  ghost predicate Increasing(list: seq<Version>) {
    forall i, j :: 0 <= i < j < |list| ==> list[i].number < list[j].number
  }

  ghost predicate NonDecreasing(list: seq<Version>) {
    forall i, j :: 0 <= i < j < |list| ==> list[i].number <= list[j].number
  }

  function Insert(v: Version, sorted: seq<Version>): seq<Version> {
    if sorted == [] || sorted[|sorted| - 1].number <= v.number then sorted + [v]
    else Insert(v, sorted[..|sorted| - 1]) + [sorted[|sorted| - 1]]
  }

  /** The list by ascending version number. */
  function SortByNumber(list: seq<Version>): seq<Version> {
    if list == [] then [] else Insert(list[|list| - 1], SortByNumber(list[..|list| - 1]))
  }

  lemma {:induction false} InsertSpec(v: Version, sorted: seq<Version>)
    requires NonDecreasing(sorted)
    ensures NonDecreasing(Insert(v, sorted))
    ensures multiset(Insert(v, sorted)) == multiset(sorted) + multiset{v}
  {
    if sorted != [] && sorted[|sorted| - 1].number > v.number {
      var front, last := sorted[..|sorted| - 1], sorted[|sorted| - 1];
      assert sorted == front + [last];
      InsertSpec(v, front);
      InsertBelow(v, front, last.number);
      assert Insert(v, sorted) == Insert(v, front) + [last];
      hide Insert;
    }
  }

  lemma InsertBelow(v: Version, sorted: seq<Version>, bound: int)
    requires multiset(Insert(v, sorted)) == multiset(sorted) + multiset{v}
    requires v.number <= bound && forall i :: 0 <= i < |sorted| ==> sorted[i].number <= bound
    ensures forall i :: 0 <= i < |Insert(v, sorted)| ==> Insert(v, sorted)[i].number <= bound
  {
    hide Insert;
    var r := Insert(v, sorted);
    forall i | 0 <= i < |r| ensures r[i].number <= bound {
      assert r[i] in multiset(r);
      if r[i] != v { assert r[i] in sorted; }
    }
  }

  lemma {:induction false} SortSpec(list: seq<Version>)
    ensures NonDecreasing(SortByNumber(list)) && multiset(SortByNumber(list)) == multiset(list)
    ensures |SortByNumber(list)| == |list|
  {
    if list != [] {
      var front := list[..|list| - 1];
      SortSpec(front);
      InsertSpec(list[|list| - 1], SortByNumber(front));
      assert list == front + [list[|list| - 1]];
    }
    assert |SortByNumber(list)| == |multiset(SortByNumber(list))| == |multiset(list)| == |list|;
  }

  /** Sorting leaves an increasing list alone. */
  lemma {:induction false} SortIncreasing(list: seq<Version>)
    requires Increasing(list)
    ensures SortByNumber(list) == list
  {
    if list != [] {
      var front, last := list[..|list| - 1], list[|list| - 1];
      SortIncreasing(front);
      InsertEnd(last, front);
      hide Insert;
      assert list == front + [last];
    }
  }

  /** A version that no entry exceeds goes to the end. */
  lemma InsertEnd(v: Version, sorted: seq<Version>)
    requires sorted != [] ==> sorted[|sorted| - 1].number <= v.number
    ensures Insert(v, sorted) == sorted + [v]
  {
  }

  /** A larger last entry stays behind the inserted version. */
  lemma InsertBefore(v: Version, sorted: seq<Version>, j: nat)
    requires 0 < j <= |sorted| && sorted[j - 1].number > v.number
    ensures Insert(v, sorted[..j]) + sorted[j..] == Insert(v, sorted[..j - 1]) + sorted[j - 1..]
  {
    assert sorted[..j][..j - 1] == sorted[..j - 1] && sorted[..j][j - 1] == sorted[j - 1];
    assert Insert(v, sorted[..j]) == Insert(v, sorted[..j - 1]) + [sorted[j - 1]];
    hide Insert;
    assert sorted[j - 1..] == [sorted[j - 1]] + sorted[j..];
  }

  lemma SameLast(a: seq<Version>, b: seq<Version>)
    requires Increasing(a) && NonDecreasing(b) && multiset(a) == multiset(b) && |a| == |b| > 0
    ensures a[|a| - 1] == b[|a| - 1]
  {
    var n := |a| - 1;
    assert forall k :: 0 <= k < n ==> a[k].number < a[n].number && b[k].number <= b[n].number;
    assert a[n] in multiset(b) && b[n] in multiset(a);
    var i :| 0 <= i < |b| && b[i] == a[n];
    var j :| 0 <= j < |a| && a[j] == b[n];
  }

  lemma WithoutLast(a: seq<Version>)
    requires a != []
    ensures multiset(a[..|a| - 1]) == multiset(a) - multiset{a[|a| - 1]}
    ensures a == a[..|a| - 1] + [a[|a| - 1]]
    ensures Increasing(a) ==> Increasing(a[..|a| - 1])
    ensures NonDecreasing(a) ==> NonDecreasing(a[..|a| - 1])
  {
    assert a == a[..|a| - 1] + [a[|a| - 1]];
  }

  /** With distinct numbers any sorting algorithm produces the same list. */
  lemma {:induction false} SortUnique(a: seq<Version>, b: seq<Version>)
    requires Increasing(a) && NonDecreasing(b) && multiset(a) == multiset(b)
    ensures a == b
  {
    assert |a| == |multiset(a)| == |multiset(b)| == |b|;
    if a != [] {
      SameLast(a, b);
      WithoutLast(a);
      WithoutLast(b);
      hide Increasing, NonDecreasing;
      SortUnique(a[..|a| - 1], b[..|b| - 1]);
    }
  }

  // --------------------------------------------------------- version operations

  function NewFile(fileID: string, name: string, path: string, size: int): FileRecord {
    FileRecord(fileID, name, path, 0, 0, DEFAULT_MAX_VERSIONS, size)
  }

  /** The version CreateNewVersion and RollbackToVersion build. */
  function NewVersion(file: FileRecord, chunkIDs: seq<string>, nodeIDs: seq<string>, size: int, hash: string, stamp: nat): Version {
    Version(VersionID(stamp), file.fileID, file.latestVersion + 1, size, hash, chunkIDs, nodeIDs)
  }

  function Bump(file: FileRecord, size: int): FileRecord {
    file.(latestVersion := file.latestVersion + 1, versionCount := file.versionCount + 1, size := size)
  }

  /** How many versions CleanupOldVersions removes. */
  function Excess(file: FileRecord, list: seq<Version>): nat {
    if |list| <= file.maxVersions then 0 else |list| - file.maxVersions
  }

  function Kept(file: FileRecord, list: seq<Version>): seq<Version> {
    if Excess(file, list) == 0 then list
    else SortSpec(list); SortByNumber(list)[Excess(file, list)..]
  }

  function Dropped(file: FileRecord, list: seq<Version>): seq<Version> {
    if Excess(file, list) == 0 then []
    else SortSpec(list); SortByNumber(list)[..Excess(file, list)]
  }

  function CleanedUp(file: FileRecord, list: seq<Version>): FileRecord {
    file.(versionCount := file.versionCount - Excess(file, list))
  }

  /** The first version with a number, as the handlers' loops find it. */
  function Find(list: seq<Version>, number: int): Option<Version> {
    if list == [] then None
    else if list[0].number == number then Some(list[0])
    else Find(list[1..], number)
  }

  function FindIndex(list: seq<Version>, number: int): (i: nat)
    ensures i <= |list|
    ensures forall j :: 0 <= j < i ==> list[j].number != number
    ensures i < |list| ==> list[i].number == number
  {
    if list == [] || list[0].number == number then 0 else 1 + FindIndex(list[1..], number)
  }

  /** downloadFile's choice: the last entry for 0 and for the latest number, a search otherwise. */
  function Choose(file: FileRecord, list: seq<Version>, number: int): Option<Version> {
    if list == [] then None
    else if number == 0 || number == file.latestVersion then Some(list[|list| - 1])
    else Find(list, number)
  }

  // -------------------------------------------------------------------- handlers

  datatype Op =
    | Create(fileID: string, name: string, path: string, chunkIDs: seq<string>, nodeIDs: seq<string>,
             size: int, hash: string, stamp: nat)
    | CreateMeta(fileID: string, name: string, path: string, chunkIDs: seq<string>, nodeIDs: seq<string>,
                 size: int, stamp: nat)
    | Rollback(fileID: string, number: int, stamp: nat)
    | DeleteVersion(fileID: string, number: int)
    | DeleteFile(fileID: string)
    | Restart

  /** Append a version, clean up, persist the file and the new version. */
  function Append(cat: Catalog, fileID: string, file: FileRecord, v: Version, size: int): Catalog {
    var bumped := Bump(file, size);
    var list := ListOf(cat.versions, fileID) + [v];
    var file' := CleanedUp(bumped, list);
    Catalog(cat.files[fileID := file'],
            cat.versions[fileID := Kept(bumped, list)],
            cat.savedFiles[file'.fileID := file'],
            Put(cat.log, VersionKey(fileID, v.versionID), v))
  }

  function FileFor(cat: Catalog, op: Op): FileRecord
    requires op.Create?
  {
    if op.fileID in cat.files then cat.files[op.fileID] else NewFile(op.fileID, op.name, op.path, 0)
  }

  /** The version an operation creates, if it creates one. */
  function Created(cat: Catalog, op: Op): Option<Version> {
    match op
    case Create(_, _, _, chunkIDs, nodeIDs, size, hash, stamp) =>
      Some(NewVersion(FileFor(cat, op), chunkIDs, nodeIDs, size, hash, stamp))
    case CreateMeta(fileID, name, path, chunkIDs, nodeIDs, size, stamp) =>
      Some(NewVersion(NewFile(fileID, name, path, size), chunkIDs, nodeIDs, size, "", stamp))
    case Rollback(fileID, number, stamp) =>
      if fileID !in cat.files then None
      else (match Find(ListOf(cat.versions, fileID), number)
            case None => None
            case Some(t) => Some(NewVersion(cat.files[fileID], t.chunkIDs, t.nodeIDs, t.size, t.hash, stamp)))
    case _ => None
  }

  function Apply(cat: Catalog, op: Op): Catalog {
    match op
    case Create(fileID, _, _, _, _, size, _, _) => Append(cat, fileID, FileFor(cat, op), Created(cat, op).value, size)
    case CreateMeta(fileID, name, path, _, _, size, _) =>
      var file := Bump(NewFile(fileID, name, path, size), size);
      var v := Created(cat, op).value;
      Catalog(cat.files[fileID := file], cat.versions[fileID := ListOf(cat.versions, fileID) + [v]],
              cat.savedFiles[fileID := file], Put(cat.log, VersionKey(fileID, v.versionID), v))
    case Rollback(fileID, _, _) =>
      (match Created(cat, op)
       case None => cat
       case Some(v) => Append(cat, fileID, cat.files[fileID], v, v.size))
    case DeleteVersion(fileID, number) =>
      var list := ListOf(cat.versions, fileID);
      var i := FindIndex(list, number);
      if fileID !in cat.files || i == |list| then cat
      else
        var file := cat.files[fileID].(versionCount := cat.files[fileID].versionCount - 1);
        Catalog(cat.files[fileID := file], cat.versions[fileID := list[..i] + list[i + 1..]],
                cat.savedFiles[fileID := file], cat.log)
    case DeleteFile(fileID) =>
      if fileID !in cat.files then cat
      else Catalog(cat.files - {fileID}, cat.versions - {fileID}, cat.savedFiles - {fileID}, cat.log)
    case Restart => Catalog(cat.savedFiles, Grouped(cat.log), cat.savedFiles, cat.log)
  }

  /** The versions whose chunks an operation deletes, in order. */
  function Removed(cat: Catalog, op: Op): seq<Version> {
    match op
    case Create(fileID, _, _, _, _, size, _, _) =>
      Dropped(Bump(FileFor(cat, op), size), ListOf(cat.versions, fileID) + [Created(cat, op).value])
    case Rollback(fileID, _, _) =>
      (match Created(cat, op)
       case None => []
       case Some(v) => Dropped(Bump(cat.files[fileID], v.size), ListOf(cat.versions, fileID) + [v]))
    case DeleteVersion(fileID, number) =>
      var list := ListOf(cat.versions, fileID);
      var i := FindIndex(list, number);
      if fileID !in cat.files || i == |list| then [] else [list[i]]
    case DeleteFile(fileID) => if fileID !in cat.files then [] else ListOf(cat.versions, fileID)
    case _ => []
  }

  // --------------------------------------------------------- what one operation makes

  /** A created version is numbered next and carries what the request gave; a rollback's carries what its
      target, the first listed version with the number, has. */
  lemma CreatedFields(cat: Catalog, op: Op)
    ensures op.Create? ==>
              var known := op.fileID in cat.files;
              Created(cat, op) == Some(Version("v_" + Decimal(op.stamp), if known then cat.files[op.fileID].fileID else op.fileID,
                                               if known then cat.files[op.fileID].latestVersion + 1 else 1,
                                               op.size, op.hash, op.chunkIDs, op.nodeIDs))
    ensures op.CreateMeta? ==>
              Created(cat, op) == Some(Version("v_" + Decimal(op.stamp), op.fileID, 1, op.size, "", op.chunkIDs, op.nodeIDs))
    ensures op.Rollback? ==>
              (Created(cat, op).Some? <==>
                 op.fileID in cat.files && exists t :: t in ListOf(cat.versions, op.fileID) && t.number == op.number)
    ensures op.Rollback? && Created(cat, op).Some? ==>
              exists i :: FirstWith(ListOf(cat.versions, op.fileID), op.number, i)
                && var t := ListOf(cat.versions, op.fileID)[i];
                   Created(cat, op).value
                   == Version("v_" + Decimal(op.stamp), cat.files[op.fileID].fileID, cat.files[op.fileID].latestVersion + 1,
                              t.size, t.hash, t.chunkIDs, t.nodeIDs)
    ensures op.DeleteVersion? || op.DeleteFile? || op.Restart? ==> Created(cat, op).None?
  {
    if op.Rollback? { FindFirst(ListOf(cat.versions, op.fileID), op.number); }
  }

  ghost predicate FirstWith(list: seq<Version>, number: int, i: int) {
    0 <= i < |list| && list[i].number == number && forall j :: 0 <= j < i ==> list[j].number != number
  }

  lemma {:induction false} FindFirst(list: seq<Version>, number: int)
    ensures Find(list, number).Some? <==> exists t :: t in list && t.number == number
    ensures Find(list, number).Some? ==> exists i :: FirstWith(list, number, i) && Find(list, number) == Some(list[i])
  {
    if list != [] {
      assert list == [list[0]] + list[1..];
      if list[0].number == number {
        assert list[0] in list;
        assert FirstWith(list, number, 0);
      } else {
        FindFirst(list[1..], number);
        if i :| FirstWith(list[1..], number, i) && Find(list[1..], number) == Some(list[1..][i]) {
          assert FirstWith(list, number, i + 1);
        }
      }
    }
  }

  lemma FindIndexSpec(list: seq<Version>, number: int)
    ensures FindIndex(list, number) < |list| <==> exists v :: v in list && v.number == number
    ensures FindIndex(list, number) < |list| ==> FirstWith(list, number, FindIndex(list, number))
  {
  }

  /** A clean-up, in literal terms: the kept versions are as many as allowed, none of them is older than a
      dropped one, and together they are the list. */
  lemma CleanupSpec(file: FileRecord, list: seq<Version>)
    ensures |Kept(file, list)| == if |list| <= file.maxVersions then |list| else file.maxVersions
    ensures multiset(Dropped(file, list)) + multiset(Kept(file, list)) == multiset(list)
    ensures forall v, w :: v in Dropped(file, list) && w in Kept(file, list) ==> v.number <= w.number
    ensures |list| <= file.maxVersions ==> Kept(file, list) == list && Dropped(file, list) == []
    ensures CleanedUp(file, list) == file.(versionCount := file.versionCount - |Dropped(file, list)|)
  {
    if |list| > file.maxVersions {
      SortSpec(list);
      var s, e := SortByNumber(list), |list| - file.maxVersions;
      hide SortByNumber;
      assert s == s[..e] + s[e..];
      forall v, w | v in s[..e] && w in s[e..] ensures v.number <= w.number {
        var i :| 0 <= i < e && s[..e][i] == v;
        var j :| 0 <= j < |s[e..]| && s[e..][j] == w;
        assert s[i] == v && s[e + j] == w;
      }
    }
  }

  // ----------------------------------------------------------- the version log

  /** The versions of one file, in the order the bucket iterates them. */
  function OfFile(log: seq<Entry<Version>>, fileID: string): seq<Version> {
    if log == [] then []
    else (if log[0].value.fileID == fileID then [log[0].value] else []) + OfFile(log[1..], fileID)
  }

  function FileIDs(log: seq<Entry<Version>>): set<string> {
    set e | e in log :: e.value.fileID
  }

  /** LoadVersions: the log grouped by file. */
  function Grouped(log: seq<Entry<Version>>): map<string, seq<Version>> {
    map f | f in FileIDs(log) :: OfFile(log, f)
  }

  lemma {:induction false} OfFileAppend(log: seq<Entry<Version>>, e: Entry<Version>, fileID: string)
    ensures OfFile(log + [e], fileID) == OfFile(log, fileID) + if e.value.fileID == fileID then [e.value] else []
  {
    if log != [] {
      assert (log + [e])[1..] == log[1..] + [e];
      OfFileAppend(log[1..], e, fileID);
    }
  }

  lemma {:induction false} OfFileAbsent(log: seq<Entry<Version>>, fileID: string)
    ensures fileID !in FileIDs(log) ==> OfFile(log, fileID) == []
    ensures forall v :: v in OfFile(log, fileID) ==> v.fileID == fileID && exists e :: e in log && e.value == v
  {
    if log != [] {
      OfFileAbsent(log[1..], fileID);
      assert log == [log[0]] + log[1..];
      forall v | v in OfFile(log, fileID) ensures exists e :: e in log && e.value == v {
        if v in OfFile(log[1..], fileID) {
          var e :| e in log[1..] && e.value == v;
          assert e in log;
        } else {
          assert log[0] in log;
        }
      }
      if fileID !in FileIDs(log) {
        assert log[0] in log;
        forall e | e in log[1..] ensures e.value.fileID != fileID { assert e in log; }
      }
    }
  }

  lemma OfFileGrouped(log: seq<Entry<Version>>, fileID: string)
    ensures ListOf(Grouped(log), fileID) == OfFile(log, fileID)
  {
    OfFileAbsent(log, fileID);
  }

  lemma NoneBefore(log: seq<Entry<Version>>, key: string, fileID: string)
    requires Ordered(log) && log != [] && Less(key, log[0].key)
    requires forall e :: e in log && e.value.fileID == fileID ==> Less(e.key, key)
    ensures OfFile(log, fileID) == []
  {
    OfFileAbsent(log, fileID);
    OrderedTail(log);
    forall e | e in log ensures e.value.fileID != fileID {
      if e.value.fileID == fileID {
        LessIrreflexive(key);
        assert log == [log[0]] + log[1..];
        if e != log[0] { LessTransitive(key, log[0].key, e.key); }
        LessTransitive(key, e.key, key);
      }
    }
  }

  /** Saving a version whose key sorts after the keys of its file's other versions appends it to
      that file's history and leaves every other file's history alone, wherever in the bucket
      the entry lands. */
  lemma {:induction false} PutAppends(log: seq<Entry<Version>>, key: string, v: Version, fileID: string)
    requires Ordered(log)
    requires forall e :: e in log && e.value.fileID == v.fileID ==> Less(e.key, key)
    requires forall e :: e in log ==> e.key != key
    ensures OfFile(Put(log, key, v), fileID) == OfFile(log, fileID) + if v.fileID == fileID then [v] else []
  {
    if log != [] {
      assert log[0] in log;
      if Less(key, log[0].key) {
        if v.fileID == fileID { NoneBefore(log, key, fileID); }
        hide Ordered, Less, OfFile;
        PutInFront(log, key, v, fileID);
      } else {
        OrderedTail(log);
        assert forall e :: e in log[1..] ==> e in log;
        PutAppends(log[1..], key, v, fileID);
        assert Put(log, key, v) == [log[0]] + Put(log[1..], key, v);
        hide Ordered, Less, Put;
        assert ([log[0]] + Put(log[1..], key, v))[1..] == Put(log[1..], key, v);
      }
    }
  }

  lemma PutInFront(log: seq<Entry<Version>>, key: string, v: Version, fileID: string)
    requires log != [] && log[0].key != key && Less(key, log[0].key)
    ensures OfFile(Put(log, key, v), fileID) == (if v.fileID == fileID then [v] else []) + OfFile(log, fileID)
  {
    assert Put(log, key, v)[1..] == log;
  }
}
