/** The version manager and the file manager as they run: file records updated in place, version
    lists replaced, chunks deleted one by one. Each handler is proved to perform one catalog
    operation and the chunk deletions that go with it. */
module FileManagement {
  import opened Sequences
  import opened Keys
  import opened Records
  import opened Bucket
  import opened VersionCatalog
  import opened Persistence
  import opened StorageManagement
  import opened Download
  import opened ChunkUpload
  import Cluster
  import S = StorageProtocol
  import Sched = Scheduler
  import Chunker

  class FileInfo {
    const fileID: string
    const name: string
    const path: string
    const maxVersions: nat
    var latestVersion: int
    var versionCount: int
    var size: int

    function View(): FileRecord
      reads this
    {
      FileRecord(fileID, name, path, latestVersion, versionCount, maxVersions, size)
    }

    constructor (f: FileRecord)
      ensures View() == f
    {
      fileID, name, path, maxVersions := f.fileID, f.name, f.path, f.maxVersions;
      latestVersion, versionCount, size := f.latestVersion, f.versionCount, f.size;
    }
  }

  ghost function FileViews(files: map<string, FileInfo>): map<string, FileRecord>
    reads files.Values
  {
    map k | k in files :: files[k].View()
  }

  // ------------------------------------------------------------- version manager

  /** sort.Slice by version number. For lists with distinct numbers, which is all lists of one
      server lifetime, every sorting algorithm gives this result (VersionCatalog.SortUnique). */
  method SortVersions(versions: seq<Version>) returns (sorted: seq<Version>)
    ensures sorted == SortByNumber(versions)
  {
    sorted := [];
    for i := 0 to |versions|
      invariant sorted == SortByNumber(versions[..i])
    {
      assert versions[..i + 1][..i] == versions[..i] && versions[..i + 1][i] == versions[i];
      sorted := InsertVersion(versions[i], sorted);
    }
    assert versions[..|versions|] == versions;
  }

  method InsertVersion(v: Version, sorted: seq<Version>) returns (r: seq<Version>)
    ensures r == Insert(v, sorted)
  {
    hide Insert;
    var j := |sorted|;
    assert sorted[..j] == sorted && sorted[j..] == [];
    while j > 0 && sorted[j - 1].number > v.number
      invariant 0 <= j <= |sorted|
      invariant Insert(v, sorted) == Insert(v, sorted[..j]) + sorted[j..]
    {
      InsertBefore(v, sorted, j);
      j := j - 1;
    }
    InsertEnd(v, sorted[..j]);
    r := sorted[..j] + [v] + sorted[j..];
  }

  class VersionManager {
    const storage: StorageManager

    constructor (storage: StorageManager)
      ensures this.storage == storage
    {
      this.storage := storage;
    }

    method CreateNewVersion(file: FileInfo, chunkIDs: seq<string>, nodeIDs: seq<string>, size: int, hash: string, stamp: nat)
      returns (v: Version)
      modifies file
      ensures v == Version("v_" + Decimal(stamp), file.fileID, old(file.latestVersion) + 1, size, hash, chunkIDs, nodeIDs)
      ensures file.latestVersion == v.number && file.versionCount == old(file.versionCount) + 1 && file.size == size
      ensures v == NewVersion(old(file.View()), chunkIDs, nodeIDs, size, hash, stamp)
      ensures file.View() == Bump(old(file.View()), size)
    {
      v := Version(VersionID(stamp), file.fileID, file.latestVersion + 1, size, hash, chunkIDs, nodeIDs);
      file.latestVersion := v.number;
      file.versionCount := file.versionCount + 1;
      file.size := size;
    }

    /** RollbackToVersion shares the target's chunks with the new version. */
    method RollbackToVersion(file: FileInfo, target: Version, stamp: nat) returns (v: Version)
      modifies file
      ensures v == Version("v_" + Decimal(stamp), file.fileID, old(file.latestVersion) + 1, target.size, target.hash,
                           target.chunkIDs, target.nodeIDs)
      ensures file.latestVersion == v.number && file.versionCount == old(file.versionCount) + 1 && file.size == target.size
      ensures v == NewVersion(old(file.View()), target.chunkIDs, target.nodeIDs, target.size, target.hash, stamp)
      ensures file.View() == Bump(old(file.View()), target.size)
    {
      v := Version(VersionID(stamp), file.fileID, file.latestVersion + 1, target.size, target.hash,
                   target.chunkIDs, target.nodeIDs);
      file.latestVersion := v.number;
      file.versionCount := file.versionCount + 1;
      file.size := target.size;
    }

    /** DeleteVersion: delete each chunk; one that is already gone is only logged. */
    method DeleteVersion(version: Version)
      requires storage.Valid()
      modifies storage`chunks, storage.persist`chunks
      ensures storage.Valid() && storage.chunks.Values <= old(storage.chunks.Values)
      ensures storage.View() == S.ApplyAll(old(storage.View()), S.DeleteChunkOps(version.chunkIDs))
      ensures storage.chunks.Keys == old(storage.chunks.Keys) - (set id | id in version.chunkIDs)
    {
      DeleteChunks(storage, version.chunkIDs);
    }

    /** CleanupOldVersions keeps the newest maxVersions and deletes the rest, oldest first. */
    method CleanupOldVersions(file: FileInfo, versions: seq<Version>) returns (kept: seq<Version>)
      requires storage.Valid()
      modifies file`versionCount, storage`chunks, storage.persist`chunks
      ensures kept == Kept(old(file.View()), versions)
      ensures file.View() == CleanedUp(old(file.View()), versions)
      ensures storage.Valid() && storage.chunks.Values <= old(storage.chunks.Values)
      ensures storage.View() == S.ApplyAll(old(storage.View()), S.DeleteOps(Dropped(old(file.View()), versions)))
    {
      hide SortByNumber, S.Apply, StorageManager.View, StorageManager.Valid;
      if |versions| <= file.maxVersions { return versions; }
      var sorted := SortVersions(versions);
      SortSpec(versions);
      var versionsToDelete := sorted[..|sorted| - file.maxVersions];
      kept := sorted[|sorted| - file.maxVersions..];
      DropVersions(file, versionsToDelete);
    }

    /** The deleting loop of CleanupOldVersions. */
    method DropVersions(file: FileInfo, versionsToDelete: seq<Version>)
      requires storage.Valid()
      modifies file`versionCount, storage`chunks, storage.persist`chunks
      ensures file.View() == old(file.View()).(versionCount := old(file.View()).versionCount - |versionsToDelete|)
      ensures storage.Valid() && storage.chunks.Values <= old(storage.chunks.Values)
      ensures storage.View() == S.ApplyAll(old(storage.View()), S.DeleteOps(versionsToDelete))
    {
      for i := 0 to |versionsToDelete|
        invariant storage.Valid() && storage.chunks.Values <= old(storage.chunks.Values)
        invariant file.View() == old(file.View()).(versionCount := old(file.View()).versionCount - i)
        invariant S.ApplyAll(old(storage.View()), S.DeleteOps(versionsToDelete))
                  == S.ApplyAll(storage.View(), S.DeleteOps(versionsToDelete[i..]))
      {
        DeleteNext(versionsToDelete[i..]);
        assert versionsToDelete[i..][1..] == versionsToDelete[i + 1..];
        file.versionCount := file.versionCount - 1;
      }
    }

    /** Delete the first of several versions. */
    method DeleteNext(versions: seq<Version>)
      requires storage.Valid() && versions != []
      modifies storage`chunks, storage.persist`chunks
      ensures storage.Valid() && storage.chunks.Values <= old(storage.chunks.Values)
      ensures S.ApplyAll(old(storage.View()), S.DeleteOps(versions))
              == S.ApplyAll(storage.View(), S.DeleteOps(versions[1..]))
    {
      DeleteVersion(versions[0]);
      S.ApplyAllAppend(old(storage.View()), S.DeleteChunkOps(versions[0].chunkIDs), S.DeleteOps(versions[1..]));
    }
  }

  /** The loop over a version's chunks, shared by the version manager and the delete handlers. */
  method DeleteChunks(storage: StorageManager, ids: seq<string>)
    requires storage.Valid()
    modifies storage`chunks, storage.persist`chunks
    ensures storage.Valid() && storage.chunks.Values <= old(storage.chunks.Values)
    ensures storage.View() == S.ApplyAll(old(storage.View()), S.DeleteChunkOps(ids))
    ensures storage.chunks.Keys == old(storage.chunks.Keys) - (set id | id in ids)
  {
    forall id { S.DeletesExactly(storage.View(), ids, id); }
    for i := 0 to |ids|
      invariant storage.Valid() && storage.chunks.Values <= old(storage.chunks.Values)
      invariant S.ApplyAll(old(storage.View()), S.DeleteChunkOps(ids))
                == S.ApplyAll(storage.View(), S.DeleteChunkOps(ids[i..]))
    {
      assert ids[i..][1..] == ids[i + 1..];
      assert S.DeleteChunkOps(ids[i..])[1..] == S.DeleteChunkOps(ids[i + 1..]);
      var _, _ := storage.DeleteChunk(ids[i]);
    }
  }

  // ---------------------------------------------------------------- file manager

  /** What a server-side upload did. */
  datatype Uploaded = Uploaded(job: Job, sent: seq<Sent>, broken: Break)

  class FileManager {
    const storage: StorageManager
    const persist: PersistenceManager
    const versionManager: VersionManager
    var files: map<string, FileInfo>
    var versions: map<string, seq<Version>>

    ghost predicate Valid()
      reads this, storage, persist, storage.chunks.Values
    {
      && storage.persist == persist && versionManager.storage == storage
      && storage.Valid()
      && forall f :: f in files ==> files[f].fileID == f
    }

    /** The catalog this manager holds, in memory and on disk. */
    ghost function View(): Catalog
      reads this, persist, files.Values
    {
      Catalog(FileViews(files), versions, AsMap(persist.files), persist.replicas)
    }

    constructor (storage: StorageManager)
      requires storage.Valid()
      ensures Valid() && this.storage == storage && persist == storage.persist
      ensures files == map[] && versions == map[]
    {
      this.storage := storage;
      this.persist := storage.persist;
      files, versions := map[], map[];
      versionManager := new VersionManager(storage);
    }

    /** The common end of creating and rolling back: append, clean up, persist. */
    method Retain(fileID: string, file: FileInfo, v: Version)
      requires Valid() && fileID in files && files[fileID] == file
      modifies this`versions, file`versionCount, storage`chunks, persist`chunks, persist`files, persist`replicas
      ensures Valid() && storage.chunks.Values <= old(storage.chunks.Values)
      ensures var list := ListOf(old(versions), fileID) + [v];
              && versions == old(versions)[fileID := Kept(old(file.View()), list)]
              && file.View() == CleanedUp(old(file.View()), list)
              && storage.View() == S.ApplyAll(old(storage.View()), S.DeleteOps(Dropped(old(file.View()), list)))
      ensures AsMap(persist.files) == old(AsMap(persist.files))[fileID := file.View()]
      ensures persist.replicas == Put(old(persist.replicas), VersionKey(fileID, v.versionID), v)
      ensures FileViews(files) == old(FileViews(files))[fileID := file.View()]
    {
      hide Kept, Dropped, CleanedUp, ListOf, S.Apply, S.ApplyAll, S.DeleteOps, Put, AsMap, PersistenceManager.Valid, VersionKey,
           StorageManager.View, StorageManager.Valid, FileViews;
      var list := ListOf(versions, fileID) + [v];
      var kept := CleanUp(fileID, file, list);
      SetList(fileID, kept);
      SaveBoth(fileID, file.View(), v);
    }

    /** CleanupOldVersions on one of the files, seen from the file map. */
    method CleanUp(fileID: string, file: FileInfo, list: seq<Version>) returns (kept: seq<Version>)
      requires Valid() && fileID in files && files[fileID] == file
      modifies file`versionCount, storage`chunks, persist`chunks
      ensures Valid() && storage.chunks.Values <= old(storage.chunks.Values)
      ensures kept == Kept(old(file.View()), list) && file.View() == CleanedUp(old(file.View()), list)
      ensures storage.View() == S.ApplyAll(old(storage.View()), S.DeleteOps(Dropped(old(file.View()), list)))
      ensures FileViews(files) == old(FileViews(files))[fileID := file.View()]
    {
      hide Kept, Dropped, CleanedUp, S.Apply, S.ApplyAll, S.DeleteOps, AsMap, PersistenceManager.Valid,
           StorageManager.View, StorageManager.Valid;
      kept := versionManager.CleanupOldVersions(file, list);
      assert FileViews(files) == old(FileViews(files))[fileID := file.View()];
    }

    /** Persist a file record and a new version. */
    method SaveBoth(fileID: string, file: FileRecord, v: Version)
      requires Valid() && file.fileID == fileID
      modifies persist`files, persist`replicas
      ensures Valid() && AsMap(persist.files) == old(AsMap(persist.files))[fileID := file]
      ensures persist.replicas == Put(old(persist.replicas), VersionKey(fileID, v.versionID), v)
      ensures storage.View() == old(storage.View()) && FileViews(files) == old(FileViews(files))
    {
      hide Put, AsMap, PersistenceManager.Valid, VersionKey;
      SaveOne(fileID, file);
      persist.SaveVersion(fileID, v);
    }

    /** A new file object under its own name. */
    method AddFile(f: FileRecord) returns (file: FileInfo)
      requires Valid()
      modifies this`files
      ensures Valid() && fresh(file) && files == old(files)[f.fileID := file] && file.View() == f
      ensures FileViews(files) == old(FileViews(files))[f.fileID := f]
      ensures storage.View() == old(storage.View())
    {
      hide AsMap, PersistenceManager.Valid;
      file := new FileInfo(f);
      files := files[f.fileID := file];
      assert FileViews(files) == old(FileViews(files))[f.fileID := f];
    }

    /** The file's record, created on first use. */
    method FileOf(fileID: string, name: string, path: string, size: int) returns (file: FileInfo)
      requires Valid()
      modifies this`files
      ensures Valid() && fresh(files.Values - old(files.Values))
      ensures fileID in files && files[fileID] == file
      ensures fileID in old(files) ==> files == old(files)
      ensures fileID !in old(files) ==> fresh(file) && files == old(files)[fileID := file]
      ensures file.View() == (if fileID in old(FileViews(files)) then old(FileViews(files))[fileID]
                              else NewFile(fileID, name, path, size))
      ensures file.View().fileID == fileID
      ensures FileViews(files) == old(FileViews(files))[fileID := file.View()]
      ensures storage.View() == old(storage.View())
    {
      hide AsMap, PersistenceManager.Valid;
      if fileID in files { return files[fileID]; }
      file := AddFile(NewFile(fileID, name, path, size));
      assert FileViews(files) == old(FileViews(files))[fileID := file.View()];
    }

    /** CreateNewVersion on one of the files, seen from the file map. */
    method NewVersionOf(fileID: string, file: FileInfo, chunkIDs: seq<string>, nodeIDs: seq<string>,
                        size: int, hash: string, stamp: nat) returns (v: Version)
      requires Valid() && fileID in files && files[fileID] == file
      modifies file
      ensures v == NewVersion(old(file.View()), chunkIDs, nodeIDs, size, hash, stamp)
      ensures file.View() == Bump(old(file.View()), size)
      ensures Valid() && storage.View() == old(storage.View())
      ensures FileViews(files) == old(FileViews(files))[fileID := file.View()]
    {
      hide AsMap, PersistenceManager.Valid, VersionID;
      v := versionManager.CreateNewVersion(file, chunkIDs, nodeIDs, size, hash, stamp);
      assert FileViews(files) == old(FileViews(files))[fileID := file.View()];
    }

    /** The part HandleCreateVersion and uploadFile have in common. They differ in the size a new file
        record starts with, but CreateNewVersion overwrites it. */
    method CreateWith(firstSize: int, fileID: string, name: string, path: string, chunkIDs: seq<string>, nodeIDs: seq<string>,
                          size: int, hash: string, stamp: nat) returns (v: Version)
      requires Valid()
      modifies this`files, this`versions, files.Values, storage`chunks, persist`chunks, persist`files, persist`replicas
      ensures Valid() && fresh(files.Values - old(files.Values)) && storage.chunks.Values <= old(storage.chunks.Values)
      ensures var op := Create(fileID, name, path, chunkIDs, nodeIDs, size, hash, stamp);
              && View() == Apply(old(View()), op)
              && Some(v) == Created(old(View()), op)
              && storage.View() == S.ApplyAll(old(storage.View()), S.DeleteOps(Removed(old(View()), op)))
    {
      hide Kept, Dropped, CleanedUp, Apply, Removed, S.Apply, S.ApplyAll, S.DeleteOps, Put, AsMap, Bump, ListOf, NewVersion, FileFor, Created,
           PersistenceManager.Valid, VersionKey, VersionID,
           StorageManager.View, StorageManager.Valid, Views, FileViews, FileManager.Valid, FileInfo.View;
      ghost var op := Create(fileID, name, path, chunkIDs, nodeIDs, size, hash, stamp);
      var file;
      file, v := FileWithVersion(firstSize, fileID, name, path, chunkIDs, nodeIDs, size, hash, stamp);
      Retain(fileID, file, v);
      CreateApplies(old(View()), op, v, View());
    }

    /** Find or make the file's record, and give it its next version. */
    method FileWithVersion(firstSize: int, fileID: string, name: string, path: string, chunkIDs: seq<string>, nodeIDs: seq<string>,
                           size: int, hash: string, stamp: nat) returns (file: FileInfo, v: Version)
      requires Valid()
      modifies this`files, files.Values
      ensures Valid() && storage.View() == old(storage.View()) && fileID in files && files[fileID] == file
      ensures fresh(files.Values - old(files.Values)) && (fresh(file) || file in old(files.Values))
      ensures FileViews(files) == old(FileViews(files))[fileID := file.View()]
      ensures var op := Create(fileID, name, path, chunkIDs, nodeIDs, size, hash, stamp);
              && file.View() == Bump(FileFor(old(View()), op), size) && FileFor(old(View()), op).fileID == fileID
              && Some(v) == Created(old(View()), op)
    {
      hide AsMap, Bump, NewVersion, FileFor, Created, PersistenceManager.Valid, VersionID,
           StorageManager.View, StorageManager.Valid, Views, FileViews, FileManager.Valid, FileInfo.View;
      file := FileOf(fileID, name, path, firstSize);
      SizeForgotten(old(View()), Create(fileID, name, path, chunkIDs, nodeIDs, size, hash, stamp), firstSize, file.View());
      v := NewVersionOf(fileID, file, chunkIDs, nodeIDs, size, hash, stamp);
    }

    /** What an operation creates, in terms of the file object. */
    lemma CreatedHere(op: Op)
      requires Valid()
      ensures op.Create? ==>
                Created(View(), op)
                == Some(Version("v_" + Decimal(op.stamp), op.fileID, if op.fileID in files then files[op.fileID].latestVersion + 1 else 1,
                                op.size, op.hash, op.chunkIDs, op.nodeIDs))
      ensures op.Rollback? && Created(View(), op).Some? ==>
                op.fileID in files
                && exists i :: FirstWith(ListOf(versions, op.fileID), op.number, i)
                     && var t := ListOf(versions, op.fileID)[i];
                        Created(View(), op).value
                        == Version("v_" + Decimal(op.stamp), op.fileID, files[op.fileID].latestVersion + 1,
                                   t.size, t.hash, t.chunkIDs, t.nodeIDs)
    {
      CreatedFields(View(), op);
      hide Created;
    }

    /** HandleCreateVersion. */
    method HandleCreateVersion(fileID: string, name: string, path: string, chunkIDs: seq<string>, nodeIDs: seq<string>,
                               size: int, hash: string, stamp: nat) returns (v: Version)
      requires Valid()
      modifies this`files, this`versions, files.Values, storage`chunks, persist`chunks, persist`files, persist`replicas
      ensures Valid() && fresh(files.Values - old(files.Values)) && storage.chunks.Values <= old(storage.chunks.Values)
      ensures var op := Create(fileID, name, path, chunkIDs, nodeIDs, size, hash, stamp);
              && View() == Apply(old(View()), op)
              && Some(v) == Created(old(View()), op)
              && storage.View() == S.ApplyAll(old(storage.View()), S.DeleteOps(Removed(old(View()), op)))
      ensures v == Version("v_" + Decimal(stamp), fileID, if fileID in old(files) then old(files[fileID].latestVersion) + 1 else 1,
                           size, hash, chunkIDs, nodeIDs)
    {
      hide *;
      CreatedHere(Create(fileID, name, path, chunkIDs, nodeIDs, size, hash, stamp));
      v := CreateWith(0, fileID, name, path, chunkIDs, nodeIDs, size, hash, stamp);
    }

    /** uploadFile. An empty file makes the chunk count divide by zero, and the request dies. A failed
        chunk ends the request before any version exists. Otherwise the handler creates a version of
        the chunks it sent, and finally saves a partial record of each chunk over the real one. */
    method UploadFile(nodes: map<string, NodeRecord>, stores: Stores, givenName: string, givenPath: string, asked: Option<int>,
                      content: Bytes, fileStamp: nat, now: int -> nat, stamp: nat, hash: Bytes -> string, put: (int, int) -> Reply)
      returns (r: Result<Version>, stores': Stores, ghost u: Uploaded)
      requires Valid() && Sched.Keyed(nodes) && |content| <= Chunker.MAX_INT64
      modifies this`files, this`versions, files.Values, persist`files, persist`replicas
      modifies storage`chunks, storage`tasks, persist`chunks, storage.chunks.Values
      ensures Valid() && fresh(files.Values - old(files.Values)) && fresh(storage.chunks.Values - old(storage.chunks.Values))
      ensures content == [] ==> r.Err? && stores' == stores && View() == old(View()) && storage.View() == old(storage.View())
      ensures content != [] ==>
                u.job == Job((if givenName == "" then "unnamed" else givenName) + "_" + Decimal(fileStamp), true,
                             if asked.Some? && asked.value > 0 then asked.value else 3, nodes,
                             Chunker.PiecesRead(content, Chunker.ChunkSize(|content|)), now, put)
                && Chunker.CutAsTable(content, u.job.pieces) && AllSent(u.job, u.sent) && (r.Ok? <==> |u.sent| == |u.job.pieces|)
      ensures content != [] && r.Err? ==>
                View() == old(View()) && Stopped(u.job, old(storage.View()), stores, storage.View(), stores', u.sent, u.broken)
      ensures r.Ok? ==>
                var ids, others := SentIDs(u.job.fileID, u.sent), Others(u.sent);
                var op := Create(u.job.fileID, if givenName == "" then "unnamed" else givenName,
                                 if givenPath == "" then "/" + givenName else givenPath,
                                 ids, others, |content|, hash(content), stamp);
                && View() == Apply(old(View()), op)
                && Some(r.value) == Created(old(View()), op)
                && stores' == StoresAfterAll(stores, u.job.fileID, true, u.sent)
                && storage.View() ==
                   S.ApplyAll(S.ApplyAll(StorageAfterAll(old(storage.View()), u.job.fileID, u.job.requested, u.sent),
                                         S.DeleteOps(Removed(old(View()), op))),
                              Cluster.OverwriteOps(ServerUpload(u.job.fileID, content, others), ids))
    {
      hide *;
      var path := if givenPath == "" then "/" + givenName else givenPath;
      var name := if givenName == "" then "unnamed" else givenName;
      var replicas := if asked.Some? && asked.value > 0 then asked.value else 3;
      var fileID := name + "_" + Decimal(fileStamp);
      stores' := stores;
      ghost var b := Break(Sent([], [], 0, ""), 0);
      u := Uploaded(Job(fileID, true, replicas, nodes, [], now, put), [], b);
      if content == [] { return Err("integer divide by zero"), stores, u; }
      ghost var job, sent;
      var chunks;
      chunks, stores', job, sent, b := SendAll(nodes, stores, fileID, content, replicas, now, hash, put);
      u := Uploaded(job, sent, b);
      if chunks.Err? { return Err(chunks.error), stores', u; }
      var v := FinishUpload(fileID, name, path, chunks.value.0, chunks.value.1, content, hash(content), stamp);
      r := Ok(v);
    }

    /** The chunk loop, which touches no file and no version. */
    method SendAll(nodes: map<string, NodeRecord>, stores: Stores, fileID: string, content: Bytes, requested: int,
                   now: int -> nat, hash: Bytes -> string, put: (int, int) -> Reply)
      returns (r: Result<(seq<string>, seq<string>)>, stores': Stores, ghost job: Job, ghost sent: seq<Sent>, ghost b: Break)
      requires Valid() && Sched.Keyed(nodes)
      requires content != [] && |content| <= Chunker.MAX_INT64
      modifies storage`chunks, storage`tasks, persist`chunks, storage.chunks.Values
      ensures Valid() && View() == old(View()) && fresh(storage.chunks.Values - old(storage.chunks.Values))
      ensures job == Job(fileID, true, requested, nodes, Chunker.PiecesRead(content, Chunker.ChunkSize(|content|)), now, put)
      ensures Chunker.CutAsTable(content, job.pieces)
      ensures AllSent(job, sent) && (r.Ok? <==> |sent| == |job.pieces|)
      ensures r.Ok? ==>
                && r.value == (SentIDs(fileID, sent), Others(sent))
                && storage.View() == StorageAfterAll(old(storage.View()), fileID, requested, sent)
                && stores' == StoresAfterAll(stores, fileID, true, sent)
      ensures r.Err? ==> Stopped(job, old(storage.View()), stores, storage.View(), stores', sent, b)
    {
      hide AsMap, PersistenceManager.Valid, StorageManager.View, StorageManager.Valid, AllSent, StorageAfterAll, StoresAfterAll,
           SentIDs, Others, Chunker.PiecesRead, Chunker.ChunkSize, Chunker.CutAsTable, StoresBroken, BrokeAt, S.Apply, Sched.IsSelection;
      r, stores', job, sent, b := SendChunks(storage, nodes, stores, fileID, content, requested, now, hash, put);
    }

    /** The end of uploadFile: the version, then the partial chunk records. */
    method FinishUpload(fileID: string, name: string, path: string, chunkIDs: seq<string>, allNodeIDs: seq<string>,
                        content: Bytes, hash: string, stamp: nat)
      returns (v: Version)
      requires Valid()
      modifies this`files, this`versions, files.Values, storage`chunks, persist`chunks, persist`files, persist`replicas
      ensures Valid() && fresh(files.Values - old(files.Values)) && storage.chunks.Values <= old(storage.chunks.Values)
      ensures var op := Create(fileID, name, path, chunkIDs, allNodeIDs, |content|, hash, stamp);
              && View() == Apply(old(View()), op)
              && Some(v) == Created(old(View()), op)
              && storage.View() == S.ApplyAll(S.ApplyAll(old(storage.View()), S.DeleteOps(Removed(old(View()), op))),
                                              Cluster.OverwriteOps(ServerUpload(fileID, content, allNodeIDs), chunkIDs))
    {
      hide *;
      v := CreateWith(|content|, fileID, name, path, chunkIDs, allNodeIDs, |content|, hash, stamp);
      SavePartial(fileID, content, allNodeIDs, chunkIDs);
    }

    /** The last loop of uploadFile. */
    method SavePartial(fileID: string, content: Bytes, allNodeIDs: seq<string>, chunkIDs: seq<string>)
      requires Valid()
      modifies persist`chunks
      ensures Valid() && View() == old(View())
      ensures storage.View() == S.ApplyAll(old(storage.View()), Cluster.OverwriteOps(ServerUpload(fileID, content, allNodeIDs), chunkIDs))
    {
      hide AsMap, PersistenceManager.Valid, Chunker.ChunkSize;
      ghost var u := ServerUpload(fileID, content, allNodeIDs);
      for i := 0 to |chunkIDs|
        invariant Valid() && View() == old(View())
        invariant S.ApplyAll(old(storage.View()), Cluster.OverwriteOps(u, chunkIDs))
                  == S.ApplyAll(storage.View(), Cluster.OverwriteOps(u, chunkIDs[i..]))
      {
        assert chunkIDs[i..][1..] == chunkIDs[i + 1..];
        assert Cluster.OverwriteOps(u, chunkIDs[i..])[1..] == Cluster.OverwriteOps(u, chunkIDs[i + 1..]);
        persist.SaveChunk(Chunk(chunkIDs[i], fileID, Chunker.ChunkSize(|content|), "", allNodeIDs, Unset));
      }
    }

    /** RollbackToVersion on one of the files, seen from the file map. */
    method CopyVersionOf(fileID: string, file: FileInfo, target: Version, stamp: nat) returns (v: Version)
      requires Valid() && fileID in files && files[fileID] == file
      modifies file
      ensures v == NewVersion(old(file.View()), target.chunkIDs, target.nodeIDs, target.size, target.hash, stamp)
      ensures file.View() == Bump(old(file.View()), target.size)
      ensures Valid() && storage.View() == old(storage.View())
      ensures FileViews(files) == old(FileViews(files))[fileID := file.View()]
    {
      hide AsMap, PersistenceManager.Valid, VersionID;
      v := versionManager.RollbackToVersion(file, target, stamp);
      assert FileViews(files) == old(FileViews(files))[fileID := file.View()];
    }

    /** A file object and its record. */
    lemma KnownFile(fileID: string, file: FileInfo)
      requires Valid() && fileID in files && files[fileID] == file
      ensures fileID in View().files && View().files[fileID] == file.View() && file.View().fileID == fileID
    {
    }

    /** rollbackFile. */
    method RollbackFile(fileID: string, number: int, stamp: nat) returns (r: Result<Version>)
      requires Valid()
      modifies this`versions, files.Values, storage`chunks, persist`chunks, persist`files, persist`replicas
      ensures Valid() && files == old(files) && storage.chunks.Values <= old(storage.chunks.Values)
      ensures var op := Rollback(fileID, number, stamp);
              && View() == Apply(old(View()), op)
              && (r.Ok? <==> Created(old(View()), op).Some?)
              && (r.Ok? ==> Created(old(View()), op) == Some(r.value))
              && storage.View() == S.ApplyAll(old(storage.View()), S.DeleteOps(Removed(old(View()), op)))
      ensures r.Ok? ==>
                fileID in old(files)
                && exists i :: FirstWith(ListOf(old(versions), fileID), number, i)
                     && var t := ListOf(old(versions), fileID)[i];
                        r.value == Version("v_" + Decimal(stamp), fileID, old(files[fileID].latestVersion) + 1,
                                           t.size, t.hash, t.chunkIDs, t.nodeIDs)
    {
      hide Kept, Dropped, CleanedUp, Apply, Removed, S.Apply, S.ApplyAll, S.DeleteOps, Put, AsMap,
           PersistenceManager.Valid, VersionKey, VersionID, StorageManager.View, StorageManager.Valid;
      CreatedHere(Rollback(fileID, number, stamp));
      NothingCreated(old(View()), Rollback(fileID, number, stamp));
      S.NoDeletes(old(storage.View()));
      if fileID !in files { return Err("file not found"); }
      var target := FindVersion(ListOf(versions, fileID), number);
      if target.None? { return Err("version not found"); }
      var v := RollbackTo(fileID, files[fileID], target.value, number, stamp);
      r := Ok(v);
    }

    /** The successful branch of rollbackFile. */
    method RollbackTo(fileID: string, file: FileInfo, target: Version, number: int, stamp: nat) returns (v: Version)
      requires Valid() && fileID in files && files[fileID] == file
      requires Find(ListOf(versions, fileID), number) == Some(target)
      modifies this`versions, file, storage`chunks, persist`chunks, persist`files, persist`replicas
      ensures Valid() && storage.chunks.Values <= old(storage.chunks.Values)
      ensures var op := Rollback(fileID, number, stamp);
              && View() == Apply(old(View()), op)
              && Some(v) == Created(old(View()), op)
              && storage.View() == S.ApplyAll(old(storage.View()), S.DeleteOps(Removed(old(View()), op)))
    {
      hide Kept, Dropped, CleanedUp, Apply, Removed, S.Apply, S.ApplyAll, S.DeleteOps, Put, AsMap, Bump, NewVersion, Created,
           PersistenceManager.Valid, VersionKey, VersionID, Find, ListOf,
           StorageManager.View, StorageManager.Valid, Views, FileViews, FileManager.Valid, FileInfo.View;
      KnownFile(fileID, file);
      v := CopyVersionOf(fileID, file, target, stamp);
      Retain(fileID, file, v);
      RollbackApplies(old(View()), fileID, number, stamp, target, v, View());
    }

    /** deleteVersion: the first list entry with the number goes, with its chunks. The log keeps
        its record. */
    method DeleteFileVersion(fileID: string, number: int) returns (ok: bool)
      requires Valid()
      modifies this`versions, files.Values, storage`chunks, persist`chunks, persist`files
      ensures Valid() && files == old(files) && storage.chunks.Values <= old(storage.chunks.Values)
      ensures var op := DeleteVersion(fileID, number);
              && View() == Apply(old(View()), op)
              && (ok <==> Removed(old(View()), op) != [])
              && storage.View() == S.ApplyAll(old(storage.View()), S.DeleteOps(Removed(old(View()), op)))
      ensures ok <==> fileID in old(files) && exists v :: v in ListOf(old(versions), fileID) && v.number == number
      ensures ok ==>
                exists i :: FirstWith(ListOf(old(versions), fileID), number, i)
                  && var list := ListOf(old(versions), fileID);
                     && versions == old(versions)[fileID := list[..i] + list[i + 1..]]
                     && storage.chunks.Keys == old(storage.chunks.Keys) - (set id | id in list[i].chunkIDs)
    {
      hide Kept, Dropped, CleanedUp, Apply, Removed, S.Apply, S.ApplyAll, S.DeleteOps, Put, AsMap, FindIndex, ListOf,
           PersistenceManager.Valid, StorageManager.View, StorageManager.Valid, FileManager.Valid, FileInfo.View;
      S.NoDeletes(old(storage.View()));
      VersionDeleted(old(View()), fileID, number);
      if fileID !in files { return false; }
      var i := IndexOf(ListOf(versions, fileID), number);
      FindIndexSpec(ListOf(versions, fileID), number);
      if i == |ListOf(versions, fileID)| { return false; }
      RemoveAt(fileID, files[fileID], i);
      ok := true;
    }

    /** The removing branch of deleteVersion. */
    method RemoveAt(fileID: string, file: FileInfo, i: nat)
      requires Valid() && fileID in files && files[fileID] == file && i < |ListOf(versions, fileID)|
      modifies this`versions, file`versionCount, storage`chunks, persist`chunks, persist`files
      ensures Valid() && storage.chunks.Values <= old(storage.chunks.Values)
      ensures var list, file0 := old(ListOf(versions, fileID)), old(file.View());
              var file' := file0.(versionCount := file0.versionCount - 1);
              && View() == Catalog(old(FileViews(files))[fileID := file'], old(versions)[fileID := list[..i] + list[i + 1..]],
                                   old(AsMap(persist.files))[fileID := file'], old(persist.replicas))
              && storage.View() == S.ApplyAll(old(storage.View()), S.DeleteOps([list[i]]))
              && storage.chunks.Keys == old(storage.chunks.Keys) - (set id | id in list[i].chunkIDs)
    {
      hide Put, AsMap, PersistenceManager.Valid, S.Apply, S.ApplyAll, S.DeleteChunkOps;
      var list := ListOf(versions, fileID);
      DeleteChunks(storage, list[i].chunkIDs);
      OneVersion(list[i]);
      CutFrom(fileID, file, list[..i] + list[i + 1..]);
    }

    /** A file's list loses one version. */
    method CutFrom(fileID: string, file: FileInfo, list: seq<Version>)
      requires Valid() && fileID in files && files[fileID] == file
      modifies this`versions, file`versionCount, persist`files
      ensures Valid() && storage.View() == old(storage.View()) && storage.chunks == old(storage.chunks)
      ensures var file' := old(file.View()).(versionCount := old(file.View()).versionCount - 1);
              View() == Catalog(old(FileViews(files))[fileID := file'], old(versions)[fileID := list],
                                old(AsMap(persist.files))[fileID := file'], old(persist.replicas))
    {
      hide AsMap, PersistenceManager.Valid, StorageManager.View, StorageManager.Valid, FileViews;
      CountDown(fileID, file);
      SetList(fileID, list);
      SaveOne(fileID, file.View());
    }

    /** A file's list is replaced. */
    method SetList(fileID: string, list: seq<Version>)
      requires Valid()
      modifies this`versions
      ensures Valid() && storage.View() == old(storage.View())
      ensures versions == old(versions)[fileID := list] && FileViews(files) == old(FileViews(files))
    {
      hide AsMap, PersistenceManager.Valid;
      versions := versions[fileID := list];
    }

    /** Persist a file record. */
    method SaveOne(fileID: string, file: FileRecord)
      requires Valid() && file.fileID == fileID
      modifies persist`files
      ensures Valid() && AsMap(persist.files) == old(AsMap(persist.files))[fileID := file]
      ensures storage.View() == old(storage.View()) && FileViews(files) == old(FileViews(files))
    {
      hide AsMap, PersistenceManager.Valid;
      persist.SaveFile(file);
    }

    /** One version fewer on one of the files, seen from the file map. */
    method CountDown(fileID: string, file: FileInfo)
      requires Valid() && fileID in files && files[fileID] == file
      modifies file`versionCount
      ensures file.View() == old(file.View()).(versionCount := old(file.View()).versionCount - 1)
      ensures Valid() && storage.View() == old(storage.View())
      ensures FileViews(files) == old(FileViews(files))[fileID := file.View()]
    {
      hide AsMap, PersistenceManager.Valid;
      file.versionCount := file.versionCount - 1;
      assert FileViews(files) == old(FileViews(files))[fileID := file.View()];
    }

    /** deleteFile: all chunks of all listed versions, then the file itself. */
    method DeleteFile(fileID: string) returns (ok: bool)
      requires Valid()
      modifies this`files, this`versions, storage`chunks, persist`chunks, persist`files
      ensures Valid() && files.Values <= old(files.Values) && storage.chunks.Values <= old(storage.chunks.Values)
      ensures var op := Op.DeleteFile(fileID);
              && View() == Apply(old(View()), op)
              && (ok <==> fileID in old(files))
              && storage.View() == S.ApplyAll(old(storage.View()), S.DeleteOps(Removed(old(View()), op)))
      ensures ok ==>
                && files == old(files) - {fileID} && versions == old(versions) - {fileID} && persist.replicas == old(persist.replicas)
                && storage.chunks.Keys
                   == set id | id in old(storage.chunks.Keys) && !S.ListsChunk(ListOf(old(versions), fileID), id)
    {
      hide Put, AsMap, PersistenceManager.Valid, S.Apply, S.ApplyAll, S.DeleteOps, Apply, Removed, ListOf,
           StorageManager.View, StorageManager.Valid;
      S.NoDeletes(old(storage.View()));
      FileDeleted(old(View()), fileID);
      if fileID !in files { return false; }
      DeleteKnownFile(fileID);
      ok := true;
    }

    /** The successful branch of deleteFile. */
    method DeleteKnownFile(fileID: string)
      requires Valid() && fileID in files
      modifies this`files, this`versions, storage`chunks, persist`chunks, persist`files
      ensures Valid() && files == old(files) - {fileID} && storage.chunks.Values <= old(storage.chunks.Values)
      ensures View() == Catalog(old(FileViews(files)) - {fileID}, old(versions) - {fileID},
                                old(AsMap(persist.files)) - {fileID}, old(persist.replicas))
      ensures storage.View() == S.ApplyAll(old(storage.View()), S.DeleteOps(ListOf(old(versions), fileID)))
      ensures storage.chunks.Keys == set id | id in old(storage.chunks.Keys) && !S.ListsChunk(ListOf(old(versions), fileID), id)
    {
      hide Put, AsMap, PersistenceManager.Valid, S.Apply, S.ApplyAll, S.DeleteOps, ListOf, S.ListsChunk,
           StorageManager.View, StorageManager.Valid, Views, FileViews, FileManager.Valid, FileInfo.View;
      DeleteAllChunks(ListOf(versions, fileID));
      ForgetFile(fileID);
    }

    /** The end of deleteFile. */
    method ForgetFile(fileID: string)
      requires Valid()
      modifies this`files, this`versions, persist`files
      ensures Valid() && files == old(files) - {fileID}
      ensures storage.View() == old(storage.View())
      ensures View() == Catalog(old(FileViews(files)) - {fileID}, old(versions) - {fileID},
                                old(AsMap(persist.files)) - {fileID}, old(persist.replicas))
    {
      hide AsMap, PersistenceManager.Valid;
      files := files - {fileID};
      versions := versions - {fileID};
      assert FileViews(files) == old(FileViews(files)) - {fileID};
      Unsave(fileID);
    }

    /** A file record leaves its bucket. */
    method Unsave(fileID: string)
      requires Valid()
      modifies persist`files
      ensures Valid() && AsMap(persist.files) == old(AsMap(persist.files)) - {fileID}
      ensures storage.View() == old(storage.View()) && FileViews(files) == old(FileViews(files))
    {
      hide AsMap, PersistenceManager.Valid;
      persist.DeleteFile(fileID);
    }

    /** The nested loops of deleteFile. */
    method DeleteAllChunks(list: seq<Version>)
      requires Valid()
      modifies storage`chunks, persist`chunks
      ensures Valid() && storage.chunks.Values <= old(storage.chunks.Values)
      ensures storage.View() == S.ApplyAll(old(storage.View()), S.DeleteOps(list))
      ensures storage.chunks.Keys == set id | id in old(storage.chunks.Keys) && !S.ListsChunk(list, id)
      ensures FileViews(files) == old(FileViews(files))
    {
      hide S.Apply, S.ListsChunk;
      forall id { S.DeletesListed(storage.View(), list, id); }
      DeleteEach(list);
      assert storage.View().chunks.Keys == storage.chunks.Keys;
    }

    /** The outer of the two loops. */
    method DeleteEach(list: seq<Version>)
      requires Valid()
      modifies storage`chunks, persist`chunks
      ensures Valid() && storage.chunks.Values <= old(storage.chunks.Values)
      ensures storage.View() == S.ApplyAll(old(storage.View()), S.DeleteOps(list))
      ensures FileViews(files) == old(FileViews(files))
    {
      hide S.Apply;
      for i := 0 to |list|
        invariant Valid() && storage.chunks.Values <= old(storage.chunks.Values)
        invariant S.ApplyAll(old(storage.View()), S.DeleteOps(list))
                  == S.ApplyAll(storage.View(), S.DeleteOps(list[i..]))
      {
        versionManager.DeleteNext(list[i..]);
        assert list[i..][1..] == list[i + 1..];
      }
    }

    /** createFileMeta: a request without an ID or a name is refused. Otherwise a fresh record replaces
        whatever was there; nothing is cleaned up and no chunk changes. */
    method CreateFileMeta(fileID: string, name: string, path: string, chunkIDs: seq<string>, size: int, stamp: nat)
      returns (r: Result<Version>)
      requires Valid()
      modifies this`files, this`versions, persist`files, persist`replicas
      ensures Valid() && fresh(files.Values - old(files.Values))
      ensures storage.View() == old(storage.View())
      ensures r.Ok? <==> fileID != "" && name != ""
      ensures r.Err? ==> View() == old(View())
      ensures r.Ok? ==>
                var op := CreateMeta(fileID, name, path, chunkIDs, r.value.nodeIDs, size, stamp);
                && View() == Apply(old(View()), op)
                && Some(r.value) == Created(old(View()), op)
                && r.value.nodeIDs == FirstReplicas(storage.View().chunks, chunkIDs)
                && r.value == Version("v_" + Decimal(stamp), fileID, 1, size, "", chunkIDs, r.value.nodeIDs)
    {
      if fileID == "" || name == "" { return Err("file_id and file_name are required"); }
      var v := AddMeta(fileID, name, path, chunkIDs, size, stamp);
      r := Ok(v);
    }

    /** The accepting branch of createFileMeta. */
    method AddMeta(fileID: string, name: string, path: string, chunkIDs: seq<string>, size: int, stamp: nat)
      returns (v: Version)
      requires Valid()
      modifies this`files, this`versions, persist`files, persist`replicas
      ensures Valid() && fresh(files.Values - old(files.Values))
      ensures storage.View() == old(storage.View())
      ensures var op := CreateMeta(fileID, name, path, chunkIDs, v.nodeIDs, size, stamp);
              && View() == Apply(old(View()), op)
              && Some(v) == Created(old(View()), op)
      ensures v.nodeIDs == FirstReplicas(storage.View().chunks, chunkIDs)
    {
      hide Put, AsMap, PersistenceManager.Valid, VersionKey, VersionID, FirstReplicas,
           StorageManager.View, StorageManager.Valid, Views, FileViews, FileManager.Valid, FileInfo.View;
      var nodeIDs := ReplicasOfFirst(chunkIDs);
      var file := AddFile(NewFile(fileID, name, path, size));
      v := NewVersionOf(fileID, file, chunkIDs, nodeIDs, size, "", stamp);
      AppendToList(fileID, file, v);
    }

    /** The end of createFileMeta: the list grows and both records are saved. */
    method AppendToList(fileID: string, file: FileInfo, v: Version)
      requires Valid() && fileID in files && files[fileID] == file
      modifies this`versions, persist`files, persist`replicas
      ensures Valid() && storage.View() == old(storage.View()) && file.View() == old(file.View())
      ensures FileViews(files) == old(FileViews(files))
      ensures versions == old(versions)[fileID := ListOf(old(versions), fileID) + [v]]
      ensures AsMap(persist.files) == old(AsMap(persist.files))[fileID := file.View()]
      ensures persist.replicas == Put(old(persist.replicas), VersionKey(fileID, v.versionID), v)
    {
      hide Put, AsMap, PersistenceManager.Valid, VersionKey;
      versions := versions[fileID := ListOf(versions, fileID) + [v]];
      assert storage.View() == old(storage.View());
      SaveBoth(fileID, file.View(), v);
    }

    /** The replicas of the first listed chunk the server knows. */
    method ReplicasOfFirst(chunkIDs: seq<string>) returns (nodeIDs: seq<string>)
      requires Valid()
      ensures nodeIDs == FirstReplicas(storage.View().chunks, chunkIDs)
    {
      for i := 0 to |chunkIDs|
        invariant FirstReplicas(storage.View().chunks, chunkIDs) == FirstReplicas(storage.View().chunks, chunkIDs[i..])
      {
        if chunkIDs[i] in storage.chunks { return storage.chunks[chunkIDs[i]].replicas; }
        assert chunkIDs[i..][1..] == chunkIDs[i + 1..];
      }
      return [];
    }

    /** loadData: files and versions come back from their buckets. */
    method Reload()
      requires Valid()
      modifies this`files, this`versions
      ensures Valid() && fresh(files.Values)
      ensures View() == Apply(old(View()), Restart)
    {
      var records := persist.LoadFiles();
      FilesKeyed(persist.files);
      hide Put, AsMap, PersistenceManager.Valid;
      var loaded := RebuildFiles(records);
      var lists := persist.LoadVersions();
      files, versions := loaded, lists;
    }
  }

  /** Whatever size a file record starts with, creating a version overwrites it. */
  lemma SizeForgotten(cat: Catalog, op: Op, firstSize: int, file: FileRecord)
    requires op.Create?
    requires file == if op.fileID in cat.files then cat.files[op.fileID] else NewFile(op.fileID, op.name, op.path, firstSize)
    ensures Bump(file, op.size) == Bump(FileFor(cat, op), op.size)
    ensures Some(NewVersion(file, op.chunkIDs, op.nodeIDs, op.size, op.hash, op.stamp)) == Created(cat, op)
    ensures file.fileID == FileFor(cat, op).fileID
  {
    hide VersionID;
  }

  /** A create, field by field. */
  lemma CreateApplies(cat: Catalog, op: Op, v: Version, cat': Catalog)
    requires op.Create? && Created(cat, op) == Some(v) && FileFor(cat, op).fileID == op.fileID
    requires var list := ListOf(cat.versions, op.fileID) + [v];
             var bumped := Bump(FileFor(cat, op), op.size);
             var file' := CleanedUp(bumped, list);
             cat' == Catalog(cat.files[op.fileID := file'], cat.versions[op.fileID := Kept(bumped, list)],
                             cat.savedFiles[op.fileID := file'], Put(cat.log, VersionKey(op.fileID, v.versionID), v))
    ensures cat' == Apply(cat, op)
    ensures Removed(cat, op) == Dropped(Bump(FileFor(cat, op), op.size), ListOf(cat.versions, op.fileID) + [v])
  {
    hide Kept, Dropped, Put;
  }

  /** A rollback, field by field. */
  lemma RollbackApplies(cat: Catalog, fileID: string, number: int, stamp: nat, target: Version, v: Version, cat': Catalog)
    requires fileID in cat.files && cat.files[fileID].fileID == fileID
    requires Find(ListOf(cat.versions, fileID), number) == Some(target)
    requires v == NewVersion(cat.files[fileID], target.chunkIDs, target.nodeIDs, target.size, target.hash, stamp)
    requires var list := ListOf(cat.versions, fileID) + [v];
             var bumped := Bump(cat.files[fileID], target.size);
             var file' := CleanedUp(bumped, list);
             cat' == Catalog(cat.files[fileID := file'], cat.versions[fileID := Kept(bumped, list)],
                             cat.savedFiles[fileID := file'], Put(cat.log, VersionKey(fileID, v.versionID), v))
    ensures var op := Rollback(fileID, number, stamp);
            && cat' == Apply(cat, op) && Created(cat, op) == Some(v)
            && Removed(cat, op) == Dropped(Bump(cat.files[fileID], target.size), ListOf(cat.versions, fileID) + [v])
  {
    hide Kept, Dropped, Put, VersionID, VersionKey, Find;
  }

  /** An operation that creates nothing and finds nothing changes nothing. */
  lemma NothingCreated(cat: Catalog, op: Op)
    requires op.Rollback?
    ensures Created(cat, op).None? ==> Apply(cat, op) == cat && Removed(cat, op) == []
  {
  }

  /** deleteVersion, in both of its branches. */
  lemma VersionDeleted(cat: Catalog, fileID: string, number: int)
    ensures var op := Op.DeleteVersion(fileID, number);
            var list := ListOf(cat.versions, fileID);
            var i := FindIndex(list, number);
            if fileID in cat.files && i < |list| then
              var file := cat.files[fileID].(versionCount := cat.files[fileID].versionCount - 1);
              Apply(cat, op) == Catalog(cat.files[fileID := file], cat.versions[fileID := list[..i] + list[i + 1..]],
                                        cat.savedFiles[fileID := file], cat.log)
              && Removed(cat, op) == [list[i]]
            else Apply(cat, op) == cat && Removed(cat, op) == []
  {
  }

  /** deleteFile, in both of its branches. */
  lemma FileDeleted(cat: Catalog, fileID: string)
    ensures fileID in cat.files ==>
              Apply(cat, Op.DeleteFile(fileID))
              == Catalog(cat.files - {fileID}, cat.versions - {fileID}, cat.savedFiles - {fileID}, cat.log)
              && Removed(cat, Op.DeleteFile(fileID)) == ListOf(cat.versions, fileID)
    ensures fileID !in cat.files ==>
              Apply(cat, Op.DeleteFile(fileID)) == cat && Removed(cat, Op.DeleteFile(fileID)) == []
  {
  }

  /** The search loop of deleteVersion. */
  method IndexOf(list: seq<Version>, number: int) returns (i: nat)
    ensures i == FindIndex(list, number)
  {
    i := 0;
    while i < |list| && list[i].number != number
      invariant 0 <= i <= FindIndex(list, number)
    {
      i := i + 1;
    }
  }

  function FirstReplicas(chunks: map<string, Chunk>, ids: seq<string>): (r: seq<string>)
    ensures forall k :: 0 <= k < |ids| && ids[k] in chunks && (forall j :: 0 <= j < k ==> ids[j] !in chunks) ==>
                          r == chunks[ids[k]].replicas
    ensures (forall k :: 0 <= k < |ids| ==> ids[k] !in chunks) ==> r == []
  {
    if ids == [] then [] else if ids[0] in chunks then chunks[ids[0]].replicas else FirstReplicas(chunks, ids[1..])
  }

  lemma OneVersion(v: Version)
    ensures S.DeleteOps([v]) == S.DeleteChunkOps(v.chunkIDs)
  {
    assert S.DeleteOps([v][1..]) == [];
  }

  lemma FilesKeyed(b: seq<Entry<FileRecord>>)
    requires Ordered(b) && KeyedFiles(b)
    ensures forall k :: k in AsMap(b) ==> AsMap(b)[k].fileID == k
  {
    AsMapKeys(b);
    forall k | k in AsMap(b) ensures AsMap(b)[k].fileID == k {
      var i :| 0 <= i < |b| && b[i].key == k;
      AsMapAt(b, i);
      assert b[i] in b;
    }
  }

  /** One new file object per record. */
  method RebuildFiles(records: map<string, FileRecord>) returns (files: map<string, FileInfo>)
    requires forall k :: k in records ==> records[k].fileID == k
    ensures fresh(files.Values) && FileViews(files) == records
    ensures forall k :: k in files ==> files[k].fileID == k
  {
    files := map[];
    var left := records.Keys;
    while left != {}
      invariant left <= records.Keys && files.Keys == records.Keys - left
      invariant forall k :: k in files ==> fresh(files[k]) && files[k].fileID == k && files[k].View() == records[k]
      decreases |left|
    {
      var k :| k in left;
      left := left - {k};
      var f := new FileInfo(records[k]);
      files := files[k := f];
    }
  }
}
