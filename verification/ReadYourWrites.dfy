/** Read your writes: when a finished upload can be read back at once, on either path. */
module ReadYourWrites {
  import opened Sequences
  import opened Keys
  import opened Records
  import opened VersionCatalog
  import opened Download
  import opened Cluster
  import opened ClusterInvariant
  import opened ClusterTheorems
  import opened ChunkUpload
  import opened UploadRuns
  import opened OwnVersion
  import S = StorageProtocol
  import Sched = Scheduler
  import Chunker
  import ClusterRestart

  /** One more chunk enters the map and leaves the others alone. */
  lemma OneMoreLive(s: S.Storage, fileID: string, requested: int, e: Sent, id: string)
    requires e.sel != []
    ensures var chunks := StorageAfter(s, fileID, requested, e).chunks;
            && (id == SentID(fileID, e) ==> id in chunks && chunks[id].replicas == Sched.NodeIDs(e.sel))
            && (id != SentID(fileID, e) && id in s.chunks ==> id in chunks && chunks[id] == s.chunks[id])
  {
    hide ChunkKey;
    assert Sched.NodeIDs(e.sel) != [];
  }

  /** Every chunk of the upload is in the server's map with the replicas chosen for it. */
  lemma {:induction false} SentLive(s: S.Storage, job: Job, sent: seq<Sent>, i: nat, clock: nat)
    requires AllSent(job, sent) && Ticking(clock, sent) && i < |sent|
    ensures var chunks := StorageAfterAll(s, job.fileID, job.requested, sent).chunks;
            var id := ChunkKey(job.fileID, sent[i].stamp);
            id in chunks && chunks[id].replicas == Sched.NodeIDs(sent[i].sel)
    decreases |sent|
  {
    hide StorageAfter, ChunkKey, Sched.IsSelection, Written, Sched.NodeIDs;
    var front, e := sent[..|sent| - 1], sent[|sent| - 1];
    OneMoreLive(StorageAfterAll(s, job.fileID, job.requested, front), job.fileID, job.requested, e,
                ChunkKey(job.fileID, sent[i].stamp));
    if i < |front| {
      FewerSent(job, sent, clock);
      SentLive(s, job, front, i, clock);
      if ChunkKey(job.fileID, e.stamp) == ChunkKey(job.fileID, sent[i].stamp) {
        ChunkKeyInjective(job.fileID, e.stamp, job.fileID, sent[i].stamp);
      }
    }
  }

  /** The first replica of every chunk holds it. */
  lemma {:induction false} SentHeld(stores: Stores, job: Job, sent: seq<Sent>, i: nat)
    requires i < |sent| && sent[i].sel != []
    ensures ChunkKey(job.fileID, sent[i].stamp)
            in Held(StoresAfterAll(stores, job.fileID, job.viaServer, sent), Address(sent[i].sel[0]))
    decreases |sent|
  {
    var front, e := sent[..|sent| - 1], sent[|sent| - 1];
    var id, addr := ChunkKey(job.fileID, sent[i].stamp), Address(sent[i].sel[0]);
    if i < |front| { SentHeld(stores, job, front, i); }
    hide StoresAfterAll, ChunkKey, StoreAll, Held, Address;
    StoreAllSpec(StoresAfterAll(stores, job.fileID, job.viaServer, front), Reached(job.viaServer, Addresses(e.sel)),
                 SentID(job.fileID, e), e.data, addr, id);
    if i == |front| { assert Reached(job.viaServer, Addresses(e.sel))[0] == addr; }
  }

  /** The first version of a new file is the one a download of the file selects; nothing is removed. */
  lemma FirstVersion(cat: Catalog, op: Op)
    requires op.Create? && op.fileID !in cat.files && ListOf(cat.versions, op.fileID) == []
    ensures Removed(cat, op) == []
    ensures var v := Target(Apply(cat, op), op.fileID, 0);
            v.Some? && v.value.chunkIDs == op.chunkIDs && v.value.versionID == VersionID(op.stamp)
  {
    hide VersionID;
  }

  /** Read your writes: once uploadFile has returned successfully, a download of the file succeeds and
      returns its bytes, as long as the nodes the handler wrote to answer. If the chunk count overflowed it
      succeeds as well, and returns nothing. */
  lemma ServerUploadReads(c: Cluster, job: Job, content: Bytes, sent: seq<Sent>, name: string, path: string, hash: string, stamp: nat,
                          up: set<string>)
    requires Inv(c)
    requires content != [] && |content| <= Chunker.MAX_INT64
    requires job.viaServer && job.nodes == c.net.nodes && job.pieces == ServerPieces(content)
    requires AllSent(job, sent) && |sent| == |job.pieces| && Ticking(c.w.h.clock, sent)
    requires job.fileID !in c.cat.files && ListOf(c.cat.versions, job.fileID) == [] && c.j.clock < stamp
    requires forall i :: 0 <= i < |sent| ==> sent[i].sel != [] && Address(sent[i].sel[0]) in up
    ensures var c' := Final(c, ServerRun(c, job.fileID, content, job.requested, sent, name, path, hash, stamp));
            Read(c'.cat, c'.w.s.chunks, FabricOf(c', up), job.fileID, 0) == Some(if Chunker.Overflows(|content|) then [] else content)
  {
    hide *;
    var run := ServerRun(c, job.fileID, content, job.requested, sent, name, path, hash, stamp);
    var c' := Final(c, run);
    var ids, others := SentIDs(job.fileID, sent), Others(sent);
    var op := Create(job.fileID, name, path, ids, others, |content|, hash, stamp);
    ServerUploadIsARun(c, job, content, sent, name, path, hash, stamp);
    ServerBytes(content);
    RunKeepsInv(c, run);
    FirstVersion(c.cat, op);
    NoRemovals(StorageAfterAll(c.w.s, job.fileID, job.requested, sent), Removed(c.cat, op));
    SavesExactly(StorageAfterAll(c.w.s, job.fileID, job.requested, sent), ServerUpload(job.fileID, content, others), ids);
    UploadedAvailable(c, c', job, sent, up);
    ReadSucceedsIff(c', up, job.fileID, 0);
    ReadFrom(c', up, job.fileID, 0);
  }

  lemma NoRemovals(s: S.Storage, removed: seq<Version>)
    requires removed == []
    ensures S.ApplyAll(s, S.DeleteOps(removed)) == s
  {
  }

  lemma UploadedAvailable(c: Cluster, c': Cluster, job: Job, sent: seq<Sent>, up: set<string>)
    requires job.nodes == c.net.nodes == c'.net.nodes && AllSent(job, sent) && Ticking(c.w.h.clock, sent)
    requires var chunks := StorageAfterAll(c.w.s, job.fileID, job.requested, sent).chunks;
             forall id :: id in SentIDs(job.fileID, sent) && id in chunks ==> id in c'.w.s.chunks && c'.w.s.chunks[id] == chunks[id]
    requires c'.net.stores == StoresAfterAll(c.net.stores, job.fileID, job.viaServer, sent)
    requires forall i :: 0 <= i < |sent| ==> sent[i].sel != [] && Address(sent[i].sel[0]) in up
    ensures forall id :: id in SentIDs(job.fileID, sent) ==> Available(c'.w.s.chunks, FabricOf(c', up), id)
  {
    hide StorageAfterAll, StoresAfterAll, ChunkKey, Address, AllSent, Ticking, Serves;
    forall id | id in SentIDs(job.fileID, sent) ensures Available(c'.w.s.chunks, FabricOf(c', up), id) {
      var i :| 0 <= i < |sent| && SentIDs(job.fileID, sent)[i] == id;
      SentLive(c.w.s, job, sent, i, c.w.h.clock);
      SentHeld(c.net.stores, job, sent, i);
      FirstKnown(job, sent, i);
      var first := sent[i].sel[0].nodeID;
      assert Sched.NodeIDs(sent[i].sel)[0] == first;
      FirstServes(FabricOf(c', up), first, id);
    }
  }

  lemma FirstServes(fabric: Fabric, nodeID: string, id: string)
    requires nodeID in fabric.nodes && Address(fabric.nodes[nodeID]) in fabric.up
    requires id in Held(fabric.stores, Address(fabric.nodes[nodeID]))
    ensures Serves(fabric, nodeID, id)
  {
  }

  lemma FirstKnown(job: Job, sent: seq<Sent>, i: nat)
    requires AllSent(job, sent) && i < |sent| && sent[i].sel != []
    ensures var x := sent[i].sel[0]; x.nodeID in job.nodes && job.nodes[x.nodeID] == x
  {
    assert Placed(job.nodes, job.requested, sent[i]);
    assert sent[i].sel[0] in sent[i].sel;
  }

  // ---------------------------------------------------------------- the client path

  /** Deleting versions' chunks takes exactly those chunks out of the map. */
  lemma {:induction false} DeletesChunks(s: S.Storage, ids: seq<string>)
    ensures S.ApplyAll(s, S.DeleteChunkOps(ids)).chunks == s.chunks - Elements(ids)
    decreases ids
  {
    if ids == [] {
      assert s.chunks - Elements(ids) == s.chunks;
    } else {
      var s1 := S.Apply(s, S.Delete(ids[0]));
      assert S.DeleteChunkOps(ids)[1..] == S.DeleteChunkOps(ids[1..]);
      DeletesChunks(s1, ids[1..]);
      assert Elements(ids) == {ids[0]} + Elements(ids[1..]);
      assert s1.chunks - Elements(ids[1..]) == s.chunks - Elements(ids);
    }
  }

  lemma {:induction false} DeletesVersions(s: S.Storage, versions: seq<Version>)
    ensures S.ApplyAll(s, S.DeleteOps(versions)).chunks == s.chunks - ListedBy(Elements(versions))
    decreases versions
  {
    if versions == [] {
      assert ListedBy(Elements(versions)) == {};
      assert s.chunks - {} == s.chunks;
    } else {
      var head := S.DeleteChunkOps(versions[0].chunkIDs);
      var s1 := S.ApplyAll(s, head);
      S.ApplyAllAppend(s, head, S.DeleteOps(versions[1..]));
      DeletesChunks(s, versions[0].chunkIDs);
      DeletesVersions(s1, versions[1..]);
      ListedBySplit(versions);
      hide S.ApplyAll, S.DeleteChunkOps, ListedBy;
      assert s1.chunks - ListedBy(Elements(versions[1..])) == s.chunks - ListedBy(Elements(versions));
    }
  }

  /** The file record a client's create applies to, and the version it makes. */
  function ClientOp(job: Job, sent: seq<Sent>, name: string, path: string, size: int, hash: string, stamp: nat): Op {
    Create(job.fileID, name, path, SentIDs(job.fileID, sent), [], size, hash, stamp)
  }

  /** Whether the create leaves its version where downloads of the file look for it. */
  predicate Selected(cat: Catalog, op: Op)
    requires op.Create?
  {
    var file, list := FileFor(cat, op), ListOf(cat.versions, op.fileID);
    |list| < file.maxVersions || (file.maxVersions > 0 && Above(list, file.latestVersion + 1) == 0)
  }

  /** A version stamped now is in no list yet. */
  lemma NewToCatalog(c: Cluster, op: Op, w: Version)
    requires Inv(c) && op.Create? && c.j.clock < op.stamp && w in ListOf(c.cat.versions, op.fileID)
    ensures w.versionID != VersionID(op.stamp) && w != Created(c.cat, op).value
    ensures InCatalog(c.cat, w)
  {
    ListMember(c.cat, op.fileID, w);
    hide S.Inv, NetOk, SessionsOk, JournalOk, VersionID, Stamped, InCatalog, Contents;
    assert VersionOk(w, c.j);
    NewStamp(op.stamp, c.j.clock);
  }

  /** After a create, a download of the file selects the new version exactly when Selected says so. */
  lemma CreateSelects(c: Cluster, op: Op)
    requires Inv(c) && op.Create? && c.j.clock < op.stamp
    ensures var t := Target(Apply(c.cat, op), op.fileID, 0);
            && (Selected(c.cat, op) <==> t.Some? && t.value.versionID == VersionID(op.stamp))
            && (Selected(c.cat, op) ==> t == Created(c.cat, op) && t.value !in Removed(c.cat, op))
  {
    var file, list, v := FileFor(c.cat, op), ListOf(c.cat.versions, op.fileID), Created(c.cat, op).value;
    forall w | w in list ensures w.versionID != VersionID(op.stamp) && w != v { NewToCatalog(c, op, w); }
    var bumped := Bump(file, op.size);
    SelectedIff(bumped, list, v);
    KeepsOwnIff(bumped, list, v);
    OwnDropped(bumped, list, v);
    var kept := Kept(bumped, list + [v]);
    forall w | w in kept ensures w in list || w == v { KeptMember(bumped, list + [v], w); }
    hide Kept, Dropped, Above, Inv, VersionID;
    assert kept != [] ==> kept[|kept| - 1] in kept;
  }

  /** A create keeps the version it makes if and only if fewer than maxVersions versions of the file are
      numbered above it; otherwise its own clean-up removes it and deletes all its chunks. */
  lemma CreateKeepsOwnIff(c: Cluster, op: Op)
    requires Inv(c) && op.Create? && c.j.clock < op.stamp
    ensures var v, file := Created(c.cat, op).value, FileFor(c.cat, op);
            var kept := v in ListOf(Apply(c.cat, op).versions, op.fileID);
            && (kept <==> Above(ListOf(c.cat.versions, op.fileID), file.latestVersion + 1) < file.maxVersions)
            && (!kept ==> v in Removed(c.cat, op) && forall id :: id in op.chunkIDs ==> id !in DoManage(c, op).w.s.chunks)
  {
    var file, list, v := FileFor(c.cat, op), ListOf(c.cat.versions, op.fileID), Created(c.cat, op).value;
    forall w | w in list ensures w != v { NewToCatalog(c, op, w); }
    var bumped := Bump(file, op.size);
    KeepsOwnIff(bumped, list, v);
    ClusterRestart.KeptOrDropped(bumped, list + [v], v);
    ClusterRestart.ManagedChunks(c, op);
    hide Kept, Dropped, Above, Inv, VersionID, DoManage, ListedBy;
    if v in Removed(c.cat, op) { ListedHere(v, Removed(c.cat, op)); }
  }

  lemma ListedHere(v: Version, versions: seq<Version>)
    requires v in versions
    ensures forall id :: id in v.chunkIDs ==> id in ListedBy(Elements(versions))
  {
    assert v in Elements(versions);
  }

  lemma OwnDropped(file: FileRecord, list: seq<Version>, v: Version)
    requires v !in list
    ensures v in Kept(file, list + [v]) ==> v !in Dropped(file, list + [v])
  {
    OwnPlace(list, v);
    SortSpec(list + [v]);
    hide Above, SortByNumber;
  }

  /** The upload's chunks are new: no version lists them, so no removal of others deletes them. */
  lemma SentUnlisted(c: Cluster, job: Job, sent: seq<Sent>, removed: set<Version>)
    requires Inv(c) && Ticking(c.w.h.clock, sent)
    requires forall w :: w in removed ==> InCatalog(c.cat, w)
    ensures forall id :: id in SentIDs(job.fileID, sent) ==> id !in ListedBy(removed)
  {
    forall id | id in SentIDs(job.fileID, sent) ensures id !in ListedBy(removed) {
      var i :| 0 <= i < |sent| && SentIDs(job.fileID, sent)[i] == id;
      S.FreshKey(c.w, job.fileID, sent[i].stamp);
      forall w | w in removed ensures id !in w.chunkIDs { assert VersionOk(w, c.j); }
    }
  }

  lemma RemovedKnown(c: Cluster, op: Op)
    requires op.Create? && Created(c.cat, op).value !in Removed(c.cat, op)
    ensures forall w :: w in Elements(Removed(c.cat, op)) ==> InCatalog(c.cat, w)
  {
    forall w | w in Elements(Removed(c.cat, op)) ensures InCatalog(c.cat, w) { RemovedMember(c.cat, op, w); }
  }

  /** Read your writes, client path: once the client's upload and its create-version request have
      succeeded, a download of the file selects the new version if and only if the list had room for it or
      nothing in it is numbered above it; and then it returns the uploaded bytes, as long as one node
      written to for each chunk answers. The file may have any versions already. */
  lemma ClientUploadReads(c: Cluster, job: Job, sent: seq<Sent>, name: string, path: string, size: int, hash: string, stamp: nat,
                          up: set<string>)
    requires Inv(c)
    requires !job.viaServer && job.nodes == c.net.nodes
    requires AllSent(job, sent) && |sent| == |job.pieces| && Ticking(c.w.h.clock, sent) && c.j.clock < stamp
    requires forall i :: 0 <= i < |sent| ==> sent[i].sel != [] && Address(sent[i].sel[0]) in up
    ensures var c' := Final(c, ClientRun(c, job, sent, name, path, size, hash, stamp));
            var op := ClientOp(job, sent, name, path, size, hash, stamp);
            var t := Target(c'.cat, job.fileID, 0);
            && (Selected(c.cat, op) <==> t.Some? && t.value.versionID == VersionID(stamp))
            && (Selected(c.cat, op) ==>
                  Read(c'.cat, c'.w.s.chunks, FabricOf(c', up), job.fileID, 0) == Some(Flatten(job.pieces)))
  {
    hide *;
    var run := ClientRun(c, job, sent, name, path, size, hash, stamp);
    var c' := Final(c, run);
    var op := ClientOp(job, sent, name, path, size, hash, stamp);
    ClientOpShape(job, sent, name, path, size, hash, stamp);
    ClientUploadIsARun(c, job, sent, name, path, size, hash, stamp);
    RunKeepsInv(c, run);
    CreateSelects(c, op);
    if Selected(c.cat, op) {
      var s := StorageAfterAll(c.w.s, job.fileID, job.requested, sent);
      CreatedIDs(c.cat, op);
      RemovedKnown(c, op);
      SentUnlisted(c, job, sent, Elements(Removed(c.cat, op)));
      DeletesVersions(s, Removed(c.cat, op));
      UploadedAvailable(c, c', job, sent, up);
      ReadSucceedsIff(c', up, job.fileID, 0);
      ReadFrom(c', up, job.fileID, 0);
    }
  }

  lemma ClientOpShape(job: Job, sent: seq<Sent>, name: string, path: string, size: int, hash: string, stamp: nat)
    ensures ClientOp(job, sent, name, path, size, hash, stamp)
            == Create(job.fileID, name, path, SentIDs(job.fileID, sent), [], size, hash, stamp)
  {
  }

  lemma CreatedIDs(cat: Catalog, op: Op)
    requires op.Create?
    ensures Created(cat, op).Some? && Created(cat, op).value.chunkIDs == op.chunkIDs
            && Created(cat, op).value.versionID == VersionID(op.stamp)
  {
  }
}
