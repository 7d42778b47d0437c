/** Every action keeps the cluster invariant. */
module ClusterInvariant {
  import opened Sequences
  import opened Keys
  import opened Records
  import opened Bucket
  import opened VersionCatalog
  import opened Download
  import opened Cluster
  import S = StorageProtocol
  import Sched = Scheduler
  import Chunker
  import VersionLists

  // ------------------------------------------------------- what chunk deletion does

  /** World `w'` is `w` with a set of chunks gone from memory and disk. */
  ghost predicate Without(w: S.World, ids: set<string>, w': S.World) {
    && w'.s.chunks == w.s.chunks - ids
    && w'.s.bucket == w.s.bucket - ids
    && w'.s.tasks == w.s.tasks
    && w'.h == w.h.(deleted := w.h.deleted + (ids * w.s.chunks.Keys))
  }

  lemma WithoutTwice(w: S.World, a: set<string>, w1: S.World, b: set<string>, w2: S.World)
    requires Without(w, a, w1) && Without(w1, b, w2)
    ensures Without(w, a + b, w2)
  {
    assert w.s.chunks - a - b == w.s.chunks - (a + b);
    assert w.s.bucket - a - b == w.s.bucket - (a + b);
    assert a * w.s.chunks.Keys + b * (w.s.chunks - a).Keys == (a + b) * w.s.chunks.Keys;
  }

  lemma LiveOnDisk(w: S.World)
    requires S.Inv(w)
    ensures w.s.chunks.Keys == w.s.bucket.Keys
  {
    hide S.AllPrepared, S.TasksOk, S.PartialOk, S.RecordsOk;
  }

  lemma DeleteEffect(w: S.World, id: string)
    requires S.Inv(w)
    ensures Without(w, {id}, S.Next(w, S.Delete(id))) && S.Inv(S.Next(w, S.Delete(id)))
  {
    hide S.Inv;
    S.StepKeepsInv(w, S.Delete(id));
    LiveOnDisk(w);
    if id !in w.s.chunks {
      assert w.s.chunks - {id} == w.s.chunks && w.s.bucket - {id} == w.s.bucket;
      assert {id} * w.s.chunks.Keys == {};
    } else {
      assert {id} * w.s.chunks.Keys == {id};
    }
  }

  lemma WithoutNothing(w: S.World)
    ensures Without(w, {}, w)
  {
    assert w.s.chunks - {} == w.s.chunks && w.s.bucket - {} == w.s.bucket;
    assert w.h.deleted + ({} * w.s.chunks.Keys) == w.h.deleted;
  }

  lemma {:induction false} DeleteChunkOpsEffect(w: S.World, ids: seq<string>)
    requires S.Inv(w)
    ensures S.Inv(S.Final(w, S.DeleteChunkOps(ids))) && Without(w, Elements(ids), S.Final(w, S.DeleteChunkOps(ids)))
    decreases ids
  {
    hide S.Inv, Without, S.Next;
    if ids == [] {
      WithoutNothing(w);
      assert Elements(ids) == {};
    } else {
      var w1 := S.Next(w, S.Delete(ids[0]));
      DeleteEffect(w, ids[0]);
      DeleteChunkOpsEffect(w1, ids[1..]);
      assert S.DeleteChunkOps(ids)[0] == S.Delete(ids[0]);
      assert S.DeleteChunkOps(ids)[1..] == S.DeleteChunkOps(ids[1..]);
      WithoutTwice(w, {ids[0]}, w1, Elements(ids[1..]), S.Final(w, S.DeleteChunkOps(ids)));
      assert Elements(ids) == {ids[0]} + Elements(ids[1..]);
    }
  }

  lemma {:induction false} DeleteOpsEffect(w: S.World, versions: seq<Version>)
    requires S.Inv(w)
    ensures S.Inv(S.Final(w, S.DeleteOps(versions)))
    ensures Without(w, ListedBy(Elements(versions)), S.Final(w, S.DeleteOps(versions)))
    decreases versions
  {
    hide S.Inv, Without;
    if versions == [] {
      WithoutNothing(w);
      assert ListedBy(Elements(versions)) == {};
    } else {
      var head, tail := S.DeleteChunkOps(versions[0].chunkIDs), S.DeleteOps(versions[1..]);
      var w1 := S.Final(w, head);
      DeleteChunkOpsEffect(w, versions[0].chunkIDs);
      DeleteOpsEffect(w1, versions[1..]);
      S.FinalConcat(w, head, tail);
      WithoutTwice(w, Elements(versions[0].chunkIDs), w1, ListedBy(Elements(versions[1..])), S.Final(w, S.DeleteOps(versions)));
      ListedBySplit(versions);
    }
  }

  lemma ListedBySplit(versions: seq<Version>)
    requires versions != []
    ensures ListedBy(Elements(versions)) == Elements(versions[0].chunkIDs) + ListedBy(Elements(versions[1..]))
  {
    assert versions == [versions[0]] + versions[1..];
    var a, b := ListedBy(Elements(versions)), Elements(versions[0].chunkIDs) + ListedBy(Elements(versions[1..]));
    forall id | id in a ensures id in b {
      var v :| v in Elements(versions) && id in v.chunkIDs;
      if v != versions[0] { assert v in Elements(versions[1..]); }
    }
    forall id | id in b ensures id in a {
      if id in versions[0].chunkIDs {
        assert versions[0] in Elements(versions);
      } else {
        var v :| v in Elements(versions[1..]) && id in v.chunkIDs;
        assert v in Elements(versions);
      }
    }
  }

  /** World `w'` is `w` with the partial records of some chunks saved. */
  ghost predicate PartlySaved(w: S.World, u: Upload, ids: seq<string>, w': S.World) {
    && w'.s.chunks == w.s.chunks && w'.s.tasks == w.s.tasks
    && w'.h == w.h.(partial := w'.h.partial)
    && w'.s.bucket.Keys == w.s.bucket.Keys
    && (forall id :: id in w.s.bucket ==>
          w'.s.bucket[id] == if id in ids then PartialRecord(u, id) else w.s.bucket[id])
  }

  lemma PartlySavedMore(w: S.World, u: Upload, ids: seq<string>, w1: S.World, w2: S.World)
    requires ids != [] && PartlySaved(w, u, ids[..1], w1) && PartlySaved(w1, u, ids[1..], w2)
    ensures PartlySaved(w, u, ids, w2)
  {
    hide PartialRecord;
    assert ids == [ids[0]] + ids[1..] && ids[..1] == [ids[0]];
    assert forall id :: id in ids <==> id in ids[..1] || id in ids[1..];
  }

  /** The upload handler's saves change persisted records only. */
  lemma {:induction false} OverwriteOpsEffect(w: S.World, u: Upload, ids: seq<string>)
    requires S.Inv(w) && forall id :: id in ids ==> id in w.s.chunks
    ensures S.Inv(S.Final(w, OverwriteOps(u, ids))) && PartlySaved(w, u, ids, S.Final(w, OverwriteOps(u, ids)))
    decreases ids
  {
    hide S.Inv, PartialRecord, S.Next;
    if ids != [] {
      var w1 := S.Next(w, S.Overwrite(PartialRecord(u, ids[0])));
      assert ids[0] in ids;
      OverwriteEffect(w, u, ids[0]);
      assert OverwriteOps(u, ids)[1..] == OverwriteOps(u, ids[1..]);
      assert PartlySaved(w, u, ids[..1], w1);
      forall id | id in ids[1..] ensures id in w1.s.chunks { assert id in ids; }
      hide PartlySaved;
      OverwriteOpsEffect(w1, u, ids[1..]);
      PartlySavedMore(w, u, ids, w1, S.Final(w, OverwriteOps(u, ids)));
    }
  }

  lemma OverwriteEffect(w: S.World, u: Upload, id: string)
    requires S.Inv(w) && id in w.s.chunks
    ensures var w' := S.Next(w, S.Overwrite(PartialRecord(u, id)));
            && S.Inv(w') && w'.s.chunks == w.s.chunks && w'.s.tasks == w.s.tasks
            && w'.h == w.h.(partial := w'.h.partial)
            && w'.s.bucket == w.s.bucket[id := PartialRecord(u, id)] && id in w.s.bucket
  {
    S.StepKeepsInv(w, S.Overwrite(PartialRecord(u, id)));
    assert w.s.chunks.Keys == w.s.bucket.Keys;
  }

  // ----------------------------------------------------------- growth of the journal

  lemma {:induction false} ContentsGrows(ids: seq<string>, content: map<string, Bytes>, content': map<string, Bytes>)
    requires content.Keys <= content'.Keys && forall id :: id in content ==> content'[id] == content[id]
    requires Contents(ids, content).Some?
    ensures Contents(ids, content') == Contents(ids, content)
  {
    if ids != [] { ContentsGrows(ids[..|ids| - 1], content, content'); }
  }

  /** Time passes: contents and listings only accumulate, and what was recorded about versions
      stays. */
  ghost predicate Grows(j: Journal, j': Journal) {
    && j.content.Keys <= j'.content.Keys && (forall id :: id in j.content ==> j'.content[id] == j.content[id])
    && j.listed <= j'.listed
    && j.clock <= j'.clock
    && (forall x :: x in j'.truth && Stamped(x, j.clock) ==> x in j.truth && j.truth[x] == j'.truth[x])
  }

  lemma VersionOkGrows(v: Version, j: Journal, j': Journal)
    requires VersionOk(v, j) && Grows(j, j')
    ensures VersionOk(v, j')
  {
    var m: nat :| m <= j.clock && v.versionID == VersionID(m);
    assert Stamped(v.versionID, j'.clock);
    if v.versionID in j'.truth { ContentsGrows(v.chunkIDs, j.content, j'.content); }
  }

  lemma VersionsOkGrows(cat: Catalog, j: Journal, j': Journal)
    requires VersionsOk(cat, j) && Grows(j, j')
    ensures VersionsOk(cat, j')
  {
    hide VersionOk, Grows, InCatalog;
    forall v | InCatalog(cat, v) ensures VersionOk(v, j') { VersionOkGrows(v, j, j'); }
  }

  // -------------------------------------------------------------- catalog membership

  lemma ListMember(cat: Catalog, f: string, v: Version)
    requires v in ListOf(cat.versions, f)
    ensures InCatalog(cat, v)
  {
    assert f in cat.versions && v in cat.versions[f];
  }

  lemma {:induction false} PutMember(log: seq<Entry<Version>>, key: string, v: Version, e: Entry<Version>)
    requires e in Put(log, key, v)
    ensures e in log || e.value == v
  {
    if log != [] && log[0].key != key && !Less(key, log[0].key) {
      if e != log[0] {
        PutMember(log[1..], key, v, e);
      }
    }
  }

  lemma KeptMember(file: FileRecord, list: seq<Version>, v: Version)
    ensures v in Kept(file, list) ==> v in list
    ensures v in Dropped(file, list) ==> v in list
  {
    SortSpec(list);
    var s := SortByNumber(list);
    assert v in s ==> v in multiset(s);
    if v in Kept(file, list) || v in Dropped(file, list) { assert v in list || v in s; }
  }

  lemma AppendMember(cat: Catalog, fileID: string, file: FileRecord, x: Version, size: int, v: Version)
    requires InCatalog(Append(cat, fileID, file, x, size), v)
    ensures InCatalog(cat, v) || v == x
  {
    var list := ListOf(cat.versions, fileID) + [x];
    KeptMember(Bump(file, size), list, v);
    hide Kept;
    var cat' := Append(cat, fileID, file, x, size);
    if e :| e in cat'.log && e.value == v {
      PutMember(cat.log, VersionKey(fileID, x.versionID), x, e);
    } else {
      var f :| f in cat'.versions && v in cat'.versions[f];
      if f == fileID {
        if v in ListOf(cat.versions, fileID) { ListMember(cat, fileID, v); }
      } else {
        ListMember(cat, f, v);
      }
    }
  }

  lemma {:induction false} OfFileMember(log: seq<Entry<Version>>, f: string, v: Version)
    requires v in OfFile(log, f)
    ensures exists e :: e in log && e.value == v
  {
    OfFileAbsent(log, f);
  }

  /** Operations invent no versions beyond the one they create. */
  lemma CatalogMember(cat: Catalog, op: Op, v: Version)
    requires InCatalog(Apply(cat, op), v)
    ensures InCatalog(cat, v) || Created(cat, op) == Some(v)
  {
    hide Append;
    match op
    case Create(fileID, _, _, _, _, size, _, _) =>
      AppendMember(cat, fileID, FileFor(cat, op), Created(cat, op).value, size, v);
    case CreateMeta(fileID, name, path, _, _, size, _) => MetaMember(cat, op, v);
    case Rollback(fileID, _, _) =>
      if Created(cat, op).Some? {
        var x := Created(cat, op).value;
        assert Apply(cat, op) == Append(cat, fileID, cat.files[fileID], x, x.size);
        AppendMember(cat, fileID, cat.files[fileID], x, x.size, v);
      }
    case _ => ShrinkMember(cat, op, v);
  }

  lemma MetaMember(cat: Catalog, op: Op, v: Version)
    requires op.CreateMeta? && InCatalog(Apply(cat, op), v)
    ensures InCatalog(cat, v) || Created(cat, op) == Some(v)
  {
    var cat', x := Apply(cat, op), Created(cat, op).value;
    if e :| e in cat'.log && e.value == v {
      PutMember(cat.log, VersionKey(op.fileID, x.versionID), x, e);
    } else {
      var f :| f in cat'.versions && v in cat'.versions[f];
      if v in ListOf(cat.versions, f) { ListMember(cat, f, v); }
    }
  }

  lemma ShrinkMember(cat: Catalog, op: Op, v: Version)
    requires (op.DeleteVersion? || op.DeleteFile? || op.Restart?) && InCatalog(Apply(cat, op), v)
    ensures InCatalog(cat, v)
  {
    var cat' := Apply(cat, op);
    if e :| e in cat'.log && e.value == v {
      assert e in cat.log;
    } else {
      var f :| f in cat'.versions && v in cat'.versions[f];
      if op.Restart? {
        OfFileMember(cat.log, f, v);
      } else if v in ListOf(cat.versions, f) {
        ListMember(cat, f, v);
      }
    }
  }

  lemma RemovedMember(cat: Catalog, op: Op, v: Version)
    requires v in Removed(cat, op)
    ensures InCatalog(cat, v) || Created(cat, op) == Some(v)
  {
    match op
    case Create(fileID, _, _, _, _, size, _, _) =>
      var x := Created(cat, op).value;
      KeptMember(Bump(FileFor(cat, op), size), ListOf(cat.versions, fileID) + [x], v);
      if v != x { ListMember(cat, fileID, v); }
    case Rollback(fileID, _, _) =>
      var x := Created(cat, op).value;
      KeptMember(Bump(cat.files[fileID], x.size), ListOf(cat.versions, fileID) + [x], v);
      if v != x { ListMember(cat, fileID, v); }
    case DeleteVersion(fileID, _) => ListMember(cat, fileID, v);
    case DeleteFile(fileID) => ListMember(cat, fileID, v);
    case _ =>
  }

  // ------------------------------------------------------------ storage-only actions

  /** Nothing that session k relies on has changed. */
  ghost predicate Frames(c: Cluster, c': Cluster, k: nat) {
    && c.up.count <= c'.up.count
    && c'.net.stores == c.net.stores && c'.j.content == c.j.content && c'.j.erased == c.j.erased
    && forall id :: Mine(c, k, id) ==> Mine(c', k, id)
  }

  lemma UploadOkFrame(c: Cluster, c': Cluster, k: nat, u: Upload)
    requires UploadOk(c, k, u) && Frames(c, c', k)
    ensures UploadOk(c', k, u)
  {
    hide Mine, Held, Flatten;
  }

  /** The storage manager moved on without deleting anything. */
  lemma WorldGrows(c: Cluster, w': S.World)
    requires Inv(c) && S.Inv(w')
    requires w'.h.deleted == c.w.h.deleted && c.w.h.prepared.Keys <= w'.h.prepared.Keys
    ensures Inv(c.(w := w'))
  {
    hide S.Inv, NetOk, VersionsOk, UploadOk;
    var c' := c.(w := w');
    forall k | k in c'.up.open ensures UploadOk(c', k, c'.up.open[k]) {
      UploadOkWorld(c, w', k, c.up.open[k]);
    }
  }

  lemma UploadOkWorld(c: Cluster, w': S.World, k: nat, u: Upload)
    requires UploadOk(c, k, u) && c.w.h.prepared.Keys <= w'.h.prepared.Keys
    ensures UploadOk(c.(w := w'), k, u)
  {
    hide UploadOk;
    UploadOkFrame(c, c.(w := w'), k, u);
  }

  // ------------------------------------------------------------------ network actions

  lemma StoreOk(net: Net, content: map<string, Bytes>, addr: string, id: string, data: Bytes)
    requires NetOk(net, content) && id in content && content[id] == data
    ensures NetOk(net.(stores := Store(net.stores, addr, id, data)), content)
  {
    var stores' := Store(net.stores, addr, id, data);
    forall a, x | x in Held(stores', a) ensures x in content && content[x] == Held(stores', a)[x] {
      if a == addr && x == id {} else { assert x in Held(net.stores, a); }
    }
  }

  lemma EraseOk(net: Net, content: map<string, Bytes>, addr: string, id: string)
    requires NetOk(net, content)
    ensures NetOk(net.(stores := net.stores[addr := Held(net.stores, addr) - {id}]), content)
  {
    var stores' := net.stores[addr := Held(net.stores, addr) - {id}];
    forall a, x | x in Held(stores', a) ensures x in content && content[x] == Held(stores', a)[x] {
      assert x in Held(net.stores, a);
    }
  }

  /** Node files or addresses changed, and the journal kept track. */
  ghost predicate FilesMoved(c: Cluster, c': Cluster) {
    && c'.w == c.w && c'.cat == c.cat && c'.up == c.up
    && c'.j == c.j.(erased := c'.j.erased, registered := c'.j.registered)
    && forall a, id :: (id in Held(c.net.stores, a) || (a, id) in c.j.erased) ==>
         (id in Held(c'.net.stores, a) || (a, id) in c'.j.erased)
  }

  lemma FilesMovedKeepsInv(c: Cluster, c': Cluster)
    requires Inv(c) && FilesMoved(c, c') && NetOk(c'.net, c'.j.content)
    ensures Inv(c')
  {
    hide S.Inv, NetOk;
    VersionsOkGrows(c.cat, c.j, c'.j);
    hide VersionsOk, Held;
    forall k | k in c'.up.open ensures UploadOk(c', k, c'.up.open[k]) {
      assert UploadOk(c, k, c.up.open[k]);
      assert forall id :: Mine(c, k, id) ==> Mine(c', k, id);
    }
  }

  lemma DeliverKeepsInv(c: Cluster, a: Action)
    requires Inv(c) && Enabled(c, a) && a.Deliver?
    ensures Inv(Next(c, a))
  {
    StoreOk(c.net, c.j.content, a.put.addr, a.put.chunkID, a.put.data);
    hide S.Inv, SessionsOk, JournalOk, VersionsOk;
    var c' := Next(c, a);
    assert NetOk(c'.net, c'.j.content);
    hide NetOk, Inv;
    StoreMoves(c, a);
    hide FilesMoved, Next;
    FilesMovedKeepsInv(c, c');
  }

  lemma StoreMoves(c: Cluster, a: Action)
    requires Enabled(c, a) && a.Deliver?
    ensures FilesMoved(c, Next(c, a))
  {
  }

  lemma EraseKeepsInv(c: Cluster, a: Action)
    requires Inv(c) && Enabled(c, a) && a.Erase?
    ensures Inv(Next(c, a))
  {
    EraseOk(c.net, c.j.content, a.addr, a.chunkID);
    var c' := Next(c, a);
    assert FilesMoved(c, c') by { hide Inv; }
    hide NetOk, FilesMoved, Held;
    FilesMovedKeepsInv(c, c');
  }

  lemma ForwardMoves(c: Cluster, a: Action)
    requires Enabled(c, a) && (a.Forward? || a.Churn?)
    ensures FilesMoved(c, Next(c, a))
  {
  }

  lemma ForwardOk(c: Cluster, a: Action)
    requires NetOk(c.net, c.j.content) && Enabled(c, a) && (a.Forward? || a.Churn?)
    ensures NetOk(Next(c, a).net, Next(c, a).j.content)
  {
  }

  lemma ForwardKeepsInv(c: Cluster, a: Action)
    requires Inv(c) && Enabled(c, a) && (a.Forward? || a.Churn?)
    ensures Inv(Next(c, a))
  {
    hide *;
    NetInv(c);
    ForwardMoves(c, a);
    ForwardOk(c, a);
    FilesMovedKeepsInv(c, Next(c, a));
  }

  lemma NetInv(c: Cluster)
    requires Inv(c)
    ensures NetOk(c.net, c.j.content)
  {
    hide S.Inv, NetOk, SessionsOk, JournalOk, VersionsOk;
  }

  lemma WireOk(net: Net, content: map<string, Bytes>, put: PutRequest)
    requires NetOk(net, content) && (put.chunkID in content ==> content[put.chunkID] == put.data)
    ensures NetOk(net.(wire := net.wire + {put}), content[put.chunkID := put.data])
  {
  }

  lemma UploadOkContent(c: Cluster, c': Cluster, id: string, data: Bytes, k: nat, u: Upload)
    requires UploadOk(c, k, u) && (id in c.j.content ==> c.j.content[id] == data)
    requires c'.w == c.w && c'.up == c.up && c'.net.stores == c.net.stores
    requires c'.j == c.j.(content := c.j.content[id := data])
    requires u.current.Some? && u.current.value.chunkID == id ==> |u.done| < |u.pieces| && data == u.pieces[|u.done|]
    ensures UploadOk(c', k, u)
  {
    hide Flatten, Held;
    assert forall x :: Mine(c, k, x) ==> Mine(c', k, x);
  }

  /** A chunk's bytes become known. */
  lemma ContentKeepsInv(c: Cluster, addr: string, id: string, data: Bytes)
    requires Inv(c) && id in c.w.h.prepared && (id in c.j.content ==> c.j.content[id] == data)
    requires forall k :: k in c.up.open && c.up.open[k].current.Some? && c.up.open[k].current.value.chunkID == id
               ==> |c.up.open[k].done| < |c.up.open[k].pieces| && data == c.up.open[k].pieces[|c.up.open[k].done|]
    ensures Inv(c.(net := c.net.(wire := c.net.wire + {PutRequest(addr, id, data)}),
                   j := c.j.(content := c.j.content[id := data])))
  {
    hide S.Inv, VersionsOk, NetOk, UploadOk;
    var c' := c.(net := c.net.(wire := c.net.wire + {PutRequest(addr, id, data)}),
                 j := c.j.(content := c.j.content[id := data]));
    VersionsOkGrows(c.cat, c.j, c'.j);
    WireOk(c.net, c.j.content, PutRequest(addr, id, data));
    forall k | k in c'.up.open ensures UploadOk(c', k, c'.up.open[k]) {
      UploadOkContent(c, c', id, data, k, c.up.open[k]);
    }
  }

  lemma ClientPutKeepsInv(c: Cluster, a: Action)
    requires Inv(c) && Enabled(c, a) && a.ClientPut?
    ensures Inv(Next(c, a))
  {
    forall k | k in c.up.open && c.up.open[k].current.Some? ensures c.up.open[k].current.value.chunkID != a.chunkID {
      assert UploadOk(c, k, c.up.open[k]);
    }
    ContentKeepsInv(c, a.addr, a.chunkID, a.data);
  }

  // -------------------------------------------------------------------- sessions

  /** One session changes; the others are as they were. */
  lemma SetUploadKeepsInv(c: Cluster, k: nat, u: Upload)
    requires Inv(c) && UploadOk(c, k, u)
    ensures Inv(SetUpload(c, k, u))
  {
    hide S.Inv, NetOk, VersionsOk, UploadOk;
    var c' := SetUpload(c, k, u);
    forall i | i in c'.up.open ensures UploadOk(c', i, c'.up.open[i]) {
      UploadOkFrame(c, c', i, if i == k then u else c.up.open[i]);
    }
  }

  lemma CloseUploadKeepsInv(c: Cluster, k: nat)
    requires Inv(c)
    ensures Inv(CloseUpload(c, k))
  {
    hide S.Inv, NetOk, VersionsOk, UploadOk;
    var c' := CloseUpload(c, k);
    forall i | i in c'.up.open ensures UploadOk(c', i, c'.up.open[i]) { UploadOkFrame(c, c', i, c.up.open[i]); }
  }

  lemma OpenUploadKeepsInv(c: Cluster, u: Upload)
    requires Inv(c) && u.done == [] && u.current.None?
    ensures Inv(OpenUpload(c, u))
  {
    hide S.Inv, NetOk, VersionsOk, Flatten;
    var c' := OpenUpload(c, u);
    forall i | i in c'.up.open ensures UploadOk(c', i, c'.up.open[i]) {
      if i != c.up.count { UploadOkFrame(c, c', i, c.up.open[i]); }
    }
  }

  lemma PrepareKeepsInv(c: Cluster, a: Action)
    requires Inv(c) && Enabled(c, a) && a.UploadPrepare?
    ensures Inv(Next(c, a))
  {
    var u := c.up.open[a.k];
    var id := ChunkKey(u.fileID, a.stamp);
    var op := S.Prepare(u.fileID, |u.pieces[|u.done|]|, a.requested, Sched.NodeIDs(a.sel), a.stamp);
    S.StepKeepsInv(c.w, op);
    S.FreshKey(c.w, u.fileID, a.stamp);
    var c1 := c.(w := S.Next(c.w, op));
    WorldGrows(c, c1.w);
    if a.sel == [] {
      CloseUploadKeepsInv(c1, a.k);
    } else {
      assert Sched.NodeIDs(a.sel) != [];
      assert id in c1.w.h.prepared && id !in c.w.h.prepared;
      NewOwnerKeepsInv(c1, a.k, id);
      var c2 := c1.(up := c1.up.(owner := c1.up.owner[id := a.k]));
      var u' := u.(current := Some(InFlight(id, Addresses(a.sel), 0)));
      assert UploadOk(c2, a.k, u') by {
        assert UploadOk(c, a.k, u) && UploadOk(c2, a.k, u);
        forall i | 0 <= i < |u.done| ensures u.done[i] != id { assert Mine(c, a.k, u.done[i]); }
      }
      SetUploadKeepsInv(c2, a.k, u');
      assert Next(c, a) == SetUpload(c2, a.k, u');
    }
  }

  lemma NewOwnerKeepsInv(c: Cluster, k: nat, id: string)
    requires Inv(c) && k in c.up.open && id in c.w.h.prepared && id !in c.up.owner
    ensures Inv(c.(up := c.up.(owner := c.up.owner[id := k])))
  {
    hide S.Inv, NetOk, VersionsOk;
    var c' := c.(up := c.up.(owner := c.up.owner[id := k]));
    assert UploadOk(c, k, c.up.open[k]);
    forall i | i in c'.up.open ensures UploadOk(c', i, c'.up.open[i]) { UploadOkFrame(c, c', i, c.up.open[i]); }
  }

  /** The state right after an upload's PUT has been sent. */
  ghost function Sent(c: Cluster, k: nat): Cluster
    requires k in c.up.open && c.up.open[k].current.Some? && |c.up.open[k].done| < |c.up.open[k].pieces|
    requires c.up.open[k].current.value.acked < |c.up.open[k].current.value.addrs|
  {
    var u := c.up.open[k];
    var f := u.current.value;
    var data := u.pieces[|u.done|];
    c.(net := c.net.(wire := c.net.wire + {PutRequest(f.addrs[f.acked], f.chunkID, data)}),
       j := c.j.(content := c.j.content[f.chunkID := data]))
  }

  lemma SentKeepsInv(c: Cluster, a: Action)
    requires Inv(c) && Enabled(c, a) && a.UploadPut?
    ensures Inv(Sent(c, a.k))
  {
    hide S.Inv, VersionsOk, NetOk, Flatten, Held;
    var u := c.up.open[a.k];
    var f := u.current.value;
    assert UploadOk(c, a.k, u);
    forall i | i in c.up.open && c.up.open[i].current.Some? && c.up.open[i].current.value.chunkID == f.chunkID
      ensures |c.up.open[i].done| < |c.up.open[i].pieces|
      ensures u.pieces[|u.done|] == c.up.open[i].pieces[|c.up.open[i].done|]
    {
      assert UploadOk(c, i, c.up.open[i]);
      assert i == a.k;
    }
    ContentKeepsInv(c, f.addrs[f.acked], f.chunkID, u.pieces[|u.done|]);
  }

  lemma PutKeepsInv(c: Cluster, a: Action)
    requires Inv(c) && Enabled(c, a) && a.UploadPut?
    ensures Inv(Next(c, a))
  {
    SentKeepsInv(c, a);
    var c1 := Sent(c, a.k);
    if a.ok { AckedKeepsInv(c, a, c1); } else { CloseUploadKeepsInv(c1, a.k); }
  }

  lemma AckedKeepsInv(c: Cluster, a: Action, c1: Cluster)
    requires Enabled(c, a) && a.UploadPut? && a.ok && c1 == Sent(c, a.k) && Inv(c1)
    ensures Inv(Next(c, a))
  {
    hide S.Inv, VersionsOk, SessionsOk, JournalOk;
    var u := c.up.open[a.k];
    var f := u.current.value;
    var addr, data := f.addrs[f.acked], u.pieces[|u.done|];
    var c2 := c1.(net := c1.net.(stores := Store(c1.net.stores, addr, f.chunkID, data)),
                  j := c1.j.(erased := c1.j.erased - {(addr, f.chunkID)}));
    StoreOk(c1.net, c1.j.content, addr, f.chunkID, data);
    assert FilesMoved(c1, c2);
    FilesMovedKeepsInv(c1, c2);
    AckKeepsUploadOk(c2, a.k, u, addr);
    SetUploadKeepsInv(c2, a.k, u.(current := Some(f.(acked := f.acked + 1))));
  }

  lemma AckKeepsUploadOk(c: Cluster, k: nat, u: Upload, addr: string)
    requires Inv(c) && k in c.up.open && c.up.open[k] == u && u.current.Some?
    requires var f := u.current.value;
             f.acked < |f.addrs| && addr == f.addrs[f.acked]
             && f.chunkID in Held(c.net.stores, addr) && f.chunkID in c.j.content
    ensures var f := u.current.value; UploadOk(c, k, u.(current := Some(f.(acked := f.acked + 1))))
  {
    hide S.Inv, NetOk, VersionsOk, JournalOk, Flatten;
    assert UploadOk(c, k, u);
    var f := u.current.value;
    var u' := u.(current := Some(f.(acked := f.acked + 1)));
    assert DoneOk(c, k, u');
  }

  lemma ConfirmKeepsInv(c: Cluster, a: Action)
    requires Inv(c) && Enabled(c, a) && a.UploadConfirm?
    ensures Inv(Next(c, a))
  {
    var u := c.up.open[a.k];
    var f := u.current.value;
    var op := S.Confirm(f.chunkID, a.hash);
    SaveStep(c, op);
    var c1 := c.(w := S.Next(c.w, op));
    UploadOkWorld(c, c1.w, a.k, u);
    CurrentIsLive(c, a.k);
    hide S.Inv, NetOk, VersionsOk, JournalOk, S.Next, Flatten, Held;
    var u' := u.(done := u.done + [f.chunkID], current := None,
                 others := u.others + if f.addrs == [] then [] else f.addrs[1..]);
    ConfirmedUploadOk(c1, a.k, u, u');
    SetUploadKeepsInv(c1, a.k, u');
  }

  /** The chunk an upload is working on cannot have been deleted: no version lists it yet. */
  lemma CurrentIsLive(c: Cluster, k: nat)
    requires Inv(c) && k in c.up.open && c.up.open[k].current.Some?
    ensures c.up.open[k].current.value.chunkID in c.w.s.chunks
  {
    hide NetOk, VersionsOk, Flatten, Held;
    assert UploadOk(c, k, c.up.open[k]);
  }

  lemma ConfirmedUploadOk(c: Cluster, k: nat, u: Upload, u': Upload)
    requires Inv(c) && UploadOk(c, k, u) && u.current.Some?
    requires u.current.value.acked > 0
    requires u' == u.(done := u.done + [u.current.value.chunkID], current := None, others := u'.others)
    ensures UploadOk(c, k, u')
  {
    hide S.Inv, NetOk, VersionsOk, JournalOk, Flatten;
    var id := u.current.value.chunkID;
    assert DoneOk(c, k, u') by {
      forall i | 0 <= i < |u'.done|
        ensures Mine(c, k, u'.done[i]) && u'.done[i] in c.j.content && c.j.content[u'.done[i]] == u'.pieces[i]
      {
        if i < |u.done| { assert u'.done[i] == u.done[i]; }
      }
      forall i, m | 0 <= i < m < |u'.done| ensures u'.done[i] != u'.done[m] {
        assert u'.done[i] == u.done[i];
        assert u.done[i] in u.done;
      }
    }
  }

  // -------------------------------------------------------------- file management

  /** Chunks that a new version may list: prepared, never listed, and of no upload in progress. */
  ghost predicate Listable(c: Cluster, ids: seq<string>) {
    forall id :: id in ids ==>
      id in c.w.h.prepared && id !in c.j.listed && (id in c.up.owner ==> c.up.owner[id] !in c.up.open)
  }

  ghost predicate Manageable(c: Cluster, op: Op) {
    !op.Restart?
    && (op.Create? || op.CreateMeta? ==> Listable(c, op.chunkIDs))
    && (op.Create? || op.CreateMeta? || op.Rollback? ==> c.j.clock < op.stamp)
  }

  lemma NewStamp(stamp: nat, clock: nat)
    requires clock < stamp
    ensures !Stamped(VersionID(stamp), clock) && Stamped(VersionID(stamp), stamp)
  {
    if Stamped(VersionID(stamp), clock) {
      var m: nat :| m <= clock && VersionID(stamp) == VersionID(m);
      VersionIDInjective(stamp, m);
    }
  }

  lemma LaterStamped(x: string, clock: nat, clock': nat)
    requires Stamped(x, clock) && clock <= clock'
    ensures Stamped(x, clock')
  {
  }

  /** The version a rollback copies. */
  lemma RollbackTarget(c: Cluster, op: Op)
    requires Inv(c) && op.Rollback? && Created(c.cat, op).Some?
    ensures var t := Find(ListOf(c.cat.versions, op.fileID), op.number);
            && t.Some? && VersionOk(t.value, c.j) && InCatalog(c.cat, t.value)
            && Created(c.cat, op).value.chunkIDs == t.value.chunkIDs
  {
    var list := ListOf(c.cat.versions, op.fileID);
    VersionLists.FindSpec(list, op.number);
    ListMember(c.cat, op.fileID, Find(list, op.number).value);
    hide S.Inv, NetOk, SessionsOk, JournalOk, VersionOk, InCatalog, Find, ListOf;
    assert VersionsOk(c.cat, c.j);
  }

  lemma CreatedShape(c: Cluster, op: Op)
    requires Created(c.cat, op).Some?
    ensures (op.Create? || op.CreateMeta? || op.Rollback?) && Created(c.cat, op).value.versionID == VersionID(op.stamp)
    ensures op.Create? || op.CreateMeta? ==> Created(c.cat, op).value.chunkIDs == op.chunkIDs
  {
  }

  lemma ManageGrows(c: Cluster, op: Op)
    requires Inv(c) && Manageable(c, op)
    ensures Grows(c.j, DoManage(c, op).j)
  {
    hide S.Inv, NetOk, SessionsOk, VersionsOk;
    if op.Create? || op.CreateMeta? || op.Rollback? { NewStamp(op.stamp, c.j.clock); }
    if Created(c.cat, op).Some? { CreatedShape(c, op); }
    hide Created, VersionID, Stamped;
  }

  /** The chunks of a created version are accounted for, and its recorded bytes are right. */
  lemma NewVersionOk(c: Cluster, op: Op)
    requires Inv(c) && Manageable(c, op) && Created(c.cat, op).Some?
    ensures VersionOk(Created(c.cat, op).value, DoManage(c, op).j)
  {
    var v, j' := Created(c.cat, op).value, DoManage(c, op).j;
    CreatedShape(c, op);
    NewStamp(op.stamp, c.j.clock);
    assert v.versionID !in c.j.truth;
    if op.Rollback? {
      RollbackTarget(c, op);
      var t := Find(ListOf(c.cat.versions, op.fileID), op.number).value;
      hide S.Inv, NetOk, SessionsOk, VersionsOk, JournalOk, Contents, Created, VersionID, Find, ListOf, InCatalog, Stamped;
      assert forall id :: id in v.chunkIDs ==> id in j'.listed;
    } else {
      hide S.Inv, NetOk, SessionsOk, VersionsOk, JournalOk, Contents, Created, VersionID, Stamped;
    }
  }

  lemma ManageVersionsOk(c: Cluster, op: Op)
    requires Inv(c) && Manageable(c, op)
    ensures VersionsOk(DoManage(c, op).cat, DoManage(c, op).j)
  {
    ManageGrows(c, op);
    var c' := DoManage(c, op);
    assert c'.cat == Apply(c.cat, op);
    hide S.Inv, NetOk, SessionsOk, JournalOk, InCatalog, VersionOk, Apply, Created, Grows, DoManage, Manageable;
    forall v | InCatalog(c'.cat, v) ensures VersionOk(v, c'.j) {
      CatalogMember(c.cat, op, v);
      if Created(c.cat, op) == Some(v) {
        NewVersionOk(c, op);
      } else {
        VersionOkGrows(v, c.j, c'.j);
      }
    }
  }

  lemma NewListed(c: Cluster, op: Op)
    requires Inv(c) && Manageable(c, op)
    ensures DoManage(c, op).j.listed <= c.w.h.prepared.Keys
    ensures forall k, id :: k in c.up.open && Mine(c, k, id) ==> id !in DoManage(c, op).j.listed
  {
    if Created(c.cat, op).Some? {
      CreatedShape(c, op);
      if op.Rollback? { RollbackTarget(c, op); }
    }
    hide S.Inv, NetOk, SessionsOk, VersionsOk, Created, InCatalog;
  }

  /** Everything a handler removes had its chunks listed. */
  lemma RemovedListed(c: Cluster, op: Op)
    requires Inv(c) && Manageable(c, op)
    ensures ListedBy(Elements(Removed(c.cat, op))) <= DoManage(c, op).j.listed
  {
    ManageGrows(c, op);
    if Created(c.cat, op).Some? { NewVersionOk(c, op); }
    var c' := DoManage(c, op);
    hide S.Inv, NetOk, SessionsOk, JournalOk, InCatalog, Removed, Created, DoManage, Manageable;
    forall v, id | v in Elements(Removed(c.cat, op)) && id in v.chunkIDs ensures id in c'.j.listed {
      RemovedMember(c.cat, op, v);
      if InCatalog(c.cat, v) { VersionOkGrows(v, c.j, c'.j); }
      assert VersionOk(v, c'.j);
    }
  }

  lemma ListedByUnion(a: set<Version>, b: set<Version>)
    ensures ListedBy(a + b) == ListedBy(a) + ListedBy(b)
  {
  }

  lemma ManageJournalOk(c: Cluster, op: Op)
    requires Inv(c) && Manageable(c, op)
    ensures JournalOk(DoManage(c, op)) && S.Inv(DoManage(c, op).w)
    ensures DoManage(c, op).w.h.prepared == c.w.h.prepared
  {
    var c' := DoManage(c, op);
    var gone := ListedBy(Elements(Removed(c.cat, op)));
    DeleteOpsEffect(c.w, Removed(c.cat, op));
    RemovedListed(c, op);
    NewListed(c, op);
    ListedByUnion(c.j.removed, Elements(Removed(c.cat, op)));
    assert c.w.s.chunks.Keys == c.w.h.prepared.Keys - c.w.h.deleted;
    assert c'.w.h.deleted == c.w.h.deleted + gone;
    forall x | x in c'.j.truth ensures Stamped(x, c'.j.clock) {
      if Created(c.cat, op).Some? {
        CreatedShape(c, op);
        NewStamp(op.stamp, c.j.clock);
      }
      if x in c.j.truth { LaterStamped(x, c.j.clock, c'.j.clock); }
    }
    hide S.Inv, NetOk, SessionsOk, VersionsOk, Created, Removed, Stamped, ListedBy;
  }

  lemma ManageSessionsOk(c: Cluster, op: Op)
    requires Inv(c) && Manageable(c, op)
    ensures SessionsOk(DoManage(c, op))
  {
    NewListed(c, op);
    ManageJournalOk(c, op);
    var c' := DoManage(c, op);
    assert c'.up == c.up && c'.net == c.net && c'.j.content == c.j.content && c'.j.erased == c.j.erased;
    hide S.Inv, NetOk, JournalOk, VersionsOk, DoManage, Manageable, UploadOk;
    forall k | k in c'.up.open ensures UploadOk(c', k, c'.up.open[k]) { UploadOkFrame(c, c', k, c.up.open[k]); }
  }

  lemma ManageKeepsInv(c: Cluster, op: Op)
    requires Inv(c) && Manageable(c, op)
    ensures Inv(DoManage(c, op))
  {
    ManageJournalOk(c, op);
    ManageSessionsOk(c, op);
    ManageVersionsOk(c, op);
    assert DoManage(c, op).net == c.net && DoManage(c, op).j.content == c.j.content;
    hide S.Inv, NetOk, SessionsOk, JournalOk, VersionsOk, DoManage;
  }

  // ------------------------------------------------------------- finishing an upload

  /** The confirmed chunks of a complete upload stand for its data. */
  lemma {:induction false} DoneContents(ids: seq<string>, pieces: seq<Bytes>, content: map<string, Bytes>)
    requires |ids| == |pieces| && forall i :: 0 <= i < |ids| ==> ids[i] in content && content[ids[i]] == pieces[i]
    ensures Contents(ids, content) == Some(Flatten(pieces))
  {
    if ids != [] {
      var n := |ids| - 1;
      DoneContents(ids[..n], pieces[..n], content);
      FlattenAppend(pieces[..n], pieces[n]);
      assert pieces == pieces[..n] + [pieces[n]];
    }
  }

  /** Recording the bytes of the version just created. */
  lemma TruthKeepsInv(c: Cluster, x: string, data: Bytes)
    requires Inv(c) && Stamped(x, c.j.clock)
    requires forall v :: InCatalog(c.cat, v) && v.versionID == x ==> Contents(v.chunkIDs, c.j.content) == Some(data)
    ensures Inv(c.(j := c.j.(truth := c.j.truth[x := data])))
  {
    var c' := c.(j := c.j.(truth := c.j.truth[x := data]));
    hide S.Inv, NetOk, Contents, Stamped, InCatalog, UploadOk;
    forall k | k in c'.up.open ensures UploadOk(c', k, c'.up.open[k]) { UploadOkFrame(c, c', k, c.up.open[k]); }
    forall v | InCatalog(c'.cat, v) ensures VersionOk(v, c'.j) { assert VersionOk(v, c.j); }
  }

  /** An upload that is about to finish: with its session closed, the create is admissible. */
  lemma FinishManageable(c: Cluster, a: Action)
    requires Inv(c) && Enabled(c, a) && a.UploadFinish?
    ensures Manageable(CloseUpload(c, a.k), FinishOp(c, a))
    ensures Contents(c.up.open[a.k].done, c.j.content) == Some(Flatten(c.up.open[a.k].pieces))
  {
    var u := c.up.open[a.k];
    hide S.Inv, NetOk, JournalOk, VersionsOk, Contents, Flatten, CurrentOk;
    assert UploadOk(c, a.k, u);
    DoneContents(u.done, u.pieces, c.j.content);
    DoneMine(c, a.k, u);
    hide DoneOk;
  }

  lemma DoneMine(c: Cluster, k: nat, u: Upload)
    requires DoneOk(c, k, u)
    ensures forall id :: id in u.done ==> Mine(c, k, id)
  {
    forall id | id in u.done ensures Mine(c, k, id) {
      var i :| 0 <= i < |u.done| && u.done[i] == id;
      assert Mine(c, k, u.done[i]);
    }
  }

  /** The state with the version created and its bytes recorded. */
  ghost function Versioned(c: Cluster, a: Action): Cluster
    requires a.UploadFinish? && a.k in c.up.open
  {
    var m := CloseUpload(DoManage(c, FinishOp(c, a)), a.k);
    m.(j := m.j.(truth := m.j.truth[VersionID(a.stamp) := Flatten(c.up.open[a.k].pieces)]))
  }

  lemma VersionedKeepsInv(c: Cluster, a: Action)
    requires Inv(c) && Enabled(c, a) && a.UploadFinish?
    ensures Inv(Versioned(c, a))
  {
    var c1, op, u := CloseUpload(c, a.k), FinishOp(c, a), c.up.open[a.k];
    CloseUploadKeepsInv(c, a.k);
    FinishManageable(c, a);
    ManageKeepsInv(c1, op);
    var m := DoManage(c1, op);
    assert m == CloseUpload(DoManage(c, op), a.k);
    assert m.cat == Apply(c.cat, op) && m.j.content == c.j.content && m.j.clock == a.stamp;
    NewStamp(a.stamp, c.j.clock);
    hide S.Inv, NetOk, SessionsOk, JournalOk, Apply, DoManage, Contents, InCatalog, Manageable, VersionID;
    forall v | InCatalog(m.cat, v) && v.versionID == VersionID(a.stamp)
      ensures Contents(v.chunkIDs, m.j.content) == Some(Flatten(u.pieces))
    {
      CatalogMember(c.cat, op, v);
      assert InCatalog(c.cat, v) ==> VersionOk(v, c.j);
    }
    TruthKeepsInv(m, VersionID(a.stamp), Flatten(u.pieces));
  }

  /** A server-side upload creates the first version of its file: nothing is cleaned up, and its
      chunks are live when their records are saved. */
  lemma ServerFinishShape(c: Cluster, a: Action)
    requires Inv(c) && Enabled(c, a) && a.UploadFinish? && c.up.open[a.k].viaServer
    ensures Versioned(c, a).w == c.w
    ensures forall id :: id in c.up.open[a.k].done ==> id in c.w.s.chunks
  {
    var u := c.up.open[a.k];
    assert Removed(c.cat, FinishOp(c, a)) == [];
    assert S.DeleteOps([]) == [];
    hide NetOk, VersionsOk, Flatten, CurrentOk;
    assert UploadOk(c, a.k, u);
    DoneMine(c, a.k, u);
  }

  lemma ServerFinishNext(c: Cluster, a: Action)
    requires Enabled(c, a) && a.UploadFinish? && c.up.open[a.k].viaServer
    ensures var u, n := c.up.open[a.k], Versioned(c, a);
            Next(c, a) == n.(w := S.Final(n.w, OverwriteOps(u, u.done)))
  {
    hide DoManage, CloseUpload, OverwriteOps, S.Final, FinishOp, VersionID;
  }

  lemma FinishKeepsInv(c: Cluster, a: Action)
    requires Inv(c) && Enabled(c, a) && a.UploadFinish?
    ensures Inv(Next(c, a))
  {
    var u, n := c.up.open[a.k], Versioned(c, a);
    VersionedKeepsInv(c, a);
    if u.viaServer {
      ServerFinishShape(c, a);
      OverwriteOpsEffect(n.w, u, u.done);
      WorldGrows(n, S.Final(n.w, OverwriteOps(u, u.done)));
      ServerFinishNext(c, a);
    } else {
      assert Next(c, a) == n;
    }
  }

  // ------------------------------------------------------------------ every action

  lemma RestartVersionsOk(c: Cluster)
    requires VersionsOk(c.cat, c.j)
    ensures VersionsOk(Apply(c.cat, Restart), c.j)
  {
    hide InCatalog, VersionOk, Apply;
    forall v | InCatalog(Apply(c.cat, Restart), v) ensures VersionOk(v, c.j) {
      CatalogMember(c.cat, Restart, v);
      assert Created(c.cat, Restart) == None;
    }
  }

  lemma RestartKeepsInv(c: Cluster)
    requires Inv(c)
    ensures Inv(Next(c, RestartServer))
  {
    SaveStep(c, S.Restart);
    RestartVersionsOk(c);
    var c1, c' := c.(w := S.Next(c.w, S.Restart)), Next(c, RestartServer);
    hide S.Inv, NetOk, VersionsOk, Apply, S.Next, UploadOk;
    forall k | k in c'.up.open ensures UploadOk(c', k, c'.up.open[k]) { UploadOkFrame(c1, c', k, c.up.open[k]); }
  }

  lemma StorageKeepsInv(c: Cluster, a: Action)
    requires Inv(c) && Enabled(c, a)
    requires a.Write? || a.ConfirmWrite? || a.ReplicationFailed? || a.ReplicationDone?
    ensures Inv(Next(c, a))
  {
    hide Sched.IsSelection, S.Inv, S.Apply, S.Record;
    if a.Write? {
      SaveStep(c, S.Prepare(a.fileID, a.size, a.requested, Sched.NodeIDs(a.sel), a.stamp));
    } else if a.ConfirmWrite? {
      SaveStep(c, S.Confirm(a.chunkID, a.hash));
    } else if a.ReplicationFailed? {
      SaveStep(c, S.TaskFailed(a.task));
    } else {
      SaveStep(c, S.TaskDone(a.task));
    }
  }

  /** A storage-manager action that deletes nothing. */
  lemma SaveStep(c: Cluster, op: S.Op)
    requires Inv(c) && S.Enabled(c.w, op) && !op.Delete?
    ensures Inv(c.(w := S.Next(c.w, op)))
  {
    S.StepKeepsInv(c.w, op);
    PreparedGrows(c.w, op);
    hide S.Inv, S.Enabled, S.Next;
    WorldGrows(c, S.Next(c.w, op));
  }

  lemma PreparedGrows(w: S.World, op: S.Op)
    requires !op.Delete?
    ensures S.Next(w, op).h.deleted == w.h.deleted && w.h.prepared.Keys <= S.Next(w, op).h.prepared.Keys
  {
  }

  lemma BeginKeepsInv(c: Cluster, a: Action)
    requires Inv(c) && Enabled(c, a) && (a.BeginServer? || a.BeginClient?)
    ensures Inv(Next(c, a))
  {
    match a
    case BeginServer(fileID, data) =>
      hide Inv, ServerPieces, Flatten;
      OpenUploadKeepsInv(c, Upload(fileID, true, data, ServerPieces(data), [], None, []));
    case BeginClient(fileID, pieces) =>
      hide Inv, Flatten;
      OpenUploadKeepsInv(c, Upload(fileID, false, Flatten(pieces), pieces, [], None, []));
  }

  lemma FreshManageable(c: Cluster, op: Op)
    requires Enabled(c, Manage(op))
    ensures Manageable(c, op)
  {
  }

  lemma HandlerKeepsInv(c: Cluster, a: Action)
    requires Inv(c) && Enabled(c, a) && a.Manage?
    ensures Inv(Next(c, a))
  {
    FreshManageable(c, a.op);
    hide Inv, Manageable, DoManage;
    ManageKeepsInv(c, a.op);
  }

  lemma AbortKeepsInv(c: Cluster, a: Action)
    requires Inv(c) && a.Abort? && Enabled(c, a)
    ensures Inv(Next(c, a))
  {
    hide Inv, CloseUpload;
    CloseUploadKeepsInv(c, a.k);
  }

  lemma StepKeepsInv(c: Cluster, a: Action)
    requires Inv(c) && Enabled(c, a)
    ensures Inv(Next(c, a))
  {
    hide Inv, Sched.IsSelection, S.Enabled, FreshChunks, Next;
    match a
    case ClientPut(_, _, _) => ClientPutKeepsInv(c, a);
    case Forward(_, _, _) => ForwardKeepsInv(c, a);
    case Churn(_) => ForwardKeepsInv(c, a);
    case Deliver(_) => DeliverKeepsInv(c, a);
    case Erase(_, _) => EraseKeepsInv(c, a);
    case BeginServer(_, _) => BeginKeepsInv(c, a);
    case BeginClient(_, _) => BeginKeepsInv(c, a);
    case UploadPrepare(_, _, _, _) => PrepareKeepsInv(c, a);
    case UploadPut(_, _) => PutKeepsInv(c, a);
    case UploadConfirm(_, _) => ConfirmKeepsInv(c, a);
    case UploadFinish(_, _, _, _, _, _) => FinishKeepsInv(c, a);
    case Abort(_) => AbortKeepsInv(c, a);
    case Manage(op) => HandlerKeepsInv(c, a);
    case RestartServer => RestartKeepsInv(c);
    case _ => StorageKeepsInv(c, a);
  }

  lemma {:induction false} RunKeepsInv(c: Cluster, run: seq<Action>)
    requires Inv(c) && Legal(c, run)
    ensures Inv(Final(c, run))
    decreases run
  {
    hide Inv, Enabled;
    if run != [] {
      StepKeepsInv(c, run[0]);
      RunKeepsInv(Next(c, run[0]), run[1..]);
    }
  }

  lemma GenesisInv()
    ensures Inv(GENESIS)
  {
    assert ListedBy({}) == {};
  }
}
