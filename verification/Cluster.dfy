/** The whole system as one state machine: the server's storage manager and file manager, the
    node map, the storage nodes' files, PUT requests on their way, and uploads in progress.
    A run is any interleaving of the actions below. */
module Cluster {
  import opened Sequences
  import opened Keys
  import opened Records
  import opened VersionCatalog
  import opened Download
  import S = StorageProtocol
  import Sched = Scheduler
  import Chunker
  import VersionLists

  // --------------------------------------------------------------------- state

  /** A PUT of a chunk file to a node. Once sent it may arrive late, repeatedly, or never. */
  datatype PutRequest = PutRequest(addr: string, chunkID: string, data: Bytes)

  datatype Net = Net(nodes: map<string, NodeRecord>, stores: Stores, wire: set<PutRequest>)

  /** The chunk an upload is working on: the addresses the server handed out and how many of
      them, in order, have acknowledged the data. */
  datatype InFlight = InFlight(chunkID: string, addrs: seq<string>, acked: nat)

  /** An upload in progress: its pieces, the chunks confirmed so far, and the addresses of the
      replicas the server's handler did not write itself. */
  datatype Upload = Upload(
    fileID: string, viaServer: bool, data: Bytes, pieces: seq<Bytes>,
    done: seq<string>, current: Option<InFlight>, others: seq<string>)

  /** Uploads by session number; `owner` remembers which session prepared a chunk. */
  datatype Sessions = Sessions(open: map<nat, Upload>, count: nat, owner: map<string, nat>)

  /** History: the bytes each chunk was first PUT with, the chunks any version has listed, the
      versions removed, the node files erased and not stored again, the bytes uploaded for each
      version, the last version stamp, and the addresses nodes used to be registered under. */
  datatype Journal = Journal(
    content: map<string, Bytes>, listed: set<string>, removed: set<Version>,
    erased: set<(string, string)>, truth: map<string, Bytes>, clock: nat,
    registered: set<(string, string)>)

  datatype Cluster = Cluster(w: S.World, cat: Catalog, net: Net, up: Sessions, j: Journal)

  const GENESIS: Cluster :=
    Cluster(S.GENESIS, VersionLists.GENESIS, Net(map[], map[], {}), Sessions(map[], 0, map[]),
            Journal(map[], {}, {}, {}, map[], 0, {}))

  datatype Action =
    // the write protocol, driven by any client
    | Write(fileID: string, size: int, requested: int, sel: seq<NodeRecord>, stamp: nat)
    | ConfirmWrite(chunkID: string, hash: string)
    | ReplicationFailed(task: S.Task)
    | ReplicationDone(task: S.Task, target: string, addr: string)
    // the network and the nodes
    | ClientPut(addr: string, chunkID: string, data: Bytes)
    | Forward(src: string, dst: string, chunkID: string)
    | Deliver(put: PutRequest)
    | Erase(addr: string, chunkID: string)
    | Churn(nodes: map<string, NodeRecord>)
    // uploads, step by step
    | BeginServer(fileID: string, data: Bytes)
    | BeginClient(fileID: string, pieces: seq<Bytes>)
    | UploadPrepare(k: nat, requested: int, sel: seq<NodeRecord>, stamp: nat)
    | UploadPut(k: nat, ok: bool)
    | UploadConfirm(k: nat, hash: string)
    | UploadFinish(k: nat, name: string, path: string, size: int, hash: string, stamp: nat)
    | Abort(k: nat)
    // file management and restart
    | Manage(op: Op)
    | RestartServer

  // ------------------------------------------------------- chunk deletions, saves

  /** The record the upload handler persists for one of its chunks. */
  function PartialRecord(u: Upload, id: string): Chunk {
    Chunk(id, u.fileID, Chunker.ChunkSize(|u.data|), "", u.others, Unset)
  }

  function OverwriteOps(u: Upload, ids: seq<string>): seq<S.Op> {
    if ids == [] then [] else [S.Overwrite(PartialRecord(u, ids[0]))] + OverwriteOps(u, ids[1..])
  }

  /** The upload handler's last loop saves, for each listed chunk, a record with the file, the nominal
      chunk size and the collected addresses, but without hash and status; memory and other records stay. */
  lemma {:induction false} SavesExactly(s: S.Storage, u: Upload, ids: seq<string>)
    ensures var s' := S.ApplyAll(s, OverwriteOps(u, ids));
            && s'.chunks == s.chunks && s'.tasks == s.tasks
            && (forall id :: id in s'.bucket <==> id in ids || id in s.bucket)
            && forall id :: id in s'.bucket ==>
                 s'.bucket[id] == if id in ids then Chunk(id, u.fileID, Chunker.ChunkSize(|u.data|), "", u.others, Unset)
                                  else s.bucket[id]
    decreases ids
  {
    if ids != [] {
      assert OverwriteOps(u, ids)[1..] == OverwriteOps(u, ids[1..]);
      assert ids == [ids[0]] + ids[1..];
      SavesExactly(S.Apply(s, S.Overwrite(PartialRecord(u, ids[0]))), u, ids[1..]);
    }
  }

  function ListedBy(versions: set<Version>): set<string> {
    set v, id | v in versions && id in v.chunkIDs :: id
  }

  // ----------------------------------------------------------------- transitions

  function Addresses(sel: seq<NodeRecord>): (addrs: seq<string>)
    ensures |addrs| == |sel| && forall i :: 0 <= i < |sel| ==> addrs[i] == Address(sel[i])
  {
    if sel == [] then [] else [Address(sel[0])] + Addresses(sel[1..])
  }

  function Store(stores: Stores, addr: string, chunkID: string, data: Bytes): Stores {
    stores[addr := Held(stores, addr)[chunkID := data]]
  }

  function CloseUpload(c: Cluster, k: nat): Cluster {
    c.(up := c.up.(open := c.up.open - {k}))
  }

  function SetUpload(c: Cluster, k: nat, u: Upload): Cluster {
    c.(up := c.up.(open := c.up.open[k := u]))
  }

  /** What the journal knows about the bytes of a version an operation creates. */
  function TruthAfter(c: Cluster, op: Op): map<string, Bytes> {
    match Created(c.cat, op)
    case None => c.j.truth
    case Some(v) =>
      if op.Rollback? then
        (match Find(ListOf(c.cat.versions, op.fileID), op.number)
         case None => c.j.truth
         case Some(t) =>
           if t.versionID in c.j.truth then c.j.truth[v.versionID := c.j.truth[t.versionID]] else c.j.truth)
      else c.j.truth
  }

  function ClockAfter(clock: nat, op: Op): nat {
    if op.Create? || op.CreateMeta? || op.Rollback? then op.stamp else clock
  }

  /** A file-manager handler: change the catalog, delete the chunks of removed versions. */
  function DoManage(c: Cluster, op: Op): Cluster {
    c.(w := S.Final(c.w, S.DeleteOps(Removed(c.cat, op))),
       cat := Apply(c.cat, op),
       j := c.j.(listed := c.j.listed + (match Created(c.cat, op) case None => {} case Some(v) => Elements(v.chunkIDs)),
                 removed := c.j.removed + Elements(Removed(c.cat, op)),
                 truth := TruthAfter(c, op),
                 clock := ClockAfter(c.j.clock, op)))
  }

  function FinishOp(c: Cluster, a: Action): Op
    requires a.UploadFinish? && a.k in c.up.open
  {
    var u := c.up.open[a.k];
    Create(u.fileID, a.name, a.path, u.done, if u.viaServer then u.others else [], a.size, a.hash, a.stamp)
  }

  function DoFinish(c: Cluster, a: Action): Cluster
    requires a.UploadFinish? && a.k in c.up.open
  {
    var u := c.up.open[a.k];
    var m := CloseUpload(DoManage(c, FinishOp(c, a)), a.k);
    var n := m.(j := m.j.(truth := m.j.truth[VersionID(a.stamp) := Flatten(u.pieces)]));
    if u.viaServer then n.(w := S.Final(n.w, OverwriteOps(u, u.done))) else n
  }

  function DoPrepare(c: Cluster, a: Action): Cluster
    requires a.UploadPrepare? && a.k in c.up.open && |c.up.open[a.k].done| < |c.up.open[a.k].pieces|
  {
    var u := c.up.open[a.k];
    var id := ChunkKey(u.fileID, a.stamp);
    var c' := c.(w := S.Next(c.w, S.Prepare(u.fileID, |u.pieces[|u.done|]|, a.requested, Sched.NodeIDs(a.sel), a.stamp)));
    if a.sel == [] then CloseUpload(c', a.k)
    else
      var c'' := SetUpload(c', a.k, u.(current := Some(InFlight(id, Addresses(a.sel), 0))));
      c''.(up := c''.up.(owner := c''.up.owner[id := a.k]))
  }

  function DoPut(c: Cluster, a: Action): Cluster
    requires a.UploadPut? && a.k in c.up.open && |c.up.open[a.k].done| < |c.up.open[a.k].pieces|
    requires c.up.open[a.k].current.Some?
    requires var f := c.up.open[a.k].current.value; f.acked < |f.addrs|
  {
    var u := c.up.open[a.k];
    var f := u.current.value;
    var data := u.pieces[|u.done|];
    var put := PutRequest(f.addrs[f.acked], f.chunkID, data);
    var sent := c.(net := c.net.(wire := c.net.wire + {put}),
                   j := c.j.(content := c.j.content[f.chunkID := data]));
    if a.ok then
      SetUpload(sent.(net := sent.net.(stores := Store(sent.net.stores, put.addr, put.chunkID, data)),
                      j := sent.j.(erased := sent.j.erased - {(put.addr, put.chunkID)})),
                a.k, u.(current := Some(f.(acked := f.acked + 1))))
    else CloseUpload(sent, a.k)
  }

  function DoConfirm(c: Cluster, a: Action): Cluster
    requires a.UploadConfirm? && a.k in c.up.open && c.up.open[a.k].current.Some?
  {
    var u := c.up.open[a.k];
    var f := u.current.value;
    var c' := c.(w := S.Next(c.w, S.Confirm(f.chunkID, a.hash)));
    if f.chunkID !in c.w.s.chunks then CloseUpload(c', a.k)
    else
      SetUpload(c', a.k, u.(done := u.done + [f.chunkID], current := None,
                            others := u.others + if f.addrs == [] then [] else f.addrs[1..]))
  }

  /** New chunks for a version created directly through the API: prepared by a client of its
      own, never listed by any version. */
  ghost predicate FreshChunks(c: Cluster, ids: seq<string>) {
    Distinct(ids) && forall id :: id in ids ==> id in c.w.h.prepared && id !in c.j.listed && id !in c.up.owner
  }

  function Registrations(nodes: map<string, NodeRecord>): set<(string, string)> {
    set k | k in nodes :: (k, Address(nodes[k]))
  }

  /** The node is, or once was, registered under the address. */
  predicate KnownAt(c: Cluster, node: string, addr: string) {
    (node, addr) in c.j.registered || (node in c.net.nodes && Address(c.net.nodes[node]) == addr)
  }

  /** The address holds the chunk, or has held it and lost it since. */
  predicate HeldOnce(c: Cluster, addr: string, id: string) {
    id in Held(c.net.stores, addr) || (addr, id) in c.j.erased
  }

  /** The pieces the upload handler's loop reads; none at all when the chunk count overflows. */
  function ServerPieces(data: Bytes): seq<Bytes> {
    if Chunker.ChunkSize(|data|) > 0 then Chunker.PiecesRead(data, Chunker.ChunkSize(|data|)) else []
  }

  /** What the environment guarantees: placements are the scheduler's, time stamps increase, a
      chunk ID is only ever PUT with one content and by whoever prepared it, and a replication
      succeeds only when a target, at an address it was registered under, has stored the chunk. */
  ghost predicate Enabled(c: Cluster, a: Action) {
    match a
    case Write(fileID, size, requested, sel, stamp) =>
      Sched.IsSelection(c.net.nodes, S.Wanted(requested), {}, sel)
      && S.Enabled(c.w, S.Prepare(fileID, size, requested, Sched.NodeIDs(sel), stamp))
    case ConfirmWrite(_, _) => true
    case ReplicationFailed(task) => task in c.w.s.tasks
    case ReplicationDone(task, target, addr) =>
      task in c.w.s.tasks && target in task.targets && KnownAt(c, target, addr) && HeldOnce(c, addr, task.chunkID)
    case ClientPut(_, id, data) =>
      id in c.w.h.prepared && id !in c.up.owner && (id in c.j.content ==> c.j.content[id] == data)
    case Forward(src, _, id) => id in Held(c.net.stores, src)
    case Deliver(put) => put in c.net.wire
    case Erase(addr, id) => id in Held(c.net.stores, addr)
    case Churn(nodes) => Sched.Keyed(nodes)
    case BeginServer(_, data) => data != [] && |data| <= Chunker.MAX_INT64
    case BeginClient(_, _) => true
    case UploadPrepare(k, requested, sel, stamp) =>
      k in c.up.open && c.up.open[k].current.None? && |c.up.open[k].done| < |c.up.open[k].pieces|
      && Sched.IsSelection(c.net.nodes, S.Wanted(requested), {}, sel)
      && S.Enabled(c.w, S.Prepare(c.up.open[k].fileID, |c.up.open[k].pieces[|c.up.open[k].done|]|,
                                  requested, Sched.NodeIDs(sel), stamp))
    case UploadPut(k, _) =>
      k in c.up.open && c.up.open[k].current.Some? && |c.up.open[k].done| < |c.up.open[k].pieces|
      && var f := c.up.open[k].current.value;
         f.acked < |f.addrs| && (c.up.open[k].viaServer ==> f.acked == 0)
    case UploadConfirm(k, _) =>
      k in c.up.open && c.up.open[k].current.Some?
      && var f := c.up.open[k].current.value;
         if c.up.open[k].viaServer then f.acked > 0 else f.acked == |f.addrs|
    case UploadFinish(k, _, _, size, _, stamp) =>
      k in c.up.open && c.up.open[k].current.None? && |c.up.open[k].done| == |c.up.open[k].pieces|
      && c.j.clock < stamp
      && (c.up.open[k].viaServer ==>
            size == |c.up.open[k].data| && c.up.open[k].fileID !in c.cat.files
            && ListOf(c.cat.versions, c.up.open[k].fileID) == [])
    case Abort(k) => k in c.up.open
    case Manage(op) =>
      !op.Restart?
      && (op.Create? || op.CreateMeta? ==> FreshChunks(c, op.chunkIDs))
      && (op.CreateMeta? ==> op.fileID !in c.cat.files)
      && (op.Create? || op.CreateMeta? || op.Rollback? ==> c.j.clock < op.stamp)
    case RestartServer => true
  }

  function OpenUpload(c: Cluster, u: Upload): Cluster {
    c.(up := Sessions(c.up.open[c.up.count := u], c.up.count + 1, c.up.owner))
  }

  /** The server loses its goroutines and its own uploads; everything else comes from the
      buckets. Clients carry on. */
  function Restarted(c: Cluster): Cluster {
    c.(w := S.Next(c.w, S.Restart), cat := Apply(c.cat, Restart),
       up := c.up.(open := map k | k in c.up.open && !c.up.open[k].viaServer :: c.up.open[k]))
  }

  ghost function Next(c: Cluster, a: Action): Cluster
    requires Enabled(c, a)
  {
    match a
    case Write(fileID, size, requested, sel, stamp) =>
      c.(w := S.Next(c.w, S.Prepare(fileID, size, requested, Sched.NodeIDs(sel), stamp)))
    case ConfirmWrite(id, hash) => c.(w := S.Next(c.w, S.Confirm(id, hash)))
    case ReplicationFailed(task) => c.(w := S.Next(c.w, S.TaskFailed(task)))
    case ReplicationDone(task, _, _) => c.(w := S.Next(c.w, S.TaskDone(task)))
    case ClientPut(addr, id, data) =>
      c.(net := c.net.(wire := c.net.wire + {PutRequest(addr, id, data)}), j := c.j.(content := c.j.content[id := data]))
    case Forward(src, dst, id) =>
      c.(net := c.net.(wire := c.net.wire + {PutRequest(dst, id, Held(c.net.stores, src)[id])}))
    case Deliver(put) =>
      c.(net := c.net.(stores := Store(c.net.stores, put.addr, put.chunkID, put.data)),
         j := c.j.(erased := c.j.erased - {(put.addr, put.chunkID)}))
    case Erase(addr, id) =>
      c.(net := c.net.(stores := c.net.stores[addr := Held(c.net.stores, addr) - {id}]),
         j := c.j.(erased := c.j.erased + {(addr, id)}))
    case Churn(nodes) =>
      c.(net := c.net.(nodes := nodes), j := c.j.(registered := c.j.registered + Registrations(c.net.nodes)))
    case BeginServer(fileID, data) =>
      OpenUpload(c, Upload(fileID, true, data, ServerPieces(data), [], None, []))
    case BeginClient(fileID, pieces) =>
      OpenUpload(c, Upload(fileID, false, Flatten(pieces), pieces, [], None, []))
    case UploadPrepare(_, _, _, _) => DoPrepare(c, a)
    case UploadPut(_, _) => DoPut(c, a)
    case UploadConfirm(_, _) => DoConfirm(c, a)
    case UploadFinish(_, _, _, _, _, _) => DoFinish(c, a)
    case Abort(k) => CloseUpload(c, k)
    case Manage(op) => DoManage(c, op)
    case RestartServer => Restarted(c)
  }

  ghost predicate Legal(c: Cluster, run: seq<Action>)
    decreases run
  {
    run == [] || (Enabled(c, run[0]) && Legal(Next(c, run[0]), run[1..]))
  }

  /** The state after a run (which stops at an action that is not enabled). */
  ghost function Final(c: Cluster, run: seq<Action>): Cluster
    decreases run
  {
    if run == [] || !Enabled(c, run[0]) then c else Final(Next(c, run[0]), run[1..])
  }

  // -------------------------------------------------------------------- invariant

  /** The bytes a list of chunks stands for, if every chunk has been PUT. */
  function Contents(ids: seq<string>, content: map<string, Bytes>): Option<Bytes> {
    if ids == [] then Some([])
    else
      match Contents(ids[..|ids| - 1], content)
      case None => None
      case Some(front) =>
        if ids[|ids| - 1] in content then Some(front + content[ids[|ids| - 1]]) else None
  }

  /** All nodes that hold a chunk, and all PUTs on the wire, agree on its bytes. */
  ghost predicate NetOk(net: Net, content: map<string, Bytes>) {
    && Sched.Keyed(net.nodes)
    && (forall addr, id :: id in Held(net.stores, addr) ==> id in content && content[id] == Held(net.stores, addr)[id])
    && (forall p :: p in net.wire ==> p.chunkID in content && content[p.chunkID] == p.data)
  }

  /** A chunk prepared by session k and not yet part of any version. */
  predicate Mine(c: Cluster, k: nat, id: string) {
    id in c.w.h.prepared && id !in c.j.listed && id in c.up.owner && c.up.owner[id] == k
  }

  ghost predicate DoneOk(c: Cluster, k: nat, u: Upload) {
    && |u.done| <= |u.pieces| && Distinct(u.done)
    && forall i :: 0 <= i < |u.done| ==>
         Mine(c, k, u.done[i]) && u.done[i] in c.j.content && c.j.content[u.done[i]] == u.pieces[i]
  }

  ghost predicate CurrentOk(c: Cluster, k: nat, u: Upload) {
    u.current.Some? ==>
      var f := u.current.value;
      && |u.done| < |u.pieces| && Mine(c, k, f.chunkID) && f.chunkID !in u.done
      && (f.chunkID in c.j.content ==> c.j.content[f.chunkID] == u.pieces[|u.done|])
      && f.acked <= |f.addrs|
      && (f.acked > 0 ==> f.chunkID in c.j.content)
      && (forall i :: 0 <= i < f.acked ==>
            f.chunkID in Held(c.net.stores, f.addrs[i]) || (f.addrs[i], f.chunkID) in c.j.erased)
  }

  ghost predicate UploadOk(c: Cluster, k: nat, u: Upload) {
    k < c.up.count && DoneOk(c, k, u) && CurrentOk(c, k, u)
      && (u.current.Some? ==> u.current.value.addrs != [])
  }

  ghost predicate SessionsOk(c: Cluster) {
    forall k :: k in c.up.open ==> UploadOk(c, k, c.up.open[k])
  }

  ghost predicate Stamped(versionID: string, clock: nat) {
    exists m: nat :: m <= clock && versionID == VersionID(m)
  }

  ghost predicate JournalOk(c: Cluster) {
    && c.w.h.deleted == ListedBy(c.j.removed)
    && c.w.h.deleted <= c.j.listed <= c.w.h.prepared.Keys
    && c.up.owner.Keys <= c.w.h.prepared.Keys
    && c.j.content.Keys <= c.w.h.prepared.Keys
    && (forall id :: id in c.up.owner ==> c.up.owner[id] < c.up.count)
    && (forall x :: x in c.j.truth ==> Stamped(x, c.j.clock))
  }

  /** The version is in some list or in the log. */
  ghost predicate InCatalog(cat: Catalog, v: Version) {
    (exists f :: f in cat.versions && v in cat.versions[f]) || (exists e :: e in cat.log && e.value == v)
  }

  ghost predicate VersionOk(v: Version, j: Journal) {
    && (forall id :: id in v.chunkIDs ==> id in j.listed)
    && Stamped(v.versionID, j.clock)
    && (v.versionID in j.truth ==> Contents(v.chunkIDs, j.content) == Some(j.truth[v.versionID]))
  }

  ghost predicate VersionsOk(cat: Catalog, j: Journal) {
    forall v :: InCatalog(cat, v) ==> VersionOk(v, j)
  }

  ghost predicate Inv(c: Cluster) {
    S.Inv(c.w) && NetOk(c.net, c.j.content) && SessionsOk(c) && JournalOk(c) && VersionsOk(c.cat, c.j)
  }
}
