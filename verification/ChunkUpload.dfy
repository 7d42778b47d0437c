/** Writing chunks: the client's uploadChunk, which writes every replica itself, and the server's
    upload handler, which writes one and leaves the rest to replication. */
module ChunkUpload {
  import opened Sequences
  import opened Keys
  import opened Records
  import opened Download
  import opened StorageManagement
  import S = StorageProtocol
  import Sched = Scheduler
  import Chunker
  import Cluster

  /** A PUT as its sender sees it. Without an answer the data may or may not have been stored. */
  datatype Reply = Acked | Failed(stored: bool)

  function After(stores: Stores, addr: string, chunkID: string, data: Bytes, put: Reply): Stores {
    if put.Acked? || put.stored then Cluster.Store(stores, addr, chunkID, data) else stores
  }

  /** Nothing but copies of this chunk was added. */
  ghost predicate OnlyAdds(stores: Stores, stores': Stores, chunkID: string, data: Bytes) {
    && (forall a, id :: id in Held(stores', a) ==>
          (id == chunkID && Held(stores', a)[id] == data)
          || (id in Held(stores, a) && Held(stores', a)[id] == Held(stores, a)[id]))
    && (forall a, id :: id in Held(stores, a) ==> id in Held(stores', a))
  }

  lemma StoreAllAdds(stores: Stores, addrs: seq<string>, chunkID: string, data: Bytes)
    ensures OnlyAdds(stores, StoreAll(stores, addrs, chunkID, data), chunkID, data)
  {
    forall a, id ensures var s' := StoreAll(stores, addrs, chunkID, data);
      (id in Held(s', a) ==> (id == chunkID && Held(s', a)[id] == data)
                             || (id in Held(stores, a) && Held(s', a)[id] == Held(stores, a)[id]))
      && (id in Held(stores, a) ==> id in Held(s', a))
    {
      StoreAllSpec(stores, addrs, chunkID, data, a, id);
    }
  }

  lemma NothingAdded(stores: Stores, chunkID: string, data: Bytes)
    ensures OnlyAdds(stores, stores, chunkID, data)
  {
  }

  lemma AfterAdds(s: Stores, s1: Stores, addr: string, chunkID: string, data: Bytes, put: Reply)
    requires OnlyAdds(s, s1, chunkID, data)
    ensures OnlyAdds(s, After(s1, addr, chunkID, data, put), chunkID, data)
  {
  }

  /** The data stored at each address, in order. */
  function StoreAll(stores: Stores, addrs: seq<string>, chunkID: string, data: Bytes): Stores
    decreases |addrs|
  {
    if addrs == [] then stores
    else Cluster.Store(StoreAll(stores, addrs[..|addrs| - 1], chunkID, data), addrs[|addrs| - 1], chunkID, data)
  }

  /** Every listed address then holds the data; nothing else changes. */
  lemma {:induction false} StoreAllSpec(stores: Stores, addrs: seq<string>, chunkID: string, data: Bytes, addr: string, id: string)
    ensures var after := Held(StoreAll(stores, addrs, chunkID, data), addr);
            && (id in after <==> id in Held(stores, addr) || (id == chunkID && addr in addrs))
            && (id in after ==> after[id] == if id == chunkID && addr in addrs then data else Held(stores, addr)[id])
    decreases |addrs|
  {
    if addrs != [] {
      StoreAllSpec(stores, addrs[..|addrs| - 1], chunkID, data, addr, id);
      assert addrs == addrs[..|addrs| - 1] + [addrs[|addrs| - 1]];
    }
  }

  // ------------------------------------------------------ what an upload does

  /** One chunk that was written and confirmed. */
  datatype Sent = Sent(data: Bytes, sel: seq<NodeRecord>, stamp: nat, hash: string)

  function SentID(fileID: string, e: Sent): string { ChunkKey(fileID, e.stamp) }

  /** The addresses the uploader writes to: the server's handler stops at the first. */
  function Reached(viaServer: bool, addrs: seq<string>): seq<string> {
    if viaServer && addrs != [] then addrs[..1] else addrs
  }

  function PrepareOp(fileID: string, requested: int, e: Sent): S.Op {
    S.Prepare(fileID, |e.data|, requested, Sched.NodeIDs(e.sel), e.stamp)
  }

  function StorageAfter(s: S.Storage, fileID: string, requested: int, e: Sent): S.Storage {
    S.Apply(S.Apply(s, PrepareOp(fileID, requested, e)), S.Confirm(SentID(fileID, e), e.hash))
  }

  function StoresAfter(stores: Stores, fileID: string, viaServer: bool, e: Sent): Stores {
    StoreAll(stores, Reached(viaServer, Cluster.Addresses(e.sel)), SentID(fileID, e), e.data)
  }

  function StorageAfterAll(s: S.Storage, fileID: string, requested: int, sent: seq<Sent>): S.Storage
    decreases |sent|
  {
    if sent == [] then s
    else StorageAfter(StorageAfterAll(s, fileID, requested, sent[..|sent| - 1]), fileID, requested, sent[|sent| - 1])
  }

  function StoresAfterAll(stores: Stores, fileID: string, viaServer: bool, sent: seq<Sent>): Stores
    decreases |sent|
  {
    if sent == [] then stores
    else StoresAfter(StoresAfterAll(stores, fileID, viaServer, sent[..|sent| - 1]), fileID, viaServer, sent[|sent| - 1])
  }

  function SentIDs(fileID: string, sent: seq<Sent>): (ids: seq<string>)
    ensures |ids| == |sent| && forall i :: 0 <= i < |sent| ==> ids[i] == ChunkKey(fileID, sent[i].stamp)
  {
    seq(|sent|, i requires 0 <= i < |sent| => ChunkKey(fileID, sent[i].stamp))
  }

  /** The addresses the uploader did not write to itself. */
  function Others(sent: seq<Sent>): seq<string>
    decreases |sent|
  {
    if sent == [] then []
    else Others(sent[..|sent| - 1]) + Cluster.Addresses(sent[|sent| - 1].sel)[Min(1, |sent[|sent| - 1].sel|)..]
  }

  function Min(a: nat, b: nat): nat { if a < b then a else b }

  lemma SentAppend(s: S.Storage, stores: Stores, fileID: string, requested: int, viaServer: bool, sent: seq<Sent>, e: Sent)
    ensures StorageAfterAll(s, fileID, requested, sent + [e]) == StorageAfter(StorageAfterAll(s, fileID, requested, sent), fileID, requested, e)
    ensures StoresAfterAll(stores, fileID, viaServer, sent + [e]) == StoresAfter(StoresAfterAll(stores, fileID, viaServer, sent), fileID, viaServer, e)
    ensures SentIDs(fileID, sent + [e]) == SentIDs(fileID, sent) + [SentID(fileID, e)]
    ensures Others(sent + [e]) == Others(sent) + Cluster.Addresses(e.sel)[Min(1, |e.sel|)..]
  {
    hide StorageAfter, StoresAfter;
    assert (sent + [e])[..|sent|] == sent && (sent + [e])[|sent|] == e;
  }

  /** A chunk sent by the client reaches every chosen node; one sent by the server's handler only the first. */
  lemma StoredExactly(stores: Stores, fileID: string, viaServer: bool, e: Sent, addr: string, id: string)
    ensures var after := Held(StoresAfter(stores, fileID, viaServer, e), addr);
            var here := id == ChunkKey(fileID, e.stamp)
                        && exists j :: 0 <= j < |e.sel| && (viaServer ==> j == 0) && Address(e.sel[j]) == addr;
            && (id in after <==> id in Held(stores, addr) || here)
            && (id in after ==> after[id] == if here then e.data else Held(stores, addr)[id])
  {
    var addrs := Reached(viaServer, Cluster.Addresses(e.sel));
    StoreAllSpec(stores, addrs, SentID(fileID, e), e.data, addr, id);
    hide StoreAll, Held, Address, ChunkKey;
    if addr in addrs {
      var j :| 0 <= j < |addrs| && addrs[j] == addr;
      assert Address(e.sel[j]) == addr;
    }
    if j :| 0 <= j < |e.sel| && (viaServer ==> j == 0) && Address(e.sel[j]) == addr { assert addrs[j] == addr; }
  }

  /** `addr` belongs to one of the nodes chosen for the chunk, but not the first. */
  predicate NotFirst(e: Sent, addr: string) {
    exists j :: 1 <= j < |e.sel| && Address(e.sel[j]) == addr
  }

  lemma NotFirstAddresses(e: Sent, addr: string)
    ensures addr in Cluster.Addresses(e.sel)[Min(1, |e.sel|)..] <==> NotFirst(e, addr)
  {
    hide Address;
    var more := Cluster.Addresses(e.sel)[Min(1, |e.sel|)..];
    if addr in more {
      var m :| 0 <= m < |more| && more[m] == addr;
      assert Address(e.sel[m + 1]) == addr;
    }
    if j :| 1 <= j < |e.sel| && Address(e.sel[j]) == addr { assert more[j - 1] == addr; }
  }

  lemma InOthers(sent: seq<Sent>, addr: string)
    requires sent != []
    ensures addr in Others(sent) <==> addr in Others(sent[..|sent| - 1]) || NotFirst(sent[|sent| - 1], addr)
  {
    NotFirstAddresses(sent[|sent| - 1], addr);
    hide Cluster.Addresses, NotFirst;
  }

  lemma NoOthers(addr: string)
    ensures addr !in Others([])
  {
  }

  /** The collected addresses are those of all nodes chosen for a chunk but the first. */
  lemma {:induction false} OthersExactly(sent: seq<Sent>, addr: string)
    ensures addr in Others(sent) <==> exists e :: e in sent && NotFirst(e, addr)
    decreases |sent|
  {
    hide *;
    if sent == [] {
      NoOthers(addr);
    } else {
      OthersExactly(sent[..|sent| - 1], addr);
      InOthers(sent, addr);
      assert sent == sent[..|sent| - 1] + [sent[|sent| - 1]];
    }
  }

  /** Chunk e was placed by the scheduler on at least one node. */
  ghost predicate Placed(nodes: map<string, NodeRecord>, requested: int, e: Sent) {
    e.sel != [] && Sched.IsSelection(nodes, S.Wanted(requested), {}, e.sel)
  }

  lemma PreparedKnown(s: S.Storage, fileID: string, requested: int, e: Sent)
    requires e.sel != []
    ensures SentID(fileID, e) in S.Apply(s, PrepareOp(fileID, requested, e)).chunks
  {
  }

  /** The chunk an upload broke off at: how it was placed, and how many of its replicas had
      acknowledged before one did not. */
  datatype Break = Break(e: Sent, acked: nat)

  /** What the failed chunk left on the nodes. */
  function StoresBroken(stores: Stores, fileID: string, b: Break, reply: Reply): Stores {
    if b.acked >= |b.e.sel| then stores
    else
      var addrs := Cluster.Addresses(b.e.sel);
      After(StoreAll(stores, addrs[..b.acked], SentID(fileID, b.e), b.e.data), addrs[b.acked], SentID(fileID, b.e), b.e.data, reply)
  }

  /** No node was chosen, or one of those written to did not acknowledge. */
  ghost predicate BrokeAt(b: Break, viaServer: bool, index: int, put: (int, int) -> Reply) {
    if b.e.sel == [] then b.acked == 0
    else
      && b.acked < |b.e.sel| && (viaServer ==> b.acked == 0)
      && (forall j :: 0 <= j < b.acked ==> put(index, j).Acked?) && put(index, b.acked).Failed?
  }

  // ------------------------------------------------------------ client uploads

  /** The write loop of uploadChunk: it stops at the first replica that does not acknowledge. */
  method PutAll(stores: Stores, addrs: seq<string>, chunkID: string, data: Bytes, index: int, put: (int, int) -> Reply)
    returns (acked: nat, stores': Stores)
    ensures acked <= |addrs| && forall i :: 0 <= i < acked ==> put(index, i).Acked?
    ensures acked < |addrs| ==> put(index, acked).Failed?
    ensures acked == |addrs| ==> stores' == StoreAll(stores, addrs, chunkID, data)
    ensures acked < |addrs| ==>
              stores' == After(StoreAll(stores, addrs[..acked], chunkID, data), addrs[acked], chunkID, data, put(index, acked))
    ensures OnlyAdds(stores, stores', chunkID, data)
  {
    hide OnlyAdds;
    StoreAllAdds(stores, addrs, chunkID, data);
    acked, stores' := 0, stores;
    while acked < |addrs|
      invariant acked <= |addrs| && forall i :: 0 <= i < acked ==> put(index, i).Acked?
      invariant stores' == StoreAll(stores, addrs[..acked], chunkID, data)
    {
      stores' := After(stores', addrs[acked], chunkID, data, put(index, acked));
      if put(index, acked).Failed? {
        StoreAllAdds(stores, addrs[..acked], chunkID, data);
        AfterAdds(stores, StoreAll(stores, addrs[..acked], chunkID, data), addrs[acked], chunkID, data, put(index, acked));
        return;
      }
      assert addrs[..acked + 1][..acked] == addrs[..acked];
      acked := acked + 1;
    }
    assert addrs[..|addrs|] == addrs;
  }

  /** uploadChunk: prepare, write every replica, confirm. It succeeds exactly when a node could be
      chosen and every chosen node acknowledged; a failed write leaves the chunk pending. */
  method UploadChunk(storage: StorageManager, nodes: map<string, NodeRecord>, stores: Stores, fileID: string,
                     data: Bytes, hash: string, requested: int, stamp: nat,
                     index: int, put: (int, int) -> Reply)
    returns (r: Result<string>, stores': Stores, ghost b: Break)
    requires storage.Valid() && Sched.Keyed(nodes)
    modifies storage`chunks, storage`tasks, storage.persist`chunks, storage.chunks.Values
    ensures storage.Valid() && fresh(storage.chunks.Values - old(storage.chunks.Values))
    ensures b.e.data == data && b.e.stamp == stamp && b.e.hash == hash
    ensures Sched.IsSelection(nodes, S.Wanted(requested), {}, b.e.sel)
    ensures r.Ok? <==> b.e.sel != [] && forall i :: 0 <= i < |b.e.sel| ==> put(index, i).Acked?
    ensures r.Ok? ==>
              r.value == SentID(fileID, b.e) && storage.View() == StorageAfter(old(storage.View()), fileID, requested, b.e)
              && stores' == StoresAfter(stores, fileID, false, b.e)
    ensures r.Err? ==>
              BrokeAt(b, false, index, put)
              && storage.View() == S.Apply(old(storage.View()), PrepareOp(fileID, requested, b.e))
              && stores' == StoresBroken(stores, fileID, b, put(index, b.acked))
    ensures OnlyAdds(stores, stores', SentID(fileID, b.e), data)
  {
    hide OnlyAdds, S.Apply, StoreAll, After, StorageManager.Valid, StorageManager.View, Sched.IsSelection, Sched.NodeIDs;
    NothingAdded(stores, ChunkKey(fileID, stamp), data);
    stores' := stores;
    ghost var sel;
    var resp;
    resp, sel := storage.PrepareWrite(nodes, fileID, |data|, requested, stamp);
    b := Break(Sent(data, sel, stamp, hash), 0);
    if resp.NoNodes? { return Err("no node available"), stores, b; }
    assert resp.nodeAddrs == Cluster.Addresses(sel);
    var acked;
    acked, stores' := PutAll(stores, resp.nodeAddrs, resp.chunkID, data, index, put);
    b := Break(b.e, acked);
    if acked < |resp.nodeAddrs| { return Err("write failed"), stores', b; }
    PreparedKnown(old(storage.View()), fileID, requested, b.e);
    var ok := storage.ConfirmWrite(resp.chunkID, hash);
    r := if ok then Ok(resp.chunkID) else Err("confirm failed");
  }

  // ------------------------------------------------------------ whole uploads

  /** What an upload is asked to do, and what the world answers: stamps from the clock, and the
      outcome of the PUT of piece i to its j-th replica. */
  datatype Job = Job(
    fileID: string, viaServer: bool, requested: int, nodes: map<string, NodeRecord>, pieces: seq<Bytes>,
    now: int -> nat, put: (int, int) -> Reply)

  /** Every chunk sent is a piece of the file, placed by the scheduler, stamped by the clock, and
      acknowledged by each replica the uploader writes to. */
  ghost predicate AllSent(job: Job, sent: seq<Sent>) {
    |sent| <= |job.pieces|
    && forall i :: 0 <= i < |sent| ==>
         && sent[i].data == job.pieces[i] && sent[i].stamp == job.now(i)
         && Placed(job.nodes, job.requested, sent[i])
         && Written(job, i, sent[i].sel)
  }

  ghost predicate Written(job: Job, index: int, sel: seq<NodeRecord>) {
    sel != [] && forall j :: 0 <= j < |sel| && (job.viaServer ==> j == 0) ==> job.put(index, j).Acked?
  }

  /** The upload has written and confirmed the chunks `sent`, and nothing else. */
  ghost predicate Progress(job: Job, s0: S.Storage, stores0: Stores, s: S.Storage, stores: Stores,
                           sent: seq<Sent>, ids: seq<string>, others: seq<string>)
  {
    && AllSent(job, sent)
    && ids == SentIDs(job.fileID, sent)
    && (job.viaServer ==> others == Others(sent))
    && s == StorageAfterAll(s0, job.fileID, job.requested, sent)
    && stores == StoresAfterAll(stores0, job.fileID, job.viaServer, sent)
  }

  lemma StartProgress(job: Job, s: S.Storage, stores: Stores)
    ensures Progress(job, s, stores, s, stores, [], [], [])
  {
  }

  lemma MoreProgress(job: Job, s0: S.Storage, stores0: Stores, s: S.Storage, stores: Stores,
                     sent: seq<Sent>, ids: seq<string>, others: seq<string>, e: Sent, rest: seq<string>)
    requires Progress(job, s0, stores0, s, stores, sent, ids, others) && |sent| < |job.pieces|
    requires e.data == job.pieces[|sent|] && e.stamp == job.now(|sent|)
    requires Written(job, |sent|, e.sel) && Sched.IsSelection(job.nodes, S.Wanted(job.requested), {}, e.sel)
    requires job.viaServer ==> rest == Cluster.Addresses(e.sel)[Min(1, |e.sel|)..]
    ensures Progress(job, s0, stores0, StorageAfter(s, job.fileID, job.requested, e), StoresAfter(stores, job.fileID, job.viaServer, e),
                     sent + [e], ids + [SentID(job.fileID, e)], others + rest)
  {
    hide StorageAfter, StoresAfter, StorageAfterAll, StoresAfterAll, SentIDs, Others, AllSent, Written, Cluster.Addresses, Sched.IsSelection;
    SentAppend(s0, stores0, job.fileID, job.requested, job.viaServer, sent, e);
    OneMoreSent(job, sent, e);
  }

  lemma OneMoreSent(job: Job, sent: seq<Sent>, e: Sent)
    requires AllSent(job, sent) && |sent| < |job.pieces|
    requires e.data == job.pieces[|sent|] && e.stamp == job.now(|sent|)
    requires Written(job, |sent|, e.sel) && Sched.IsSelection(job.nodes, S.Wanted(job.requested), {}, e.sel)
    ensures AllSent(job, sent + [e])
  {
    hide Sched.IsSelection;
    assert Placed(job.nodes, job.requested, e);
    hide Written, Placed;
  }

  /** The upload has written and confirmed the chunks `sent`, then broke off at the next piece,
      which stays pending. */
  ghost predicate Stopped(job: Job, s0: S.Storage, stores0: Stores, s: S.Storage, stores: Stores, sent: seq<Sent>, b: Break) {
    && AllSent(job, sent) && |sent| < |job.pieces|
    && b.e.data == job.pieces[|sent|] && b.e.stamp == job.now(|sent|)
    && Sched.IsSelection(job.nodes, S.Wanted(job.requested), {}, b.e.sel)
    && BrokeAt(b, job.viaServer, |sent|, job.put)
    && s == S.Apply(StorageAfterAll(s0, job.fileID, job.requested, sent), PrepareOp(job.fileID, job.requested, b.e))
    && stores == StoresBroken(StoresAfterAll(stores0, job.fileID, job.viaServer, sent), job.fileID, b, job.put(|sent|, b.acked))
  }

  /** The pieces the client uploads: the file's, encrypted one by one when encryption is on. */
  function Sealed(pieces: seq<Bytes>, seal: (int, Bytes) -> Bytes): (r: seq<Bytes>)
    ensures |r| == |pieces| && forall i :: 0 <= i < |r| ==> r[i] == seal(i, pieces[i])
  {
    seq(|pieces|, i requires 0 <= i < |pieces| => seal(i, pieces[i]))
  }

  /** The chunk loop of the client's Upload. On success every piece was written to every replica the
      scheduler chose for it; on failure the pieces before |sent| were completed and the next one was not. */
  method UploadChunks(storage: StorageManager, nodes: map<string, NodeRecord>, stores: Stores, fileID: string,
                      content: Bytes, chunkSize: nat, requested: int, now: int -> nat,
                      seal: (int, Bytes) -> Bytes, hash: Bytes -> string, put: (int, int) -> Reply)
    returns (r: Result<seq<string>>, stores': Stores, ghost job: Job, ghost sent: seq<Sent>, ghost b: Break)
    requires storage.Valid() && Sched.Keyed(nodes)
    requires 0 < chunkSize <= Chunker.MAX_INT64 && |content| <= Chunker.MAX_INT64
    modifies storage`chunks, storage`tasks, storage.persist`chunks, storage.chunks.Values
    ensures storage.Valid() && fresh(storage.chunks.Values - old(storage.chunks.Values))
    ensures job == Job(fileID, false, requested, nodes, Sealed(Chunker.PiecesRead(content, chunkSize), seal), now, put)
    ensures r.Ok? <==> |sent| == |job.pieces|
    ensures r.Ok? ==> Progress(job, old(storage.View()), stores, storage.View(), stores', sent, r.value, [])
    ensures r.Err? ==> Stopped(job, old(storage.View()), stores, storage.View(), stores', sent, b)
  {
    hide *;
    var chunkCount := Chunker.CountFor(|content|, chunkSize);
    Chunker.PiecesCounted(content, chunkSize);
    job := Job(fileID, false, requested, nodes, Sealed(Chunker.PiecesRead(content, chunkSize), seal), now, put);
    var chunkIDs: seq<string> := [];
    ghost var none: seq<string> := [];
    sent, stores' := [], stores;
    var i := 0;
    b := Break(Sent([], [], 0, ""), 0);
    StartProgress(job, storage.View(), stores);
    while i < chunkCount
      invariant 0 <= i && i == |sent| && i <= |job.pieces|
      invariant storage.Valid() && fresh(storage.chunks.Values - old(storage.chunks.Values))
      invariant Progress(job, old(storage.View()), stores, storage.View(), stores', sent, chunkIDs, [])
    {
      var chunkData := Chunker.ReadPiece(content, chunkSize, i);
      var piece;
      ghost var s1, stores1 := storage.View(), stores';
      piece, stores', b := UploadChunk(storage, nodes, stores', fileID, seal(i, chunkData), hash(chunkData), requested, now(i), i, put);
      if piece.Err? {
        ItStopped(job, old(storage.View()), stores, s1, stores1, sent, chunkIDs, none, b);
        return Err(piece.error), stores', job, sent, b;
      }
      ItWorked(job, i, b.e.sel);
      MoreProgress(job, old(storage.View()), stores, s1, stores1, sent, chunkIDs, none, b.e, none);
      assert none + none == none;
      chunkIDs := chunkIDs + [piece.value];
      sent := sent + [b.e];
      i := i + 1;
    }
    return Ok(chunkIDs), stores', job, sent, b;
  }

  lemma ItWorked(job: Job, index: int, sel: seq<NodeRecord>)
    requires sel != [] && forall j :: 0 <= j < |sel| && (job.viaServer ==> j == 0) ==> job.put(index, j).Acked?
    ensures Written(job, index, sel)
  {
  }

  lemma ItStopped(job: Job, s0: S.Storage, stores0: Stores, s: S.Storage, stores: Stores,
                  sent: seq<Sent>, ids: seq<string>, others: seq<string>, b: Break)
    requires Progress(job, s0, stores0, s, stores, sent, ids, others) && |sent| < |job.pieces|
    requires b.e.data == job.pieces[|sent|] && b.e.stamp == job.now(|sent|)
    requires Sched.IsSelection(job.nodes, S.Wanted(job.requested), {}, b.e.sel)
    requires BrokeAt(b, job.viaServer, |sent|, job.put)
    ensures Stopped(job, s0, stores0, S.Apply(s, PrepareOp(job.fileID, job.requested, b.e)),
                    StoresBroken(stores, job.fileID, b, job.put(|sent|, b.acked)), sent, b)
  {
    hide Sched.IsSelection, AllSent, S.Apply, StoresBroken, StorageAfterAll, StoresAfterAll, BrokeAt;
  }

  // ------------------------------------------------------------ server uploads

  lemma FirstOnly(stores: Stores, fileID: string, e: Sent, addrs: seq<string>)
    requires e.sel != [] && addrs == Cluster.Addresses(e.sel)
    ensures StoresAfter(stores, fileID, true, e) == After(stores, addrs[0], SentID(fileID, e), e.data, Acked)
    ensures addrs[1..] == addrs[Min(1, |e.sel|)..]
  {
    assert Reached(true, addrs) == [addrs[0]];
    assert StoreAll(stores, [], SentID(fileID, e), e.data) == stores;
    assert [addrs[0]][..0] == [];
  }

  lemma FirstBroken(stores: Stores, fileID: string, b: Break, addrs: seq<string>, reply: Reply)
    requires b.e.sel != [] && b.acked == 0 && addrs == Cluster.Addresses(b.e.sel)
    ensures StoresBroken(stores, fileID, b, reply) == After(stores, addrs[0], SentID(fileID, b.e), b.e.data, reply)
  {
    assert StoreAll(stores, [], SentID(fileID, b.e), b.e.data) == stores;
    assert addrs[..0] == [];
  }

  /** The upload as the cluster's bookkeeping sees it, for the records saved at the end. */
  function ServerUpload(fileID: string, content: Bytes, others: seq<string>): Cluster.Upload {
    Cluster.Upload(fileID, true, content, [], [], None, others)
  }

  /** One chunk of uploadFile: only the first node gets the data from the server; the addresses of
      the others are collected. */
  method SendChunk(storage: StorageManager, nodes: map<string, NodeRecord>, stores: Stores, fileID: string,
                   data: Bytes, hash: string, requested: int, stamp: nat, index: int, put: (int, int) -> Reply)
    returns (r: Result<(string, seq<string>)>, stores': Stores, ghost b: Break)
    requires storage.Valid() && Sched.Keyed(nodes)
    modifies storage`chunks, storage`tasks, storage.persist`chunks, storage.chunks.Values
    ensures storage.Valid() && fresh(storage.chunks.Values - old(storage.chunks.Values))
    ensures b.e.data == data && b.e.stamp == stamp && b.e.hash == hash
    ensures Sched.IsSelection(nodes, S.Wanted(requested), {}, b.e.sel)
    ensures r.Ok? <==> b.e.sel != [] && put(index, 0).Acked?
    ensures r.Ok? ==>
              r.value == (SentID(fileID, b.e), Cluster.Addresses(b.e.sel)[Min(1, |b.e.sel|)..])
              && storage.View() == StorageAfter(old(storage.View()), fileID, requested, b.e)
              && stores' == StoresAfter(stores, fileID, true, b.e)
    ensures r.Err? ==>
              BrokeAt(b, true, index, put)
              && storage.View() == S.Apply(old(storage.View()), PrepareOp(fileID, requested, b.e))
              && stores' == StoresBroken(stores, fileID, b, put(index, b.acked))
    ensures OnlyAdds(stores, stores', SentID(fileID, b.e), data)
  {
    hide OnlyAdds, S.Apply, StoreAll, After, StoresAfter, StorageManager.Valid, StorageManager.View;
    NothingAdded(stores, ChunkKey(fileID, stamp), data);
    stores' := stores;
    ghost var sel;
    var resp;
    resp, sel := storage.PrepareWrite(nodes, fileID, |data|, requested, stamp);
    b := Break(Sent(data, sel, stamp, hash), 0);
    if resp.NoNodes? { return Err("no node available"), stores, b; }
    assert resp.nodeAddrs == Cluster.Addresses(sel);
    FirstOnly(stores, fileID, b.e, resp.nodeAddrs);
    FirstBroken(stores, fileID, b, resp.nodeAddrs, put(index, 0));
    AfterAdds(stores, stores, resp.nodeAddrs[0], resp.chunkID, data, put(index, 0));
    stores' := After(stores, resp.nodeAddrs[0], resp.chunkID, data, put(index, 0));
    if put(index, 0).Failed? { return Err("write failed"), stores', b; }
    PreparedKnown(old(storage.View()), fileID, requested, b.e);
    var ok := storage.ConfirmWrite(resp.chunkID, hash);
    r := if ok then Ok((resp.chunkID, resp.nodeAddrs[1..])) else Err("confirm failed");
  }

  /** The body of that loop: read a buffer and send what was read. */
  method SendNext(storage: StorageManager, nodes: map<string, NodeRecord>, stores: Stores, fileID: string,
                  content: Bytes, chunkSize: nat, pos: nat, buffer: array<Byte>, requested: int, stamp: nat,
                  i: nat, hash: Bytes -> string, put: (int, int) -> Reply)
    returns (n: nat, r: Result<(string, seq<string>)>, stores': Stores, ghost b: Break)
    requires storage.Valid() && Sched.Keyed(nodes)
    requires chunkSize > 0 && i < |Chunker.Split(content, chunkSize)| && buffer.Length == chunkSize
    requires pos == Chunker.Position(content, chunkSize, i)
    modifies buffer, storage`chunks, storage`tasks, storage.persist`chunks, storage.chunks.Values
    ensures n > 0 && pos + n == Chunker.Position(content, chunkSize, i + 1)
    ensures storage.Valid() && fresh(storage.chunks.Values - old(storage.chunks.Values))
    ensures b.e.data == Chunker.Split(content, chunkSize)[i] && b.e.stamp == stamp
    ensures Sched.IsSelection(nodes, S.Wanted(requested), {}, b.e.sel)
    ensures r.Ok? <==> b.e.sel != [] && put(i, 0).Acked?
    ensures r.Ok? ==>
              r.value == (SentID(fileID, b.e), Cluster.Addresses(b.e.sel)[Min(1, |b.e.sel|)..])
              && storage.View() == StorageAfter(old(storage.View()), fileID, requested, b.e)
              && stores' == StoresAfter(stores, fileID, true, b.e)
    ensures r.Err? ==>
              BrokeAt(b, true, i, put)
              && storage.View() == S.Apply(old(storage.View()), PrepareOp(fileID, requested, b.e))
              && stores' == StoresBroken(stores, fileID, b, put(i, b.acked))
  {
    hide *;
    n := Chunker.ReadNext(content, chunkSize, i, pos, buffer);
    var chunkData := buffer[..n];
    r, stores', b := SendChunk(storage, nodes, stores, fileID, chunkData, hash(chunkData), requested, stamp, i, put);
  }

  /** The chunk loop of uploadFile, reading the temporary file buffer by buffer. It cuts the file
      exactly as the client's chunker would, and its early break on an empty read never happens. */
  method SendChunks(storage: StorageManager, nodes: map<string, NodeRecord>, stores: Stores, fileID: string,
                    content: Bytes, requested: int, now: int -> nat, hash: Bytes -> string, put: (int, int) -> Reply)
    returns (r: Result<(seq<string>, seq<string>)>, stores': Stores, ghost job: Job, ghost sent: seq<Sent>, ghost b: Break)
    requires storage.Valid() && Sched.Keyed(nodes)
    requires content != [] && |content| <= Chunker.MAX_INT64
    modifies storage`chunks, storage`tasks, storage.persist`chunks, storage.chunks.Values
    ensures storage.Valid() && fresh(storage.chunks.Values - old(storage.chunks.Values))
    ensures job == Job(fileID, true, requested, nodes, Chunker.PiecesRead(content, Chunker.ChunkSize(|content|)), now, put)
    ensures Chunker.CutAsTable(content, job.pieces)
    ensures r.Ok? <==> |sent| == |job.pieces|
    ensures r.Ok? ==> Progress(job, old(storage.View()), stores, storage.View(), stores', sent, r.value.0, r.value.1)
    ensures r.Err? ==> Stopped(job, old(storage.View()), stores, storage.View(), stores', sent, b)
  {
    hide *;
    var chunkSize := Chunker.ChunkSize(|content|);
    Chunker.SizeInRange(content);
    Chunker.CutBySize(content);
    var chunkCount := Chunker.CountFor(|content|, chunkSize);
    Chunker.PiecesCounted(content, chunkSize);
    job := Job(fileID, true, requested, nodes, Chunker.PiecesRead(content, chunkSize), now, put);
    var chunkIDs: seq<string>, allNodeIDs: seq<string> := [], [];
    sent, stores' := [], stores;
    var buffer := new Byte[chunkSize];
    var pos, i := 0, 0;
    b := Break(Sent([], [], 0, ""), 0);
    StartProgress(job, storage.View(), stores);
    while i < chunkCount
      invariant 0 <= i && i == |sent| && i <= |job.pieces|
      invariant pos == Chunker.Position(content, chunkSize, i)
      invariant storage.Valid() && fresh(storage.chunks.Values - old(storage.chunks.Values))
      invariant Progress(job, old(storage.View()), stores, storage.View(), stores', sent, chunkIDs, allNodeIDs)
    {
      ghost var s1, stores1 := storage.View(), stores';
      var n, piece;
      Chunker.PiecesAreCut(content, chunkSize, i);
      n, piece, stores', b := SendNext(storage, nodes, stores', fileID, content, chunkSize, pos, buffer, requested, now(i), i, hash, put);
      if n == 0 { break; }
      if piece.Err? {
        ItStopped(job, old(storage.View()), stores, s1, stores1, sent, chunkIDs, allNodeIDs, b);
        return Err(piece.error), stores', job, sent, b;
      }
      ItWorked(job, i, b.e.sel);
      MoreProgress(job, old(storage.View()), stores, s1, stores1, sent, chunkIDs, allNodeIDs, b.e, piece.value.1);
      chunkIDs, allNodeIDs := chunkIDs + [piece.value.0], allNodeIDs + piece.value.1;
      sent := sent + [b.e];
      pos, i := pos + n, i + 1;
    }
    return Ok((chunkIDs, allNodeIDs)), stores', job, sent, b;
  }
}
