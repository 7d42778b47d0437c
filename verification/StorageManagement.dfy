/** The storage manager as it runs: a map of chunk objects updated in place, mirrored to the
    persistence manager, with replication goroutines finishing later. Each method is proved to
    perform one step of the chunk protocol. */
module StorageManagement {
  import opened Sequences
  import opened Keys
  import opened Records
  import opened Bucket
  import opened Persistence
  import S = StorageProtocol
  import Sched = Scheduler

  class ChunkInfo {
    const chunkID: string
    const fileID: string
    var size: int
    var hash: string
    var replicas: seq<string>
    var status: ChunkStatus

    function View(): Chunk
      reads this
    {
      Chunk(chunkID, fileID, size, hash, replicas, status)
    }

    constructor (c: Chunk)
      ensures View() == c
    {
      chunkID, fileID, size, hash, replicas, status := c.chunkID, c.fileID, c.size, c.hash, c.replicas, c.status;
    }
  }

  /** The records a map of chunk objects holds. */
  ghost function Views(chunks: map<string, ChunkInfo>): map<string, Chunk>
    reads chunks.Values
  {
    map k | k in chunks :: chunks[k].View()
  }

  datatype WriteResponse =
    | Prepared(chunkID: string, nodes: seq<string>, nodeAddrs: seq<string>)
    | NoNodes

  /** The addresses of the listed nodes the server still knows, in order. */
  function KnownAddresses(nodes: map<string, NodeRecord>, ids: seq<string>): seq<string> {
    if ids == [] then []
    else (if ids[0] in nodes then [Address(nodes[ids[0]])] else []) + KnownAddresses(nodes, ids[1..])
  }

  lemma {:induction false} KnownAddressesAppend(nodes: map<string, NodeRecord>, ids: seq<string>, id: string)
    ensures KnownAddresses(nodes, ids + [id])
            == KnownAddresses(nodes, ids) + if id in nodes then [Address(nodes[id])] else []
  {
    if ids != [] {
      assert (ids + [id])[1..] == ids[1..] + [id];
      KnownAddressesAppend(nodes, ids[1..], id);
    }
  }

  /** Nodes the server does not know are skipped, wherever they stand in the list. */
  lemma {:induction false} UnknownSkipped(nodes: map<string, NodeRecord>, before: seq<string>, id: string, after: seq<string>)
    requires id !in nodes
    ensures KnownAddresses(nodes, before + [id] + after) == KnownAddresses(nodes, before + after)
  {
    if before == [] {
      assert before + [id] + after == [id] + after && before + after == after;
      assert ([id] + after)[1..] == after;
    } else {
      assert (before + [id] + after)[1..] == before[1..] + [id] + after;
      assert (before + after)[1..] == before[1..] + after;
      UnknownSkipped(nodes, before[1..], id, after);
    }
  }

  /** Nodes it knows are addressed one by one, in the order of the list. */
  lemma {:induction false} KnownAddressed(nodes: map<string, NodeRecord>, ids: seq<string>)
    requires forall id :: id in ids ==> id in nodes
    ensures |KnownAddresses(nodes, ids)| == |ids|
    ensures forall i :: 0 <= i < |ids| ==> KnownAddresses(nodes, ids)[i] == Address(nodes[ids[i]])
  {
    if ids != [] {
      assert ids[0] in ids;
      assert forall id :: id in ids[1..] ==> id in ids;
      KnownAddressed(nodes, ids[1..]);
    }
  }

  /** The loop of PrepareWrite over the chosen nodes. */
  method Describe(selected: seq<NodeRecord>) returns (nodeIDs: seq<string>, nodeAddrs: seq<string>)
    ensures nodeIDs == Sched.NodeIDs(selected)
    ensures |nodeAddrs| == |selected| && forall i :: 0 <= i < |selected| ==> nodeAddrs[i] == Address(selected[i])
  {
    nodeIDs, nodeAddrs := [], [];
    for i := 0 to |selected|
      invariant |nodeIDs| == |nodeAddrs| == i
      invariant forall j :: 0 <= j < i ==> nodeIDs[j] == selected[j].nodeID && nodeAddrs[j] == Address(selected[j])
    {
      nodeIDs := nodeIDs + [selected[i].nodeID];
      nodeAddrs := nodeAddrs + [Address(selected[i])];
    }
  }

  /** The loop over node IDs in DeleteChunk and ReplicateChunk: those no longer registered are skipped. */
  method ResolveAddresses(nodes: map<string, NodeRecord>, replicas: seq<string>) returns (asked: seq<string>)
    ensures asked == KnownAddresses(nodes, replicas)
  {
    asked := [];
    for i := 0 to |replicas|
      invariant asked == KnownAddresses(nodes, replicas[..i])
    {
      KnownAddressesAppend(nodes, replicas[..i], replicas[i]);
      assert replicas[..i + 1] == replicas[..i] + [replicas[i]];
      if replicas[i] in nodes { asked := asked + [Address(nodes[replicas[i]])]; }
    }
    assert replicas[..|replicas|] == replicas;
  }

  class StorageManager {
    const persist: PersistenceManager
    var chunks: map<string, ChunkInfo>
    var tasks: multiset<S.Task>
    var nodes: map<string, NodeRecord>

    ghost predicate Valid()
      reads this, persist, chunks.Values
    {
      persist.Valid() && forall k :: k in chunks ==> chunks[k].chunkID == k
    }

    /** The protocol state this manager is in. */
    ghost function View(): S.Storage
      reads this, persist, chunks.Values
    {
      S.Storage(Views(chunks), AsMap(persist.chunks), tasks)
    }

    constructor (persist: PersistenceManager)
      requires persist.Valid()
      ensures Valid() && this.persist == persist && chunks == map[] && tasks == multiset{} && nodes == map[]
    {
      this.persist := persist;
      chunks, tasks, nodes := map[], multiset{}, map[];
    }

    method UpdateNodes(nodes: map<string, NodeRecord>)
      modifies this`nodes
      ensures this.nodes == nodes
    {
      this.nodes := nodes;
    }

    /** PrepareWrite: place the replicas and record a pending chunk, in memory and on disk. */
    method PrepareWrite(serverNodes: map<string, NodeRecord>, fileID: string, size: int, requested: int, stamp: nat)
      returns (resp: WriteResponse, ghost sel: seq<NodeRecord>)
      requires Valid() && Sched.Keyed(serverNodes)
      modifies this`chunks, persist`chunks
      ensures Valid() && fresh(chunks.Values - old(chunks.Values))
      ensures Sched.IsSelection(serverNodes, S.Wanted(requested), {}, sel)
      ensures Sched.IsSelection(serverNodes, if requested == 0 then 3 else requested, {}, sel)
      ensures sel != [] ==>
                resp.Prepared? && resp.chunkID == fileID + "_chunk_" + Decimal(stamp)
                && (forall i :: 0 <= i < |resp.nodeAddrs| && i < |sel| && sel[i].port >= 0 ==>
                      resp.nodeAddrs[i] == sel[i].ip + ":" + Decimal(sel[i].port))
                && View().chunks == old(View()).chunks[resp.chunkID := Chunk(resp.chunkID, fileID, size, "", resp.nodes, Pending)]
                && View().bucket == old(View()).bucket[resp.chunkID := Chunk(resp.chunkID, fileID, size, "", resp.nodes, Pending)]
      ensures View() == S.Apply(old(View()), S.Prepare(fileID, size, requested, Sched.NodeIDs(sel), stamp))
      ensures if sel == [] then resp == NoNodes
              else resp.Prepared? && resp.chunkID == ChunkKey(fileID, stamp) && resp.nodes == Sched.NodeIDs(sel)
                   && |resp.nodeAddrs| == |sel| && forall i :: 0 <= i < |sel| ==> resp.nodeAddrs[i] == Address(sel[i])
    {
      var replicas := if requested == 0 then 3 else requested;
      var selected := Sched.SelectNodes(serverNodes, replicas, []);
      assert Elements<string>([]) == {};
      sel := selected;
      if |selected| == 0 { return NoNodes, sel; }
      var chunkID := ChunkKey(fileID, stamp);
      var nodeIDs, nodeAddrs := Describe(selected);
      assert nodeIDs == [] ==> selected == [];
      Record(Chunk(chunkID, fileID, size, "", nodeIDs, Pending));
      hide *;
      resp := Prepared(chunkID, nodeIDs, nodeAddrs);
    }

    /** A new chunk object enters the map and the bucket. */
    method Record(c: Chunk)
      requires Valid()
      modifies this`chunks, persist`chunks
      ensures Valid() && fresh(chunks.Values - old(chunks.Values))
      ensures View() == old(View()).Save(c)
    {
      hide Ordered, KeyedChunks, KeyedNodes, KeyedFiles, AsMap;
      var chunk := new ChunkInfo(c);
      chunks := chunks[c.chunkID := chunk];
      persist.SaveChunk(chunk.View());
      assert Views(chunks) == old(Views(chunks))[c.chunkID := c];
    }

    /** ConfirmWrite: mark the chunk in place, save it, and start its replication. */
    method ConfirmWrite(chunkID: string, hash: string) returns (ok: bool)
      requires Valid()
      modifies this`tasks, persist`chunks, chunks.Values
      ensures Valid() && chunks == old(chunks)
      ensures ok <==> chunkID in old(View()).chunks
      ensures View() == S.Apply(old(View()), S.Confirm(chunkID, hash))
      ensures ok ==>
                var c := old(View()).chunks[chunkID].(status := Success, hash := hash);
                && View().chunks == old(View()).chunks[chunkID := c] && View().bucket == old(View()).bucket[c.chunkID := c]
                && tasks == old(tasks) + if |c.replicas| > 1 && c.replicas[0] != ""
                                         then multiset{S.Task(chunkID, c.replicas[0], c.replicas[1..])} else multiset{}
    {
      hide Ordered, KeyedChunks, KeyedNodes, KeyedFiles, AsMap;
      if chunkID !in chunks { return false; }
      var chunk := chunks[chunkID];
      chunk.status := Success;
      chunk.hash := hash;
      var targetNodeIDs: seq<string>, sourceNodeID := [], "";
      if |chunk.replicas| > 0 {
        sourceNodeID := chunk.replicas[0];
        targetNodeIDs := chunk.replicas[1..];
      }
      persist.SaveChunk(chunk.View());
      if |targetNodeIDs| > 0 && sourceNodeID != "" {
        tasks := tasks + multiset{S.Task(chunkID, sourceNodeID, targetNodeIDs)};
      }
      ok := true;
      assert Views(chunks) == old(Views(chunks))[chunkID := chunk.View()];
    }

    /** The end of a replication goroutine. On failure it takes the lock, looks the chunk up
        again and degrades it only if it is still there. */
    method FinishReplication(task: S.Task, failed: bool)
      requires Valid() && task in tasks
      modifies this`tasks, persist`chunks, chunks.Values
      ensures Valid() && chunks == old(chunks)
      ensures View() == S.Apply(old(View()), if failed then S.TaskFailed(task) else S.TaskDone(task))
      ensures tasks == old(tasks) - multiset{task}
      ensures failed && task.chunkID in chunks ==>
                var c := old(View()).chunks[task.chunkID].(status := Degraded);
                View().chunks == old(View()).chunks[task.chunkID := c] && View().bucket == old(View()).bucket[task.chunkID := c]
      ensures !failed || task.chunkID !in chunks ==> View().chunks == old(View()).chunks && View().bucket == old(View()).bucket
    {
      hide Ordered, KeyedChunks, KeyedNodes, KeyedFiles, AsMap;
      tasks := tasks - multiset{task};
      if failed && task.chunkID in chunks { Degrade(task.chunkID); }
    }

    method Degrade(chunkID: string)
      requires Valid() && chunkID in chunks
      modifies persist`chunks, chunks[chunkID]
      ensures Valid() && View() == old(View()).Save(old(View()).chunks[chunkID].(status := Degraded))
    {
      hide Ordered, KeyedChunks, KeyedNodes, KeyedFiles, AsMap;
      var c := chunks[chunkID];
      c.status := Degraded;
      persist.SaveChunk(c.View());
      assert Views(chunks) == old(Views(chunks))[chunkID := c.View()];
    }

    /** DeleteChunk: forget the chunk, then ask every replica still registered to drop its file. */
    method DeleteChunk(chunkID: string) returns (ok: bool, asked: seq<string>)
      requires Valid()
      modifies this`chunks, persist`chunks
      ensures Valid() && chunks.Values <= old(chunks.Values)
      ensures ok <==> chunkID in old(chunks)
      ensures asked == if ok then KnownAddresses(nodes, old(chunks)[chunkID].replicas) else []
      ensures View() == S.Apply(old(View()), S.Delete(chunkID))
      ensures ok ==> View().chunks == old(View()).chunks - {chunkID} && View().bucket == old(View()).bucket - {chunkID}
    {
      hide Ordered, KeyedChunks, KeyedNodes, KeyedFiles, AsMap;
      if chunkID !in chunks { return false, []; }
      var replicas := chunks[chunkID].replicas;
      chunks := chunks - {chunkID};
      persist.DeleteChunk(chunkID);
      assert Views(chunks) == old(Views(chunks)) - {chunkID};
      asked := ResolveAddresses(nodes, replicas);
      ok := true;
    }

    /** GetChunkStatus hands out a view of the chunk, or an error. */
    method GetChunkStatus(chunkID: string) returns (r: Result<Chunk>)
      requires Valid()
      ensures r.Ok? <==> chunkID in View().chunks
      ensures r.Ok? ==> r.value == View().chunks[chunkID]
    {
      if chunkID !in chunks { return Err("no such chunk"); }
      return Ok(chunks[chunkID].View());
    }

    /** GetChunksByFileID: each of the file's chunks exactly once, in some order. */
    method GetChunksByFileID(fileID: string) returns (found: seq<Chunk>)
      requires Valid()
      ensures forall c :: c in found <==> c.chunkID in View().chunks && View().chunks[c.chunkID] == c && c.fileID == fileID
      ensures forall i, j :: 0 <= i < j < |found| ==> found[i].chunkID != found[j].chunkID
    {
      found := [];
      var left := chunks.Keys;
      while left != {}
        invariant left <= chunks.Keys
        invariant forall c :: c in found <==>
                    c.chunkID in chunks.Keys - left && chunks[c.chunkID].View() == c && c.fileID == fileID
        invariant forall i, j :: 0 <= i < j < |found| ==> found[i].chunkID != found[j].chunkID
        decreases |left|
      {
        var k :| k in left;
        left := left - {k};
        if chunks[k].fileID == fileID {
          var c := chunks[k].View();
          assert forall i :: 0 <= i < |found| ==> found[i] in found;
          found := found + [c];
        }
      }
    }

    /** loadData: after a restart the chunk map is rebuilt from the bucket, one new object per
        record, and no goroutine survives. */
    method Reload()
      requires Valid()
      modifies this`chunks, this`tasks
      ensures Valid() && fresh(chunks.Values)
      ensures View() == S.Apply(old(View()), S.Restart)
      ensures View().chunks == View().bucket == old(View()).bucket && tasks == multiset{}
    {
      var records := persist.LoadChunks();
      AsMapKeyed(persist.chunks);
      hide Ordered, KeyedChunks, KeyedNodes, KeyedFiles, AsMap;
      var loaded := Rebuild(records);
      chunks, tasks := loaded, multiset{};
    }
  }

  /** One new chunk object per record. */
  method Rebuild(records: map<string, Chunk>) returns (chunks: map<string, ChunkInfo>)
    requires forall k :: k in records ==> records[k].chunkID == k
    ensures fresh(chunks.Values) && Views(chunks) == records
    ensures forall k :: k in chunks ==> chunks[k].chunkID == k
  {
    chunks := map[];
    var left := records.Keys;
    while left != {}
      invariant left <= records.Keys && chunks.Keys == records.Keys - left
      invariant forall k :: k in chunks ==> fresh(chunks[k]) && chunks[k].chunkID == k && chunks[k].View() == records[k]
      decreases |left|
    {
      var k :| k in left;
      left := left - {k};
      var c := new ChunkInfo(records[k]);
      chunks := chunks[k := c];
    }
  }

  lemma AsMapKeyed(b: seq<Entry<Chunk>>)
    requires Ordered(b) && KeyedChunks(b)
    ensures forall k :: k in AsMap(b) ==> AsMap(b)[k].chunkID == k
  {
    AsMapKeys(b);
    forall k | k in AsMap(b) ensures AsMap(b)[k].chunkID == k {
      var i :| 0 <= i < |b| && b[i].key == k;
      AsMapAt(b, i);
      assert b[i] in b;
    }
  }
}
