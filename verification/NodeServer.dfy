/** The server's node handlers as they run: node objects updated in place, saved, and shared with
    the storage manager. Each handler is proved to perform one step of the node lifecycle. */
module NodeServer {
  import opened Records
  import opened Bucket
  import opened Persistence
  import opened StorageManagement
  import opened FileManagement
  import opened NodeLifecycle
  import S = StorageProtocol
  import VersionCatalog
  import Sched = Scheduler

  class Node {
    const nodeID: string
    const createdAt: int
    var ip: string
    var port: int
    var status: NodeStatus
    var storagePath: string
    var totalDiskSpace: int
    var allocatedSpace: int
    var usedSpace: int
    var cpu: real
    var memory: real
    var disk: real
    var upload: real
    var download: real
    var onlineRate: real
    var lastHeartbeat: int
    var lastSpeedTest: int
    var configuredAt: int

    function View(): (r: NodeRecord)
      reads this
      ensures r.nodeID == nodeID
    {
      NodeRecord(nodeID, ip, port, status, storagePath, totalDiskSpace, allocatedSpace, usedSpace,
                 cpu, memory, disk, upload, download, onlineRate,
                 lastHeartbeat, lastSpeedTest, configuredAt, createdAt)
    }

    constructor (r: NodeRecord)
      ensures View() == r
    {
      nodeID, createdAt, ip, port, status := r.nodeID, r.createdAt, r.ip, r.port, r.status;
      storagePath, totalDiskSpace, allocatedSpace, usedSpace := r.storagePath, r.totalDiskSpace, r.allocatedSpace, r.usedSpace;
      cpu, memory, disk, upload, download, onlineRate := r.cpu, r.memory, r.disk, r.upload, r.download, r.onlineRate;
      lastHeartbeat, lastSpeedTest, configuredAt := r.lastHeartbeat, r.lastSpeedTest, r.configuredAt;
    }

    method Reregister(op: NodeOp, now: int)
      requires op.Register?
      modifies this
      ensures View() == Reregistered(old(View()), op, now)
    {
      ip, port, totalDiskSpace := op.ip, op.port, op.totalDiskSpace;
      cpu, memory, disk, lastHeartbeat := op.cpu, op.memory, op.disk, now;
    }

    method Configure(path: string, space: int, now: int)
      modifies this
      ensures View() == ConfiguredTo(old(View()), path, space, now)
    {
      storagePath, allocatedSpace, status, configuredAt := path, space, Configured, now;
    }

    method Beat(op: NodeOp, now: int)
      requires op.Heartbeat?
      modifies this
      ensures View() == Heard(old(View()), op, now)
    {
      cpu, memory, disk, usedSpace, lastHeartbeat := op.cpu, op.memory, op.disk, op.usedSpace, now;
      if status == Configured || status == Offline { status := Online; }
    }

    method Measure(result: SpeedTest, now: int)
      modifies this
      ensures View() == Measured(old(View()), result, now)
    {
      upload, download, lastSpeedTest := result.upload, result.download, now;
    }

    /** The checker's verdict, applied. */
    method CheckHeartbeat(now: int) returns (caught: bool)
      modifies this
      ensures caught == Expired(old(View()), now) && View() == Checked(old(View()), now)
    {
      caught := false;
      if status == Configured || status == Online {
        if now - lastHeartbeat > HEARTBEAT_TIMEOUT {
          status := Offline;
          caught := true;
        }
      }
    }
  }

  ghost function NodeViews(nodes: map<string, Node>): map<string, NodeRecord>
    reads nodes.Values
  {
    map k | k in nodes :: nodes[k].View()
  }

  class Server {
    const persist: PersistenceManager
    const storage: StorageManager
    const fileMgr: FileManager
    var nodes: map<string, Node>

    /** Node objects sit under their own IDs, and the storage manager sees exactly these nodes. */
    ghost predicate Valid()
      reads this, persist, storage, nodes.Values
    {
      && persist.Valid()
      && (forall k :: k in nodes ==> nodes[k].nodeID == k)
      && storage.nodes == NodeViews(nodes)
    }

    ghost function View(): State
      reads this, persist, nodes.Values
    {
      State(NodeViews(nodes), AsMap(persist.nodes))
    }

    constructor (persist: PersistenceManager, storage: StorageManager, fileMgr: FileManager)
      requires persist.Valid() && storage.persist == persist && fileMgr.storage == storage && fileMgr.persist == persist
      modifies storage`nodes
      ensures Valid() && nodes == map[]
      ensures this.persist == persist && this.storage == storage && this.fileMgr == fileMgr
    {
      this.persist, this.storage, this.fileMgr := persist, storage, fileMgr;
      nodes := map[];
      new;
      storage.UpdateNodes(map[]);
    }

    /** syncNodes. */
    method SyncNodes()
      modifies storage`nodes
      ensures storage.nodes == NodeViews(nodes)
    {
      var records := Snapshot(nodes);
      storage.UpdateNodes(records);
    }

    /** The common end of the handlers: save the node and share the map. */
    method SaveAndSync(node: Node)
      requires persist.Valid()
      modifies persist`nodes, storage`nodes
      ensures persist.Valid() && AsMap(persist.nodes) == old(AsMap(persist.nodes))[node.nodeID := node.View()]
      ensures storage.nodes == NodeViews(nodes)
    {
      hide AsMap, PersistenceManager.Valid;
      persist.SaveNode(node.View());
      SyncNodes();
    }

    /** loadData: every map comes back from its bucket, then the nodes are shared. */
    method LoadData()
      requires persist.Valid() && fileMgr.Valid() && fileMgr.storage == storage && fileMgr.persist == persist
      modifies this`nodes, fileMgr`files, fileMgr`versions, storage`chunks, storage`tasks, storage`nodes
      ensures Valid() && fileMgr.Valid()
      ensures forall now :: View() == Apply(old(View()), Restart, now)
      ensures fileMgr.View() == VersionCatalog.Apply(old(fileMgr.View()), VersionCatalog.Restart)
      ensures storage.View() == S.Apply(old(storage.View()), S.Restart)
    {
      hide AsMap, PersistenceManager.Valid, StorageManager.View, StorageManager.Valid, VersionCatalog.Apply, S.Apply,
           FileManager.View, FileManager.Valid, ReloadAll, NodeViews;
      LoadNodes();
      LoadFilesAndChunks();
      ShareLoaded();
    }

    /** Sharing the node map touches neither files nor chunks. */
    method ShareLoaded()
      requires fileMgr.Valid() && fileMgr.storage == storage
      modifies storage`nodes
      ensures storage.nodes == NodeViews(nodes)
      ensures fileMgr.Valid() && fileMgr.View() == old(fileMgr.View()) && storage.View() == old(storage.View())
    {
      hide AsMap, PersistenceManager.Valid, FileInfo.View, Node.View, NodeViews;
      SyncNodes();
    }

    method LoadNodes()
      requires persist.Valid()
      modifies this`nodes
      ensures (forall k :: k in nodes ==> nodes[k].nodeID == k) && fresh(nodes.Values)
      ensures NodeViews(nodes) == ReloadAll(AsMap(persist.nodes))
    {
      NodesKeyed(persist.nodes);
      var records := persist.LoadNodes();
      var loaded := RebuildNodes(records);
      nodes := loaded;
    }

    method LoadFilesAndChunks()
      requires fileMgr.Valid() && fileMgr.storage == storage && fileMgr.persist == persist
      modifies fileMgr`files, fileMgr`versions, storage`chunks, storage`tasks
      ensures fileMgr.Valid()
      ensures fileMgr.View() == VersionCatalog.Apply(old(fileMgr.View()), VersionCatalog.Restart)
      ensures storage.View() == S.Apply(old(storage.View()), S.Restart)
    {
      hide AsMap, PersistenceManager.Valid, StorageManager.View, StorageManager.Valid, VersionCatalog.Apply, S.Apply, FileInfo.View;
      fileMgr.Reload();
      storage.Reload();
    }

    /** registerNode: a known node keeps its status; a new one starts as registered. */
    method RegisterNode(op: NodeOp, now: int)
      requires Valid() && op.Register?
      modifies this`nodes, nodes.Values, persist`nodes, storage`nodes
      ensures Valid() && fresh(nodes.Values - old(nodes.Values))
      ensures View() == Apply(old(View()), op, now)
    {
      hide AsMap, PersistenceManager.Valid, Node.View, Reregistered, NewNode;
      if op.nodeID in nodes {
        var node := nodes[op.nodeID];
        node.Reregister(op, now);
        assert NodeViews(nodes) == old(NodeViews(nodes))[op.nodeID := node.View()];
        SaveAndSync(node);
      } else {
        AddNode(op, now);
      }
    }

    method AddNode(op: NodeOp, now: int)
      requires Valid() && op.Register? && op.nodeID !in nodes
      modifies this`nodes, persist`nodes, storage`nodes
      ensures Valid() && fresh(nodes.Values - old(nodes.Values))
      ensures View() == old(View()).Save(NewNode(op, now))
    {
      hide AsMap, PersistenceManager.Valid, Node.View, NewNode;
      var node := new Node(NewNode(op, now));
      nodes := nodes[op.nodeID := node];
      assert NodeViews(nodes) == old(NodeViews(nodes))[op.nodeID := node.View()];
      SaveAndSync(node);
    }

    /** configureNode. */
    method ConfigureNode(id: string, path: string, space: int, now: int) returns (ok: bool)
      requires Valid()
      modifies nodes.Values, persist`nodes, storage`nodes
      ensures Valid()
      ensures ok <==> id in old(View()).nodes && space <= old(View()).nodes[id].totalDiskSpace
      ensures View() == Apply(old(View()), NodeOp.Configure(id, path, space), now)
    {
      hide AsMap, PersistenceManager.Valid, ConfiguredTo;
      if id !in nodes { return false; }
      var node := nodes[id];
      if space > node.totalDiskSpace { return false; }
      hide Node.View;
      node.Configure(path, space, now);
      assert NodeViews(nodes) == old(NodeViews(nodes))[id := node.View()];
      SaveAndSync(node);
      ok := true;
    }

    /** heartbeatNode: the one door to "online". */
    method HeartbeatNode(op: NodeOp, now: int) returns (ok: bool)
      requires Valid() && op.Heartbeat?
      modifies nodes.Values, persist`nodes, storage`nodes
      ensures Valid()
      ensures ok <==> op.nodeID in old(View()).nodes
      ensures View() == Apply(old(View()), op, now)
    {
      hide AsMap, PersistenceManager.Valid, Node.View, Heard;
      if op.nodeID !in nodes { return false; }
      var node := nodes[op.nodeID];
      node.Beat(op, now);
      assert NodeViews(nodes) == old(NodeViews(nodes))[op.nodeID := node.View()];
      SaveAndSync(node);
      ok := true;
    }

    /** speedTestNode: the node's record and one more entry in the speed-test bucket. */
    method SpeedTestNode(id: string, result: SpeedTest, now: int, time: string) returns (ok: bool)
      requires Valid()
      modifies nodes.Values, persist`nodes, persist`speedTests, storage`nodes
      ensures Valid()
      ensures ok <==> id in old(View()).nodes
      ensures View() == Apply(old(View()), SpeedTested(id, result), now)
      ensures AsMap(persist.speedTests)
              == if ok then old(AsMap(persist.speedTests))[id + "_" + time := Some(result)] else old(AsMap(persist.speedTests))
    {
      hide AsMap, PersistenceManager.Valid, Node.View, Measured;
      if id !in nodes { return false; }
      var node := nodes[id];
      node.Measure(result, now);
      assert NodeViews(nodes) == old(NodeViews(nodes))[id := node.View()];
      persist.SaveSpeedTestResult(id, time, result);
      SaveAndSync(node);
      ok := true;
    }

    /** deleteNode: refused while the node is online. */
    method DeleteNode(id: string, now: int) returns (ok: bool)
      requires Valid()
      modifies this`nodes, persist`nodes, storage`nodes
      ensures Valid()
      ensures ok <==> id in old(View()).nodes && old(View()).nodes[id].status != Online
      ensures View() == Apply(old(View()), Delete(id), now)
    {
      hide AsMap, PersistenceManager.Valid;
      if id !in nodes { return false; }
      if nodes[id].status == Online { return false; }
      RemoveNode(id);
      ok := true;
    }

    method RemoveNode(id: string)
      requires Valid()
      modifies this`nodes, persist`nodes, storage`nodes
      ensures Valid() && View() == State(old(View()).nodes - {id}, old(View()).bucket - {id})
    {
      hide AsMap, PersistenceManager.Valid, Node.View;
      nodes := nodes - {id};
      assert NodeViews(nodes) == old(NodeViews(nodes)) - {id};
      persist.DeleteNode(id);
      SyncNodes();
    }

    /** The checker has visited the nodes outside `left`. */
    ghost predicate Visited(before: State, left: set<string>, now: int)
      reads this, persist, nodes.Values
    {
      && nodes.Keys == before.nodes.Keys
      && (forall k :: k in nodes ==> nodes[k].View() == if k in left then before.nodes[k] else Checked(before.nodes[k], now))
      && AsMap(persist.nodes) == CheckedBucket(before, nodes.Keys - left, now)
    }

    /** checkNodeStatus: visit every node once, in the map's order, and mark the silent ones offline. */
    method CheckNodeStatus(now: int)
      requires Valid()
      modifies nodes.Values, persist`nodes, storage`nodes
      ensures Valid() && nodes == old(nodes)
      ensures View() == Apply(old(View()), Check, now)
    {
      hide CheckAll, PersistenceManager.Valid, Visited, AsMap, Node.View, Checked, CheckedBucket;
      StartCheck(now);
      var changed := VisitAll(View(), now);
      CheckDone(old(View()), now);
      if changed { SyncNodes(); }
    }

    /** The loop of checkNodeStatus. */
    method VisitAll(ghost before: State, now: int) returns (changed: bool)
      requires persist.Valid() && (forall k :: k in nodes ==> nodes[k].nodeID == k)
      requires Visited(before, nodes.Keys, now)
      modifies nodes.Values, persist`nodes
      ensures persist.Valid() && Visited(before, {}, now)
      ensures !changed ==> NodeViews(nodes) == old(NodeViews(nodes))
    {
      hide *;
      changed := false;
      var left := nodes.Keys;
      while left != {}
        invariant left <= nodes.Keys
        invariant persist.Valid() && Visited(before, left, now)
        invariant changed || NodeViews(nodes) == old(NodeViews(nodes))
        decreases |left|
      {
        var k :| k in left;
        var caught := CheckOne(before, left, k, now);
        left := left - {k};
        changed := changed || caught;
      }
    }

    lemma StartCheck(now: int)
      ensures Visited(View(), nodes.Keys, now)
    {
      hide AsMap;
      assert nodes.Keys - nodes.Keys == {};
      assert CheckedBucket(View(), {}, now) == AsMap(persist.nodes);
    }

    lemma CheckDone(before: State, now: int)
      requires Visited(before, {}, now)
      ensures View() == Apply(before, Check, now)
    {
      hide AsMap, CheckedBucket;
      assert nodes.Keys - {} == before.nodes.Keys;
      assert NodeViews(nodes) == CheckAll(before, now).nodes;
    }

    /** The loop body of checkNodeStatus. */
    method CheckOne(ghost before: State, ghost left: set<string>, k: string, now: int) returns (caught: bool)
      requires persist.Valid() && (forall k :: k in nodes ==> nodes[k].nodeID == k)
      requires k in left && k in nodes && Visited(before, left, now)
      modifies nodes[k], persist`nodes
      ensures persist.Valid() && Visited(before, left - {k}, now)
      ensures !caught ==> NodeViews(nodes) == old(NodeViews(nodes))
    {
      hide AsMap, PersistenceManager.Valid, Node.View, Checked, Expired, CheckedBucket;
      CheckedOneMore(before, nodes.Keys - left, k, now);
      assert nodes.Keys - (left - {k}) == (nodes.Keys - left) + {k};
      UncaughtSame(before.nodes[k], now);
      var node := nodes[k];
      caught := node.CheckHeartbeat(now);
      if caught { persist.SaveNode(node.View()); }
    }
  }

  lemma NodesKeyed(b: seq<Entry<NodeRecord>>)
    requires Ordered(b) && KeyedNodes(b)
    ensures forall k :: k in ReloadAll(AsMap(b)) ==> ReloadAll(AsMap(b))[k].nodeID == k
  {
    AsMapKeys(b);
    forall k | k in AsMap(b) ensures AsMap(b)[k].nodeID == k {
      var i :| 0 <= i < |b| && b[i].key == k;
      AsMapAt(b, i);
      assert b[i] in b;
    }
  }

  /** One new node object per record. */
  method RebuildNodes(records: map<string, NodeRecord>) returns (nodes: map<string, Node>)
    requires forall k :: k in records ==> records[k].nodeID == k
    ensures fresh(nodes.Values) && NodeViews(nodes) == records
    ensures forall k :: k in nodes ==> nodes[k].nodeID == k
  {
    nodes := map[];
    var left := records.Keys;
    while left != {}
      invariant left <= records.Keys && nodes.Keys == records.Keys - left
      invariant forall k :: k in nodes ==> fresh(nodes[k]) && nodes[k].nodeID == k && nodes[k].View() == records[k]
      decreases |left|
    {
      hide Node.View;
      var k :| k in left;
      left := left - {k};
      var n := new Node(records[k]);
      nodes := nodes[k := n];
    }
  }

  lemma UncaughtSame(n: NodeRecord, now: int)
    ensures !Expired(n, now) ==> Checked(n, now) == n
  {
  }

  /** The records of the nodes, one by one. */
  method Snapshot(nodes: map<string, Node>) returns (records: map<string, NodeRecord>)
    ensures records == NodeViews(nodes)
  {
    records := map k | k in nodes :: nodes[k].View();
  }
}
