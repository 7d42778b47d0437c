/** What a replication that is reported successful has achieved, over whole runs. */
module ReplicationRuns {
  import opened Sequences
  import opened Records
  import opened Download
  import opened StorageManagement
  import opened ChunkUpload
  import opened Cluster
  import opened ClusterInvariant
  import opened ClusterTheorems
  import opened Replication
  import S = StorageProtocol
  import Sched = Scheduler
  import VersionCatalog

  /** Once an address has held a chunk, it holds it or has lost it; once a node has been registered under an
      address, it always has been. */
  lemma StepKeepsHeldOnce(c: Cluster, a: Action, addr: string, id: string)
    requires Enabled(c, a)
    ensures HeldOnce(c, addr, id) ==> HeldOnce(Next(c, a), addr, id)
  {
    hide Sched.IsSelection, S.Enabled, S.Next, S.Final, FreshChunks, Flatten, VersionCatalog.Apply,
         VersionCatalog.Created, VersionCatalog.Removed, TruthAfter, OverwriteOps;
  }

  lemma {:induction false} RunKeepsHeldOnce(c: Cluster, run: seq<Action>, addr: string, id: string)
    requires Legal(c, run) && HeldOnce(c, addr, id)
    ensures HeldOnce(Final(c, run), addr, id)
    decreases run
  {
    hide Enabled, Next, HeldOnce;
    if run != [] {
      StepKeepsHeldOnce(c, run[0], addr, id);
      RunKeepsHeldOnce(Next(c, run[0]), run[1..], addr, id);
    }
  }

  /** Neither the source nor a target has ever been registered under an address of the other. */
  ghost predicate Apart(c: Cluster, task: S.Task) {
    forall t, a :: t in task.targets && KnownAt(c, t, a) ==> !KnownAt(c, task.source, a)
  }

  /** When a replication is reported successful and its targets are apart from its source, a second address
      has the chunk: at any later time it holds the chunk's bytes, unless its file was erased after it was
      stored. */
  lemma ReplicationMeansSecondCopy(run: seq<Action>, task: S.Task, target: string, addr: string, after: seq<Action>)
    requires Legal(GENESIS, run + [ReplicationDone(task, target, addr)] + after)
    requires Apart(Final(GENESIS, run), task)
    ensures var c, c' := Final(GENESIS, run), Final(GENESIS, run + [ReplicationDone(task, target, addr)] + after);
            && target in task.targets && KnownAt(c, target, addr) && !KnownAt(c, task.source, addr)
            && ((addr, task.chunkID) in c'.j.erased
                || (task.chunkID in Held(c'.net.stores, addr) && task.chunkID in c'.j.content
                    && Held(c'.net.stores, addr)[task.chunkID] == c'.j.content[task.chunkID]))
  {
    hide *;
    var done := ReplicationDone(task, target, addr);
    var c := Final(GENESIS, run);
    FinalConcat(GENESIS, run + [done], after);
    FinalConcat(GENESIS, run, [done]);
    OneStep(c, done);
    DoneSays(c, task, target, addr);
    StepKeepsHeldOnce(c, done, addr, task.chunkID);
    RunKeepsHeldOnce(Next(c, done), after, addr, task.chunkID);
    ReachableInv(run + [done] + after);
    HeldIsContent(Final(GENESIS, run + [done] + after), addr, task.chunkID);
  }

  lemma DoneSays(c: Cluster, task: S.Task, target: string, addr: string)
    requires Enabled(c, ReplicationDone(task, target, addr)) && Apart(c, task)
    ensures target in task.targets && KnownAt(c, target, addr) && !KnownAt(c, task.source, addr)
    ensures HeldOnce(c, addr, task.chunkID)
  {
    hide KnownAt, HeldOnce;
  }

  lemma HeldIsContent(c: Cluster, addr: string, id: string)
    requires Inv(c) && HeldOnce(c, addr, id)
    ensures (addr, id) in c.j.erased
            || (id in Held(c.net.stores, addr) && id in c.j.content && Held(c.net.stores, addr)[id] == c.j.content[id])
  {
    hide S.Inv, SessionsOk, JournalOk, VersionsOk;
  }

  /** ReplicateChunk's success, as its contract states it, is what the machine asks of a successful
      replication: when its copies have arrived, the replication may finish. */
  lemma ReplicateChunkMayFinish(c: Cluster, task: S.Task, stores': Stores, order: seq<string>)
    requires task in c.w.s.tasks && task.source in c.net.nodes
    requires var src := Address(c.net.nodes[task.source]);
             && task.chunkID in Held(c.net.stores, src)
             && Copied(c.net.stores, stores', src, task.chunkID, KnownAddresses(c.net.nodes, task.targets), order)
             && TargetHolds(c.net.nodes, stores', task.targets, task.chunkID, Held(c.net.stores, src)[task.chunkID])
    ensures var src := Address(c.net.nodes[task.source]);
            var run := Copies(src, task.chunkID, Held(c.net.stores, src)[task.chunkID], order);
            && Legal(c, run) && Final(c, run).net.stores == stores'
            && exists t :: t in task.targets && t in c.net.nodes
                 && Enabled(Final(c, run), ReplicationDone(task, t, Address(c.net.nodes[t])))
  {
    var src, id := Address(c.net.nodes[task.source]), task.chunkID;
    var data := Held(c.net.stores, src)[id];
    ReplicationIsARun(c, src, id, order);
    var t :| t in task.targets && t in c.net.nodes && id in Held(stores', Address(c.net.nodes[t]))
             && Held(stores', Address(c.net.nodes[t]))[id] == data;
    hide Legal, Final, StoreAll, KnownAddresses, Copies;
    assert Enabled(Final(c, Copies(src, id, data, order)), ReplicationDone(task, t, Address(c.net.nodes[t])));
  }
}
