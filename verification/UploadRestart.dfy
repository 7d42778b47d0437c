/** A server-side upload and the restart that follows it, sooner or later. The upload handler ends by
    saving partial chunk records; what a restart then finds depends on what was saved after them. */
module UploadRestart {
  import opened Sequences
  import opened Keys
  import opened Records
  import opened VersionCatalog
  import opened Download
  import opened Cluster
  import opened ClusterInvariant
  import opened ClusterTheorems
  import opened ClusterRestart
  import S = StorageProtocol
  import Sched = Scheduler

  /** The action saves chunk `id`'s record from memory over the persisted one. */
  predicate Resaves(a: Action, id: string) {
    (a.ConfirmWrite? && a.chunkID == id) || (a.ReplicationFailed? && a.task.chunkID == id)
  }

  ghost predicate Resaved(run: seq<Action>, id: string) {
    exists a :: a in run && Resaves(a, id)
  }

  ghost predicate NoRestart(run: seq<Action>) {
    RestartServer !in run
  }

  /** The chunk's records in memory and on disk are the same as before. */
  predicate SameRecords(s: S.Storage, s': S.Storage, id: string)
    requires id in s.chunks && id in s.bucket && id in s'.chunks && id in s'.bucket
  {
    s'.chunks[id] == s.chunks[id] && s'.bucket[id] == s.bucket[id]
  }

  /** Protocol steps about other chunks leave this one alone. */
  lemma OtherChunk(w: S.World, op: S.Op, id: string)
    requires S.Inv(w) && S.Enabled(w, op) && id in w.h.prepared && id in S.Next(w, op).s.chunks
    requires op.Prepare? || (op.Confirm? && op.chunkID != id) || (op.TaskFailed? && op.task.chunkID != id) || op.TaskDone?
    ensures id in w.s.chunks && id in w.s.bucket && id in S.Next(w, op).s.bucket && SameRecords(w.s, S.Next(w, op).s, id)
  {
    hide S.Inv, S.Enabled, ChunkKey, S.Record, S.Spawned;
    S.KeyedRecords(w);
    if op.Prepare? { NotFresh(w, op, id); }
  }

  lemma NotFresh(w: S.World, op: S.Op, id: string)
    requires S.Inv(w) && S.Enabled(w, op) && op.Prepare? && id in w.h.prepared
    ensures id != ChunkKey(op.fileID, op.stamp)
  {
    hide S.Inv, ChunkKey, Distinct;
    S.FreshKey(w, op.fileID, op.stamp);
  }

  /** Confirming a chunk, or degrading it, saves what is in memory, and never changes its replicas. */
  lemma SavedAgain(w: S.World, op: S.Op, id: string)
    requires S.Inv(w) && id in S.Next(w, op).s.chunks
    requires (op.Confirm? && op.chunkID == id) || (op.TaskFailed? && op.task.chunkID == id)
    ensures id in w.s.chunks && id in w.s.bucket && id in S.Next(w, op).s.bucket
    ensures S.Next(w, op).s.bucket[id] == S.Next(w, op).s.chunks[id]
    ensures S.Next(w, op).s.chunks[id].replicas == w.s.chunks[id].replicas
  {
    assert w.s.chunks.Keys == w.s.bucket.Keys && w.s.chunks[id].chunkID == id;
  }

  ghost predicate StepRecords(c: Cluster, c': Cluster, a: Action, id: string) {
    && id in c.w.s.chunks && id in c.w.s.bucket && id in c'.w.s.chunks && id in c'.w.s.bucket && id in c'.j.listed
    && c'.w.s.chunks[id].replicas == c.w.s.chunks[id].replicas
    && if Resaves(a, id) then c'.w.s.bucket[id] == c'.w.s.chunks[id] else SameRecords(c.w.s, c'.w.s, id)
  }

  /** A chunk that some version lists is not part of any upload in progress. */
  lemma ListedIsSettled(c: Cluster, k: nat, id: string)
    requires Inv(c) && id in c.j.listed && k in c.up.open
    ensures id !in c.up.open[k].done
    ensures c.up.open[k].current.Some? ==> c.up.open[k].current.value.chunkID != id
    ensures id in c.w.h.prepared
  {
    hide S.Inv, NetOk, VersionsOk, Flatten, Held;
    assert UploadOk(c, k, c.up.open[k]);
  }

  lemma PreparedListed(c: Cluster, id: string)
    requires Inv(c) && id in c.j.listed
    ensures id in c.w.h.prepared && c.w.s.chunks.Keys == c.w.s.bucket.Keys
  {
    hide NetOk, VersionsOk, SessionsOk;
  }

  /** Actions that are one protocol step, if any. */
  ghost function StorageOp(c: Cluster, a: Action): Option<S.Op>
    requires Enabled(c, a)
  {
    match a
    case Write(fileID, size, requested, sel, stamp) => Some(S.Prepare(fileID, size, requested, Sched.NodeIDs(sel), stamp))
    case ConfirmWrite(id, hash) => Some(S.Confirm(id, hash))
    case ReplicationFailed(task) => Some(S.TaskFailed(task))
    case ReplicationDone(task, _, _) => Some(S.TaskDone(task))
    case UploadPrepare(k, requested, sel, stamp) =>
      var u := c.up.open[k];
      Some(S.Prepare(u.fileID, |u.pieces[|u.done|]|, requested, Sched.NodeIDs(sel), stamp))
    case UploadConfirm(k, hash) => Some(S.Confirm(c.up.open[k].current.value.chunkID, hash))
    case _ => None
  }

  lemma StorageStep(c: Cluster, a: Action)
    requires Enabled(c, a) && !a.Manage? && !a.UploadFinish? && !a.RestartServer?
    ensures Next(c, a).w == match StorageOp(c, a) case None => c.w case Some(op) => S.Next(c.w, op)
    ensures Next(c, a).j.listed == c.j.listed
    ensures StorageOp(c, a).Some? ==> S.Enabled(c.w, StorageOp(c, a).value)
  {
    hide Sched.IsSelection, S.Next, FreshChunks, Held, Store, Flatten, Apply;
  }

  lemma ProtocolStepRecords(c: Cluster, a: Action, id: string)
    requires Inv(c) && Enabled(c, a) && !a.Manage? && !a.UploadFinish? && !a.RestartServer?
    requires id in c.j.listed && id in Next(c, a).w.s.chunks
    ensures StepRecords(c, Next(c, a), a, id)
  {
    hide *;
    StorageStep(c, a);
    StepSettled(c, a, id);
    OneOpRecords(c, Next(c, a), a, StorageOp(c, a), id);
  }

  /** Whether the step saves the chunk. */
  predicate About(a: Action, op: S.Op, id: string) {
    if Resaves(a, id) then (op.Confirm? && op.chunkID == id) || (op.TaskFailed? && op.task.chunkID == id)
    else op.Prepare? || (op.Confirm? && op.chunkID != id) || (op.TaskFailed? && op.task.chunkID != id) || op.TaskDone?
  }

  lemma OneOpRecords(c: Cluster, c': Cluster, a: Action, op: Option<S.Op>, id: string)
    requires S.Inv(c.w) && id in c.w.h.prepared && c.w.s.chunks.Keys == c.w.s.bucket.Keys
    requires c'.w == match op case None => c.w case Some(o) => S.Next(c.w, o)
    requires op.Some? ==> S.Enabled(c.w, op.value) && About(a, op.value, id)
    requires op.None? ==> !Resaves(a, id)
    requires id in c'.j.listed && id in c'.w.s.chunks
    ensures StepRecords(c, c', a, id)
  {
    hide S.Inv, S.Enabled, S.Next, Resaves;
    if op.Some? {
      if Resaves(a, id) { SavedAgain(c.w, op.value, id); } else { OtherChunk(c.w, op.value, id); }
    }
  }

  /** What the step is to a listed chunk. */
  lemma StepSettled(c: Cluster, a: Action, id: string)
    requires Inv(c) && Enabled(c, a) && id in c.j.listed
    ensures S.Inv(c.w) && id in c.w.h.prepared && c.w.s.chunks.Keys == c.w.s.bucket.Keys
    ensures StorageOp(c, a).Some? ==> About(a, StorageOp(c, a).value, id)
    ensures StorageOp(c, a).None? ==> !Resaves(a, id)
  {
    PreparedListed(c, id);
    if a.UploadConfirm? { ListedIsSettled(c, a.k, id); }
    hide NetOk, SessionsOk, VersionsOk, JournalOk, S.Inv, S.Enabled, Sched.IsSelection, FreshChunks, Held;
  }

  lemma ManageStepRecords(c: Cluster, op: Op, id: string)
    requires Inv(c) && id in c.j.listed && id in DoManage(c, op).w.s.chunks
    ensures var c' := DoManage(c, op);
            && id in c'.j.listed && id in c.w.s.chunks && id in c.w.s.bucket && id in c'.w.s.bucket
            && SameRecords(c.w.s, c'.w.s, id)
  {
    DeleteOpsEffect(c.w, Removed(c.cat, op));
    hide NetOk, SessionsOk, VersionsOk, JournalOk, Removed, Created, ListedBy, S.Inv;
    PreparedListed(c, id);
  }

  lemma FinishStepRecords(c: Cluster, a: Action, id: string)
    requires Inv(c) && Enabled(c, a) && a.UploadFinish? && id in c.j.listed && id in Next(c, a).w.s.chunks
    ensures StepRecords(c, Next(c, a), a, id)
  {
    var n := Versioned(c, a);
    FinishSession(c, a);
    VersionedListed(c, a);
    hide *;
    if c.up.open[a.k].viaServer {
      ServerFinishRecords(c, a, id);
    } else {
      ClientFinishNext(c, a);
      ManageStepRecords(c, FinishOp(c, a), id);
      UnsavedStep(c, n, a, id);
    }
  }

  lemma ClientFinishNext(c: Cluster, a: Action)
    requires Enabled(c, a) && a.UploadFinish? && !c.up.open[a.k].viaServer
    ensures Next(c, a) == Versioned(c, a)
  {
    hide DoManage, CloseUpload, OverwriteOps, S.Final, FinishOp, VersionID;
  }

  lemma UnsavedStep(c: Cluster, c': Cluster, a: Action, id: string)
    requires a.UploadFinish? && id in c'.j.listed
    requires id in c.w.s.chunks && id in c.w.s.bucket && id in c'.w.s.chunks && id in c'.w.s.bucket && SameRecords(c.w.s, c'.w.s, id)
    ensures StepRecords(c, c', a, id)
  {
  }

  lemma ServerFinishRecords(c: Cluster, a: Action, id: string)
    requires Inv(c) && Enabled(c, a) && a.UploadFinish? && c.up.open[a.k].viaServer
    requires id in c.j.listed && id in Next(c, a).w.s.chunks
    ensures StepRecords(c, Next(c, a), a, id)
  {
    FinishSession(c, a);
    hide *;
    var u, n := c.up.open[a.k], Versioned(c, a);
    ListedIsSettled(c, a.k, id);
    VersionedKeepsInv(c, a);
    ServerFinishShape(c, a);
    ServerFinishNext(c, a);
    PreparedListed(c, id);
    VersionedListed(c, a);
    StorageOk(n);
    OverwriteOpsEffect(n.w, u, u.done);
    SavesNothing(c.w.s, Next(c, a).w.s, id);
    UnsavedStep(c, Next(c, a), a, id);
  }

  lemma StorageOk(c: Cluster)
    requires Inv(c)
    ensures S.Inv(c.w)
  {
  }

  lemma SavesNothing(s: S.Storage, s': S.Storage, id: string)
    requires id in s.chunks && id in s.bucket && s'.chunks == s.chunks && id in s'.bucket && s'.bucket[id] == s.bucket[id]
    ensures SameRecords(s, s', id)
  {
  }

  lemma VersionedListed(c: Cluster, a: Action)
    requires a.UploadFinish? && a.k in c.up.open
    ensures Versioned(c, a).j.listed >= c.j.listed && Versioned(c, a).w == DoManage(c, FinishOp(c, a)).w
    ensures forall id :: id in c.up.open[a.k].done ==> id in Versioned(c, a).j.listed
  {
    hide S.Final, Apply, Removed, TruthAfter, VersionID;
  }

  lemma StepKeepsRecords(c: Cluster, a: Action, id: string)
    requires Inv(c) && Enabled(c, a) && !a.RestartServer? && id in c.j.listed && id in Next(c, a).w.s.chunks
    ensures StepRecords(c, Next(c, a), a, id)
  {
    if a.Manage? {
      assert Next(c, a) == DoManage(c, a.op);
      hide Inv, Enabled, Next;
      ManageStepRecords(c, a.op, id);
      hide DoManage;
    } else if a.UploadFinish? {
      FinishStepRecords(c, a, id);
    } else {
      ProtocolStepRecords(c, a, id);
    }
  }

  /** Between restarts, the persisted record of a listed chunk changes only when it is confirmed again
      or a replication fails; then it becomes the record in memory. */
  ghost predicate RunRecords(c: Cluster, c': Cluster, resaved: bool, id: string) {
    && id in c.w.s.chunks && id in c.w.s.bucket && id in c'.w.s.chunks && id in c'.w.s.bucket
    && c'.w.s.chunks[id].replicas == c.w.s.chunks[id].replicas
    && if resaved then c'.w.s.bucket[id] == c'.w.s.chunks[id] else SameRecords(c.w.s, c'.w.s, id)
  }

  lemma {:induction false} RunKeepsRecords(c: Cluster, run: seq<Action>, id: string)
    requires Inv(c) && Legal(c, run) && NoRestart(run) && id in c.j.listed && id in Final(c, run).w.s.chunks
    ensures RunRecords(c, Final(c, run), Resaved(run, id), id)
    decreases run
  {
    if run == [] {
      PreparedListed(c, id);
    } else {
      var c1, rest := Next(c, run[0]), run[1..];
      assert run == [run[0]] + rest;
      StepKeepsInv(c, run[0]);
      StepKeepsListed(c, run[0]);
      hide Inv, Enabled, Next, SameRecords, Resaves;
      RunKeepsRecords(c1, rest, id);
      StepKeepsRecords(c, run[0], id);
      ResavedSplit(run, id);
      hide Legal, Final, Resaved;
      RecordsChain(c, c1, Final(c1, rest), run[0], Resaved(rest, id), id);
    }
  }

  lemma StepKeepsListed(c: Cluster, a: Action)
    requires Enabled(c, a)
    ensures c.j.listed <= Next(c, a).j.listed
  {
    hide Sched.IsSelection, S.Enabled, S.Next, S.Final, FreshChunks, Held, Store, Apply, Flatten, Created, Removed, TruthAfter;
  }

  lemma ResavedSplit(run: seq<Action>, id: string)
    requires run != []
    ensures Resaved(run, id) <==> Resaves(run[0], id) || Resaved(run[1..], id)
  {
    assert run == [run[0]] + run[1..];
    assert run[0] in run;
    if Resaved(run[1..], id) {
      var a :| a in run[1..] && Resaves(a, id);
      assert a in run;
    }
  }

  lemma RecordsChain(c: Cluster, c1: Cluster, c': Cluster, a: Action, later: bool, id: string)
    requires StepRecords(c, c1, a, id) && RunRecords(c1, c', later, id)
    ensures RunRecords(c, c', Resaves(a, id) || later, id)
  {
  }

  // --------------------------------------------------------------- any number of restarts

  /** The part of the run before the server first restarts. */
  ghost function BeforeRestart(run: seq<Action>): seq<Action>
    decreases run
  {
    if run == [] || run[0].RestartServer? then [] else [run[0]] + BeforeRestart(run[1..])
  }

  ghost predicate BothRecords(c: Cluster, id: string) {
    id in c.w.s.chunks && id in c.w.s.bucket
  }

  lemma RestartStepRecords(c: Cluster, id: string)
    requires Inv(c) && Enabled(c, RestartServer) && id in c.j.listed && id in Next(c, RestartServer).w.s.chunks
    ensures var c' := Next(c, RestartServer);
            && BothRecords(c, id) && BothRecords(c', id) && id in c'.j.listed
            && c'.w.s.chunks[id] == c.w.s.bucket[id] == c'.w.s.bucket[id]
  {
    PreparedListed(c, id);
    hide Inv, Apply;
  }

  /** On disk a listed chunk keeps its replicas, or gets back those in memory if its record is saved again
      before the server first restarts. Later saves only repeat what that restart has loaded. */
  lemma {:induction false} DiskReplicas(c: Cluster, run: seq<Action>, id: string)
    requires Inv(c) && Legal(c, run) && id in c.j.listed && id in Final(c, run).w.s.chunks
    ensures var c' := Final(c, run);
            && BothRecords(c, id) && BothRecords(c', id)
            && c'.w.s.bucket[id].replicas
               == if Resaved(BeforeRestart(run), id) then c.w.s.chunks[id].replicas else c.w.s.bucket[id].replicas
    decreases run
  {
    if run == [] {
      PreparedListed(c, id);
    } else {
      var c1, rest := Next(c, run[0]), run[1..];
      StepKeepsInv(c, run[0]);
      StepKeepsListed(c, run[0]);
      hide Inv, Enabled, Next, SameRecords, Resaves;
      DiskReplicas(c1, rest, id);
      if run[0].RestartServer? {
        RestartStepRecords(c, id);
      } else {
        StepKeepsRecords(c, run[0], id);
        BeforeSplit(run, id);
        StepReplicas(c, c1, run[0], id);
      }
      hide Legal, Final, Resaved;
    }
  }

  lemma BeforeSplit(run: seq<Action>, id: string)
    requires run != [] && !run[0].RestartServer?
    ensures Resaved(BeforeRestart(run), id) <==> Resaves(run[0], id) || Resaved(BeforeRestart(run[1..]), id)
  {
    var before := BeforeRestart(run);
    assert before == [run[0]] + BeforeRestart(run[1..]);
    assert before[1..] == BeforeRestart(run[1..]);
    ResavedSplit(before, id);
  }

  lemma StepReplicas(c: Cluster, c': Cluster, a: Action, id: string)
    requires StepRecords(c, c', a, id)
    ensures BothRecords(c, id) && BothRecords(c', id) && c'.w.s.chunks[id].replicas == c.w.s.chunks[id].replicas
    ensures c'.w.s.bucket[id].replicas == if Resaves(a, id) then c.w.s.chunks[id].replicas else c.w.s.bucket[id].replicas
  {
  }

  lemma {:induction false} NoRestartBefore(run: seq<Action>)
    requires NoRestart(run)
    ensures BeforeRestart(run) == run
  {
    if run != [] {
      assert run[0] in run;
      assert forall a :: a in run[1..] ==> a in run;
      NoRestartBefore(run[1..]);
    }
  }

  /** Where a restart looks for a chunk of a server-side upload: at the nodes chosen for it if its record
      was saved again before the first restart, and otherwise at the addresses in the partial record. */
  ghost function RestartReplicas(c: Cluster, u: Upload, after: seq<Action>, id: string): seq<string>
    requires id in c.w.s.chunks
  {
    if Resaved(BeforeRestart(after), id) then c.w.s.chunks[id].replicas else u.others
  }

  /** A server-side upload finishes, anything follows, restarts included, and then the server restarts. Each
      chunk of the upload that is still live comes back with its replicas if its record was saved again, by
      another confirmation or by a replication that failed, before the server first restarted; otherwise it
      comes back with the addresses of the upload handler's partial record. So the version can be read exactly
      when each chunk is still live and served by one of those. */
  lemma UploadThenRestart(c: Cluster, finish: Action, after: seq<Action>, fabric: Fabric)
    requires Inv(c) && Enabled(c, finish) && finish.UploadFinish? && c.up.open[finish.k].viaServer
    requires Legal(Next(c, finish), after)
    ensures var u, c1, c' := c.up.open[finish.k], Next(c, finish), Final(Next(c, finish), after);
            var chunks := Restarted(c').w.s.chunks;
            && (forall id :: id in u.done ==>
                  && id in c1.w.s.chunks && (id in chunks <==> id in c'.w.s.chunks)
                  && (id in chunks ==> chunks[id].replicas == RestartReplicas(c1, u, after, id))
                  && (id in chunks && NoRestart(after) ==>
                        chunks[id] == if Resaved(after, id) then c'.w.s.chunks[id]
                                        else Chunk(id, u.fileID, Chunker.ChunkSize(|u.data|), "", u.others, Unset)))
            && (ReadAll(chunks, fabric, u.done).Some?
                <==> forall id :: id in u.done ==>
                       id in c'.w.s.chunks && exists n :: n in RestartReplicas(c1, u, after, id) && Serves(fabric, n, id))
  {
    hide *;
    FinishSession(c, finish);
    var u, c1 := c.up.open[finish.k], Next(c, finish);
    var c' := Final(c1, after);
    SavedRecords(c, finish);
    FinishLists(c, finish);
    StepKeepsInv(c, finish);
    RunKeepsInv(c1, after);
    KeysOnDisk(c1);
    KeysOnDisk(c');
    RestartReads(c1);
    RestartReads(c');
    PartialReplicas(u);
    forall id | id in u.done && id in c'.w.s.chunks
      ensures c'.w.s.bucket[id].replicas == RestartReplicas(c1, u, after, id)
      ensures NoRestart(after) ==> c'.w.s.bucket[id] == if Resaved(after, id) then c'.w.s.chunks[id] else PartialRecord(u, id)
    {
      DiskReplicas(c1, after, id);
      RestartReplicasAre(c1, u, after, id);
      if NoRestart(after) {
        RunKeepsRecords(c1, after, id);
        RecordsFound(c1, c', Resaved(after, id), id);
      }
    }
    ReadAfterRestart(c1, c', u, after, fabric);
  }

  lemma RestartReplicasAre(c: Cluster, u: Upload, after: seq<Action>, id: string)
    requires BothRecords(c, id) && c.w.s.bucket[id].replicas == u.others
    ensures id in c.w.s.chunks && id in c.w.s.bucket
    ensures RestartReplicas(c, u, after, id)
            == if Resaved(BeforeRestart(after), id) then c.w.s.chunks[id].replicas else c.w.s.bucket[id].replicas
  {
  }

  lemma KeysOnDisk(c: Cluster)
    requires Inv(c)
    ensures c.w.s.chunks.Keys == c.w.s.bucket.Keys
  {
    hide NetOk, SessionsOk, VersionsOk, JournalOk;
  }

  lemma RecordsFound(c: Cluster, c': Cluster, resaved: bool, id: string)
    requires RunRecords(c, c', resaved, id)
    ensures id in c.w.s.bucket && id in c'.w.s.chunks && id in c'.w.s.bucket
    ensures c'.w.s.bucket[id] == if resaved then c'.w.s.chunks[id] else c.w.s.bucket[id]
  {
  }

  lemma ReadAfterRestart(c1: Cluster, c: Cluster, u: Upload, after: seq<Action>, fabric: Fabric)
    requires c.w.s.chunks.Keys == c.w.s.bucket.Keys && forall id :: id in u.done ==> id in c1.w.s.chunks
    requires forall id :: id in u.done && id in c.w.s.chunks ==> c.w.s.bucket[id].replicas == RestartReplicas(c1, u, after, id)
    ensures ReadAll(c.w.s.bucket, fabric, u.done).Some?
            <==> forall id :: id in u.done ==>
                   id in c.w.s.chunks && exists n :: n in RestartReplicas(c1, u, after, id) && Serves(fabric, n, id)
  {
    hide Serves, RestartReplicas;
    ReadAllSucceeds(c.w.s.bucket, fabric, u.done);
  }

  /** Confirming a chunk starts the replication its replicas call for. */
  lemma Reconfirmed(c: Cluster, id: string, hash: string)
    requires id in c.w.s.chunks && c.w.s.chunks[id].chunkID == id && c.w.s.tasks == multiset{}
    ensures Enabled(c, ConfirmWrite(id, hash))
    ensures var r := Next(c, ConfirmWrite(id, hash));
            var replicas := c.w.s.chunks[id].replicas;
            && id in r.w.s.chunks && r.w.s.chunks[id].replicas == replicas
            && r.w.s.tasks == if |replicas| > 1 && replicas[0] != "" then multiset{S.Task(id, replicas[0], replicas[1..])} else multiset{}
  {
    assert Enabled(c, ConfirmWrite(id, hash));
  }

  /** A chunk that came back with its partial record is confirmed again. Its replicas are then the addresses
      collected by the upload: distinct exactly when those are. The replication that starts, if there is a
      second address, sends from the first to the others, and to itself exactly when the first occurs again. */
  lemma PartialReplication(c: Cluster, finish: Action, after: seq<Action>, id: string, hash: string)
    requires Inv(c) && Enabled(c, finish) && finish.UploadFinish? && c.up.open[finish.k].viaServer
    requires Legal(Next(c, finish), after)
    requires id in c.up.open[finish.k].done && id in Final(Next(c, finish), after).w.s.chunks
    requires !Resaved(BeforeRestart(after), id)
    ensures var others := c.up.open[finish.k].others;
            var restarted := Restarted(Final(Next(c, finish), after));
            && Enabled(restarted, ConfirmWrite(id, hash))
            && var r := Next(restarted, ConfirmWrite(id, hash));
               && id in r.w.s.chunks && r.w.s.chunks[id].replicas == others
               && (r.w.s.tasks != multiset{} <==> |others| > 1 && others[0] != "")
               && forall t :: t in r.w.s.tasks ==> |others| > 1 && (t.source in t.targets <==> others[0] in others[1..])
  {
    hide *;
    FinishSession(c, finish);
    var u, c1 := c.up.open[finish.k], Next(c, finish);
    var c' := Final(c1, after);
    UploadThenRestart(c, finish, after, Fabric(map[], map[], {}));
    StepKeepsInv(c, finish);
    RunKeepsInv(c1, after);
    RestartFresh(c');
    AtAddresses(c1, u, after, id);
    KeyedChunk(Restarted(c'), id);
    Reconfirmed(Restarted(c'), id, hash);
    OneTask(Next(Restarted(c'), ConfirmWrite(id, hash)).w.s.tasks, id, u.others);
  }

  lemma OneTask(tasks: multiset<S.Task>, id: string, others: seq<string>)
    requires tasks == if |others| > 1 && others[0] != "" then multiset{S.Task(id, others[0], others[1..])} else multiset{}
    ensures tasks != multiset{} <==> |others| > 1 && others[0] != ""
    ensures forall t :: t in tasks ==> |others| > 1 && t.source == others[0] && t.targets == others[1..]
  {
    if |others| > 1 && others[0] != "" { assert S.Task(id, others[0], others[1..]) in tasks; }
  }

  lemma AtAddresses(c: Cluster, u: Upload, after: seq<Action>, id: string)
    requires id in c.w.s.chunks && !Resaved(BeforeRestart(after), id)
    ensures RestartReplicas(c, u, after, id) == u.others
  {
  }

  /** A restarted server is in order, and has no replication in flight. */
  lemma RestartFresh(c: Cluster)
    requires Inv(c)
    ensures Inv(Restarted(c)) && Restarted(c).w.s.tasks == multiset{} && Restarted(c).w.s.chunks.Keys == c.w.s.chunks.Keys
  {
    hide *;
    RestartIs(c);
    KeysOnDisk(c);
    StepKeepsInv(c, RestartServer);
  }

  lemma RestartIs(c: Cluster)
    ensures Enabled(c, RestartServer) && Next(c, RestartServer) == Restarted(c)
    ensures Restarted(c).w.s.tasks == multiset{} && Restarted(c).w.s.chunks == c.w.s.bucket
  {
    hide Apply;
  }

  lemma KeyedChunk(c: Cluster, id: string)
    requires Inv(c) && id in c.w.s.chunks
    ensures c.w.s.chunks[id].chunkID == id
  {
    hide NetOk, SessionsOk, VersionsOk, JournalOk;
  }

  lemma FinishLists(c: Cluster, a: Action)
    requires Inv(c) && Enabled(c, a) && a.UploadFinish? && c.up.open[a.k].viaServer
    ensures forall id :: id in c.up.open[a.k].done ==> id in Next(c, a).j.listed
  {
    ServerFinishNext(c, a);
    VersionedListed(c, a);
    hide Versioned, Next, Enabled, Inv, S.Final;
  }

  lemma PartialReplicas(u: Upload)
    ensures forall id :: PartialRecord(u, id) == Chunk(id, u.fileID, Chunker.ChunkSize(|u.data|), "", u.others, Unset)
  {
  }

  lemma SavedRecords(c: Cluster, finish: Action)
    requires Inv(c) && Enabled(c, finish) && finish.UploadFinish? && c.up.open[finish.k].viaServer
    ensures var u := c.up.open[finish.k];
            var chunks := Restarted(Next(c, finish)).w.s.chunks;
            forall id :: id in u.done ==> id in chunks && chunks[id] == PartialRecord(u, id)
  {
    var u, n := c.up.open[finish.k], Versioned(c, finish);
    VersionedKeepsInv(c, finish);
    ServerFinishShape(c, finish);
    ServerFinishNext(c, finish);
    hide NetOk, SessionsOk, VersionsOk, JournalOk, Enabled, Next, Versioned, PartialRecord, S.Apply, S.Final, OverwriteOps, S.Inv;
    OverwriteOpsEffect(n.w, u, u.done);
    RestartReads(Next(c, finish));
  }
}
